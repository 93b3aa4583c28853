# Proofs about the SLURM 2.6.5 protocol and bit-level code

This project models five parts of SLURM 2.6.5 in Dafny and proves what they promise.

- **PMI-1 key-value space and barrier** (`src/api/pmi.c`, `src/api/slurm_pmi.c`, `src/api/pmi_server.c`). Ranks put
  pairs locally and commit the LOCAL ones to srun. srun merges them, counts ranks into a barrier and, when it fills,
  broadcasts the pairs that changed through a fan-out tree. `KvsClient` and `KvsServer` have the code as classes over
  the records it updates in place; `PmiBarrier`, `PmiFanout` and `PmiAgents` have the barrier table, the messages and
  the threads that send them; `PmiWire` and `PmiProtocol` put ranks, table and messages together as a transition system
  in which messages may be delivered in any order once a barrier has filled, and `PmiVisibility` and `PmiNoDup` prove
  what the ranks can read in whole runs. `PmiSending` adds the agents, which restrict that order; `PmiProgress` proves
  when ranks get out of a barrier, and `PmiStranding` shows that they may not.
- **Hilbert transform** (`contribs/skilling.c`). `Skilling` has the two in-place loops over words. `HilbertLevels` sees
  the same words as a stack of bit levels, where one pass for one bit is a turn of all levels below it, and
  `HilbertWalk` proves by induction over the levels that consecutive indices are neighbouring cells.
- **PMI-2 wire codec** (`contribs/pmi2/pmi2_api.c`). `Pmi2Text` and `Pmi2Frame` say what the text and the frame mean;
  `Pmi2Codec` has the writer, the in-place parser and the counting pass on their buffers.
- **Step launch and I/O** (`src/api/step_launch.c`, `src/api/step_io.c`). `StepIoPool`, `StepIoProofs`,
  `StepIoReturn` and `StepIo` have the stdin buffers shared by the queues of all nodes; `StepLocks` and
  `StepLocksProofs` the threads with their two locks, the condition variable and the joins; `StepLaunch` the launch
  state and its handlers.
- **Bitmaps** (`src/common/bitstring.c`). `Bitstring` and `BitstringText` have the word arrays with their fast paths,
  against sequences of booleans; `BitmapWeight`, `BitmapWords` and `BitmapText` the arithmetic and the text formats.

Words are natural numbers with the C operators defined on their binary expansions (`BitWords`), so that widths and
wrap-around are explicit. `xmalloc` and `xrealloc` clear new memory, as `src/common/xmalloc.c` does.

Concurrency is modelled by steps: a handler that runs under a lock is one step, and code that gives its lock back in
between is several. Remote procedure calls are reliable and processed once. Clocks, sockets, environment variables and
the outcome of reads and writes are parameters or events.

Where the code and its documentation differ, the model follows the code:

- `PMI_KVS_Commit` is documented to commit the puts since the last commit. It sends all LOCAL pairs of all spaces each
  time, and never turns them GLOBAL (`src/api/pmi.c:1245-1273`).
- `PMI_KVS_Get_my_name` can open the same space twice; only the first record of a name is used.
- `client_io_handler_send_test_message` tests for a missing connection after it has used it
  (`src/api/step_io.c:1324-1335`); its model requires a connection.
- The reader of a PMI-2 command copies the command without its null byte (`contribs/pmi2/pmi2_api.c:1369-1372`); the
  model takes the counted bytes.

Seven properties that one might expect do not hold. Each has its exact condition here, and an input that shows it fail:

- the merge stays inside its sent flags (`KvsBroadcast.MergeOverrunsIff`, `KvsBroadcast.MergeCanOverrun`);
- a filled barrier lets every rank go (`PmiProgress.CanSettleIff`, `PmiProgress.RunStrandsExactly`,
  `PmiStranding.BarrierCanStrand`);
- overlapping agents all end (`PmiAgents.RunSticksExactly`, `PmiAgents.OverlappingAgentsCanStick`);
- a PMI-2 command comes back as written (`Pmi2Text.RoundTrip`, `Pmi2Text.RoundTripCanFail`);
- the PMI-2 writer stays inside its buffer (`Pmi2Frame.WriterOverrunsIff`, `Pmi2Frame.FullPairsOverrun`);
- stdin buffers return to the free list (`StepIoReturn.ComesBackIff`, `StepIoProofs.BufferCanBeLost`,
  `StepIoReturn.ConnectionCanKeep`);
- a range text restores its bitmap (`BitmapText.RangesRoundTrip`, `BitmapText.EmptyTextKeepsBits`).

## Model

| member | source | states |
|---|---|---|
| `HilbertLevels.StepInvolution` | slurm-2.6.5/contribs/skilling.c:57-58 | the invert-or-exchange step of one axis is its own inverse on the bits below Q |
| `HilbertLevels.UnturnTurn` | slurm-2.6.5/contribs/skilling.c:56-59 | running the steps of one Q in the opposite order undoes them |
| `HilbertLevels.TurnUnturn` | slurm-2.6.5/contribs/skilling.c:74-77 | the same in the other direction |
| `HilbertLevels.RedoUndo` | slurm-2.6.5/contribs/skilling.c:52-60 | the loop over rising Q of the decoder is undone by the loop over falling Q of the encoder, for any number of levels |
| `HilbertLevels.UndoRedo` | slurm-2.6.5/contribs/skilling.c:71-78 | and the other way round |
| `HilbertLevels.UngrayGray` | slurm-2.6.5/contribs/skilling.c:45-49 | the Gray decoding across axes and levels is inverted by prefix parities |
| `HilbertLevels.GrayUngray` | slurm-2.6.5/contribs/skilling.c:80-88 | prefix parities are inverted by Gray decoding |
| `HilbertLevels.TransposeAxesInverse` | slurm-2.6.5/contribs/skilling.c:37-89 | transpose to axes and axes to transpose are inverse to each other on every stack of bit levels, any n and any number of levels |
| `HilbertWalk.DecodeEnd` | slurm-2.6.5/contribs/skilling.c:37-61 | the last cell of a cube decodes to the corner at distance 2^b - 1 along axis 0, the first one to the origin: where sub-cubes meet |
| `HilbertWalk.WalkWithCarry` | slurm-2.6.5/contribs/skilling.c:37-61 | consecutive indices decode to neighbouring cells, also inside a larger index whose carry bit is set |
| `HilbertWalk.Walk` | slurm-2.6.5/contribs/skilling.c:37-61 | for all n and b: if two transposed indices differ by one, the decoded cells differ by exactly one in exactly one coordinate |
| `HilbertWalk.IndexInjective` | slurm-2.6.5/contribs/skilling.c:109-113 | the interleaved index determines all bits |
| `HilbertWalk.IndexOfLevels` | slurm-2.6.5/contribs/skilling.c:109-113 | every number below 2^(nb) is the interleaved index of some stack of levels |
| `Skilling.GrayDecode` | slurm-2.6.5/contribs/skilling.c:46-49 | the first loop of the decoder, in place: every word is xor-ed with its predecessor, the first with half the last |
| `Skilling.UndoLevel` | slurm-2.6.5/contribs/skilling.c:55-59 | one pass of the decoder for one Q, in place, is the turn of all words at that bit |
| `Skilling.UndoExcess` | slurm-2.6.5/contribs/skilling.c:52-60 | all passes Q = 2, 4, ..., 2^(b-1) of the decoder, in order, for words of up to 32 bits, where the bound of the loop wraps to zero |
| `Skilling.RedoLevel` | slurm-2.6.5/contribs/skilling.c:73-77 | one pass of the encoder for one Q, in place |
| `Skilling.InverseUndo` | slurm-2.6.5/contribs/skilling.c:71-78 | all passes of the encoder, falling Q |
| `Skilling.PrefixXor` | slurm-2.6.5/contribs/skilling.c:84-85 | shift doubling (1, 2, 4, ...) turns a word into the xor of all its right shifts: bit k becomes the parity of the bits from k up |
| `Skilling.PrefixAxes` | slurm-2.6.5/contribs/skilling.c:81-82 | in place prefix xor over the axes |
| `Skilling.XorAxes` | slurm-2.6.5/contribs/skilling.c:87-88 | the correction is applied to every axis but the last |
| `Skilling.GrayEncode` | slurm-2.6.5/contribs/skilling.c:80-88 | the whole Gray encoding in place, as a relation between old and new words |
| `Skilling.TransposeToAxes` | slurm-2.6.5/contribs/skilling.c:37-61 | the decoder in place, for 1 to 32 bits: its words are the decoded levels, and stay below 2^b |
| `Skilling.AxesToTranspose` | slurm-2.6.5/contribs/skilling.c:62-89 | the encoder in place, for 1 to 32 bits: its words are the encoded levels, and stay below 2^b |
| `Skilling.RoundTrip` | slurm-2.6.5/contribs/skilling.c:37-89 | for all n >= 1 and all coordinates below 2^b, each function undoes the other, so each is a bijection |
| `Skilling.HilbertIntegerIsIndex` | slurm-2.6.5/contribs/skilling.c:109-113 | the sum of shifted bits that main prints, for any n and b, is the interleaved index |
| `Skilling.HilbertWalkTheorem` | slurm-2.6.5/contribs/skilling.c:37-61 | words whose Hilbert integers differ by one decode to adjacent cells |
| `Skilling.CellAtNumber` | slurm-2.6.5/contribs/skilling.c:104-113 | every number below 2^(nb) has a cell, and numbering that cell gives the number back |
| `Skilling.NumberedCell` | slurm-2.6.5/contribs/skilling.c:104-113 | every cell has a number below 2^(nb), and the cell of that number is that cell |
| `Skilling.StepsAreAdjacent` | slurm-2.6.5/contribs/skilling.c:104-113 | walking the cells in the order of their numbers moves to a neighbouring cell every time |
| `KvsClient.Library.InitKvs` | slurm-2.6.5/src/api/pmi.c:877-897 | opening a space appends an empty record, even if the name is already open |
| `KvsClient.Library.KvsPut` | slurm-2.6.5/src/api/pmi.c:1114-1188 | replaces the value of the first equal key, or appends (always appends without duplicate search); a space that is not open is an error and nothing changes |
| `KvsClient.Library.Put` | slurm-2.6.5/src/api/pmi.c:1099-1112 | the length errors of PMI_KVS_Put and, otherwise, a LOCAL put |
| `KvsClient.Library.KvsSwap` | slurm-2.6.5/src/api/pmi.c:1294-1310 | exchanges two rows of all three parallel arrays |
| `KvsClient.Library.PartitionRec` | slurm-2.6.5/src/api/pmi.c:1249-1257 | the loop that moves LOCAL rows to the front in place is the partition function |
| `KvsClient.Library.Commit` | slurm-2.6.5/src/api/pmi.c:1244-1276 | what PMI_KVS_Commit sends and what it leaves behind, for all spaces |
| `KvsClient.Library.ApplyDelta` | slurm-2.6.5/src/api/pmi.c:669-682 | the loops of PMI_Barrier put every received pair as GLOBAL, and give an error exactly if some received pair is for a space that is not open |
| `KvsClient.Library.KvsGet` | slurm-2.6.5/src/api/pmi.c:1335-1376 | the answer of PMI_KVS_Get, with its errors for lengths, unknown spaces and keys, and short buffers; a length of zero is no error and copies nothing |
| `KvsClientProofs.PartitionSpec` | slurm-2.6.5/src/api/pmi.c:1245-1273 | after the in-place partition the prefix is exactly the LOCAL rows in their original order, the rest is GLOBAL, and the multiset of (state, key, value) rows is the same |
| `KvsClientProofs.PartitionKeepsLookups` | slurm-2.6.5/src/api/pmi.c:1245-1273 | with unique keys every lookup gives the same answer after the partition |
| `KvsClientProofs.PutStoreSets` | slurm-2.6.5/src/api/pmi.c:1114-1188 | with or without duplicate search, a consistent put adds exactly its pair to the pairs held and to the LOCAL ones |
| `KvsClientProofs.PackSets` | slurm-2.6.5/src/api/pmi.c:1245-1273 | a commit sends exactly the LOCAL pairs of all spaces, and keeps all pairs, their states and the order of spaces |
| `KvsClientProofs.PackDistinct` | slurm-2.6.5/src/api/pmi.c:1245-1273 | with unique keys in every space, every set sent has distinct keys, and keys stay unique |
| `KvsClientProofs.ApplySets` | slurm-2.6.5/src/api/pmi.c:669-682 | receiving a broadcast adds exactly its pairs whose space is open |
| `KvsClientProofs.GetMeaning` | slurm-2.6.5/src/api/pmi.c:1351-1371 | PMI_KVS_Get finds a value exactly if the rank holds the pair; an unknown space and an unknown key are told apart |
| `KvsServer.Server.MergeOne` | slurm-2.6.5/src/api/pmi_server.c:356-383 | one pair of _merge_named_kvs: replace, mark unsent, or append |
| `KvsServer.Server.MergeLoop` | slurm-2.6.5/src/api/pmi_server.c:356-383 | the loop over the incoming pairs |
| `KvsServer.Server.MergeNamed` | slurm-2.6.5/src/api/pmi_server.c:351-388 | the whole merge, with the sent flags extended at the end |
| `KvsServer.Server.PutComm` | slurm-2.6.5/src/api/pmi_server.c:435-445 | an incoming space is merged into the record of its name, or moved into the table |
| `KvsServer.Server.KvsPut` | slurm-2.6.5/src/api/pmi_server.c:414-456 | all spaces of a message in turn, as long as each merge stays inside the sent flags of the records the spaces before it left, and the table is marked updated |
| `KvsServer.DistinctIsInside` | slurm-2.6.5/src/api/pmi_server.c:414-456 | messages that have no key twice in a space, as ranks with duplicate search send them, stay inside the flags of any table; without duplicate search all do |
| `KvsServer.Server.FindByName` | slurm-2.6.5/src/api/pmi_server.c:339-349 | the first record of that name |
| `KvsServer.Server.DupRec` | slurm-2.6.5/src/api/pmi_server.c:310-334 | the copy of one record has exactly the pairs not sent yet, in order, and all its pairs are marked sent |
| `KvsServer.Server.CommDup` | slurm-2.6.5/src/api/pmi_server.c:303-336 | the same for the whole table |
| `KvsServer.Server.XmitTasks` | slurm-2.6.5/src/api/pmi_server.c:101-143 | the barrier is reset; the agent gets the old barrier and the delta, or nothing if there was no update |
| `KvsServer.Server.KvsGet` | slurm-2.6.5/src/api/pmi_server.c:458-519 | a barrier request: refused, recorded, or the one that starts the transmission |
| `KvsServerProofs.PutSetSets` | slurm-2.6.5/src/api/pmi_server.c:414-456 | a message adds exactly its pairs to those stored and to those unsent, in both modes |
| `KvsServerProofs.DeltaSets` | slurm-2.6.5/src/api/pmi_server.c:303-336 | the delta has exactly the unsent pairs; afterwards none is unsent and none is lost |
| `KvsBroadcast.RunCovered` | slurm-2.6.5/src/api/pmi_server.c:101-143 | over all sequences of messages with distinct keys and barriers: a stored pair is unsent or agrees with the last value all deltas delivered for its key |
| `KvsBroadcast.DeltaRefinesFullBroadcast` | slurm-2.6.5/src/api/pmi_server.c:127-135 | after every barrier, also one without updates, the accumulated deltas are exactly the whole table, even when keys change their values |
| `KvsBroadcast.MergeOverrunsIff` | slurm-2.6.5/src/api/pmi_server.c:359-388 | the merge touches a sent flag past the end of the flag array if and only if a key that is new to the record comes twice in one message |
| `KvsBroadcast.MergeCanOverrun` | slurm-2.6.5/src/api/pmi_server.c:359-388 | a record and a message where it does |
| `PmiBarrier.ArriveRefines` | slurm-2.6.5/src/api/pmi_server.c:483-515 | one request: the slot table with its counter does what a map of the arrived tasks would do |
| `PmiBarrier.RunRepresents` | slurm-2.6.5/src/api/pmi_server.c:483-515 | over all request sequences the counter is the number of filled slots, and below the size between calls |
| `PmiBarrier.JoinFires` | slurm-2.6.5/src/api/pmi_server.c:483-515 | when a request completes a barrier, in terms of the tasks that have arrived |
| `PmiBarrier.BarrierSafety` | slurm-2.6.5/src/api/pmi_server.c:119-125 | over all request sequences, with duplicate, wrong-size and out-of-range requests: transmission starts exactly when every task 0..size-1 has arrived, with the last request of each of them, and the next barrier starts empty |
| `PmiFanout.FanOut` | slurm-2.6.5/src/api/pmi_server.c:209-253 | the two loops that build the messages and strike out ports in place are the plan function |
| `PmiFanout.FanOutIsExactCover` | slurm-2.6.5/src/api/pmi_server.c:209-253 | every waiting task is the target of one message or in one forward list, never both or twice; lists are within the limit and on the same host unless off-host fan-out is enabled; the 16-bit count holds the length of a list exactly if it is below 65536 |
| `PmiFanout.ForwardCommSet` | slurm-2.6.5/src/api/slurm_pmi.c:331-359 | a rank forwards to the listed hosts with a port, in order; its copies forward nothing further; the result is the largest of zero and the answers of the hosts sent to |
| `PmiAgents.AgentSafety` | slurm-2.6.5/src/api/pmi_server.c:174-178 | over all interleavings of agents and message threads, also of overlapping agents: agent_cnt is the number of threads in flight, never above the limit, and an agent that has released its data has no thread of its own running |
| `PmiAgents.SticksExactly` | slurm-2.6.5/src/api/pmi_server.c:240-265 | a step leaves an agent waiting with nothing under way to wake it if and only if it ends the last message while two agents wait |
| `PmiAgents.RunSticksExactly` | slurm-2.6.5/src/api/pmi_server.c:240-265 | the same over whole runs: agents ever stick if and only if the last message under way ends while two of them wait |
| `PmiAgents.SeparateAgentsNeverStuck` | slurm-2.6.5/src/api/pmi_server.c:240-265 | while agents do not overlap, no agent is left asleep at any point of a run: a consequence of the exact condition |
| `PmiAgents.OverlappingAgentsCanStick` | slurm-2.6.5/src/api/pmi_server.c:240-265 | for every limit on the threads, also for one where messages are sent inline, a run that leaves an agent asleep while all others have released their data, so that only a further agent or a spurious wakeup could change that; with limits from 2 on this agent has sent all its messages and only keeps its memory |
| `PmiWire.EnterInv` | slurm-2.6.5/src/api/pmi_server.c:458-519 | a rank entering the barrier; if it is the last one, no message of the barrier before is under way, all ranks are in the table, and every rank is owed exactly one answer |
| `PmiWire.DeliverInv` | slurm-2.6.5/src/api/slurm_pmi.c:212-329 | a message reaches a rank that is waiting for it |
| `PmiWire.RelayInv` | slurm-2.6.5/src/api/slurm_pmi.c:331-359 | a forwarded copy moves one rank from a forward list to a message of its own |
| `PmiWire.ReturnInv` | slurm-2.6.5/src/api/pmi.c:646-686 | a rank leaves the barrier after its answer and its forwards |
| `PmiWire.NextInv` | slurm-2.6.5/src/api/pmi_server.c:182-299 | in every step, through the fan-out tree, every rank waiting for an answer is in exactly one message or forward list, and all others are in none |
| `PmiProtocol.CommitTableOk` | slurm-2.6.5/src/api/pmi_server.c:414-456 | a commit brings exactly its pairs to the table, as unsent |
| `PmiProtocol.BroadcastTableOk` | slurm-2.6.5/src/api/pmi_server.c:101-143 | a broadcast turns unsent pairs into published ones |
| `PmiProtocol.ReturnData` | slurm-2.6.5/src/api/pmi.c:669-682 | a rank back from a barrier has all that is published, but for spaces it had not opened |
| `PmiProtocol.RunInv` | slurm-2.6.5/src/api/pmi_server.c:414-519 | the whole protocol, ranks, srun and messages under way: its invariant holds after every run in which no key is put with two values |
| `PmiProtocol.CommitsStayInside` | slurm-2.6.5/src/api/pmi_server.c:351-388 | in every run: what a rank commits stays inside the sent flags of the table, in both modes |
| `PmiSending.RunInv` | slurm-2.6.5/src/api/pmi_server.c:182-299 | in every run of ranks, srun, its agents and their threads: only the youngest agent has messages left to send, an agent asleep for a slot has one, one past its loop has none, and no more messages of an agent are under way than it has threads |
| `PmiSending.OwedInOnePlace` | slurm-2.6.5/src/api/pmi_server.c:182-299 | in every run: a rank owed the message of a filled barrier is in exactly one place, in the queue of an agent, in a message under way or on the list of a rank that passes messages on, and every other rank is in none |
| `PmiSending.IsProtocolRun` | slurm-2.6.5/src/api/pmi_server.c:182-299 | every run with agents is a run of the protocol without them, so what holds of those holds here |
| `PmiSending.IsAgentRun` | slurm-2.6.5/src/api/pmi_server.c:101-143 | and what the agents do in it is a run of agents, with an agent started by each filled barrier |
| `PmiProgress.StepWork` | slurm-2.6.5/src/api/pmi_server.c:145-299 | every step of agents, threads, messages and ranks but entering and spurious wakeups leaves less work |
| `PmiProgress.StrandsExactly` | slurm-2.6.5/src/api/pmi_server.c:240-244 | a step leaves an agent asleep before messages it has not sent, with no thread to wake it, if and only if it ends the last thread and its one signal goes to another agent |
| `PmiProgress.RunStrandsExactly` | slurm-2.6.5/src/api/pmi_server.c:240-244 | the same over whole runs: a barrier is ever stranded if and only if a last signal was ever misdirected |
| `PmiProgress.StrandedForGood` | slurm-2.6.5/src/api/pmi_server.c:240-244 | in every run: once stranded, always stranded, whatever ranks and agents do short of a spurious wakeup; no barrier fills again, and no rank the sleeping agent has to reach ever returns |
| `PmiProgress.BarrierCanFinish` | slurm-2.6.5/src/api/pmi_server.c:182-299 | from every state that is not stranded there is a way on, without new entries, after which every rank is back from every filled barrier |
| `PmiProgress.CanSettleIff` | slurm-2.6.5/src/api/pmi_server.c:182-299 | in every run: the ranks can still all get back if and only if the barrier is not stranded |
| `PmiProgress.BarrierComesToRest` | slurm-2.6.5/src/api/pmi.c:646-686 | in every run: without entries and spurious wakeups the steps left are bounded by the work left, and when nothing can go on every rank is back if and only if the barrier is not stranded |
| `PmiProgress.NoRankIsStranded` | slurm-2.6.5/src/api/pmi_server.c:182-299 | in runs where the last thread never ends while two agents wait: while a rank waits in the barrier or passes messages on, some step brings it on, or it waits in the table for a rank that has still to enter |
| `PmiProgress.SeparateAgentsStrandNoOne` | slurm-2.6.5/src/api/pmi_server.c:182-299 | a rule that is enough: if a barrier fills only when the agent of the one before is gone, none is ever stranded |
| `PmiStranding.BarrierCanStrand` | slurm-2.6.5/src/api/pmi_server.c:240-265 | for every limit on the threads, with a single rank: a run after which that rank can never leave the barrier |
| `PmiVisibility.CommittedPairsAreVisible` | slurm-2.6.5/slurm/pmi.h:530-572 | in every run: a pair put and committed before a barrier fills is read by every rank that has returned from that barrier, provided puts go to spaces all ranks have opened |
| `PmiVisibility.PublishedOrMissed` | slurm-2.6.5/slurm/pmi.h:530-572 | without that proviso: a rank back from the last barrier reads every published pair, or received it before it opened the space |
| `PmiVisibility.RunNothingMissed` | slurm-2.6.5/src/api/pmi.c:1114-1121 | when all puts go to spaces everyone has opened, no rank ever drops a pair it receives |
| `PmiNoDup.SameRun` | slurm-2.6.5/src/api/pmi_server.c:356-383 | the same events are a run with and without SLURM_PMI_KVS_NO_DUP_KEYS, and all stores and tables hold the same sets of pairs |
| `PmiNoDup.NoDupIsInvisible` | slurm-2.6.5/src/api/pmi.c:1124-1151 | in every run where no key is put with two values, every lookup by every rank gives the same answer in both modes |
| `Pmi2Text.CountOfPair` | slurm-2.6.5/contribs/pmi2/pmi2_api.c:1342-1358 | for every text that parses: the counting pass finds one pair, plus the unpaired semicolons of its key, plus those of the rest |
| `Pmi2Text.CountOfParse` | slurm-2.6.5/contribs/pmi2/pmi2_api.c:1342-1358 | the array sized by the counting pass is never too short for the pairs parsed, and exact if and only if no key has an odd run of semicolons |
| `Pmi2Text.EscapeUnescape` | slurm-2.6.5/contribs/pmi2/pmi2_api.c:1196-1209 | what the value loop consumed is the escaped form of what it returned: no byte is lost |
| `Pmi2Text.UnescapeEscape` | slurm-2.6.5/contribs/pmi2/pmi2_api.c:1524-1535 | unescaping an escaped value in front of its closing semicolon returns it, whatever semicolons it has |
| `Pmi2Text.PrintParse` | slurm-2.6.5/contribs/pmi2/pmi2_api.c:1173-1223 | a text that parses is the print of the key bytes and the value found |
| `Pmi2Text.ParsePrint` | slurm-2.6.5/contribs/pmi2/pmi2_api.c:1173-1223 | a printed pair parses to itself and leaves the text behind it |
| `Pmi2Text.RoundTrip` | slurm-2.6.5/contribs/pmi2/pmi2_api.c:1486-1551 | reading a written command returns the same command, the same pairs in order and their exact number if and only if the command has no semicolon and no key has an equals sign, a leading semicolon or an odd run of semicolons |
| `Pmi2Text.EqualsSignMoves` | slurm-2.6.5/contribs/pmi2/pmi2_api.c:1173-1223 | every key with an equals sign comes back cut there, with the rest moved into the value |
| `Pmi2Text.RoundTripCanFail` | slurm-2.6.5/contribs/pmi2/pmi2_api.c:1486-1551 | a command that does not come back: key a=b, value c |
| `Pmi2Frame.AtoiOfField` | slurm-2.6.5/contribs/pmi2/pmi2_api.c:1543-1551 | the blank-padded length field reads back as the length |
| `Pmi2Frame.WriteMeaning` | slurm-2.6.5/contribs/pmi2/pmi2_api.c:1489-1551 | when the writer stays inside its buffer it succeeds exactly within its limits on command, keys, values and total, and has then written the command text |
| `Pmi2Frame.WriterOverrunsIff` | slurm-2.6.5/contribs/pmi2/pmi2_api.c:1489-1551 | the writer stores past its buffer if and only if the command is within its limit and some pair, behind pairs within their limits, fits with its key but not with its value, or the complete text leaves no room for the null byte |
| `Pmi2Frame.FullPairsOverrun` | slurm-2.6.5/contribs/pmi2/pmi2_api.c:1516-1541 | any 64 pairs with one-character keys and values of full length, all within the limits, do so |
| `Pmi2Frame.ReadFrameOf` | slurm-2.6.5/contribs/pmi2/pmi2_api.c:1305-1337 | reading a frame with a length of up to six digits takes exactly the frame off the stream, whatever follows |
| `Pmi2Frame.CodecRoundTrip` | slurm-2.6.5/contribs/pmi2/pmi2_api.c:1486-1551 | writer and reader together, on a stream: what is accepted for writing comes back, and nothing else is consumed, with the exact condition on semicolons and equals signs |
| `Pmi2Codec.UnescapeInPlace` | slurm-2.6.5/contribs/pmi2/pmi2_api.c:1196-1209 | the value loop in place: the copy is the unescaped value, and no byte from the closing semicolon on changes |
| `Pmi2Codec.ParseKeyval` | slurm-2.6.5/contribs/pmi2/pmi2_api.c:1173-1223 | parse_keyval on its buffer: where key, value and rest are, the errors, and that unread bytes are unaltered |
| `Pmi2Codec.CountPairs` | slurm-2.6.5/contribs/pmi2/pmi2_api.c:1342-1358 | the counting loops compute the count, reading one byte past the text at most |
| `Pmi2Codec.CopyKey` | slurm-2.6.5/contribs/pmi2/pmi2_api.c:1225-1242 | the key is copied up to its null byte |
| `Pmi2Codec.ReadPairs` | slurm-2.6.5/contribs/pmi2/pmi2_api.c:1376-1392 | the loop over the pairs, with every store inside the array that was sized by the counting pass |
| `Pmi2Codec.ReadBuffer` | slurm-2.6.5/contribs/pmi2/pmi2_api.c:1360-1392 | command and pairs out of the buffer, with the cmd check and the error exits |
| `Pmi2Codec.ReadCommand` | slurm-2.6.5/contribs/pmi2/pmi2_api.c:1321-1392 | counting, parsing and copying together compute what the text means |
| `Pmi2Codec.PrintValue` | slurm-2.6.5/contribs/pmi2/pmi2_api.c:1524-1540 | the escaping loop and the closing semicolon, in the buffer |
| `Pmi2Codec.WritePairs` | slurm-2.6.5/contribs/pmi2/pmi2_api.c:1516-1541 | the loop over the pairs with its three error exits |
| `Pmi2Codec.WriteLength` | slurm-2.6.5/contribs/pmi2/pmi2_api.c:1543-1553 | the length in front of the text, over the blanks |
| `Pmi2Codec.WriteCommand` | slurm-2.6.5/contribs/pmi2/pmi2_api.c:1486-1553 | the bytes sent, or the error |
| `StepIoProofs.NextInv` | slurm-2.6.5/src/api/step_io.c:450-514 | every step of the I/O thread and of the threads beside it keeps, for every buffer: ref_count is the number of holders plus the nodes that were missing, and the buffer is free, in hand or counted |
| `StepIoProofs.FreeBuffersAreUnused` | slurm-2.6.5/src/api/step_io.c:676-772 | in every run, with missing, failing and repeated connections: a buffer on the free list is there once, in no queue, not being sent and not in the reader, and at most 2 * STDIO_MAX_FREE_BUF buffers exist |
| `StepIoProofs.UnusedBuffersAreFree` | slurm-2.6.5/src/api/step_io.c:738-768 | in every run: a buffer that no connection and no reader has is on the free list if and only if stdin has a valid destination and, for all nodes, each had its I/O server when the buffer was last filled |
| `StepIoProofs.LostForGood` | slurm-2.6.5/src/api/step_io.c:738-768 | in every run: a buffer nobody holds that is not on the free list never comes back |
| `StepIoProofs.BufferCanBeLost` | slurm-2.6.5/src/api/step_io.c:738-768 | a run that loses one: the only node is reported down before it has connected, and input for all nodes arrives |
| `StepIoReturn.ClosedConnectionKeeps` | slurm-2.6.5/src/api/step_io.c:491-493 | in every run: a buffer in the queue or in the hand of a connection that is shut down or has failed stays there, and is never free |
| `StepIoReturn.ConnectionCanKeep` | slurm-2.6.5/src/api/step_io.c:491-493 | a run that loses one so although every node was connected when the buffer was filled |
| `StepIoReturn.ComesBackIff` | slurm-2.6.5/src/api/step_io.c:450-514 | in every run, for every buffer: it can still come back to the free list if and only if stdin had a valid destination with every node connected when the buffer was last filled, and no closed connection holds it or is about to |
| `StepIoProofs.RefCountIsHolders` | slurm-2.6.5/src/api/step_io.c:738-768 | in runs where no node is reported down before it has connected, ref_count equals the number of holders in every state |
| `StepIo.ClientIo.constructor` | slurm-2.6.5/src/api/step_io.c:1134-1138 | the initial pool of 1024 buffers, all free |
| `StepIo.ClientIo.IncomingBufFree` | slurm-2.6.5/src/api/step_io.c:1025-1041 | one more buffer when none is free and the count allows it |
| `StepIo.ClientIo.FileRead` | slurm-2.6.5/src/api/step_io.c:676-772 | one call of _file_read: nothing free, would block, or routed |
| `StepIo.ClientIo.Deliver` | slurm-2.6.5/src/api/step_io.c:729-771 | the three kinds of destination |
| `StepIo.ClientIo.RouteToAll` | slurm-2.6.5/src/api/step_io.c:738-752 | the loop over the nodes is the sequence of routing steps |
| `StepIo.RouteAllQueues` | slurm-2.6.5/src/api/step_io.c:738-752 | a message for all nodes ends with ref_count equal to the number of nodes: those queued and those missing; queues only grow at the end |
| `StepIo.RouteAllReaches` | slurm-2.6.5/src/api/step_io.c:738-752 | routing counts no missing node exactly if every node left has its I/O server |
| `StepIo.ClientIo.ServerWrite` | slurm-2.6.5/src/api/step_io.c:450-514 | one call of _server_write: dequeue, partial write, error, or done and perhaps freed |
| `StepIo.ClientIo.SendTestMessage` | slurm-2.6.5/src/api/step_io.c:1308-1372 | a test message takes a buffer and one queue slot, or nothing is sent |
| `StepIo.ClientIo.ReadIoInitMsg` | slurm-2.6.5/src/api/step_io.c:817-866 | a connection: a new queue for the node and its ready bit; bad node ids are refused |
| `StepIo.ClientIo.Downnodes` | slurm-2.6.5/src/api/step_io.c:1244-1276 | the loop over the reported nodes |
| `StepIo.ClientIo.Abort` | slurm-2.6.5/src/api/step_io.c:1281-1305 | every node is ready or shut down afterwards |
| `StepLocksProofs.HandleOk` | slurm-2.6.5/src/api/step_launch.c:1046-1360 | every message handler takes ioservers_lock only inside sls->lock and gives both back |
| `StepLocksProofs.HandleIoOk` | slurm-2.6.5/src/api/step_io.c:306-310 | no I/O handler takes sls->lock while it holds ioservers_lock |
| `StepLocksProofs.WaitFinishOk` | slurm-2.6.5/src/api/step_launch.c:563-681 | the main thread joins each thread with no lock held, after telling it to stop |
| `StepLocksProofs.NextInv` | slurm-2.6.5/src/api/step_launch.c:641-673 | every interleaving step keeps the discipline of all threads, with sleeping, broadcasts and the creation of the timeout thread |
| `StepLocksProofs.LockOrder` | slurm-2.6.5/src/api/step_io.c:487-509 | in every run: a thread holding ioservers_lock is not about to take a lock, sleep or join; one holding sls->lock is not about to take it again or join |
| `StepLocksProofs.NoDeadlock` | slurm-2.6.5/src/api/step_launch.c:641-673 | in every run: when no thread can go on, no thread waits for a lock or in a join; the main thread is through or asleep on the condition variable |
| `StepLocksProofs.NoneSleepsThroughAbort` | slurm-2.6.5/src/api/step_launch.c:563-696 | in every run: once abort is set and sls->lock is free, no thread sleeps but the main thread, and that one in a wait with a deadline that began after abort was set |
| `StepLaunch.SuspectsAlwaysAbort` | slurm-2.6.5/src/api/step_launch.c:1313-1358 | after every sequence of handlers: a node with an I/O error and a pending connection test implies abort |
| `StepLaunch.NothingReverts` | slurm-2.6.5/src/api/step_launch.c:1062-1072 | from any point of any run on, abort, the started and exited bits and the I/O errors stay |
| `StepLaunch.MissingNodesAreTested` | slurm-2.6.5/src/api/step_launch.c:1281-1358 | a node reported missing with a task running is under test afterwards, or the step aborts, or no test could be sent |
| `StepLaunch.LaunchState.LaunchHandler` | slurm-2.6.5/src/api/step_launch.c:1046-1079 | a duplicate response is ignored; otherwise its tasks are started, and exited too if the launch failed |
| `StepLaunch.LaunchState.ExitHandler` | slurm-2.6.5/src/api/step_launch.c:1081-1114 | the tasks of the message are exited, if it is for this step |
| `StepLaunch.LaunchState.NodeFailHandler` | slurm-2.6.5/src/api/step_launch.c:1160-1222 | all tasks of the failed nodes are started and exited; unknown nodes are skipped |
| `StepLaunch.LaunchState.StepMissingHandler` | slurm-2.6.5/src/api/step_launch.c:1231-1365 | the loop over the nodes with its early exits, as a function of the state |
| `StepLaunch.LaunchState.NotifyIoFailure` | slurm-2.6.5/src/api/step_launch.c:1775-1796 | the I/O error is recorded, and aborts a node under test |
| `StepLaunch.LaunchState.ClearQuestionableState` | slurm-2.6.5/src/api/step_launch.c:1808-1814 | the test is over |
| `StepLaunch.LaunchState.CheckDeadlines` | slurm-2.6.5/src/api/step_launch.c:1847-1872 | aborts exactly if a deadline has passed, and otherwise returns the earliest pending deadline, or NO_VAL exactly if none is pending |
| `BitmapWeight.HweightIsOnes` | slurm-2.6.5/src/common/bitstring.c:626-640 | the five mask-shift-add lines count the set bits of every 32-bit word, and no addition wraps |
| `BitmapWords.PutFills` | slurm-2.6.5/src/common/bitstring.c:192-211 | or-ing or and-not-ing a mask into a word changes exactly the bits of the mask, for the whole bitmap |
| `Bitstring.Bitmap.constructor` | slurm-2.6.5/src/common/bitstring.c:105-121 | a new bitmap is clear, also past its length |
| `Bitstring.Bitmap.Test` | slurm-2.6.5/src/common/bitstring.c:179-185 | the bit of the sequence |
| `Bitstring.Bitmap.Set` | slurm-2.6.5/src/common/bitstring.c:192-211 | changes one bit and no other, also past the length |
| `Bitstring.Bitmap.FillRange` | slurm-2.6.5/src/common/bitstring.c:220-257 | bit_nset and bit_nclear, with partial bytes and memset between them, change exactly the bits start..stop, over all words |
| `Bitstring.Bitmap.FirstSet` | slurm-2.6.5/src/common/bitstring.c:405-428 | the first bit set below the length, or -1 exactly if there is none; words that are zero are skipped |
| `Bitstring.Bitmap.LastSet` | slurm-2.6.5/src/common/bitstring.c:434-470 | the last bit set below the length, or -1 exactly if there is none |
| `Bitstring.Bitmap.ClearBits` | slurm-2.6.5/src/common/bitstring.c:327-367 | the start of n clear bits in a row, or -1 only if no such run exists anywhere, also across the seed |
| `Bitstring.Bitmap.SetCount` | slurm-2.6.5/src/common/bitstring.c:664-681 | the number of bits set below the length |
| `Bitstring.Bitmap.SetCountRange` | slurm-2.6.5/src/common/bitstring.c:691-716 | the number of bits set from start up to the end or the length |
| `Bitstring.Bitmap.Overlap` | slurm-2.6.5/src/common/bitstring.c:721-743 | the number of bits set in both bitmaps |
| `Bitstring.Bitmap.ClearCount` | slurm-2.6.5/src/common/bitstring.c:750-755 | the number of bits clear |
| `Bitstring.Bitmap.PickCount` | slurm-2.6.5/src/common/bitstring.c:883-927 | NULL exactly if fewer than n bits are set, and otherwise exactly the lowest n of them |
| `BitmapText.RangesRoundTrip` | slurm-2.6.5/src/common/bitstring.c:945-1100 | unformatting the range text into any bitmap of the same size gives the original if and only if the original has a bit set or the target already equals it |
| `BitmapText.EmptyTextKeepsBits` | slurm-2.6.5/src/common/bitstring.c:991-1004 | a clear bitmap of one bit is not restored into one that is set |
| `BitmapText.FmtCutWhole` | slurm-2.6.5/src/common/bitstring.c:945-988 | the text bit_fmt leaves in a buffer is a prefix of the ranges, and all of them exactly if the buffer holds them with a last comma and the null byte |
| `BitmapText.HexRoundTrip` | slurm-2.6.5/src/common/bitstring.c:1112-1195 | the hexadecimal mask of every bitmap is valid and has exactly its bits, also for sizes not divisible by four |
| `BitmapText.BinRoundTrip` | slurm-2.6.5/src/common/bitstring.c:1207-1258 | the binary mask of every bitmap has exactly its bits |
| `BitstringText.Format` | slurm-2.6.5/src/common/bitstring.c:945-988 | bit_fmt writes the maximal runs of set bits, skipping words that are zero, for every bitmap, cut off where the buffer ends |
| `BitstringText.ParseText` | slurm-2.6.5/src/common/bitstring.c:1015-1053 | bitfmt2int on every string |
| `BitstringText.SetRanges` | slurm-2.6.5/src/common/bitstring.c:1083-1100 | inx2bitstr clears the bitmap and sets the ranges up to the first one out of bounds |
| `BitstringText.Unformat` | slurm-2.6.5/src/common/bitstring.c:991-1004 | bit_unfmt; an empty string leaves the bitmap alone |
| `BitstringText.FormatHexmask` | slurm-2.6.5/src/common/bitstring.c:1112-1143 | the digits, filled in from the last one backwards |
| `BitstringText.UnformatHexmask` | slurm-2.6.5/src/common/bitstring.c:1154-1195 | for every string: which bits are set, and an error exactly if a character is no hexadecimal digit |
| `BitstringText.FormatBinmask` | slurm-2.6.5/src/common/bitstring.c:1207-1229 | one digit per bit, most significant first |
| `BitstringText.UnformatBinmask` | slurm-2.6.5/src/common/bitstring.c:1240-1258 | for every string: which bits are set |

## Left out

- Sockets, polling, thread creation failures, timeouts of remote calls, authentication and message packing.
- Memory exhaustion, and the null arguments that the PMI calls refuse.
- KvsClient.Library.Put: strings of exactly the maximum length are excluded, because the code stores them without a null byte.
- KvsClient.Library.KvsGet: names and keys of exactly the maximum length are excluded, for the same reason, and so are negative lengths, with which the code copies without a limit.
- KvsServer.Server.MergeNamed: requires that no new key comes twice in one message; `KvsBroadcast.MergeOverrunsIff` shows that this is exactly when the code stays inside its flag array.
- KvsServer.Server.MergeOne: requires that a key found has a sent flag, for the same reason.
- KvsServer.Server.MergeLoop: requires that no new key comes twice in one message, for the same reason.
- KvsServer.Server.PutComm: requires the same of the record the space goes to.
- KvsServer.Server.KvsPut: requires the same of each space in turn, on the records the spaces before it left.
- PmiBarrier.ArriveRefines: requests with port 0 are excluded; a task sends the port it listens on, and port 0 marks an empty slot.
- PmiBarrier.RunRepresents: requests with port 0 are excluded, for the same reason.
- PmiBarrier.BarrierSafety: requests with port 0 are excluded, for the same reason.
- PmiVisibility.CommittedPairsAreVisible: about runs in which no key is put with two different values; PMI allows one put per key.
- PmiProgress.StrandedForGood: a spurious wakeup of `pthread_cond_wait`, which POSIX allows, is a step of the model but excluded here, because it would bring the agent on.
- `PMI_KVS_Destroy`, the iteration calls and the operation without srun.
- Skilling.TransposeToAxes: with 32 bits the code shifts 2 into the sign of an int; the model takes the bound that results as zero.
- Pmi2Codec.WriteCommand: requires that the writer stays inside its buffer; `Pmi2Frame.WriterOverrunsIff` says exactly when it does not.
- Pmi2Codec.WritePairs: requires the same of the pairs and the text in front of them.
- Pmi2Frame.WriteMeaning: requires the same.
- Pmi2Frame.CodecRoundTrip: requires the same.
- Pmi2Frame.ReadFrameOf: frames with a length field that is negative are outside the model, which treats them like an empty read.
- The thread identifier of PMI-2 commands, the queue of pending commands and the typed lookups beside `getval`.
- StepIo.ClientIo.SendTestMessage: requires a connection, which the code uses before it tests for it.
- StepIo.ClientIo.FileRead: when stdin goes to one node only, requires that this node is connected; the code uses its connection in any case (`src/api/step_io.c:764`).
- StepIo.ClientIo.Deliver: requires the same.
- The stdout and stderr buffers of `src/api/step_io.c`, message contents and byte counts.
- StepLocksProofs.NoDeadlock: does not cover the cancellation of an I/O thread that does not stop within 60 seconds, nor `slurm_step_launch_abort` called from a signal handler that interrupts a lock holder.
- User callbacks of the step launch, which are taken to use no locks and change no launch state.
- `step_launch_state_alter`, the launch requests themselves and checkpointing.
- `bit_ffc`, `bit_nffs`, `bit_nffc`, `bit_rotate` and the bitwise operators on two bitmaps.
- BitstringText.ParseText: numbers are unbounded; overflow of an int by longer digit strings is not modelled.
- BitstringText.Format: a buffer of one byte is excluded when a bit is set, because the code then drops a byte in front of the buffer.
- 64-bit words and big-endian bitmaps.
- Everything else in the repository: the controller and daemons, their plugins, and the remote call wrappers of `src/api`.
