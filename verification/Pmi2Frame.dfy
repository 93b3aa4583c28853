// A PMI-2 message: the command text behind a length field (contribs/pmi2/pmi2_api.c:1486-1555, 1305-1337).
module Pmi2Frame {
  import opened Decimal
  import opened Pmi2Text

  // ---------------------------------------------------------------------------------------------
  // The length field: "%d", padded with blanks; read back with atoi.

  function Blanks(k: nat): (s: string)
    ensures |s| == k && forall i :: 0 <= i < k ==> s[i] == ' '
  {
    seq(k, _ => ' ')
  }

  predicate IsSpace(c: char)
  {
    c == ' ' || 9 <= c as int <= 13
  }

  function Atoi(s: string): (n: int)
  {
    if s == "" then 0
    else if IsSpace(s[0]) then Atoi(s[1..])
    else if s[0] == '-' then 0 - Value(s[1..], 0)
    else if s[0] == '+' then Value(s[1..], 0)
    else Value(s, 0)
  }

  lemma FiveDigits(n: nat)
    requires n < 100000
    ensures |Digits(n)| <= 5
  {
    assert |Digits(n / 10000)| == 1;
    assert |Digits(n / 1000)| <= 2 && |Digits(n / 100)| <= 3 && |Digits(n / 10)| <= 4;
  }

  lemma SixDigits(n: nat)
    requires n < 1000000
    ensures |Digits(n)| <= 6
  {
    FiveDigits(n / 10);
  }

  function LengthField(n: nat): (s: string)
    requires n < 1000000
    ensures |s| == PMII_COMMANDLEN_SIZE
  {
    SixDigits(n);
    Digits(n) + Blanks(PMII_COMMANDLEN_SIZE - |Digits(n)|)
  }

  lemma AtoiOfField(n: nat)
    requires n < 1000000
    ensures Atoi(LengthField(n)) == n
  {
    SixDigits(n);
    assert LengthField(n)[0] == Digits(n)[0];
    ValueOfDigits(n, Blanks(PMII_COMMANDLEN_SIZE - |Digits(n)|));
  }

  // ---------------------------------------------------------------------------------------------
  // Writing.

  /** What the text of a command may take. */
  const LIMIT := PMII_MAX_COMMAND_LEN - PMII_COMMANDLEN_SIZE

  datatype Written = CmdTooLong | KeyTooLong | ValTooLong | NoRoom | Written(text: string)

  /** The writer's loop over the pairs, in the order of its checks. */
  function WriteFrom(text: string, pairs: seq<KeyVal>): (w: Written)
    decreases |pairs|
  {
    if pairs == [] then Written(text)
    else if |pairs[0].key| > PMI2_MAX_KEYLEN then KeyTooLong
    else if |pairs[0].key| + 1 >= LIMIT - |text| then NoRoom
    else if |pairs[0].value| > PMI2_MAX_VALLEN then ValTooLong
    else WriteFrom(text + Print(pairs[0].key, pairs[0].value, ""), pairs[1..])
  }

  function Write(cmd: CString, pairs: seq<KeyVal>): (w: Written)
  {
    if |cmd| > PMI2_MAX_VALLEN then CmdTooLong else WriteFrom("cmd=" + cmd + ";", pairs)
  }

  /** The end of the bytes the writer stores once it has `used` bytes of text: it stops at the first pair it
      rejects, and stores a null byte behind a complete text.  Values are copied unchecked. */
  function StoredFrom(used: nat, pairs: seq<KeyVal>): (end: nat)
    ensures end >= PMII_COMMANDLEN_SIZE + used
    decreases |pairs|
  {
    if pairs == [] then PMII_COMMANDLEN_SIZE + used + 1
    else
      var k, v := pairs[0].key, pairs[0].value;
      if |k| > PMI2_MAX_KEYLEN || |k| + 1 >= LIMIT - used || |v| > PMI2_MAX_VALLEN then PMII_COMMANDLEN_SIZE + used
      else StoredFrom(used + |Print(k, v, "")|, pairs[1..])
  }

  /** The writer stores past the end of its buffer. */
  predicate Overruns(cmd: CString, pairs: seq<KeyVal>)
  {
    |cmd| <= PMI2_MAX_VALLEN && StoredFrom(|cmd| + 5, pairs) > PMII_MAX_COMMAND_LEN
  }

  /** The length of the text after j pairs, behind `used` bytes. */
  function LengthTo(used: nat, pairs: seq<KeyVal>, j: nat): (n: nat)
    requires j <= |pairs|
  {
    if j == 0 then used else LengthTo(used, pairs, j - 1) + |Print(pairs[j - 1].key, pairs[j - 1].value, "")|
  }

  /** Pair j, like all before it within its limits, has room for its key but not for its value. */
  predicate ValueCrosses(used: nat, pairs: seq<KeyVal>, j: nat)
    requires j < |pairs|
  {
    && Short(pairs[..j + 1])
    && LengthTo(used, pairs, j) + |pairs[j].key| + 1 < LIMIT < LengthTo(used, pairs, j + 1)
  }

  /** In terms of printed lengths: a value crosses the limit, or the whole text leaves no room for the null byte. */
  ghost predicate TextCrosses(used: nat, pairs: seq<KeyVal>)
  {
    || (exists j :: 0 <= j < |pairs| && ValueCrosses(used, pairs, j))
    || (Short(pairs) && LengthTo(used, pairs, |pairs|) == LIMIT)
  }

  lemma {:induction false} LengthToTail(used: nat, pairs: seq<KeyVal>, j: nat)
    requires 0 < j <= |pairs|
    ensures LengthTo(used, pairs, j)
         == LengthTo(used + |Print(pairs[0].key, pairs[0].value, "")|, pairs[1..], j - 1)
    decreases j
  {
    if j > 1 { LengthToTail(used, pairs, j - 1); }
  }

  lemma {:induction false} LengthToGrows(used: nat, pairs: seq<KeyVal>, j: nat, k: nat)
    requires j <= k <= |pairs|
    ensures LengthTo(used, pairs, j) <= LengthTo(used, pairs, k)
    decreases k
  {
    if j < k { LengthToGrows(used, pairs, j, k - 1); }
  }

  predicate ShortPair(kv: KeyVal)
  {
    |kv.key| <= PMI2_MAX_KEYLEN && |kv.value| <= PMI2_MAX_VALLEN
  }

  /** A pair that is accepted and fits moves the question to the rest. */
  lemma CrossesTail(used: nat, pairs: seq<KeyVal>)
    requires pairs != [] && ShortPair(pairs[0])
    requires used + |Print(pairs[0].key, pairs[0].value, "")| <= LIMIT
    ensures TextCrosses(used, pairs) <==> TextCrosses(used + |Print(pairs[0].key, pairs[0].value, "")|, pairs[1..])
  {
    var next, tail := used + |Print(pairs[0].key, pairs[0].value, "")|, pairs[1..];
    forall j | 0 < j < |pairs| ensures ValueCrosses(used, pairs, j) <==> ValueCrosses(next, tail, j - 1) {
      CrossesAt(used, pairs, j);
    }
    LengthToTail(used, pairs, |pairs|);
    assert Short(pairs) <==> Short(tail);
    if j :| 0 <= j < |pairs| && ValueCrosses(used, pairs, j) {
      assert LengthTo(used, pairs, 1) == next;
      assert ValueCrosses(next, tail, j - 1);
    }
    if j :| 0 <= j < |tail| && ValueCrosses(next, tail, j) { assert ValueCrosses(used, pairs, j + 1); }
  }

  lemma CrossesAt(used: nat, pairs: seq<KeyVal>, j: nat)
    requires 0 < j < |pairs| && ShortPair(pairs[0])
    ensures ValueCrosses(used, pairs, j)
       <==> ValueCrosses(used + |Print(pairs[0].key, pairs[0].value, "")|, pairs[1..], j - 1)
  {
    LengthToTail(used, pairs, j);
    LengthToTail(used, pairs, j + 1);
    assert Short(pairs[..j + 1]) <==> Short(pairs[1..][..j]) by {
      assert pairs[..j + 1] == [pairs[0]] + pairs[1..][..j];
    }
  }

  /** Once a pair does not fit, nothing behind it matters. */
  lemma NothingBehind(used: nat, pairs: seq<KeyVal>)
    requires pairs != [] && (used + |Print(pairs[0].key, pairs[0].value, "")| > LIMIT || !ShortPair(pairs[0]))
    ensures TextCrosses(used, pairs) <==> ValueCrosses(used, pairs, 0)
  {
    forall j | 0 < j < |pairs| ensures !ValueCrosses(used, pairs, j) {
      assert pairs[..j + 1][0] == pairs[0];
      LengthToGrows(used, pairs, 1, j);
      assert LengthTo(used, pairs, 1) == used + |Print(pairs[0].key, pairs[0].value, "")|;
    }
    LengthToGrows(used, pairs, 1, |pairs|);
    assert LengthTo(used, pairs, 1) == used + |Print(pairs[0].key, pairs[0].value, "")|;
  }

  lemma {:induction false} StoredPastEnd(used: nat, pairs: seq<KeyVal>)
    requires used <= LIMIT
    ensures StoredFrom(used, pairs) > PMII_MAX_COMMAND_LEN <==> TextCrosses(used, pairs)
    decreases |pairs|
  {
    if pairs != [] {
      var k, v, size := pairs[0].key, pairs[0].value, |Print(pairs[0].key, pairs[0].value, "")|;
      if ShortPair(pairs[0]) && used + size <= LIMIT {
        CrossesTail(used, pairs);
        StoredPastEnd(used + size, pairs[1..]);
      } else {
        NothingBehind(used, pairs);
        assert Short(pairs[..1]) <==> ShortPair(pairs[0]);
      }
    }
  }

  /** Exactly when the writer overruns its buffer: the command is not too long, and either a pair within its
      limits, behind pairs within theirs, fits with its key but not with its value, or the complete text leaves
      no room for the null byte. */
  lemma WriterOverrunsIff(cmd: CString, pairs: seq<KeyVal>)
    ensures Overruns(cmd, pairs) <==> |cmd| <= PMI2_MAX_VALLEN && TextCrosses(|cmd| + 5, pairs)
  {
    if |cmd| <= PMI2_MAX_VALLEN { StoredPastEnd(|cmd| + 5, pairs); }
  }

  /** A one-character key, and a value of full length. */
  predicate IsFull(kv: KeyVal)
  {
    |kv.key| == 1 && |kv.value| == PMI2_MAX_VALLEN && ';' !in kv.value
  }

  lemma FullSize(kv: KeyVal)
    requires IsFull(kv)
    ensures |Print(kv.key, kv.value, "")| == 1027 && ShortPair(kv)
  {
    EscapeOf(kv.value);
  }

  lemma {:induction false} FullLength(pairs: seq<KeyVal>, j: nat)
    requires j <= |pairs| && forall i :: 0 <= i < |pairs| ==> IsFull(pairs[i])
    ensures LengthTo(5, pairs, j) == 5 + 1027 * j
    decreases j
  {
    if j > 0 {
      FullLength(pairs, j - 1);
      FullSize(pairs[j - 1]);
    }
  }

  /** 64 such pairs, all within their limits, overrun the buffer. */
  lemma FullPairsOverrun(pairs: seq<KeyVal>)
    requires |pairs| == 64 && forall i :: 0 <= i < |pairs| ==> IsFull(pairs[i])
    ensures Short(pairs) && Overruns("", pairs)
  {
    FullLength(pairs, 63);
    FullLength(pairs, 64);
    forall i | 0 <= i < |pairs| ensures ShortPair(pairs[i]) { FullSize(pairs[i]); }
    assert ValueCrosses(5, pairs, 63);
    WriterOverrunsIff("", pairs);
  }

  function Repeat<T>(x: T, n: nat): (r: seq<T>)
    ensures |r| == n && forall i :: 0 <= i < n ==> r[i] == x
  {
    if n == 0 then [] else Repeat(x, n - 1) + [x]
  }

  lemma WriterCanOverrun() returns (pairs: seq<KeyVal>)
    ensures Short(pairs) && Overruns("", pairs)
  {
    var n, v := 64, Repeat('x', PMI2_MAX_VALLEN);
    pairs := Repeat(KeyVal("k", v), n);
    FullPairsOverrun(pairs);
  }

  lemma PrintAppend(text: string, key: string, value: string, rest: string)
    ensures text + Print(key, value, "") + rest == text + Print(key, value, rest)
  {
  }

  lemma {:induction false} WriteFromMeaning(text: string, pairs: seq<KeyVal>)
    requires StoredFrom(|text|, pairs) <= PMII_MAX_COMMAND_LEN
    ensures
      var all := text + PrintAll(FromSeq(pairs));
      && (WriteFrom(text, pairs).Written? <==> Short(pairs) && |all| < LIMIT)
      && (WriteFrom(text, pairs).Written? ==> WriteFrom(text, pairs).text == all)
    decreases |pairs|
  {
    if pairs == [] {
      assert text + "" == text;
    } else {
      var k, v, tail := pairs[0].key, pairs[0].value, pairs[1..];
      var next := text + Print(k, v, "");
      if |k| <= PMI2_MAX_KEYLEN && |k| + 1 < LIMIT - |text| && |v| <= PMI2_MAX_VALLEN {
        WriteFromMeaning(next, tail);
        PrintAppend(text, k, v, PrintAll(FromSeq(tail)));
        assert Short(pairs) <==> Short(tail);
      }
    }
  }

  lemma Assembled(cmd: string, rest: string)
    ensures "cmd=" + cmd + ";" + rest == "cmd" + ("=" + (cmd + (";" + rest)))
  {
  }

  /** The writer succeeds exactly within its limits, and then has written the command's text. */
  lemma WriteMeaning(cmd: CString, pairs: seq<KeyVal>)
    requires !Overruns(cmd, pairs)
    ensures Write(cmd, pairs).Written? <==> |cmd| <= PMI2_MAX_VALLEN && Short(pairs) && |Body(cmd, pairs)| < LIMIT
    ensures Write(cmd, pairs).Written? ==> Write(cmd, pairs).text == Body(cmd, pairs)
  {
    if |cmd| <= PMI2_MAX_VALLEN {
      WriteFromMeaning("cmd=" + cmd + ";", pairs);
      Assembled(cmd, PrintAll(FromSeq(pairs)));
    }
  }

  function Frame(text: string): (f: string)
    requires |text| < 1000000
  {
    LengthField(|text|) + text
  }

  // ---------------------------------------------------------------------------------------------
  // Reading a frame off a stream.

  /** The command, and the bytes left in the stream. */
  function ReadFrame(stream: string): (r: (Command, string))
  {
    if |stream| < PMII_COMMANDLEN_SIZE then (BadCommand, "")
    else
      var n, rest := Atoi(stream[..PMII_COMMANDLEN_SIZE]), stream[PMII_COMMANDLEN_SIZE..];
      if n <= 0 || n > |rest| then (BadCommand, "") else (Read(rest[..n]), rest[n..])
  }

  lemma ReadFrameOf(text: string, more: string)
    requires 0 < |text| < 1000000
    ensures ReadFrame(Frame(text) + more) == (Read(text), more)
  {
    var stream := Frame(text) + more;
    AtoiOfField(|text|);
    assert stream[..PMII_COMMANDLEN_SIZE] == LengthField(|text|);
    var rest := stream[PMII_COMMANDLEN_SIZE..];
    assert rest == text + more;
    assert rest[..|text|] == text && rest[|text|..] == more;
  }

  /** For everything the writer accepts, whatever follows it on the stream: the reader takes exactly the frame
      off the stream, and returns the command and pairs written if and only if the command has no ';' and all
      keys are plain. */
  lemma CodecRoundTrip(cmd: CString, pairs: seq<KeyVal>, more: string)
    requires !Overruns(cmd, pairs)
    requires Write(cmd, pairs).Written?
    ensures
      var text := Write(cmd, pairs).text;
      && |text| < LIMIT && ReadFrame(Frame(text) + more).1 == more
      && (ReadFrame(Frame(text) + more).0 == Command(cmd, pairs, |pairs|) <==> ';' !in cmd && PlainKeys(pairs))
  {
    WriteMeaning(cmd, pairs);
    ReadFrameOf(Body(cmd, pairs), more);
    RoundTrip(cmd, pairs);
  }
}
