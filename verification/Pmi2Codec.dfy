// The PMI-2 reader and writer on their buffers (contribs/pmi2/pmi2_api.c).
module Pmi2Codec {
  import opened Decimal
  import opened Pmi2Text
  import opened Pmi2Frame

  // ---------------------------------------------------------------------------------------------
  // parse_keyval.

  /** Finds the '=' that ends the key. */
  method FindKeyEnd(buf: array<char>, start: nat, end: nat) returns (c: nat)
    requires start <= end <= buf.Length
    ensures c == start + KeySpan(buf[start..end]) && c <= end
  {
    c := start;
    while c < end && buf[c] != '='
      invariant start <= c <= end
      invariant KeySpan(buf[start..end]) == (c - start) + KeySpan(buf[c..end])
    {
      assert buf[c..end][1..] == buf[c + 1..end];
      c := c + 1;
    }
  }

  /** The value of t is done, and then the value of rest. */
  ghost predicate Unescaping(t: string, done: string, rest: string)
  {
    Unescape(t) == (done + Unescape(rest).0, Unescape(rest).1)
  }

  lemma UnescapeStart(t: string)
    ensures Unescaping(t, "", t)
  {
    assert "" + Unescape(t).0 == Unescape(t).0;
  }

  lemma UnescapeStep(t: string, done: string, rest: string, n: nat)
    requires Unescaping(t, done, rest)
    requires rest != "" && (if rest[0] == ';' then Doubled(rest) && n == 2 else n == 1)
    ensures Unescaping(t, done + [rest[0]], rest[n..])
  {
    var v := Unescape(rest[n..]).0;
    assert Unescape(rest).0 == [rest[0]] + v;
    assert done + ([rest[0]] + v) == (done + [rest[0]]) + v;
  }

  lemma UnescapeStop(t: string, done: string, rest: string)
    requires Unescaping(t, done, rest) && (rest != "" ==> rest[0] == ';' && !Doubled(rest))
    ensures Unescape(t) == (done, rest)
  {
    assert done + "" == done;
  }

  /** Copies one byte, and skips one before it if it is a doubled ';'. */
  method UnescapeByte(buf: array<char>, at: nat, d: nat, ghost start: nat, ghost end: nat) returns (c: nat)
    requires start <= d <= at < end < buf.Length && (buf[at] == ';' ==> at + 1 < end && buf[at + 1] == ';')
    modifies buf
    ensures c == if old(buf[at]) == ';' then at + 2 else at + 1
    ensures buf[start..d + 1] == old(buf[start..d]) + [old(buf[at])]
    ensures buf[c..end] == old(buf[c..end]) == old(buf[at..end])[c - at..]
    ensures forall k :: 0 <= k < buf.Length && k != d ==> buf[k] == old(buf[k])
  {
    c := at;
    if buf[c] == ';' {
      c := c + 1;
    }
    buf[d] := buf[c];
    c := c + 1;
  }

  /** Moves the value of the text t, which is at start, to the front, undoubling ';'; c is where it ends, d
      where its copy ends. */
  method UnescapeInPlace(buf: array<char>, start: nat, end: nat, ghost t: string) returns (c: nat, d: nat)
    requires start <= end < buf.Length && buf[end] == '\0' && buf[start..end] == t
    modifies buf
    ensures start <= d <= c <= end
    ensures buf[start..d] == Unescape(t).0 && buf[c..end] == Unescape(t).1
    ensures forall k :: 0 <= k < buf.Length && (k < start || k >= c) ==> buf[k] == old(buf[k])
  {
    c, d := start, start;
    UnescapeStart(t);
    assert buf[start..d] == "";
    while c < end && !(buf[c] == ';' && buf[c + 1] != ';')
      invariant start <= d <= c <= end && buf[end] == '\0' && Unescaping(t, buf[start..d], buf[c..end])
      invariant forall k :: 0 <= k < buf.Length && (k < start || k >= c) ==> buf[k] == old(buf[k])
    {
      ghost var done, rest, n := buf[start..d], buf[c..end], if buf[c] == ';' then 2 else 1;
      UnescapeStep(t, done, rest, n);
      c := UnescapeByte(buf, c, d, start, end);
      d := d + 1;
    }
    UnescapeStop(t, buf[start..d], buf[c..end]);
  }

  /** The first half of parse_keyval: ends the key with a null byte. */
  method ParseKey(buf: array<char>, cmdptr: nat, end: nat, ghost t: string) returns (bad: bool, val: nat)
    requires cmdptr <= end < buf.Length && buf[end] == '\0' && buf[cmdptr..end] == t
    modifies buf
    ensures bad == (KeySpan(t) == |t| || KeySpan(t) > PMI2_MAX_KEYLEN)
    ensures !bad ==> val == cmdptr + KeySpan(t) + 1 && buf[val - 1] == '\0'
    ensures !bad ==> buf[cmdptr..val - 1] == t[..KeySpan(t)] && buf[val..end] == t[KeySpan(t) + 1..]
    ensures forall k :: 0 <= k < cmdptr || end <= k < buf.Length ==> buf[k] == old(buf[k])
    ensures !bad ==> forall k :: val <= k < buf.Length ==> buf[k] == old(buf[k])
  {
    bad, val := true, cmdptr;
    var c := FindKeyEnd(buf, cmdptr, end);
    if c == end || c - cmdptr > PMI2_MAX_KEYLEN { return; }
    buf[c] := '\0';
    bad, val := false, c + 1;
  }

  /** The second half: undoubles the value and skips the closing ';'. */
  method ParseValue(buf: array<char>, val: nat, end: nat, ghost u: string) returns (bad: bool, vallen: nat, next: nat)
    requires val <= end < buf.Length && buf[end] == '\0' && buf[val..end] == u
    modifies buf
    ensures bad == (Unescape(u).1 == "" || |Unescape(u).0| > PMI2_MAX_VALLEN)
    ensures !bad ==> val + vallen < next <= end
    ensures !bad ==> buf[val..val + vallen] == Unescape(u).0 && buf[next..end] == Unescape(u).1[1..]
    ensures forall k :: 0 <= k < val || end <= k < buf.Length ==> buf[k] == old(buf[k])
    ensures !bad ==> forall k :: next <= k < buf.Length ==> buf[k] == old(buf[k])
  {
    bad, vallen, next := true, 0, val;
    var c, d := UnescapeInPlace(buf, val, end, u);
    ghost var rest := buf[c..end];
    if c == end || d - val > PMI2_MAX_VALLEN { return; }
    ghost var v := buf[val..d];
    buf[c] := '\0';
    bad, vallen, next := false, d - val, c + 1;
    assert buf[val..d] == v && buf[next..end] == rest[1..];
  }

  /** parse_keyval on the unread text t, which is at cmdptr.  On success the key starts at cmdptr and ends in a
      null byte, the value is the vallen bytes at val, and the bytes from next on are unread, and as they
      were. */
  method ParseKeyval(buf: array<char>, cmdptr: nat, len: nat, ghost t: string)
    returns (bad: bool, next: nat, left: nat, val: nat, vallen: nat)
    requires cmdptr + len < buf.Length && buf[cmdptr + len] == '\0' && buf[cmdptr..cmdptr + len] == t
    modifies buf
    ensures bad == Parse(t).BadKeyval?
    ensures !bad ==> cmdptr < val && val + vallen < next && next + left == cmdptr + len
    ensures !bad ==> buf[cmdptr..val - 1] == Parse(t).raw && buf[val - 1] == '\0'
    ensures !bad ==> buf[val..val + vallen] == Parse(t).value && buf[next..cmdptr + len] == Parse(t).rest
    ensures !bad ==> forall k :: next <= k < buf.Length ==> buf[k] == old(buf[k])
    ensures forall k :: 0 <= k < cmdptr || cmdptr + len <= k < buf.Length ==> buf[k] == old(buf[k])
  {
    var end := cmdptr + len;
    next, left, vallen := cmdptr, len, 0;
    bad, val := ParseKey(buf, cmdptr, end, t);
    if bad { return; }
    ghost var raw := buf[cmdptr..val - 1];
    bad, vallen, next := ParseValue(buf, val, end, t[KeySpan(t) + 1..]);
    assert buf[cmdptr..val - 1] == raw;
    if bad { return; }
    left := end - next;
  }

  // ---------------------------------------------------------------------------------------------
  // PMIi_ReadCommand.

  /** Skips to the next ';', or to the end. */
  method FindSemicolon(buf: array<char>, start: nat, end: nat) returns (c: nat)
    requires start < end < buf.Length
    ensures start <= c <= end && (c < end ==> buf[c] == ';')
    ensures Count(buf[start..end]) == if c < end then Count(buf[c..end]) else 1
  {
    c := start;
    while c < end && buf[c] != ';'
      invariant start <= c <= end
      invariant Count(buf[start..end]) == if c < end then Count(buf[c..end]) else 1
    {
      assert buf[c..end][1..] == buf[c + 1..end];
      c := c + 1;
    }
  }

  /** The counting pass. */
  method CountPairs(buf: array<char>, end: nat) returns (n: nat)
    requires end < buf.Length && buf[end] == '\0'
    ensures n == Count(buf[..end])
  {
    n := 0;
    var c := 0;
    assert buf[..end] == buf[0..end];
    while c < end
      invariant c <= end + 1
      invariant Count(buf[..end]) == n + if c <= end then Count(buf[c..end]) else 0
    {
      c := FindSemicolon(buf, c, end);
      if buf[c] == ';' && buf[c + 1] == ';' {
        assert buf[c..end][2..] == buf[c + 2..end];
        c := c + 2;
      } else {
        assert c < end ==> buf[c..end][1..] == buf[c + 1..end];
        n, c := n + 1, c + 1;
      }
    }
  }

  lemma {:induction false} TerminatedAt(raw: string, n: nat)
    requires n <= |raw| && '\0' !in raw[..n] && (n < |raw| ==> raw[n] == '\0')
    ensures Terminated(raw) == raw[..n]
  {
    if n > 0 {
      assert raw[0] == raw[..n][0] && raw[1..][..n - 1] == raw[..n][1..];
      TerminatedAt(raw[1..], n - 1);
      assert raw[..n] == [raw[0]] + raw[1..][..n - 1];
    }
  }

  /** The key as create_keyval copies it. */
  method CopyKey(buf: array<char>, start: nat, end: nat, ghost raw: string) returns (key: CString)
    requires start <= end < buf.Length && buf[end] == '\0' && buf[start..end] == raw
    ensures key == Terminated(raw)
  {
    var c := start;
    while buf[c] != '\0'
      invariant start <= c <= end && '\0' !in buf[start..c]
      decreases end - c
    {
      assert buf[start..c + 1] == buf[start..c] + [buf[c]];
      c := c + 1;
    }
    assert raw[..c - start] == buf[start..c];
    TerminatedAt(raw, c - start);
    key := buf[start..c];
  }

  /** parse_keyval and create_keyval. */
  method ReadPair(buf: array<char>, c: nat, end: nat, ghost t: string) returns (bad: bool, next: nat, kv: KeyVal)
    requires c <= end < buf.Length && buf[end] == '\0' && buf[c..end] == t
    modifies buf
    ensures bad == Parse(t).BadKeyval? && buf[end] == '\0'
    ensures !bad ==> c < next <= end && buf[next..end] == Parse(t).rest
    ensures !bad ==> kv == KeyVal(Terminated(Parse(t).raw), Parse(t).value)
  {
    kv := KeyVal("", "");
    var left, val, vallen;
    bad, next, left, val, vallen := ParseKeyval(buf, c, end - c, t);
    if bad { return; }
    var key := CopyKey(buf, c, val - 1, Parse(t).raw);
    kv := KeyVal(key, buf[val..val + vallen]);
  }

  /** The pairs of t are done, and then those of rest. */
  ghost predicate Reading(t: string, done: seq<KeyVal>, rest: string)
  {
    && ParseAll(t).BadPairs? == ParseAll(rest).BadPairs?
    && (!ParseAll(rest).BadPairs? ==> ToSeq(ParseAll(t)) == done + ToSeq(ParseAll(rest)))
  }

  lemma ReadingStep(t: string, done: seq<KeyVal>, rest: string)
    requires Reading(t, done, rest) && rest != ""
    ensures Parse(rest).BadKeyval? ==> ParseAll(t).BadPairs?
    ensures
      var p := Parse(rest);
      p.Parsed? ==> Reading(t, done + [KeyVal(Terminated(p.raw), p.value)], p.rest)
  {
  }

  /** The loop over the pairs; the array of pairs is never overrun. */
  method ReadPairs(buf: array<char>, start: nat, end: nat, nPairs: nat, ghost t: string)
    returns (ok: bool, filled: seq<KeyVal>)
    requires start <= end < buf.Length && buf[end] == '\0' && buf[start..end] == t && Count(t) <= nPairs
    modifies buf
    ensures ok == !ParseAll(t).BadPairs?
    ensures ok ==> filled == ToSeq(ParseAll(t))
  {
    var pairs := new KeyVal[nPairs];
    var c, i := start, 0;
    ghost var rest := t;
    while c < end
      invariant start <= c <= end && buf[end] == '\0' && buf[c..end] == rest
      invariant i + Count(rest) <= nPairs && Reading(t, pairs[..i], rest)
      decreases end - c
    {
      ReadingStep(t, pairs[..i], rest);
      var bad, next, kv := ReadPair(buf, c, end, rest);
      if bad { return false, []; }
      CountOfPair(rest);
      ghost var done := pairs[..i];
      pairs[i] := kv;
      assert pairs[..i + 1] == done + [kv];
      i, c, rest := i + 1, next, Parse(rest).rest;
    }
    ok, filled := true, pairs[..i];
  }

  /** Takes the command and its pairs out of cmd_buf; numPairs is what the counting pass found. */
  method ReadBuffer(buf: array<char>, cmdLen: nat, numPairs: nat, ghost text: string) returns (r: Command)
    requires cmdLen < buf.Length && buf[cmdLen] == '\0' && buf[0..cmdLen] == text && numPairs == Count(text)
    modifies buf
    ensures r == Read(text)
  {
    var bad, c, left, val, vallen := ParseKeyval(buf, 0, cmdLen, text);
    if bad { return BadCommand; }
    ghost var p := Parse(text);
    var key := CopyKey(buf, 0, val - 1, p.raw);
    if key != "cmd" { return BadCommand; }
    var command := buf[val..val + vallen];
    ghost var rest := buf[c..cmdLen];
    buf[val + vallen] := '\0';
    assert buf[c..cmdLen] == rest;
    CountOfPair(text);
    var filled, pairs := ReadPairs(buf, c, cmdLen, numPairs - 1, p.rest);
    r := if filled then Command(command, pairs, numPairs - 1) else BadCommand;
  }

  /** PMIi_ReadCommand once the length is known. */
  method ReadCommand(text: string) returns (r: Command)
    ensures r == Read(text)
  {
    var buf := new char[|text| + 1];
    forall i | 0 <= i < |text| { buf[i] := text[i]; }
    buf[|text|] := '\0';
    assert buf[..|text|] == buf[0..|text|] == text;
    var numPairs := CountPairs(buf, |text|);
    r := ReadBuffer(buf, |text|, numPairs, text);
  }

  // ---------------------------------------------------------------------------------------------
  // PMIi_WriteSimpleCommand.

  /** snprintf of a string that fits, with its null byte. */
  method PrintString(buf: array<char>, c: nat, s: string)
    requires c + |s| < buf.Length
    modifies buf
    ensures buf[..c + |s|] == old(buf[..c]) + s
  {
    forall i | 0 <= i < |s| { buf[c + i] := s[i]; }
    buf[c + |s|] := '\0';
  }

  lemma {:induction false} EscapeSnoc(v: string, i: nat)
    requires i < |v|
    ensures Escape(v[..i + 1]) == Escape(v[..i]) + (if v[i] == ';' then ";;" else [v[i]])
    ensures |Escape(v[..i + 1])| <= |Escape(v)|
    decreases i
  {
    var tail := v[1..];
    assert v[..i + 1][1..] == tail[..i];
    if i > 0 {
      EscapeSnoc(tail, i - 1);
      assert v[..i][1..] == tail[..i - 1];
    }
  }

  /** One byte of a value. */
  method PutEscaped(buf: array<char>, start: nat, x: char) returns (c: nat)
    requires start + (if x == ';' then 2 else 1) <= buf.Length
    modifies buf
    ensures c == start + (if x == ';' then 2 else 1)
    ensures buf[..c] == old(buf[..start]) + (if x == ';' then ";;" else [x])
  {
    c := start;
    if x == ';' {
      buf[c] := ';';
      c := c + 1;
    }
    buf[c] := x;
    c := c + 1;
  }

  /** Writes the value with its ';' doubled, and the closing ';'. */
  method PrintValue(buf: array<char>, start: nat, v: string) returns (c: nat)
    requires start + |Escape(v)| < buf.Length
    modifies buf
    ensures c == start + |Escape(v)| + 1 && buf[..c] == old(buf[..start]) + (Escape(v) + ";")
  {
    c := start;
    var i := 0;
    assert v[..0] == "";
    while i < |v|
      invariant i <= |v| && c == start + |Escape(v[..i])| && |Escape(v[..i])| <= |Escape(v)|
      invariant buf[..c] == old(buf[..start]) + Escape(v[..i])
    {
      EscapeSnoc(v, i);
      c := PutEscaped(buf, c, v[i]);
      i := i + 1;
    }
    assert v[..i] == v;
    buf[c] := ';';
    c := c + 1;
  }

  /** One turn of the loop over the pairs. */
  method WritePair(buf: array<char>, start: nat, kv: KeyVal) returns (c: nat)
    requires start + |Print(kv.key, kv.value, "")| <= buf.Length
    modifies buf
    ensures c == start + |Print(kv.key, kv.value, "")|
    ensures buf[..c] == old(buf[..start]) + Print(kv.key, kv.value, "")
  {
    PrintString(buf, start, kv.key + "=");
    c := PrintValue(buf, start + |kv.key| + 1, kv.value);
  }

  /** Puts the length in front; the bytes sent are those up to the null byte. */
  method WriteLength(buf: array<char>, cmdLen: nat) returns (frame: string)
    requires buf.Length == PMII_MAX_COMMAND_LEN && cmdLen < LIMIT
    requires buf[..PMII_COMMANDLEN_SIZE] == Blanks(PMII_COMMANDLEN_SIZE)
    modifies buf
    ensures frame == LengthField(cmdLen) + old(buf[PMII_COMMANDLEN_SIZE..PMII_COMMANDLEN_SIZE + cmdLen])
  {
    var digits := Digits(cmdLen);
    FiveDigits(cmdLen);
    forall i | 0 <= i < |digits| { buf[i] := digits[i]; }
    forall i | |digits| <= i < PMII_COMMANDLEN_SIZE ensures buf[i] == ' ' {
      assert old(buf[..PMII_COMMANDLEN_SIZE])[i] == ' ';
    }
    buf[cmdLen + PMII_COMMANDLEN_SIZE] := '\0';
    assert buf[..PMII_COMMANDLEN_SIZE] == LengthField(cmdLen);
    frame := buf[..cmdLen + PMII_COMMANDLEN_SIZE];
  }

  /** The loop over the pairs, from the state where text is in the buffer. */
  method WritePairs(buf: array<char>, start: nat, pairs: seq<KeyVal>, ghost head: string, ghost text: string)
    returns (w: Written, c: nat)
    requires buf.Length == PMII_MAX_COMMAND_LEN && |head| == PMII_COMMANDLEN_SIZE
    requires start == |head| + |text| <= buf.Length && buf[..start] == head + text
    requires StoredFrom(|text|, pairs) <= PMII_MAX_COMMAND_LEN
    modifies buf
    ensures w == WriteFrom(text, pairs)
    ensures w.Written? ==> c == |head| + |w.text| < buf.Length && buf[..c] == head + w.text
  {
    c := start;
    var i := 0;
    ghost var done := text;
    assert pairs[0..] == pairs;
    while i < |pairs|
      invariant i <= |pairs| && c == |head| + |done| <= buf.Length && buf[..c] == head + done
      invariant WriteFrom(text, pairs) == WriteFrom(done, pairs[i..])
      invariant StoredFrom(|done|, pairs[i..]) <= PMII_MAX_COMMAND_LEN
    {
      assert pairs[i..][1..] == pairs[i + 1..];
      if |pairs[i].key| > PMI2_MAX_KEYLEN { return KeyTooLong, c; }
      if |pairs[i].key| + 1 >= PMII_MAX_COMMAND_LEN - c { return NoRoom, c; }
      if |pairs[i].value| > PMI2_MAX_VALLEN { return ValTooLong, c; }
      c := WritePair(buf, c, pairs[i]);
      ghost var x := Print(pairs[i].key, pairs[i].value, "");
      assert (head + done) + x == head + (done + x);
      done := done + x;
      i := i + 1;
    }
    assert buf[|head|..c] == buf[..c][|head|..] == done;
    w := Written(buf[PMII_COMMANDLEN_SIZE..c]);
  }

  /** PMIi_WriteSimpleCommand up to the write: what it sends, or its error. */
  method WriteCommand(cmd: CString, pairs: seq<KeyVal>) returns (w: Written, frame: string)
    requires !Overruns(cmd, pairs)
    ensures w == Write(cmd, pairs)
    ensures w.Written? ==> |w.text| < LIMIT && frame == Frame(w.text)
  {
    if |cmd| > PMI2_MAX_VALLEN { return CmdTooLong, ""; }
    var buf := new char[PMII_MAX_COMMAND_LEN];
    forall i | 0 <= i < PMII_COMMANDLEN_SIZE { buf[i] := ' '; }
    ghost var head := Blanks(PMII_COMMANDLEN_SIZE);
    assert buf[..PMII_COMMANDLEN_SIZE] == head;
    PrintString(buf, PMII_COMMANDLEN_SIZE, "cmd=" + cmd + ";");
    var c;
    w, c := WritePairs(buf, PMII_COMMANDLEN_SIZE + |cmd| + 5, pairs, head, "cmd=" + cmd + ";");
    frame := "";
    if w.Written? {
      assert buf[..PMII_COMMANDLEN_SIZE] == buf[..c][..PMII_COMMANDLEN_SIZE] == head;
      assert buf[PMII_COMMANDLEN_SIZE..c] == buf[..c][PMII_COMMANDLEN_SIZE..] == w.text;
      frame := WriteLength(buf, c - PMII_COMMANDLEN_SIZE);
    }
  }
}
