// The PMI-2 wire text (contribs/pmi2/pmi2_api.c): "key=value;" with ';' in values doubled.
module Pmi2Text {

  const PMI2_MAX_KEYLEN := 64
  const PMI2_MAX_VALLEN := 1024
  const PMII_COMMANDLEN_SIZE := 6
  const PMII_MAX_COMMAND_LEN := 65536

  /** What a C string can hold. */
  type CString = s: string | '\0' !in s

  /** PMI2_Keyvalpair; the value is counted, the key terminated. */
  datatype KeyVal = KeyVal(key: CString, value: string)

  // ---------------------------------------------------------------------------------------------
  // Printing.

  function Escape(v: string): (t: string)
    ensures |t| >= |v|
  {
    if v == "" then "" else (if v[0] == ';' then ";;" else [v[0]]) + Escape(v[1..])
  }

  /** A pair in front of the text that follows it. */
  function Print(key: string, value: string, rest: string): (t: string)
  {
    key + ("=" + (Escape(value) + (";" + rest)))
  }

  /** Pairs one after the other, by their key bytes. */
  datatype Pairs = BadPairs | End | Next(raw: string, value: string, tail: Pairs)

  /** A list that does not end in an error. */
  predicate Ends(ps: Pairs)
  {
    if ps.Next? then Ends(ps.tail) else ps.End?
  }

  function PrintAll(ps: Pairs): (t: string)
  {
    if ps.Next? then Print(ps.raw, ps.value, PrintAll(ps.tail)) else ""
  }

  function FromSeq(pairs: seq<KeyVal>): (ps: Pairs)
    ensures Ends(ps)
  {
    if pairs == [] then End else Next(pairs[0].key, pairs[0].value, FromSeq(pairs[1..]))
  }

  /** A command is printed like a pair, but its ';' are not doubled. */
  function Body(cmd: string, pairs: seq<KeyVal>): (t: string)
  {
    "cmd" + ("=" + (cmd + (";" + PrintAll(FromSeq(pairs)))))
  }

  // ---------------------------------------------------------------------------------------------
  // Parsing.

  function KeySpan(t: string): (k: nat)
    ensures k <= |t| && '=' !in t[..k] && (k < |t| ==> t[k] == '=')
  {
    if t == "" || t[0] == '=' then 0 else 1 + KeySpan(t[1..])
  }

  predicate Doubled(t: string)
  {
    |t| > 1 && t[0] == ';' && t[1] == ';'
  }

  /** The value at the start of t, and what follows it: "" or a text that starts with the closing ';'. */
  function Unescape(t: string): (r: (string, string))
    ensures |r.0| + |r.1| <= |t|
    ensures r.1 != "" ==> r.1[0] == ';' && !Doubled(r.1)
  {
    if t == "" then ("", "")
    else if Doubled(t) then var (v, rest) := Unescape(t[2..]); (";" + v, rest)
    else if t[0] == ';' then ("", t)
    else var (v, rest) := Unescape(t[1..]); ([t[0]] + v, rest)
  }

  /** What parse_keyval finds: the bytes before '=', the value and the text after the closing ';'. */
  datatype Parsed = BadKeyval | Parsed(raw: string, value: string, rest: string)

  function Parse(t: string): (p: Parsed)
    ensures p.Parsed? ==> |p.rest| < |t| && '=' !in p.raw && (p.rest != "" ==> p.rest[0] != ';')
  {
    var k := KeySpan(t);
    if k == |t| || k > PMI2_MAX_KEYLEN then BadKeyval
    else
      var (v, rest) := Unescape(t[k + 1..]);
      if rest == "" || |v| > PMI2_MAX_VALLEN then BadKeyval else Parsed(t[..k], v, rest[1..])
  }

  /** The key as a C string: up to its first null byte. */
  function Terminated(raw: string): (key: CString)
    ensures key <= raw && ('\0' !in raw ==> key == raw)
  {
    if raw == "" || raw[0] == '\0' then "" else
      var key: CString := [raw[0]] + Terminated(raw[1..]);
      key
  }

  function ParseAll(t: string): (ps: Pairs)
    decreases |t|
  {
    if t == "" then End
    else
      var p := Parse(t);
      if p.BadKeyval? then BadPairs
      else
        var tail := ParseAll(p.rest);
        if tail.BadPairs? then BadPairs else Next(p.raw, p.value, tail)
  }

  function ToSeq(ps: Pairs): (kvs: seq<KeyVal>)
  {
    if ps.Next? then [KeyVal(Terminated(ps.raw), ps.value)] + ToSeq(ps.tail) else []
  }

  /** The counting pass: stretches of text closed by a ';' that is not doubled, or by the end. */
  function Count(t: string): (n: nat)
  {
    if t == "" then 0
    else if Doubled(t) then Count(t[2..])
    else if t[0] == ';' then 1 + Count(t[1..])
    else if |t| == 1 then 1
    else Count(t[1..])
  }

  /** The ';' left over in a key once neighbours are paired: one for every run of odd length. */
  function Stray(key: string): (n: nat)
  {
    if key == "" then 0
    else if Doubled(key) then Stray(key[2..])
    else if key[0] == ';' then 1 + Stray(key[1..])
    else Stray(key[1..])
  }

  function StrayAll(ps: Pairs): (n: nat)
  {
    if ps.Next? then Stray(ps.raw) + StrayAll(ps.tail) else 0
  }

  /** PMI2_Command: nPairs slots, of which the first |pairs| are filled. */
  datatype Command = BadCommand | Command(command: string, pairs: seq<KeyVal>, nPairs: nat)

  function Read(t: string): (c: Command)
  {
    var p := Parse(t);
    if p.BadKeyval? || Terminated(p.raw) != "cmd" then BadCommand
    else
      var ps := ParseAll(p.rest);
      if ps.BadPairs? then BadCommand
      else
        CountOfParse(t);
        Command(p.value, ToSeq(ps), Count(t) - 1)
  }

  // ---------------------------------------------------------------------------------------------
  // The counting pass sizes the array of pairs.

  lemma {:induction false} CountKey(raw: string, t: string)
    requires t != "" && t[0] == '='
    ensures Count(raw + t) == Stray(raw) + Count(t)
  {
    var s := raw + t;
    if raw == "" {
      assert s == t;
    } else if Doubled(raw) {
      assert s[2..] == raw[2..] + t;
      CountKey(raw[2..], t);
    } else {
      assert s[1..] == raw[1..] + t;
      CountKey(raw[1..], t);
    }
  }

  lemma {:induction false} CountValue(t: string)
    requires Unescape(t).1 != ""
    ensures Count(t) == 1 + Count(Unescape(t).1[1..])
  {
    if Doubled(t) {
      CountValue(t[2..]);
    } else if t[0] != ';' {
      CountValue(t[1..]);
    }
  }

  lemma CountOfPair(t: string)
    requires Parse(t).Parsed?
    ensures Count(t) == Stray(Parse(t).raw) + 1 + Count(Parse(t).rest)
  {
    var k := KeySpan(t);
    assert t == t[..k] + t[k..] && t[k..][1..] == t[k + 1..];
    CountKey(t[..k], t[k..]);
    CountValue(t[k + 1..]);
  }

  /** For every text that parses, the counting pass finds the pairs parsed and the stray ';' of their keys:
      the array is never too short, and has no unused slot exactly if no key has a stray ';'. */
  lemma {:induction false} CountOfParse(t: string)
    ensures Parse(t).Parsed? ==> Count(t) >= 1
    ensures !ParseAll(t).BadPairs? ==> Count(t) == |ToSeq(ParseAll(t))| + StrayAll(ParseAll(t))
    decreases |t|
  {
    if t != "" && Parse(t).Parsed? {
      CountOfPair(t);
      CountOfParse(Parse(t).rest);
    }
  }

  // ---------------------------------------------------------------------------------------------
  // Printing and parsing are inverse.

  /** Nothing is lost: the text is the print of what was read. */
  lemma {:induction false} EscapeUnescape(t: string)
    ensures t == Escape(Unescape(t).0) + Unescape(t).1
  {
    if Doubled(t) {
      EscapeUnescape(t[2..]);
      var (v, rest) := Unescape(t[2..]);
      assert (";" + v)[1..] == v;
      assert t == ";;" + t[2..];
    } else if t != "" && t[0] != ';' {
      EscapeUnescape(t[1..]);
      var (v, rest) := Unescape(t[1..]);
      assert ([t[0]] + v)[1..] == v;
      assert t == [t[0]] + t[1..];
    }
  }

  lemma {:induction false} UnescapeEscape(v: string, rest: string)
    requires rest != "" ==> rest[0] == ';' && !Doubled(rest)
    ensures Unescape(Escape(v) + rest) == (v, rest)
  {
    var t := Escape(v) + rest;
    if v == "" {
      assert t == rest;
    } else {
      UnescapeEscape(v[1..], rest);
      assert v == [v[0]] + v[1..];
      if v[0] == ';' {
        assert t[2..] == Escape(v[1..]) + rest;
      } else {
        assert t[1..] == Escape(v[1..]) + rest;
      }
    }
  }

  lemma Joined(t: string, k: nat, v: string, rest: string)
    requires k < |t| && t[k] == '=' && t[k + 1..] == Escape(v) + rest && rest != "" && rest[0] == ';'
    ensures t == Print(t[..k], v, rest[1..])
  {
    assert rest == ";" + rest[1..];
    assert t[k..] == "=" + t[k + 1..];
    assert t == t[..k] + t[k..];
  }

  lemma PrintParse(t: string)
    requires Parse(t).Parsed?
    ensures t == Print(Parse(t).raw, Parse(t).value, Parse(t).rest)
  {
    var k := KeySpan(t);
    var u := Unescape(t[k + 1..]);
    EscapeUnescape(t[k + 1..]);
    Joined(t, k, u.0, u.1);
  }

  lemma {:induction false} KeySpanOf(key: string, t: string)
    requires '=' !in key && t != "" && t[0] == '='
    ensures KeySpan(key + t) == |key|
  {
    if key == "" {
      assert key + t == t;
    } else {
      assert (key + t)[1..] == key[1..] + t;
      KeySpanOf(key[1..], t);
    }
  }

  lemma ParsePrint(key: string, value: string, rest: string)
    requires '=' !in key && |key| <= PMI2_MAX_KEYLEN && |value| <= PMI2_MAX_VALLEN
    requires rest != "" ==> rest[0] != ';'
    ensures Parse(Print(key, value, rest)) == Parsed(key, value, rest)
  {
    var t, tail := Print(key, value, rest), Escape(value) + (";" + rest);
    KeySpanOf(key, "=" + tail);
    assert t[..|key|] == key && t[|key| + 1..] == tail;
    UnescapeEscape(value, ";" + rest);
    assert (";" + rest)[1..] == rest;
  }

  // ---------------------------------------------------------------------------------------------
  // What survives the round trip.

  /** Keys that come back as written. */
  predicate PlainKey(key: string)
  {
    '=' !in key && (key != "" ==> key[0] != ';') && Stray(key) == 0
  }

  predicate PlainKeys(pairs: seq<KeyVal>)
  {
    forall i :: 0 <= i < |pairs| ==> PlainKey(pairs[i].key)
  }

  /** The writer's limits. */
  predicate Short(pairs: seq<KeyVal>)
  {
    forall i :: 0 <= i < |pairs| ==> |pairs[i].key| <= PMI2_MAX_KEYLEN && |pairs[i].value| <= PMI2_MAX_VALLEN
  }

  predicate AllPlain(ps: Pairs)
  {
    ps.Next? ==> PlainKey(ps.raw) && AllPlain(ps.tail)
  }

  predicate AllShort(ps: Pairs)
  {
    ps.Next? ==> |ps.raw| <= PMI2_MAX_KEYLEN && |ps.value| <= PMI2_MAX_VALLEN && AllShort(ps.tail)
  }

  /** The pairs with their keys as C strings. */
  function Keyed(ps: Pairs): (qs: Pairs)
  {
    if ps.Next? then Next(Terminated(ps.raw), ps.value, Keyed(ps.tail)) else ps
  }

  lemma {:induction false} SeqIsPairs(pairs: seq<KeyVal>)
    ensures PlainKeys(pairs) <==> AllPlain(FromSeq(pairs))
    ensures Short(pairs) ==> AllShort(FromSeq(pairs))
    ensures ToSeq(FromSeq(pairs)) == pairs
  {
    if pairs != [] {
      SeqIsPairs(pairs[1..]);
      assert PlainKeys(pairs) <==> PlainKey(pairs[0].key) && PlainKeys(pairs[1..]);
    }
  }

  lemma {:induction false} PairsAreSeq(ps: Pairs)
    requires Ends(ps)
    ensures FromSeq(ToSeq(ps)) == Keyed(ps)
  {
    if ps.Next? {
      PairsAreSeq(ps.tail);
      assert ToSeq(ps)[1..] == ToSeq(ps.tail);
    }
  }

  lemma {:induction false} ParseEnds(t: string)
    ensures ParseAll(t).BadPairs? || Ends(ParseAll(t))
    decreases |t|
  {
    if t != "" && Parse(t).Parsed? { ParseEnds(Parse(t).rest); }
  }

  lemma PrintStart(ps: Pairs)
    requires AllPlain(ps) && PrintAll(ps) != ""
    ensures PrintAll(ps)[0] != ';'
  {
    if ps.raw != "" { assert PrintAll(ps)[0] == ps.raw[0]; }
  }

  lemma {:induction false} ParsePrintAll(ps: Pairs)
    requires AllPlain(ps) && AllShort(ps) && Ends(ps)
    ensures ParseAll(PrintAll(ps)) == ps && StrayAll(ps) == 0
  {
    if ps.Next? {
      var rest := PrintAll(ps.tail);
      ParsePrintAll(ps.tail);
      if rest != "" { PrintStart(ps.tail); }
      ParsePrint(ps.raw, ps.value, rest);
    }
  }

  lemma {:induction false} EscapeOf(v: string)
    ensures |Escape(v)| == |v| <==> ';' !in v
    ensures ';' !in v ==> Escape(v) == v
  {
    if v != "" {
      EscapeOf(v[1..]);
      assert v == [v[0]] + v[1..];
    }
  }

  /** The pairs read, with their keys cut at a null byte, take no more room than the text read. */
  lemma {:induction false} LengthOfParse(t: string)
    ensures !ParseAll(t).BadPairs? ==> |t| >= |PrintAll(Keyed(ParseAll(t)))|
    decreases |t|
  {
    if t != "" && Parse(t).Parsed? {
      PrintParse(t);
      LengthOfParse(Parse(t).rest);
    }
  }

  /** Texts of equal pairs, when one has no longer keys and rest, are equal piece by piece. */
  lemma SameRest(raw: string, value: string, rest: string, key: string, rest': string)
    requires Print(raw, value, rest) == Print(key, value, rest') && |raw| >= |key| && |rest| >= |rest'|
    ensures raw == key && rest == rest'
  {
    var t := Print(raw, value, rest);
    assert |raw| == |key| && |rest| == |rest'|;
    assert raw == t[..|raw|] && key == t[..|key|];
    assert t[|t| - |rest|..] == rest && t[|t| - |rest|..] == rest';
  }

  /** If what was printed reads back up to null bytes, it reads back as it is. */
  lemma {:induction false} PairsComeBack(qs: Pairs)
    requires Ends(qs) && Keyed(ParseAll(PrintAll(qs))) == qs
    ensures ParseAll(PrintAll(qs)) == qs
  {
    if qs.Next? {
      var t := PrintAll(qs);
      var p := Parse(t);
      PrintParse(t);
      LengthOfParse(p.rest);
      SameRest(p.raw, p.value, p.rest, qs.raw, PrintAll(qs.tail));
      PairsComeBack(qs.tail);
    }
  }

  /** Only plain keys are ever parsed without stray ';', but for the first character of the first. */
  lemma {:induction false} ParsedIsPlain(t: string)
    requires t != "" ==> t[0] != ';'
    requires !ParseAll(t).BadPairs? && StrayAll(ParseAll(t)) == 0
    ensures AllPlain(ParseAll(t))
    decreases |t|
  {
    if t != "" { ParsedIsPlain(Parse(t).rest); }
  }

  lemma CountBack(t: string, ps: Pairs)
    requires Parse(t).Parsed? && ps == ParseAll(Parse(t).rest) && !ps.BadPairs?
    ensures Count(t) == 1 + Stray(Parse(t).raw) + |ToSeq(ps)| + StrayAll(ps)
  {
    CountOfPair(t);
    CountOfParse(Parse(t).rest);
  }

  lemma ReadOf(t: string, cmd: string, rest: string, ps: Pairs)
    requires Parse(t) == Parsed("cmd", cmd, rest) && ps == ParseAll(rest) && !ps.BadPairs?
    ensures Read(t) == Command(cmd, ToSeq(ps), |ToSeq(ps)| + StrayAll(ps))
  {
    CountBack(t, ps);
  }

  lemma ParseBody(cmd: CString, ps: Pairs)
    requires |cmd| <= PMI2_MAX_VALLEN && ';' !in cmd && AllPlain(ps)
    ensures Parse("cmd" + ("=" + (cmd + (";" + PrintAll(ps))))) == Parsed("cmd", cmd, PrintAll(ps))
  {
    EscapeOf(cmd);
    if PrintAll(ps) != "" { PrintStart(ps); }
    ParsePrint("cmd", cmd, PrintAll(ps));
  }

  lemma GoesThrough(cmd: CString, pairs: seq<KeyVal>)
    requires |cmd| <= PMI2_MAX_VALLEN && Short(pairs) && ';' !in cmd && PlainKeys(pairs)
    ensures Read(Body(cmd, pairs)) == Command(cmd, pairs, |pairs|)
  {
    var ps := FromSeq(pairs);
    SeqIsPairs(pairs);
    ParsePrintAll(ps);
    ParseBody(cmd, ps);
    ReadOf(Body(cmd, pairs), cmd, PrintAll(ps), ps);
  }

  lemma CommandIsPlain(cmd: CString, raw: string, rest: string, rest': string)
    requires Print(raw, cmd, rest) == "cmd" + ("=" + (cmd + (";" + rest'))) && "cmd" <= raw && |rest| >= |rest'|
    ensures ';' !in cmd && raw == "cmd" && rest == rest'
  {
    EscapeOf(cmd);
    SameRest(raw, cmd, rest, "cmd", rest');
  }

  lemma ComesBack(cmd: CString, pairs: seq<KeyVal>)
    requires Read(Body(cmd, pairs)) == Command(cmd, pairs, |pairs|)
    ensures ';' !in cmd && PlainKeys(pairs)
  {
    var t, qs := Body(cmd, pairs), FromSeq(pairs);
    var p := Parse(t);
    ParseEnds(p.rest);
    PairsAreSeq(ParseAll(p.rest));
    PrintParse(t);
    LengthOfParse(p.rest);
    CommandIsPlain(cmd, p.raw, p.rest, PrintAll(qs));
    CountBack(t, ParseAll(p.rest));
    SeqIsPairs(pairs);
    ParsedIsPlain(p.rest);
    PairsComeBack(qs);
  }

  /** Exactly which commands come back as written, with an exact count of their pairs. */
  lemma RoundTrip(cmd: CString, pairs: seq<KeyVal>)
    requires |cmd| <= PMI2_MAX_VALLEN && Short(pairs)
    ensures Read(Body(cmd, pairs)) == Command(cmd, pairs, |pairs|) <==> ';' !in cmd && PlainKeys(pairs)
  {
    if ';' !in cmd && PlainKeys(pairs) { GoesThrough(cmd, pairs); }
    if Read(Body(cmd, pairs)) == Command(cmd, pairs, |pairs|) { ComesBack(cmd, pairs); }
  }

  lemma {:induction false} EscapeAppend(x: string, v: string)
    requires ';' !in x
    ensures Escape(x + v) == x + Escape(v)
  {
    if x == "" {
      assert x + v == v;
    } else {
      EscapeAppend(x[1..], v);
      assert (x + v)[1..] == x[1..] + v && x == [x[0]] + x[1..];
    }
  }

  /** An equals sign may stand for itself or end the key: two different pairs have the same text. */
  lemma SameText(k: CString, x: CString, v: string)
    requires ';' !in x
    ensures PrintAll(FromSeq([KeyVal(k + ("=" + x), v)])) == PrintAll(FromSeq([KeyVal(k, x + ("=" + v))]))
  {
    EscapeAppend(x, "=" + v);
    EscapeAppend("=", v);
    Shifted(k, x, Escape(v));
    assert FromSeq([KeyVal(k + ("=" + x), v)]) == Next(k + ("=" + x), v, End);
    assert FromSeq([KeyVal(k, x + ("=" + v))]) == Next(k, x + ("=" + v), End);
  }

  lemma Shifted(k: string, x: string, v: string)
    ensures (k + ("=" + x)) + ("=" + (v + ";")) == k + ("=" + ((x + ("=" + v)) + ";"))
  {
  }

  /** A key with an equals sign comes back cut there, with the rest in the value. */
  lemma EqualsSignMoves(cmd: CString, k: CString, x: CString, v: string)
    requires |cmd| <= PMI2_MAX_VALLEN && ';' !in cmd && PlainKey(k) && |k| <= PMI2_MAX_KEYLEN
    requires ';' !in x && |x| + 1 + |v| <= PMI2_MAX_VALLEN
    ensures Read(Body(cmd, [KeyVal(k + ("=" + x), v)])) == Command(cmd, [KeyVal(k, x + ("=" + v))], 1)
  {
    SameText(k, x, v);
    GoesThrough(cmd, [KeyVal(k, x + ("=" + v))]);
  }

  /** For example: "a=b" with the value "c" is read as "a" with the value "b=c". */
  lemma RoundTripCanFail()
    ensures Read(Body("put", [KeyVal("a=b", "c")])) == Command("put", [KeyVal("a", "b=c")], 1)
  {
    assert "a=b" == "a" + ("=" + "b") && "b=c" == "b" + ("=" + "c");
    EqualsSignMoves("put", "a", "b", "c");
  }
}
