// Writing and reading bitmaps as text (src/common/bitstring.c).
module BitstringText {
  import opened BitWords
  import opened BitmapWords
  import opened BitmapText
  import opened Bitstring
  import opened Decimal

  // ---------------------------------------------------------------------------------------------
  // bit_fmt.

  lemma RunsSkip(s: seq<bool>, k: nat, m: nat)
    requires k <= m <= |s| && IsClear(s, k, m)
    ensures RunsFrom(s, k) == RunsFrom(s, m)
    decreases m - k
  {
    if k < m { RunsSkip(s, k + 1, m); }
  }

  /** The inner loop: the end of the run that `start` is in. */
  method FindRunEnd(b: Bitmap, start: nat) returns (bit: nat)
    requires b.Valid() && start < b.nbits && b.Bits()[start]
    ensures bit == RunEnd(b.Bits(), start)
  {
    bit := start;
    ghost var s := b.Bits();
    var more := false;
    if bit + 1 < b.nbits { more := b.Test(bit + 1); }
    while more
      invariant start <= bit < b.nbits && s[bit] && RunEnd(s, start) == RunEnd(s, bit)
      invariant more == (bit + 1 < b.nbits && s[bit + 1])
      decreases b.nbits - bit
    {
      bit := bit + 1;
      more := false;
      if bit + 1 < b.nbits { more := b.Test(bit + 1); }
    }
  }

  /** A word with a bit set is not zero. */
  lemma WordOfSetBit(b: Bitmap, bit: nat)
    requires b.Valid() && bit < b.nbits && b.Bits()[bit]
    ensures b.words[bit / 32] != 0
  {
    ViewAt(b.words[..], b.nbits, bit);
    BitOfZero(bit % 32);
  }

  lemma Regroup(x: string, y: string, rest: string)
    ensures x + ("," + rest) == (x + ",") + rest
    ensures x + ("-" + (y + ("," + rest))) == (x + ("-" + (y + ","))) + rest
  {
  }

  lemma TextHead(r: Ranges)
    requires r.Range?
    ensures Text(r) == Item(r.lo, r.hi, ",") + Text(r.rest)
  {
    Regroup(Digits(r.lo), Digits(r.hi), Text(r.rest));
  }

  lemma Assoc(x: string, y: string, z: string)
    ensures x + (y + z) == (x + y) + z
  {
  }

  /** Where the scan goes on: always at the start of a word, or in one that is not zero. */
  predicate Aligned(b: Bitmap, bit: nat)
    requires b.Valid()
    reads b.words
  {
    bit < b.nbits && bit % 32 != 0 ==> b.words[bit / 32] != 0
  }

  lemma AlignedAfter(b: Bitmap, k: nat)
    requires b.Valid() && k < b.nbits && b.words[k / 32] != 0
    ensures Aligned(b, k + 1)
  {
    if (k + 1) % 32 != 0 { assert (k + 1) / 32 == k / 32; }
  }

  /** A word that is zero is skipped. */
  method SkipWord(b: Bitmap, at: nat) returns (bit: nat)
    requires b.Valid() && at < b.nbits && Aligned(b, at) && b.words[at / 32] == 0
    ensures at < bit <= b.nbits && Aligned(b, bit) && RunsFrom(b.Bits(), at) == RunsFrom(b.Bits(), bit)
  {
    bit := if at + 32 <= b.nbits then at + 32 else b.nbits;
    ZeroWord(b.words[..], b.nbits, at / 32);
    RunsSkip(b.Bits(), at, bit);
  }

  /** The text of the run at `at`. */
  method FormatRun(b: Bitmap, at: nat) returns (item: string, bit: nat)
    requires b.Valid() && at < b.nbits && b.Bits()[at]
    ensures at < bit <= b.nbits && Aligned(b, bit)
    ensures Text(RunsFrom(b.Bits(), at)) == item + Text(RunsFrom(b.Bits(), bit))
  {
    var end := FindRunEnd(b, at);
    TextHead(RunsFrom(b.Bits(), at));
    WordOfSetBit(b, end);
    AlignedAfter(b, end);
    item, bit := Item(at, end, ","), end + 1;
  }

  /** One turn of the loop of bit_fmt. */
  method FormatNext(b: Bitmap, at: nat) returns (item: string, bit: nat)
    requires b.Valid() && at < b.nbits && Aligned(b, at)
    ensures at < bit <= b.nbits && Aligned(b, bit)
    ensures Text(RunsFrom(b.Bits(), at)) == item + Text(RunsFrom(b.Bits(), bit))
  {
    item := "";
    if b.words[at / 32] == 0 {
      bit := SkipWord(b, at);
    } else {
      var found := b.Test(at);
      if found {
        item, bit := FormatRun(b, at);
      } else {
        AlignedAfter(b, at);
        bit := at + 1;
      }
    }
  }

  /** The loop of bit_fmt. */
  method FormatAll(b: Bitmap, len: nat) returns (str: string)
    requires b.Valid() && len >= 1
    ensures str == Cut(Text(RunsFrom(b.Bits(), 0)), len - 1)
  {
    ghost var all := Text(RunsFrom(b.Bits(), 0));
    str := "";
    var bit := 0;
    ghost var done := "";
    assert done + all == all;
    while bit < b.nbits
      invariant bit <= b.nbits && Aligned(b, bit) && all == done + Text(RunsFrom(b.Bits(), bit))
      invariant str == Cut(done, len - 1)
    {
      var item;
      item, bit := FormatNext(b, bit);
      Assoc(done, item, Text(RunsFrom(b.Bits(), bit)));
      CutAppend(done, item, len - 1);
      done := done + item;
      str := Cut(str + item, len - 1);
    }
    assert done == all;
  }

  /** bit_fmt; with a bit set, one byte is no room to drop a comma from. */
  method Format(b: Bitmap, len: nat) returns (str: string)
    requires b.Valid() && (len >= 2 || (len == 1 && RunsFrom(b.Bits(), 0).NoMore?))
    ensures str == FmtCut(b.Bits(), len)
    ensures len > |Text(RunsFrom(b.Bits(), 0))| ==> str == Fmt(b.Bits())
  {
    str := FormatAll(b, len);
    FmtCutWhole(b.Bits(), len);
    if str != "" {
      str := str[..|str| - 1];
    }
  }

  // ---------------------------------------------------------------------------------------------
  // bitfmt2int, inx2bitstr and bit_unfmt.

  /** The pairs of bounds, as bitfmt2int returns them. */
  function Flat(r: Ranges): (inx: seq<int>)
  {
    if r.NoMore? then [-1] else [r.lo, r.hi] + Flat(r.rest)
  }

  lemma FlatStep(done: seq<int>, lo: nat, hi: nat, rest: Ranges)
    ensures done + Flat(Range(lo, hi, rest)) == (done + [lo, hi]) + Flat(rest)
  {
  }

  /** bitfmt2int. */
  method ParseText(str: string) returns (inx: seq<int>)
    ensures inx == Flat(ParseRanges(str))
  {
    if str == "" || str[0] == ',' { return [-1]; }
    inx := [];
    var i: nat, sum: nat, start: int := 0, 0, -1;
    ghost var all, rest := ParseRanges(str), str;
    assert [] + Flat(all) == Flat(all);
    while i < |str|
      invariant i <= |str| && rest == str[i..] && start >= -1 && Flat(all) == inx + Flat(Scan(rest, sum, start))
    {
      var c := str[i];
      rest := str[i + 1..];
      assert str[i..][1..] == rest && str[i..][0] == c;
      if IsDigit(c) {
        sum := 10 * sum + (c - '0') as nat;
      } else if c == '-' {
        start, sum := sum, 0;
      } else if c == ',' {
        var lo := if start == -1 then sum else start;
        FlatStep(inx, lo, sum, Scan(rest, 0, -1));
        inx, start, sum := inx + [lo, sum], -1, 0;
      }
      i := i + 1;
    }
    inx := inx + [if start == -1 then sum else start, sum, -1];
    assert inx == Flat(all);
  }

  lemma {:induction false} FilledPrefix(s: seq<bool>, n: nat, lo: nat, hi: nat, v: bool)
    requires hi <= n <= |s|
    ensures Filled(s, lo, hi, v)[..n] == Filled(s[..n], lo, hi, v)
    decreases hi
  {
    if lo < hi { FilledPrefix(s, n, lo, hi - 1, v); }
  }

  /** bit_nset and bit_nclear, seen up to the length. */
  method FillBits(b: Bitmap, lo: nat, hi: nat, v: bool)
    requires b.Valid() && lo < b.nbits && hi < b.nbits
    modifies b.words
    ensures b.Valid() && b.Bits() == Filled(old(b.Bits()), lo, hi + 1, v)
  {
    b.BitsAreRaw();
    FilledPrefix(b.Raw(), b.nbits, lo, hi + 1, v);
    b.FillRange(lo, hi, v);
    b.BitsAreRaw();
  }

  lemma FilledAll(s: seq<bool>)
    ensures Filled(s, 0, |s|, false) == Clear(|s|)
  {
    forall k | 0 <= k < |s| ensures Filled(s, 0, |s|, false)[k] == Clear(|s|)[k] { FilledAt(s, 0, |s|, false, k); }
  }

  method ClearAll(b: Bitmap)
    requires b.Valid() && b.nbits > 0
    modifies b.words
    ensures b.Valid() && b.Bits() == Clear(b.nbits)
  {
    FilledAll(b.Bits());
    FillBits(b, 0, b.nbits - 1, false);
  }

  /** inx2bitstr. */
  method SetRanges(b: Bitmap, inx: seq<int>, ghost r: Ranges) returns (ok: bool)
    requires b.Valid() && b.nbits > 0 && inx == Flat(r)
    modifies b.words
    ensures b.Valid() && (ok, b.Bits()) == FromRanges(Clear(b.nbits), r)
  {
    ClearAll(b);
    var p := 0;
    ghost var rest := r;
    assert inx[0..] == inx;
    while inx[p] != -1
      invariant b.Valid() && p < |inx| && inx[p..] == Flat(rest)
      invariant FromRanges(b.Bits(), rest) == FromRanges(Clear(b.nbits), r)
      decreases |inx| - p
    {
      assert inx[p..][0] == rest.lo && inx[p..][1] == rest.hi && inx[p..][2..] == Flat(rest.rest);
      if inx[p] < 0 || inx[p] >= b.nbits || inx[p + 1] < 0 || inx[p + 1] >= b.nbits { return false; }
      FillBits(b, inx[p], inx[p + 1], true);
      p := p + 2;
      rest := rest.rest;
    }
    ok := true;
  }

  /** bit_unfmt. */
  method Unformat(b: Bitmap, str: string) returns (ok: bool)
    requires b.Valid() && (str != "" ==> b.nbits > 0)
    modifies b.words
    ensures b.Valid() && (ok, b.Bits()) == Unfmt(old(b.Bits()), str)
  {
    if str == "" { return true; }
    var inx := ParseText(str);
    ok := SetRanges(b, inx, ParseRanges(str));
  }

  // ---------------------------------------------------------------------------------------------
  // Masks.

  /** The character for the bits 4j, ..., 4j + 3. */
  method HexDigit(b: Bitmap, j: nat) returns (c: char)
    requires b.Valid() && 4 * j < b.nbits
    ensures c == HexChar(Nibble(b.Bits(), j))
  {
    var b0 := b.Test(4 * j);
    var b1, b2, b3 := false, false, false;
    if 4 * j + 1 < b.nbits { b1 := b.Test(4 * j + 1); }
    if 4 * j + 2 < b.nbits { b2 := b.Test(4 * j + 2); }
    if 4 * j + 3 < b.nbits { b3 := b.Test(4 * j + 3); }
    var current := (if b0 then 1 else 0) + (if b1 then 2 else 0) + (if b2 then 4 else 0) + (if b3 then 8 else 0);
    c := if current <= 9 then '0' + current as char else 'A' + (current - 10) as char;
  }

  /** Stores digit j in front of the digits below it. */
  method PutHexDigit(b: Bitmap, buf: array<char>, ptr: nat, end: nat, j: nat)
    requires b.Valid() && 4 * j < b.nbits && 0 < ptr <= end <= buf.Length && buf[ptr..end] == HexDigits(b.Bits(), j)
    modifies buf
    ensures buf[ptr - 1..end] == HexDigits(b.Bits(), j + 1)
    ensures forall i :: 0 <= i < ptr - 1 ==> buf[i] == old(buf[i])
  {
    var c := HexDigit(b, j);
    ghost var digits := buf[ptr..end];
    buf[ptr - 1] := c;
    assert buf[ptr..end] == digits;
  }

  method PutHexDigits(b: Bitmap, buf: array<char>, charsize: nat)
    requires b.Valid() && b.nbits <= 4 * charsize < b.nbits + 4 && charsize + 2 <= buf.Length
    modifies buf
    ensures buf[2..charsize + 2] == HexDigits(b.Bits(), charsize)
    ensures buf[0] == old(buf[0]) && buf[1] == old(buf[1])
  {
    var j, ptr, end := 0, charsize + 2, charsize + 2;
    while j < charsize
      invariant j <= charsize && ptr + j == end && buf[0] == old(buf[0]) && buf[1] == old(buf[1])
      invariant buf[ptr..end] == HexDigits(b.Bits(), j)
    {
      PutHexDigit(b, buf, ptr, end, j);
      j, ptr := j + 1, ptr - 1;
    }
  }

  lemma Prefixed(u: string, t: string)
    requires |u| >= 2 && u[0] == '0' && u[1] == 'x' && u[2..] == t
    ensures u == "0x" + t
  {
  }

  /** bit_fmt_hexmask: the digits are stored from the last one backwards. */
  method FormatHexmask(b: Bitmap) returns (str: string)
    requires b.Valid()
    ensures str == FmtHex(b.Bits())
  {
    var charsize := (b.nbits + 3) / 4;
    var buf := new char[charsize + 3];
    buf[0], buf[1], buf[charsize + 2] := '0', 'x', '\0';
    PutHexDigits(b, buf, charsize);
    str := buf[..charsize + 2];
    assert str[2..] == buf[2..charsize + 2];
    Prefixed(str, HexDigits(b.Bits(), charsize));
  }

  /** Sets bit k if asked to and if it is within the length. */
  method SetIf(b: Bitmap, k: nat, on: bool)
    requires b.Valid()
    modifies b.words
    ensures b.Valid()
    ensures b.Bits() == if on && k < b.nbits then old(b.Bits())[k := true] else old(b.Bits())
  {
    if on && k < b.nbits {
      b.BitsAreRaw();
      b.Set(k, true);
      b.BitsAreRaw();
    }
  }

  /** s has the bits of the mask t below k, and no others. */
  ghost predicate MaskBelow(t: string, s: seq<bool>, k: nat)
  {
    forall i :: 0 <= i < |s| ==> s[i] == (i < k && HexBit(t, i))
  }

  /** The four bits of digit j. */
  method SetNibble(b: Bitmap, t: string, j: nat)
    requires b.Valid() && j < |t| && MaskBelow(t, b.Bits(), 4 * j)
    modifies b.words
    ensures b.Valid() && MaskBelow(t, b.Bits(), 4 * j + 4)
  {
    var v := HexValue(t[|t| - 1 - j]);
    ghost var s := b.Bits();
    HexBits(t, j);
    SetIf(b, 4 * j, v % 2 == 1);
    SetIf(b, 4 * j + 1, v / 2 % 2 == 1);
    SetIf(b, 4 * j + 2, v / 4 % 2 == 1);
    SetIf(b, 4 * j + 3, v / 8 % 2 == 1);
  }

  lemma HexBits(t: string, j: nat)
    requires j < |t|
    ensures
      var v := HexValue(t[|t| - 1 - j]);
      && HexBit(t, 4 * j) == (v % 2 == 1) && HexBit(t, 4 * j + 1) == (v / 2 % 2 == 1)
      && HexBit(t, 4 * j + 2) == (v / 4 % 2 == 1) && HexBit(t, 4 * j + 3) == (v / 8 % 2 == 1)
  {
    var v := HexValue(t[|t| - 1 - j]);
    BitsOf16(v, v % 2, v / 2 % 2, v / 4 % 2, v / 8 % 2);
  }

  /** bit_unfmt_hexmask: from the last character to the first; invalid ones count as zero. */
  method UnformatHexmask(b: Bitmap, str: string) returns (ok: bool)
    requires b.Valid() && b.nbits > 0
    modifies b.words
    ensures b.Valid() && ok == AllHex(HexBody(str))
    ensures forall k :: 0 <= k < b.nbits ==> b.Bits()[k] == HexBit(HexBody(str), k)
  {
    ClearAll(b);
    var t := if |str| >= 2 && str[..2] == "0x" then str[2..] else str;
    assert t == HexBody(str);
    ok := true;
    var j := 0;
    while j < |t|
      invariant j <= |t| && b.Valid() && MaskBelow(t, b.Bits(), 4 * j)
      invariant ok == forall i :: |t| - j <= i < |t| ==> IsHex(t[i])
    {
      if !IsHex(t[|t| - 1 - j]) { ok := false; }
      SetNibble(b, t, j);
      j := j + 1;
    }
  }

  /** bit_fmt_binmask. */
  method FormatBinmask(b: Bitmap) returns (str: string)
    requires b.Valid()
    ensures str == FmtBin(b.Bits())
  {
    var n := b.nbits;
    var buf := new char[n + 1];
    buf[n] := '\0';
    ghost var s := b.Bits();
    var i := 0;
    while i < n
      invariant i <= n && buf[n - i..n] == BinDigits(s, i)
    {
      var found := b.Test(i);
      var c := if found then '1' else '0';
      buf[n - 1 - i] := c;
      assert buf[n - 1 - i..n] == [c] + buf[n - i..n];
      i := i + 1;
    }
    assert buf[..n] == buf[0..n];
    str := buf[..n];
  }

  ghost predicate BinBelow(t: string, s: seq<bool>, k: nat)
  {
    forall i :: 0 <= i < |s| ==> s[i] == (i < k && BinBit(t, i))
  }

  lemma BinNext(t: string, s: seq<bool>, k: nat, on: bool)
    requires BinBelow(t, s, k) && k < |t| && on == (t[|t| - 1 - k] as int % 2 == 1)
    ensures BinBelow(t, if on && k < |s| then s[k := true] else s, k + 1)
  {
    assert BinBit(t, k) == on;
  }

  /** bit_unfmt_binmask. */
  method UnformatBinmask(b: Bitmap, str: string)
    requires b.Valid() && b.nbits > 0
    modifies b.words
    ensures b.Valid() && forall k :: 0 <= k < b.nbits ==> b.Bits()[k] == BinBit(str, k)
  {
    ClearAll(b);
    var i := 0;
    while i < |str|
      invariant i <= |str| && b.Valid() && BinBelow(str, b.Bits(), i)
    {
      var on := str[|str| - 1 - i] as int % 2 == 1;
      BinNext(str, b.Bits(), i, on);
      SetIf(b, i, on);
      i := i + 1;
    }
  }
}
