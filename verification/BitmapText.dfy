// The text formats of bitmaps (src/common/bitstring.c): ranges, hexadecimal and binary masks.
module BitmapText {
  import opened BitWords
  import opened BitmapWords
  import opened Decimal

  // ---------------------------------------------------------------------------------------------
  // Ranges: "0-5,42".

  datatype Ranges = NoMore | Range(lo: nat, hi: nat, rest: Ranges)

  /** The last bit of the run of set bits that k is in. */
  function RunEnd(s: seq<bool>, k: nat): (e: nat)
    requires k < |s| && s[k]
    ensures k <= e < |s| && s[e] && (e + 1 < |s| ==> !s[e + 1]) && forall j :: k <= j <= e ==> s[j]
    decreases |s| - k
  {
    if k + 1 < |s| && s[k + 1] then RunEnd(s, k + 1) else k
  }

  function RunsFrom(s: seq<bool>, k: nat): (r: Ranges)
    requires k <= |s|
    decreases |s| - k
  {
    if k == |s| then NoMore
    else if !s[k] then RunsFrom(s, k + 1)
    else Range(k, RunEnd(s, k), RunsFrom(s, RunEnd(s, k) + 1))
  }

  /** A range in front of the text that follows it. */
  function Item(lo: nat, hi: nat, rest: string): (t: string)
  {
    Digits(lo) + (if lo == hi then rest else "-" + (Digits(hi) + rest))
  }

  /** As bit_fmt writes it, before it drops the last comma. */
  function Text(r: Ranges): (t: string)
  {
    if r.NoMore? then "" else Item(r.lo, r.hi, "," + Text(r.rest))
  }

  function Joined(r: Ranges): (t: string)
  {
    if r.NoMore? then "" else Item(r.lo, r.hi, if r.rest.NoMore? then "" else "," + Joined(r.rest))
  }

  /** bit_fmt. */
  function Fmt(s: seq<bool>): (t: string)
  {
    Joined(RunsFrom(s, 0))
  }

  lemma ItemCut(lo: nat, hi: nat, rest: string)
    requires rest != ""
    ensures Item(lo, hi, rest) != ""
    ensures Item(lo, hi, rest)[..|Item(lo, hi, rest)| - 1] == Item(lo, hi, rest[..|rest| - 1])
  {
    var t := Item(lo, hi, rest);
    if lo == hi {
      assert t[..|t| - 1] == Digits(lo) + rest[..|rest| - 1];
    } else {
      assert t[..|t| - 1] == Digits(lo) + ("-" + (Digits(hi) + rest[..|rest| - 1]));
    }
  }

  /** Dropping the last comma leaves commas between the ranges. */
  lemma {:induction false} TextIsJoined(r: Ranges)
    requires r.Range?
    ensures Text(r) != "" && Text(r)[..|Text(r)| - 1] == Joined(r)
  {
    var tail := "," + Text(r.rest);
    ItemCut(r.lo, r.hi, tail);
    if r.rest.Range? {
      TextIsJoined(r.rest);
      assert tail[..|tail| - 1] == "," + Text(r.rest)[..|Text(r.rest)| - 1];
    }
  }

  /** What snprintf leaves of a text in m bytes before the null byte. */
  function Cut(t: string, m: nat): (c: string)
  {
    if |t| <= m then t else t[..m]
  }

  /** Cutting after each piece is cutting the whole. */
  lemma CutAppend(t: string, item: string, m: nat)
    ensures Cut(Cut(t, m) + item, m) == Cut(t + item, m)
  {
    if |t| > m {
      assert (t[..m] + item)[..m] == t[..m] == (t + item)[..m];
    }
  }

  /** bit_fmt into len bytes: the last byte written is dropped, be it the last comma or not. */
  function FmtCut(s: seq<bool>, len: nat): (t: string)
    requires len >= 2 || (len == 1 && RunsFrom(s, 0).NoMore?)
  {
    var c := Cut(Text(RunsFrom(s, 0)), len - 1);
    if c == "" then "" else c[..|c| - 1]
  }

  /** The text is whole exactly when the buffer holds it with its last comma and the null byte. */
  lemma FmtCutWhole(s: seq<bool>, len: nat)
    requires len >= 2 || (len == 1 && RunsFrom(s, 0).NoMore?)
    ensures FmtCut(s, len) == Fmt(s) <==> len > |Text(RunsFrom(s, 0))|
    ensures FmtCut(s, len) <= Fmt(s)
  {
    var r := RunsFrom(s, 0);
    if r.Range? {
      TextIsJoined(r);
    }
  }

  /** bitfmt2int behind its first character: the number so far, and the start of a range or -1. */
  function Scan(t: string, sum: nat, start: int): (r: Ranges)
    requires start >= -1
  {
    if t == "" then Range(if start == -1 then sum else start, sum, NoMore)
    else if IsDigit(t[0]) then Scan(t[1..], 10 * sum + (t[0] - '0') as nat, start)
    else if t[0] == '-' then Scan(t[1..], 0, sum)
    else if t[0] == ',' then Range(if start == -1 then sum else start, sum, Scan(t[1..], 0, -1))
    else Scan(t[1..], sum, start)
  }

  /** bitfmt2int; a leading comma ends it. */
  function ParseRanges(t: string): (r: Ranges)
  {
    if t == "" || t[0] == ',' then NoMore else Scan(t, 0, -1)
  }

  /** inx2bitstr on a cleared bitmap: stops at a range out of bounds. */
  ghost function FromRanges(s: seq<bool>, r: Ranges): (res: (bool, seq<bool>))
    ensures |res.1| == |s|
    decreases r
  {
    if r.NoMore? then (true, s)
    else if r.lo >= |s| || r.hi >= |s| then (false, s)
    else FromRanges(Filled(s, r.lo, r.hi + 1, true), r.rest)
  }

  ghost function Clear(n: nat): (s: seq<bool>)
    ensures |s| == n && forall k :: 0 <= k < n ==> !s[k]
  {
    if n == 0 then [] else Clear(n - 1) + [false]
  }

  /** bit_unfmt: an empty string leaves the bitmap alone. */
  ghost function Unfmt(s: seq<bool>, t: string): (res: (bool, seq<bool>))
  {
    if t == "" then (true, s) else FromRanges(Clear(|s|), ParseRanges(t))
  }

  lemma {:induction false} ScanDigits(n: nat, rest: string, start: int)
    requires start >= -1
    ensures Scan(Digits(n) + rest, 0, start) == Scan(rest, n, start)
  {
    var d := '0' + (n % 10) as char;
    assert ([d] + rest)[1..] == rest;
    if n < 10 {
      assert Digits(n) + rest == [d] + rest;
    } else {
      assert Digits(n) + rest == Digits(n / 10) + ([d] + rest);
      ScanDigits(n / 10, [d] + rest, start);
    }
  }

  lemma {:induction false} ScanJoined(r: Ranges)
    requires r.Range?
    ensures Scan(Joined(r), 0, -1) == r
  {
    var rest := if r.rest.NoMore? then "" else "," + Joined(r.rest);
    if r.rest.Range? {
      ScanJoined(r.rest);
      assert rest[1..] == Joined(r.rest);
    }
    if r.lo == r.hi {
      ScanDigits(r.lo, rest, -1);
    } else {
      var tail := "-" + (Digits(r.hi) + rest);
      ScanDigits(r.lo, tail, -1);
      assert tail[1..] == Digits(r.hi) + rest;
      ScanDigits(r.hi, rest, r.lo);
    }
  }

  lemma JoinedStart(r: Ranges)
    requires r.Range?
    ensures Joined(r) != "" && Joined(r)[0] != ','
  {
    assert Joined(r)[0] == Digits(r.lo)[0];
  }

  /** acc has the bits of s below k. */
  ghost predicate Below(s: seq<bool>, acc: seq<bool>, k: nat)
  {
    |acc| == |s| && forall j :: 0 <= j < |s| ==> acc[j] == (j < k && s[j])
  }

  lemma {:induction false} RangesGiveBits(s: seq<bool>, acc: seq<bool>, k: nat)
    requires k <= |s| && Below(s, acc, k)
    ensures FromRanges(acc, RunsFrom(s, k)) == (true, s)
    decreases |s| - k
  {
    if k == |s| {
      assert acc == s;
    } else if !s[k] {
      RangesGiveBits(s, acc, k + 1);
    } else {
      var e := RunEnd(s, k);
      var acc' := Filled(acc, k, e + 1, true);
      forall j | 0 <= j < |s| ensures acc'[j] == (j < e + 1 && s[j]) {
        FilledAt(acc, k, e + 1, true, j);
      }
      RangesGiveBits(s, acc', e + 1);
    }
  }

  lemma {:induction false} NoRuns(s: seq<bool>, k: nat)
    requires k <= |s|
    ensures RunsFrom(s, k).NoMore? <==> forall j :: k <= j < |s| ==> !s[j]
    decreases |s| - k
  {
    if k < |s| && !s[k] { NoRuns(s, k + 1); }
  }

  /** Reading back what bit_fmt wrote into a bitmap s0 of the same size gives s, unless s is clear and s0 is
      not: the text of a clear bitmap is empty, and leaves s0 as it is. */
  lemma RangesRoundTrip(s: seq<bool>, s0: seq<bool>)
    requires |s0| == |s|
    ensures Unfmt(s0, Fmt(s)) == (true, s) <==> s0 == s || exists k :: 0 <= k < |s| && s[k]
  {
    var r := RunsFrom(s, 0);
    NoRuns(s, 0);
    if r.Range? {
      JoinedStart(r);
      ScanJoined(r);
      RangesGiveBits(s, Clear(|s|), 0);
    }
  }

  /** The text of a clear bitmap, read into one with a bit set. */
  lemma EmptyTextKeepsBits()
    ensures Fmt([false]) == "" && Unfmt([true], Fmt([false])) == (true, [true])
  {
    NoRuns([false], 0);
  }

  // ---------------------------------------------------------------------------------------------
  // Hexadecimal masks: "0x0123ABC", most significant digit first.

  predicate Has(s: seq<bool>, k: nat)
  {
    k < |s| && s[k]
  }

  function Nibble(s: seq<bool>, j: nat): (v: nat)
    ensures v < 16
  {
    (if Has(s, 4 * j) then 1 else 0) + (if Has(s, 4 * j + 1) then 2 else 0)
    + (if Has(s, 4 * j + 2) then 4 else 0) + (if Has(s, 4 * j + 3) then 8 else 0)
  }

  function HexChar(v: nat): (c: char)
    requires v < 16
  {
    if v <= 9 then '0' + v as char else 'A' + (v - 10) as char
  }

  predicate IsHex(c: char)
  {
    IsDigit(c) || 'A' <= c <= 'F' || 'a' <= c <= 'f'
  }

  /** The value of a digit; other characters count as zero. */
  function HexValue(c: char): (v: nat)
    ensures v < 16
  {
    if IsDigit(c) then (c - '0') as nat
    else if 'A' <= c <= 'F' then (c - 'A') as nat + 10
    else if 'a' <= c <= 'f' then (c - 'a') as nat + 10
    else 0
  }

  /** The digits j - 1, ..., 0. */
  function HexDigits(s: seq<bool>, j: nat): (t: string)
    ensures |t| == j
  {
    if j == 0 then "" else [HexChar(Nibble(s, j - 1))] + HexDigits(s, j - 1)
  }

  function FmtHex(s: seq<bool>): (t: string)
  {
    "0x" + HexDigits(s, (|s| + 3) / 4)
  }

  /** What bit_unfmt_hexmask reads: past a "0x", if there is one. */
  function HexBody(t: string): (u: string)
  {
    if |t| >= 2 && t[0] == '0' && t[1] == 'x' then t[2..] else t
  }

  /** Bit k of a mask whose digits are t. */
  predicate HexBit(t: string, k: nat)
  {
    k / 4 < |t| && Bit(HexValue(t[|t| - 1 - k / 4]), k % 4)
  }

  predicate AllHex(t: string)
  {
    forall i :: 0 <= i < |t| ==> IsHex(t[i])
  }

  lemma {:induction false} HexDigitAt(s: seq<bool>, c: nat, j: nat)
    requires j < c
    ensures HexDigits(s, c)[c - 1 - j] == HexChar(Nibble(s, j))
  {
    if j < c - 1 { HexDigitAt(s, c - 1, j); }
  }

  lemma HexCharValue(v: nat)
    requires v < 16
    ensures HexValue(HexChar(v)) == v && IsHex(HexChar(v))
  {
  }

  lemma BitsOf16(v: nat, x: nat, y: nat, z: nat, w: nat)
    requires x < 2 && y < 2 && z < 2 && w < 2 && v == x + 2 * y + 4 * z + 8 * w
    ensures Bit(v, 0) == (x == 1) && Bit(v, 1) == (y == 1) && Bit(v, 2) == (z == 1) && Bit(v, 3) == (w == 1)
  {
    assert v / 2 == y + 2 * z + 4 * w;
    assert v / 2 / 2 == z + 2 * w;
    assert v / 2 / 2 / 2 == w;
    assert Bit(v / 2 / 2 / 2, 0) == (w == 1);
    assert Bit(v / 2 / 2, 1) == (w == 1) && Bit(v / 2 / 2, 0) == (z == 1);
    assert Bit(v / 2, 2) == (w == 1) && Bit(v / 2, 1) == (z == 1);
  }

  lemma NibbleBits(s: seq<bool>, j: nat, b: nat)
    requires b < 4
    ensures Bit(Nibble(s, j), b) == Has(s, 4 * j + b)
  {
    BitsOf16(Nibble(s, j), if Has(s, 4 * j) then 1 else 0, if Has(s, 4 * j + 1) then 1 else 0,
             if Has(s, 4 * j + 2) then 1 else 0, if Has(s, 4 * j + 3) then 1 else 0);
  }

  lemma HexBitOf(s: seq<bool>, c: nat, j: nat, b: nat)
    requires j < c && b < 4
    ensures HexBit(HexDigits(s, c), 4 * j + b) == Has(s, 4 * j + b)
  {
    HexDigitAt(s, c, j);
    HexCharValue(Nibble(s, j));
    NibbleBits(s, j, b);
    assert (4 * j + b) / 4 == j && (4 * j + b) % 4 == b;
  }

  /** For every size, also those not divisible by 4: the mask of s is valid, and its bits are those of s. */
  lemma HexRoundTrip(s: seq<bool>)
    ensures AllHex(HexBody(FmtHex(s)))
    ensures forall k :: 0 <= k < |s| ==> HexBit(HexBody(FmtHex(s)), k) == s[k]
  {
    var c := (|s| + 3) / 4;
    var t := HexDigits(s, c);
    assert HexBody(FmtHex(s)) == t;
    forall i | 0 <= i < |t| ensures IsHex(t[i]) {
      HexDigitAt(s, c, c - 1 - i);
      HexCharValue(Nibble(s, c - 1 - i));
    }
    forall k | 0 <= k < |s| ensures HexBit(t, k) == s[k] {
      HexBitOf(s, c, k / 4, k % 4);
      assert k == 4 * (k / 4) + k % 4;
    }
  }

  // ---------------------------------------------------------------------------------------------
  // Binary masks: "0001010", most significant digit first.

  function BinDigits(s: seq<bool>, j: nat): (t: string)
    requires j <= |s|
    ensures |t| == j
  {
    if j == 0 then "" else [if s[j - 1] then '1' else '0'] + BinDigits(s, j - 1)
  }

  function FmtBin(s: seq<bool>): (t: string)
  {
    BinDigits(s, |s|)
  }

  /** Bit k of a mask: the lowest bit of the character. */
  predicate BinBit(t: string, k: nat)
  {
    k < |t| && t[|t| - 1 - k] as int % 2 == 1
  }

  lemma {:induction false} BinDigitAt(s: seq<bool>, c: nat, j: nat)
    requires j < c <= |s|
    ensures BinDigits(s, c)[c - 1 - j] == if s[j] then '1' else '0'
  {
    if j < c - 1 { BinDigitAt(s, c - 1, j); }
  }

  lemma BinRoundTrip(s: seq<bool>)
    ensures forall k :: 0 <= k < |s| ==> BinBit(FmtBin(s), k) == s[k]
  {
    forall k | 0 <= k < |s| ensures BinBit(FmtBin(s), k) == s[k] {
      BinDigitAt(s, |s|, k);
    }
  }
}
