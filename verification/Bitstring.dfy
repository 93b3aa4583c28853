// Bitmaps (src/common/bitstring.c): arrays of 32-bit words, with fast paths for whole words and bytes,
// proved against plain sequences of booleans.
module Bitstring {
  import opened BitWords
  import opened BitmapWeight
  import opened BitmapWords

  // ---------------------------------------------------------------------------------------------
  // Bitmaps as sequences.

  /** How many of s[lo..hi] are set. */
  function CountTrue(s: seq<bool>, lo: nat, hi: nat): (n: nat)
    requires hi <= |s|
    ensures n <= if lo <= hi then hi - lo else 0
    decreases hi
  {
    if hi <= lo then 0 else CountTrue(s, lo, hi - 1) + if s[hi - 1] then 1 else 0
  }

  lemma {:induction false} CountJoin(s: seq<bool>, lo: nat, mid: nat, hi: nat)
    requires lo <= mid <= hi <= |s|
    ensures CountTrue(s, lo, hi) == CountTrue(s, lo, mid) + CountTrue(s, mid, hi)
    decreases hi
  {
    if mid < hi { CountJoin(s, lo, mid, hi - 1); }
  }

  ghost predicate IsClear(s: seq<bool>, lo: int, hi: int)
  {
    forall k :: 0 <= k < |s| && lo <= k < hi ==> !s[k]
  }

  /** n clear bits from k on. */
  ghost predicate ClearRun(s: seq<bool>, k: int, n: nat)
  {
    0 <= k && k + n <= |s| && IsClear(s, k, k + n)
  }

  ghost predicate NoRun(s: seq<bool>, n: nat, lo: int, hi: int)
  {
    forall k :: lo <= k < hi ==> !ClearRun(s, k, n)
  }

  /** No run of n starts at or before a bit that is set, if none starts before the cnt < n bits before it. */
  lemma Blocked(s: seq<bool>, n: nat, lo: int, bit: nat, cnt: nat)
    requires cnt < n && bit < |s| && s[bit] && NoRun(s, n, lo, bit - cnt)
    ensures NoRun(s, n, lo, bit + 1)
  {
    forall k | lo <= k < bit + 1 ensures !ClearRun(s, k, n) {
      if k >= bit - cnt && k >= 0 && k + n <= |s| { assert k <= bit < k + n; }
    }
  }

  /** Fewer than n bits are left. */
  lemma TooShort(s: seq<bool>, n: nat, lo: int, cnt: nat)
    requires cnt < n && NoRun(s, n, lo, |s| - cnt)
    ensures forall k :: lo <= k ==> !ClearRun(s, k, n)
  {
  }

  /** The lowest n of the bits set. */
  ghost predicate Picks(s: seq<bool>, r: seq<bool>, n: nat)
  {
    |r| == |s| && forall k :: 0 <= k < |s| ==> r[k] == (s[k] && CountTrue(s, 0, k) < n)
  }

  /** How many of s[lo..hi] are set in t too. */
  function CountBoth(s: seq<bool>, t: seq<bool>, lo: nat, hi: nat): (n: nat)
    requires hi <= |s| == |t|
    decreases hi
  {
    if hi <= lo then 0 else CountBoth(s, t, lo, hi - 1) + if s[hi - 1] && t[hi - 1] then 1 else 0
  }

  lemma {:induction false} CountBothJoin(s: seq<bool>, t: seq<bool>, lo: nat, mid: nat, hi: nat)
    requires lo <= mid <= hi <= |s| == |t|
    ensures CountBoth(s, t, lo, hi) == CountBoth(s, t, lo, mid) + CountBoth(s, t, mid, hi)
    decreases hi
  {
    if mid < hi { CountBothJoin(s, t, lo, mid, hi - 1); }
  }

  lemma {:induction false} CountClear(s: seq<bool>, lo: nat, hi: nat)
    requires hi <= |s| && IsClear(s, lo, hi)
    ensures CountTrue(s, lo, hi) == 0
    decreases hi
  {
    if lo < hi { CountClear(s, lo, hi - 1); }
  }

  /** r has the bits of s below bit. */
  ghost predicate PickedTo(s: seq<bool>, r: seq<bool>, bit: nat)
  {
    |r| == |s| && forall k :: 0 <= k < |s| ==> r[k] == (k < bit && s[k])
  }

  lemma SkipClear(s: seq<bool>, r: seq<bool>, bit: nat, next: nat)
    requires PickedTo(s, r, bit) && bit <= next <= |s| && IsClear(s, bit, next)
    ensures PickedTo(s, r, next) && CountTrue(s, 0, next) == CountTrue(s, 0, bit)
  {
    CountJoin(s, 0, bit, next);
    CountClear(s, bit, next);
  }

  lemma PickedAll(s: seq<bool>, r: seq<bool>, bit: nat, n: nat)
    requires bit <= |s| && PickedTo(s, r, bit) && CountTrue(s, 0, bit) == n
    ensures Picks(s, r, n) && n <= CountTrue(s, 0, |s|)
  {
    CountJoin(s, 0, bit, |s|);
    forall k | 0 <= k < |s| ensures r[k] == (s[k] && CountTrue(s, 0, k) < n) {
      if k < bit {
        CountJoin(s, 0, k + 1, bit);
      } else {
        CountJoin(s, 0, bit, k);
      }
    }
  }

  // ---------------------------------------------------------------------------------------------
  // Words within the sequence.

  lemma ViewBit(ws: seq<nat>, n: nat, i: nat, j: nat)
    requires i < |ws| && j < 32 && 32 * i + j < n <= 32 * |ws|
    ensures View(ws, n)[32 * i + j] == Bit(ws[i], j)
  {
    ViewAt(ws, n, 32 * i + j);
    assert (32 * i + j) / 32 == i && (32 * i + j) % 32 == j;
  }

  lemma {:induction false} OnesOfWord(ws: seq<nat>, n: nat, i: nat, j: nat)
    requires i < |ws| && j <= 32 && 32 * i + j <= n <= 32 * |ws|
    ensures CountTrue(View(ws, n), 32 * i, 32 * i + j) == Ones(ws[i], j)
    decreases j
  {
    if j > 0 {
      OnesOfWord(ws, n, i, j - 1);
      ViewBit(ws, n, i, j - 1);
    }
  }

  lemma {:induction false} OnesOfBoth(ws: seq<nat>, vs: seq<nat>, s: seq<bool>, t: seq<bool>, i: nat, j: nat, a: nat)
    requires |s| == |t| <= 32 * |ws| && i < |ws| == |vs| && j <= 32 && 32 * i + j <= |s|
    requires s == View(ws, |s|) && t == View(vs, |s|) && a == And(ws[i], vs[i])
    ensures CountBoth(s, t, 32 * i, 32 * i + j) == Ones(a, j)
    decreases j
  {
    if j > 0 {
      OnesOfBoth(ws, vs, s, t, i, j - 1, a);
      BothAt(ws, vs, |s|, i, j - 1, a);
    }
  }

  lemma CountBothWord(ws: seq<nat>, vs: seq<nat>, s: seq<bool>, t: seq<bool>, i: nat, a: nat)
    requires |s| == |t| <= 32 * |ws| && i < |ws| == |vs| && 32 * i + 32 <= |s|
    requires s == View(ws, |s|) && t == View(vs, |s|) && a == And(ws[i], vs[i])
    ensures CountBoth(s, t, 0, 32 * i + 32) == CountBoth(s, t, 0, 32 * i) + Ones(a, 32)
  {
    OnesOfBoth(ws, vs, s, t, i, 32, a);
    CountBothJoin(s, t, 0, 32 * i, 32 * i + 32);
  }

  lemma BothAt(ws: seq<nat>, vs: seq<nat>, n: nat, i: nat, j: nat, a: nat)
    requires i < |ws| == |vs| && j < 32 && 32 * i + j < n <= 32 * |ws| && a == And(ws[i], vs[i])
    ensures Bit(a, j) == (View(ws, n)[32 * i + j] && View(vs, n)[32 * i + j])
  {
    ViewBit(ws, n, i, j);
    ViewBit(vs, n, i, j);
    BitAnd(ws[i], vs[i], j);
  }

  lemma PickWord(ws: seq<nat>, vs: seq<nat>, n: nat, i: nat)
    requires |ws| == |vs| && i < |ws| && 32 * i + 32 <= n <= 32 * |ws| && PickedTo(View(ws, n), View(vs, n), 32 * i)
    ensures PickedTo(View(ws, n), View(vs[i := ws[i]], n), 32 * i + 32)
  {
    var s, r, r' := View(ws, n), View(vs, n), View(vs[i := ws[i]], n);
    forall k | 0 <= k < n ensures r'[k] == (k < 32 * i + 32 && s[k]) {
      ViewAt(ws, n, k);
      ViewAt(vs, n, k);
      ViewAt(vs[i := ws[i]], n, k);
      assert r[k] == (k < 32 * i && s[k]);
    }
  }

  /** A word that is zero has no bit set. */
  lemma ZeroWord(ws: seq<nat>, n: nat, i: nat)
    requires n <= 32 * |ws| && i < |ws| && ws[i] == 0
    ensures IsClear(View(ws, n), 32 * i, 32 * i + 32)
  {
    forall k | 0 <= k < n && 32 * i <= k < 32 * i + 32 ensures !View(ws, n)[k] {
      ViewAt(ws, n, k);
      BitOfZero(k % 32);
    }
  }

  lemma ZeroView(ws: seq<nat>, n: nat)
    requires n <= 32 * |ws| && forall i :: 0 <= i < |ws| ==> ws[i] == 0
    ensures IsClear(View(ws, n), 0, n)
  {
    forall k | 0 <= k < n ensures !View(ws, n)[k] {
      ViewAt(ws, n, k);
      BitOfZero(k % 32);
    }
  }

  method Weight(w: nat) returns (n: nat)
    ensures n == Ones(w, 32)
  {
    HweightIsOnes(w);
    n := Hweight(w);
  }

  lemma IsClearJoin(s: seq<bool>, lo: int, mid: int, hi: int)
    requires IsClear(s, lo, mid) && IsClear(s, mid, hi)
    ensures IsClear(s, lo, hi)
  {
  }

  class Bitmap {
    const nbits: nat
    const words: array<nat>

    ghost predicate Valid()
      reads words
    {
      nbits <= 32 * words.Length < nbits + 32 && Words(words[..])
    }

    /** The bits up to the length. */
    ghost function Bits(): (s: seq<bool>)
      requires Valid()
      reads words
    {
      View(words[..], nbits)
    }

    /** All bits, also those of the last word past the length. */
    ghost function Raw(): (s: seq<bool>)
      requires Valid()
      reads words
      ensures |s| == 32 * words.Length && nbits <= |s|
    {
      View(words[..], 32 * words.Length)
    }

    /** bit_alloc. */
    constructor (n: nat)
      ensures Valid() && fresh(words) && nbits == n && IsClear(Raw(), 0, 32 * words.Length)
    {
      nbits := n;
      words := new nat[(n + 31) / 32](_ => 0);
      new;
      ZeroView(words[..], 32 * words.Length);
    }

    /** The bits up to the length are among all bits. */
    lemma BitsAreRaw()
      requires Valid()
      ensures Bits() == Raw()[..nbits]
    {
      forall k | 0 <= k < nbits ensures Bits()[k] == Raw()[k] {
        ViewAt(words[..], nbits, k);
        ViewAt(words[..], 32 * words.Length, k);
      }
    }

    /** bit_test. */
    method Test(bit: nat) returns (isSet: bool)
      requires Valid() && bit < nbits
      ensures isSet == Bits()[bit]
    {
      AndPow2(words[bit / 32], bit % 32);
      ViewAt(words[..], nbits, bit);
      isSet := And(words[bit / 32], Pow2(bit % 32)) != 0;
    }

    /** Stores a word that differs from the old one in the bits lo, ..., hi - 1, which are v. */
    method Store(i: nat, w: nat, lo: nat, hi: nat, v: bool)
      requires Valid() && i < words.Length && lo <= hi <= 32 && WordFills(words[i], w, lo, hi, v)
      modifies words
      ensures Valid() && Raw() == Filled(old(Raw()), 32 * i + lo, 32 * i + hi, v)
    {
      PutFills(words[..], i, w, lo, hi, v, 32 * words.Length);
      words[i] := w;
      assert words[..] == old(words[..])[i := w];
    }

    /** bit_set and bit_clear. */
    method Set(bit: nat, v: bool)
      requires Valid() && bit < nbits
      modifies words
      ensures Valid() && Raw() == old(Raw())[bit := v]
    {
      var i, j := bit / 32, bit % 32;
      var mask := Pow2(j);
      BitRangeOfBit(j);
      PutSpan(words[i], j, j + 1, v, mask);
      Store(i, if v then Or(words[i], mask) else And(words[i], Not(mask)), j, j + 1, v);
      assert bit == 32 * i + j;
    }

    /** Sets byte b to 0xff or to 0; byte j of a word is its bits 8j, ..., 8j + 7. */
    method FillByte(b: nat, v: bool)
      requires Valid() && 8 * b + 8 <= 32 * words.Length
      modifies words
      ensures Valid() && Raw() == Filled(old(Raw()), 8 * b, 8 * b + 8, v)
    {
      var i, lo := b / 4, 8 * (b % 4);
      var mask := BitRange(lo, lo + 8);
      PutSpan(words[i], lo, lo + 8, v, mask);
      Store(i, Put(words[i], mask, v), lo, lo + 8, v);
      assert 8 * b == 32 * i + lo;
    }

    /** memset of the bytes from, ..., to - 1. */
    method FillBytes(from: nat, to: nat, v: bool)
      requires Valid() && from <= to && 8 * to <= 32 * words.Length
      modifies words
      ensures Valid() && Raw() == Filled(old(Raw()), 8 * from, 8 * to, v)
    {
      var b := from;
      while b < to
        invariant from <= b <= to && Valid() && Raw() == Filled(old(Raw()), 8 * from, 8 * b, v)
      {
        FilledUp(old(Raw()), 8 * from, 8 * b, 8 * b + 8, v);
        FillByte(b, v);
        b := b + 1;
      }
    }

    /** The bits of a partial first byte. */
    method FillFront(first: nat, last: nat, v: bool) returns (start: nat)
      requires Valid() && first < nbits && last < nbits
      modifies words
      ensures first <= start <= nbits && (start <= last + 1 || start == first) && (start > last || start % 8 == 0)
      ensures Valid() && Raw() == Filled(old(Raw()), first, start, v)
    {
      start := first;
      while start <= last && start % 8 > 0
        invariant first <= start <= nbits && (start <= last + 1 || start == first)
        invariant Valid() && Raw() == Filled(old(Raw()), first, start, v)
      {
        Set(start, v);
        start := start + 1;
      }
    }

    /** The bits of a partial last byte. */
    method FillBack(start: nat, last: nat, v: bool) returns (stop: int)
      requires Valid() && last < nbits
      modifies words
      ensures -1 <= stop <= last && (start - 1 <= stop || stop == last) && (stop < start || (stop + 1) % 8 == 0)
      ensures Valid() && Raw() == Filled(old(Raw()), stop + 1, last + 1, v)
    {
      stop := last;
      while stop >= start && (stop + 1) % 8 > 0
        invariant -1 <= stop <= last && (start - 1 <= stop || stop == last)
        invariant Valid() && Raw() == Filled(old(Raw()), stop + 1, last + 1, v)
      {
        FilledDown(old(Raw()), stop, stop + 1, last + 1, v);
        Set(stop, v);
        stop := stop - 1;
      }
    }

    /** What is left between partial bytes. */
    method FillMiddle(start: nat, stop: int, v: bool)
      requires Valid() && -1 <= stop < nbits && (stop < start || (start % 8 == 0 && (stop + 1) % 8 == 0))
      modifies words
      ensures Valid() && Raw() == if stop >= start then Filled(old(Raw()), start, stop + 1, v) else old(Raw())
    {
      if stop > start {
        var from, len := start / 8, (stop - start + 1) / 8;
        assert 8 * from == start && 8 * (from + len) == stop + 1;
        FillBytes(from, from + len, v);
      }
    }

    /** bit_nset and bit_nclear: exactly the bits first, ..., last change. */
    method FillRange(first: nat, last: nat, v: bool)
      requires Valid() && first < nbits && last < nbits
      modifies words
      ensures Valid() && Raw() == Filled(old(Raw()), first, last + 1, v)
    {
      ghost var was := Raw();
      var start := FillFront(first, last, v);
      var stop := FillBack(start, last, v);
      FilledParts(was, first, start, stop, last, v);
      FillMiddle(start, stop, v);
    }

    // -------------------------------------------------------------------------------------------
    // Searches.

    /** bit_ffs: the first bit set, or -1; bits past the length do not count. */
    method FirstSet() returns (value: int)
      requires Valid()
      ensures -1 <= value < nbits
      ensures value >= 0 ==> Bits()[value] && IsClear(Bits(), 0, value)
      ensures value == -1 ==> IsClear(Bits(), 0, nbits)
    {
      var bit := 0;
      while bit < nbits
        invariant bit % 32 == 0 && IsClear(Bits(), 0, bit)
      {
        var word := bit / 32;
        if words[word] == 0 {
          ZeroWord(words[..], nbits, word);
          IsClearJoin(Bits(), 0, bit, bit + 32);
          bit := bit + 32;
        } else {
          while bit < nbits && bit / 32 == word
            invariant word * 32 <= bit <= word * 32 + 32 && IsClear(Bits(), 0, bit)
          {
            var found := Test(bit);
            if found { return bit; }
            bit := bit + 1;
          }
          if bit % 32 != 0 { return -1; }
        }
      }
      value := -1;
    }

    /** Looks for the last bit set from `from` down to `to`. */
    method ScanDown(from: int, to: nat) returns (value: int)
      requires Valid() && to - 1 <= from < nbits
      ensures value == -1 || (to <= value <= from && Bits()[value] && IsClear(Bits(), value + 1, from + 1))
      ensures value == -1 ==> IsClear(Bits(), to, from + 1)
    {
      var bit := from;
      while bit >= to
        invariant to - 1 <= bit <= from && IsClear(Bits(), bit + 1, from + 1)
      {
        var found := Test(bit);
        if found { return bit; }
        bit := bit - 1;
      }
      value := -1;
    }

    /** bit_fls: the last bit set, or -1; a partial last word bit by bit, then words that are zero at a time. */
    method LastSet() returns (value: int)
      requires Valid()
      ensures -1 <= value < nbits
      ensures value >= 0 ==> Bits()[value] && IsClear(Bits(), value + 1, nbits)
      ensures value == -1 ==> IsClear(Bits(), 0, nbits)
    {
      var word := nbits / 32;
      value := ScanDown(nbits - 1, 32 * word);
      if value != -1 { return; }
      while word > 0
        invariant 32 * word <= nbits && IsClear(Bits(), 32 * word, nbits)
      {
        if words[word - 1] != 0 {
          value := ScanDown(32 * word - 1, 0);
          return;
        }
        ZeroWord(words[..], nbits, word - 1);
        IsClearJoin(Bits(), 32 * (word - 1), 32 * word, nbits);
        word := word - 1;
      }
    }

    /** The first loop of bit_noc: runs that start at `from` or later. */
    method ClearBitsFrom(n: nat, from: nat) returns (value: int)
      requires Valid() && 0 < n && from <= nbits
      ensures value >= 0 ==> ClearRun(Bits(), value, n)
      ensures value < 0 ==> value == -1 && forall k :: from <= k ==> !ClearRun(Bits(), k, n)
    {
      ghost var s := Bits();
      var bit, cnt := from, 0;
      while bit < nbits
        invariant from <= bit <= nbits && cnt <= bit - from && cnt < n && IsClear(s, bit - cnt, bit)
        invariant NoRun(s, n, from, bit - cnt)
      {
        var occupied := Test(bit);
        if occupied {
          Blocked(s, n, from, bit, cnt);
          cnt := 0;
        } else {
          cnt := cnt + 1;
          if cnt >= n { return bit - (cnt - 1); }
        }
        bit := bit + 1;
      }
      TooShort(s, n, from, cnt);
      value := -1;
    }

    /** bit_noc: n clear bits in a row, first looked for from the seed on; -1 only if there are none. */
    method ClearBits(n: nat, seed: nat) returns (value: int)
      requires Valid() && 0 < n <= nbits
      ensures value >= 0 ==> ClearRun(Bits(), value, n)
      ensures value < 0 ==> value == -1 && forall k :: !ClearRun(Bits(), k, n)
    {
      ghost var s := Bits();
      var from := if seed + n >= nbits then nbits else seed;
      value := ClearBitsFrom(n, from);
      if value >= 0 { return; }
      var bit, cnt := 0, 0;
      while bit < nbits
        invariant bit <= nbits && cnt <= bit && cnt < n && IsClear(s, bit - cnt, bit) && NoRun(s, n, 0, bit - cnt)
        invariant value == -1
      {
        var occupied := Test(bit);
        if occupied {
          Blocked(s, n, 0, bit, cnt);
          if bit >= from { return; }
          cnt := 0;
        } else {
          cnt := cnt + 1;
          if cnt >= n { return bit - (cnt - 1); }
        }
        bit := bit + 1;
      }
      TooShort(s, n, 0, cnt);
    }

    // -------------------------------------------------------------------------------------------
    // Counts.

    /** The bits bit, ..., end - 1 one by one. */
    method CountBits(bit: nat, end: nat) returns (count: nat)
      requires Valid() && bit <= end <= nbits
      ensures count == CountTrue(Bits(), bit, end)
    {
      count := 0;
      var b := bit;
      while b < end
        invariant bit <= b <= end && count == CountTrue(Bits(), bit, b)
      {
        var found := Test(b);
        if found { count := count + 1; }
        b := b + 1;
      }
    }

    lemma CountWord(start: nat, word: nat)
      requires Valid() && start <= 32 * word && 32 * word + 32 <= nbits
      ensures CountTrue(Bits(), start, 32 * word + 32) == CountTrue(Bits(), start, 32 * word) + Ones(words[word], 32)
    {
      OnesOfWord(words[..], nbits, word, 32);
      CountJoin(Bits(), start, 32 * word, 32 * word + 32);
    }

    /** Whole words from the aligned `start` on; at `bit` fewer than 32 bits are left. */
    method CountWords(start: nat, end: nat) returns (count: nat, bit: nat)
      requires Valid() && start % 32 == 0 && start <= end <= nbits
      ensures start <= bit <= end < bit + 32 && count == CountTrue(Bits(), start, bit)
    {
      var word := start / 32;
      count := 0;
      while 32 * word + 32 <= end
        invariant start <= 32 * word <= end && count == CountTrue(Bits(), start, 32 * word)
      {
        CountWord(start, word);
        var ones := Weight(words[word]);
        count := count + ones;
        word := word + 1;
      }
      bit := 32 * word;
    }

    /** bit_set_count. */
    method SetCount() returns (count: nat)
      requires Valid()
      ensures count == CountTrue(Bits(), 0, nbits)
    {
      var whole, bit := CountWords(0, nbits);
      var rest := CountBits(bit, nbits);
      CountJoin(Bits(), 0, bit, nbits);
      count := whole + rest;
    }

    /** bit_set_count_range: start up to the end of its word, whole words, and the rest. */
    method SetCountRange(start: nat, last: int) returns (count: nat)
      requires Valid() && start < nbits
      ensures
        var end := if last < nbits then last else nbits;
        count == if end <= start then 0 else CountTrue(Bits(), start, end)
    {
      var end := if last < nbits then last else nbits;
      if end <= start { return 0; }
      var eow := (start + 31) / 32 * 32;
      var stop := if end < eow then end else eow;
      var head := CountBits(start, stop);
      var whole, bit := 0, stop;
      if stop == eow { whole, bit := CountWords(stop, end); }
      var rest := CountBits(bit, end);
      CountJoin(Bits(), start, stop, end);
      CountJoin(Bits(), stop, bit, end);
      count := head + whole + rest;
    }

    /** bit_clear_count. */
    method ClearCount() returns (count: nat)
      requires Valid()
      ensures count == nbits - CountTrue(Bits(), 0, nbits)
    {
      var ones := SetCount();
      count := nbits - ones;
    }

    /** One word of bit_overlap. */
    method OverlapWord(other: Bitmap, word: nat) returns (ones: nat)
      requires Valid() && other.Valid() && other.nbits == nbits && 32 * word + 32 <= nbits
      ensures CountBoth(Bits(), other.Bits(), 0, 32 * word + 32) == CountBoth(Bits(), other.Bits(), 0, 32 * word) + ones
    {
      var both := And(words[word], other.words[word]);
      CountBothWord(words[..], other.words[..], Bits(), other.Bits(), word, both);
      ones := Weight(both);
    }

    /** bit_overlap: how many bits are set in both. */
    method Overlap(other: Bitmap) returns (count: nat)
      requires Valid() && other.Valid() && other.nbits == nbits
      ensures count == CountBoth(Bits(), other.Bits(), 0, nbits)
    {
      count := 0;
      ghost var s, t := Bits(), other.Bits();
      var word := 0;
      while 32 * word + 32 <= nbits
        invariant 32 * word <= nbits && count == CountBoth(s, t, 0, 32 * word)
      {
        var ones := OverlapWord(other, word);
        count := count + ones;
        word := word + 1;
      }
      var bit := 32 * word;
      while bit < nbits
        invariant bit <= nbits && count == CountBoth(s, t, 0, bit)
      {
        var here := Test(bit);
        var there := other.Test(bit);
        if here && there { count := count + 1; }
        bit := bit + 1;
      }
    }

    // -------------------------------------------------------------------------------------------
    // Picking bits.

    /** Copies a whole word. */
    method CopyWord(from: Bitmap, word: nat)
      requires Valid() && from.Valid() && from.nbits == nbits && 32 * word + 32 <= nbits && words != from.words
      requires PickedTo(from.Bits(), Bits(), 32 * word)
      modifies words
      ensures Valid() && PickedTo(from.Bits(), Bits(), 32 * word + 32)
    {
      PickWord(from.words[..], words[..], nbits, word);
      words[word] := from.words[word];
      assert words[..] == old(words[..])[word := from.words[word]];
    }

    /** Copies the bits set one by one, from bit on, until n have been picked. */
    method CopyBits(from: Bitmap, start: nat, picked: nat, n: nat) returns (bit: nat, count: nat)
      requires Valid() && from.Valid() && from.nbits == nbits && start <= nbits && words != from.words
      requires PickedTo(from.Bits(), Bits(), start) && picked == CountTrue(from.Bits(), 0, start) && picked <= n
      modifies words
      ensures Valid() && start <= bit <= nbits && PickedTo(from.Bits(), Bits(), bit)
      ensures count == CountTrue(from.Bits(), 0, bit) && count <= n && (bit == nbits || count == n)
    {
      bit, count := start, picked;
      ghost var s := from.Bits();
      while bit < nbits && count < n
        invariant start <= bit <= nbits && Valid() && from.Bits() == s && PickedTo(s, Bits(), bit)
        invariant count == CountTrue(s, 0, bit) && count <= n
      {
        var found := from.Test(bit);
        if found {
          BitsAreRaw();
          ghost var was := Bits();
          Set(bit, true);
          BitsAreRaw();
          assert Bits() == was[bit := true];
          count := count + 1;
        }
        bit := bit + 1;
      }
    }

    /** One word, or all the rest bit by bit: picks into r, which has picked count bits so far. */
    method PickMore(r: Bitmap, word: nat, picked: nat, n: nat) returns (bit: nat, count: nat)
      requires Valid() && r.Valid() && r.nbits == nbits && r.words != words && 32 * word < nbits && picked < n
      requires picked == CountTrue(Bits(), 0, 32 * word) && PickedTo(Bits(), r.Bits(), 32 * word)
      modifies r.words
      ensures Valid() && r.Valid() && 32 * word < bit <= nbits && (bit == nbits || count == n || bit == 32 * word + 32)
      ensures count == CountTrue(Bits(), 0, bit) && count <= n && PickedTo(Bits(), r.Bits(), bit)
    {
      if words[word] == 0 {
        ZeroWord(words[..], nbits, word);
        bit, count := if 32 * word + 32 <= nbits then 32 * word + 32 else nbits, picked;
        SkipClear(Bits(), r.Bits(), 32 * word, bit);
        return;
      }
      var ones := Weight(words[word]);
      if picked + ones <= n && 32 * word + 32 <= nbits {
        CountWord(0, word);
        r.CopyWord(this, word);
        bit, count := 32 * word + 32, picked + ones;
      } else {
        bit, count := r.CopyBits(this, 32 * word, picked, n);
      }
    }

    /** bit_pick_cnt: a bitmap of the n lowest bits set, or null if there are fewer. */
    method PickCount(n: nat) returns (r: Bitmap?)
      requires Valid()
      ensures r == null <==> CountTrue(Bits(), 0, nbits) < n
      ensures r != null ==> fresh(r) && fresh(r.words) && r.Valid() && r.nbits == nbits && Picks(Bits(), r.Bits(), n)
    {
      if nbits < n { return null; }
      ghost var s := Bits();
      var chosen := new Bitmap(nbits);
      chosen.BitsAreRaw();
      var word: nat, bit: nat, count: nat := 0, 0, 0;
      while bit < nbits && count < n
        invariant fresh(chosen) && fresh(chosen.words) && chosen.Valid() && chosen.nbits == nbits
        invariant bit <= nbits && (bit == nbits || count == n || bit == 32 * word)
        invariant count == CountTrue(s, 0, bit) && count <= n && PickedTo(s, chosen.Bits(), bit)
        decreases nbits - bit
      {
        bit, count := PickMore(chosen, word, count, n);
        word := word + 1;
      }
      if count < n { return null; }
      PickedAll(s, chosen.Bits(), bit, n);
      r := chosen;
    }
  }
}
