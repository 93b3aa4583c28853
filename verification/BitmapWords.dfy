// The words of a bitmap (src/common/bitstring.c, src/common/bitstring.h) and their bits.
module BitmapWords {
  import opened BitWords
  import opened BitmapWeight

  // ---------------------------------------------------------------------------------------------
  // Words and bits.

  /** Bit k of a bitmap: word k / 32, mask 1 << (k % 32). */
  predicate At(ws: seq<nat>, k: nat)
    requires k < 32 * |ws|
  {
    Bit(ws[k / 32], k % 32)
  }

  predicate Words(ws: seq<nat>)
  {
    forall i :: 0 <= i < |ws| ==> ws[i] < WORD
  }

  /** ~x on 32 bits. */
  function Not(x: nat): (r: nat)
  {
    Xor(WORD - 1, x)
  }

  /** The bits lo, ..., hi - 1. */
  function BitRange(lo: nat, hi: nat): (r: nat)
  {
    Xor(Pow2(hi) - 1, Pow2(lo) - 1)
  }

  /** w with the bits of mask set or cleared. */
  function Put(w: nat, mask: nat, v: bool): (r: nat)
  {
    if v then Or(w, mask) else And(w, Not(mask))
  }

  lemma PutBits(w: nat, mask: nat, v: bool, j: nat)
    requires j < 32
    ensures Bit(Put(w, mask, v), j) == if Bit(mask, j) then v else Bit(w, j)
  {
    BitOr(w, mask, j);
    BitAnd(w, Not(mask), j);
    BitXor(WORD - 1, mask, j);
    Pows();
    BitOfMask(32, j);
  }

  lemma PutIsWord(w: nat, mask: nat, v: bool)
    requires w < WORD && mask < WORD
    ensures Put(w, mask, v) < WORD
  {
    Pows();
    forall j: nat | 32 <= j ensures !Bit(Put(w, mask, v), j) {
      BitOr(w, mask, j);
      BitAnd(w, Not(mask), j);
      NoBitAbove(w, 32, j);
      NoBitAbove(mask, 32, j);
    }
    BelowFromBits(Put(w, mask, v), 32);
  }

  lemma BitRangeBits(lo: nat, hi: nat, j: nat)
    requires lo <= hi
    ensures Bit(BitRange(lo, hi), j) == (lo <= j < hi)
  {
    BitXor(Pow2(hi) - 1, Pow2(lo) - 1, j);
    BitOfMask(hi, j);
    BitOfMask(lo, j);
  }

  lemma BitRangeIsWord(lo: nat, hi: nat)
    requires lo <= hi <= 32
    ensures BitRange(lo, hi) < WORD
  {
    Pows();
    forall j: nat | 32 <= j ensures !Bit(BitRange(lo, hi), j) { BitRangeBits(lo, hi, j); }
    BelowFromBits(BitRange(lo, hi), 32);
  }

  /** The first n bits. */
  ghost function View(ws: seq<nat>, n: nat): (s: seq<bool>)
    requires n <= 32 * |ws|
    ensures |s| == n
  {
    if n == 0 then [] else View(ws, n - 1) + [At(ws, n - 1)]
  }

  lemma {:induction false} ViewAt(ws: seq<nat>, n: nat, k: nat)
    requires k < n <= 32 * |ws|
    ensures View(ws, n)[k] == At(ws, k)
  {
    if k < n - 1 { ViewAt(ws, n - 1, k); }
  }

  /** s with the bits lo, ..., hi - 1 set to v. */
  ghost function Filled(s: seq<bool>, lo: nat, hi: nat, v: bool): (r: seq<bool>)
    requires hi <= |s|
    ensures |r| == |s|
    decreases hi
  {
    if hi <= lo then s else Filled(s, lo, hi - 1, v)[hi - 1 := v]
  }

  lemma {:induction false} FilledAt(s: seq<bool>, lo: nat, hi: nat, v: bool, k: nat)
    requires hi <= |s| && k < |s|
    ensures Filled(s, lo, hi, v)[k] == if lo <= k < hi then v else s[k]
    decreases hi
  {
    if lo < hi { FilledAt(s, lo, hi - 1, v, k); }
  }

  lemma FilledDown(s: seq<bool>, lo: nat, mid: nat, hi: nat, v: bool)
    requires lo <= mid <= hi <= |s|
    ensures Filled(Filled(s, mid, hi, v), lo, mid, v) == Filled(s, lo, hi, v)
  {
    var t := Filled(s, mid, hi, v);
    forall k | 0 <= k < |s| ensures Filled(t, lo, mid, v)[k] == Filled(s, lo, hi, v)[k] {
      FilledAt(t, lo, mid, v, k);
      FilledAt(s, mid, hi, v, k);
      FilledAt(s, lo, hi, v, k);
    }
  }

  lemma FilledUp(s: seq<bool>, lo: nat, mid: nat, hi: nat, v: bool)
    requires lo <= mid <= hi <= |s|
    ensures Filled(Filled(s, lo, mid, v), mid, hi, v) == Filled(s, lo, hi, v)
  {
    var t := Filled(s, lo, mid, v);
    forall k | 0 <= k < |s| ensures Filled(t, mid, hi, v)[k] == Filled(s, lo, hi, v)[k] {
      FilledAt(t, mid, hi, v, k);
      FilledAt(s, lo, mid, v, k);
      FilledAt(s, lo, hi, v, k);
    }
  }

  /** Both ends first, then what is between them. */
  lemma FilledParts(s: seq<bool>, first: nat, start: nat, stop: int, last: nat, v: bool)
    requires first <= start && -1 <= stop <= last < |s| && start <= |s|
    requires start <= last + 1 || start == first
    requires start - 1 <= stop || stop == last
    ensures
      var r := Filled(Filled(s, first, start, v), stop + 1, last + 1, v);
      Filled(s, first, last + 1, v) == if stop >= start then Filled(r, start, stop + 1, v) else r
  {
    var t := Filled(s, first, start, v);
    if stop >= start { FilledDown(t, start, stop + 1, last + 1, v); }
    if first <= last { FilledUp(s, first, start, last + 1, v); }
  }

  /** Exactly the bits lo, ..., hi - 1 of a word become v. */
  ghost predicate WordFills(w: nat, w': nat, lo: nat, hi: nat, v: bool)
  {
    w' < WORD && forall j :: 0 <= j < 32 ==> Bit(w', j) == if lo <= j < hi then v else Bit(w, j)
  }

  lemma PutSpan(w: nat, lo: nat, hi: nat, v: bool, mask: nat)
    requires w < WORD && lo <= hi <= 32 && mask == BitRange(lo, hi)
    ensures WordFills(w, Put(w, mask, v), lo, hi, v)
  {
    BitRangeIsWord(lo, hi);
    PutIsWord(w, mask, v);
    forall j | 0 <= j < 32 ensures Bit(Put(w, mask, v), j) == if lo <= j < hi then v else Bit(w, j) {
      PutBits(w, mask, v, j);
      BitRangeBits(lo, hi, j);
    }
  }

  lemma PutAt(ws: seq<nat>, i: nat, w: nat, lo: nat, hi: nat, v: bool, k: nat)
    requires i < |ws| && WordFills(ws[i], w, lo, hi, v) && lo <= hi <= 32 && k < 32 * |ws|
    ensures At(ws[i := w], k) == if 32 * i + lo <= k < 32 * i + hi then v else At(ws, k)
  {
    if k / 32 == i { assert Bit(w, k % 32) == if lo <= k % 32 < hi then v else Bit(ws[i], k % 32); }
  }

  lemma PutFills(ws: seq<nat>, i: nat, w: nat, lo: nat, hi: nat, v: bool, n: nat)
    requires Words(ws) && i < |ws| && WordFills(ws[i], w, lo, hi, v) && lo <= hi <= 32 && 32 * i + hi <= n <= 32 * |ws|
    ensures Words(ws[i := w]) && View(ws[i := w], n) == Filled(View(ws, n), 32 * i + lo, 32 * i + hi, v)
  {
    var a, b := View(ws[i := w], n), Filled(View(ws, n), 32 * i + lo, 32 * i + hi, v);
    forall k | 0 <= k < n ensures a[k] == b[k] {
      ViewAt(ws[i := w], n, k);
      PutAt(ws, i, w, lo, hi, v, k);
      FilledAt(View(ws, n), 32 * i + lo, 32 * i + hi, v, k);
      ViewAt(ws, n, k);
    }
  }

  lemma BitRangeOfBit(j: nat)
    ensures BitRange(j, j + 1) == Pow2(j)
  {
    forall k: nat ensures Bit(BitRange(j, j + 1), k) == Bit(Pow2(j), k) {
      BitRangeBits(j, j + 1, k);
      BitOfPow2(j, k);
    }
    SameBits(BitRange(j, j + 1), Pow2(j));
  }
}
