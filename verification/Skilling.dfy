// contribs/skilling.c: the two in-place transforms over words, and what they mean.
// A word is a natural number below 2^b, for b from 1 to 32.  Only the bound of the decoder's loop over Q can
// wrap, to zero, and UndoExcess says so.
module Skilling {
  import opened BitWords
  import opened HilbertLevels
  import opened HilbertWalk

  ghost predicate Fits(x: seq<nat>, b: nat)
  {
    forall i :: 0 <= i < |x| ==> x[i] < Pow2(b)
  }

  /** Bit q of every axis. */
  function LevelAt(x: seq<nat>, q: nat): (v: Level)
    ensures |v| == |x|
  {
    seq(|x|, i requires 0 <= i < |x| => Bit(x[i], q))
  }

  /** The low b bits of every axis. */
  function LevelsOf(x: seq<nat>, b: nat): (m: Levels)
    ensures Height(m) == b && Shaped(m, |x|)
  {
    if b == 0 then Bottom else Top(LevelAt(x, b - 1), LevelsOf(x, b - 1))
  }

  function WordsOf(n: nat, m: Levels): (x: seq<nat>)
    requires Shaped(m, n)
    ensures |x| == n
  {
    seq(n, i requires 0 <= i < n => Coord(m, i, n))
  }

  /** The axes at a transposed Hilbert index. */
  function AxesOf(x: seq<nat>, b: nat): (r: seq<nat>)
    requires |x| > 0
    ensures |r| == |x|
  {
    WordsOf(|x|, ToAxes(|x|, LevelsOf(x, b)))
  }

  /** The transposed Hilbert index of a position given by its axes. */
  function TransposeOf(x: seq<nat>, b: nat): (r: seq<nat>)
    requires |x| > 0
    ensures |r| == |x|
  {
    WordsOf(|x|, ToTranspose(|x|, LevelsOf(x, b)))
  }

  // ---------------------------------------------------------------------------------------------
  // Words and levels are two views of the same position.

  lemma {:induction false} CoordBits(m: Levels, i: nat, n: nat)
    requires i < n && Shaped(m, n)
    ensures Coord(m, i, n) < Pow2(Height(m))
    ensures forall k: nat :: k >= Height(m) ==> !Bit(Coord(m, i, n), k)
    ensures m.Top? ==> Bit(Coord(m, i, n), Height(m.low)) == m.level[i]
    ensures m.Top? ==> forall k: nat :: k < Height(m.low) ==> Bit(Coord(m, i, n), k) == Bit(Coord(m.low, i, n), k)
  {
    var c, h := Coord(m, i, n), Height(m);
    if m.Top? {
      CoordBits(m.low, i, n);
      if m.level[i] {
        forall k: nat ensures Bit(c, k) == (k == h - 1 || Bit(Coord(m.low, i, n), k)) {
          BitAddPow2(Coord(m.low, i, n), h - 1, k);
        }
      } else {
        NoBitAbove(c, h - 1, h - 1);
      }
    }
    forall k: nat | k >= h ensures !Bit(c, k) { NoBitAbove(c, h, k); }
  }

  lemma {:induction false} LevelsFromLow(x: seq<nat>, y: seq<nat>, b: nat)
    requires |x| == |y|
    requires forall i, k: nat :: 0 <= i < |x| && k < b ==> Bit(x[i], k) == Bit(y[i], k)
    ensures LevelsOf(x, b) == LevelsOf(y, b)
  {
    if b > 0 {
      assert LevelAt(x, b - 1) == LevelAt(y, b - 1);
      LevelsFromLow(x, y, b - 1);
    }
  }

  lemma {:induction false} LevelsOfWords(n: nat, m: Levels)
    requires Shaped(m, n)
    ensures LevelsOf(WordsOf(n, m), Height(m)) == m
  {
    if m.Top? {
      var x := WordsOf(n, m);
      forall i | 0 <= i < n
        ensures Bit(x[i], Height(m.low)) == m.level[i]
        ensures forall k: nat :: k < Height(m.low) ==> Bit(x[i], k) == Bit(WordsOf(n, m.low)[i], k)
      {
        CoordBits(m, i, n);
      }
      assert LevelAt(x, Height(m.low)) == m.level;
      LevelsFromLow(x, WordsOf(n, m.low), Height(m.low));
      LevelsOfWords(n, m.low);
    }
  }

  lemma WordsFit(n: nat, m: Levels)
    requires Shaped(m, n)
    ensures Fits(WordsOf(n, m), Height(m))
  {
    forall i | 0 <= i < n ensures Coord(m, i, n) < Pow2(Height(m)) { CoordBits(m, i, n); }
  }

  lemma {:induction false} SameLevelBits(x: seq<nat>, y: seq<nat>, b: nat, i: nat, k: nat)
    requires |x| == |y| && LevelsOf(x, b) == LevelsOf(y, b) && i < |x| && k < b
    ensures Bit(x[i], k) == Bit(y[i], k)
  {
    if k == b - 1 {
      assert LevelAt(x, k)[i] == LevelAt(y, k)[i];
    } else {
      SameLevelBits(x, y, b - 1, i, k);
    }
  }

  lemma SameLevels(x: seq<nat>, y: seq<nat>, b: nat)
    requires |x| == |y| && Fits(x, b) && Fits(y, b) && LevelsOf(x, b) == LevelsOf(y, b)
    ensures x == y
  {
    forall i | 0 <= i < |x| ensures x[i] == y[i] {
      forall k: nat ensures Bit(x[i], k) == Bit(y[i], k) {
        if k < b {
          SameLevelBits(x, y, b, i, k);
        } else {
          NoBitAbove(x[i], b, k);
          NoBitAbove(y[i], b, k);
        }
      }
      SameBits(x[i], y[i]);
    }
  }

  /** A b-bit position is determined by its levels. */
  lemma WordsOfLevels(x: seq<nat>, m: Levels, b: nat)
    requires Fits(x, b) && Height(m) == b && Shaped(m, |x|) && LevelsOf(x, b) == m
    ensures x == WordsOf(|x|, m)
  {
    LevelsOfWords(|x|, m);
    WordsFit(|x|, m);
    SameLevels(x, WordsOf(|x|, m), b);
  }

  // ---------------------------------------------------------------------------------------------
  // What the word operations of one step do to the levels.

  lemma InvertBits(x: nat, q: nat, k: nat)
    ensures Bit(Xor(x, Pow2(q) - 1), k) == (if k < q then !Bit(x, k) else Bit(x, k))
  {
    BitXor(x, Pow2(q) - 1, k);
    BitOfMask(q, k);
  }

  lemma ExchangeBits(x: nat, y: nat, q: nat, k: nat)
    ensures
      var t := And(Xor(x, y), Pow2(q) - 1);
      && Bit(Xor(x, t), k) == (if k < q then Bit(y, k) else Bit(x, k))
      && Bit(Xor(y, t), k) == (if k < q then Bit(x, k) else Bit(y, k))
  {
    var t := And(Xor(x, y), Pow2(q) - 1);
    BitAnd(Xor(x, y), Pow2(q) - 1, k);
    BitXor(x, y, k);
    BitOfMask(q, k);
    BitXor(x, t, k);
    BitXor(y, t, k);
  }

  /** The words after step i at Q = 2^q. */
  function WordStep(x: seq<nat>, q: nat, i: nat): (r: seq<nat>)
    requires i < |x|
    ensures |r| == |x|
  {
    var p := Pow2(q) - 1;
    if Bit(x[i], q) then x[0 := Xor(x[0], p)]
    else
      var t := And(Xor(x[0], x[i]), p);
      x[0 := Xor(x[0], t)][i := Xor(x[i], t)]
  }

  /** Level p after step i at level q: stepped below q, kept from q on. */
  lemma WordStepLevel(x: seq<nat>, q: nat, i: nat, p: nat)
    requires i < |x|
    ensures LevelAt(WordStep(x, q, i), p) == if p < q then Step(LevelAt(x, q), LevelAt(x, p), i) else LevelAt(x, p)
  {
    InvertBits(x[0], q, p);
    ExchangeBits(x[0], x[i], q, p);
    var r := if p < q then Step(LevelAt(x, q), LevelAt(x, p), i) else LevelAt(x, p);
    forall j | 0 <= j < |x| ensures LevelAt(WordStep(x, q, i), p)[j] == r[j] { }
  }

  /** A step at axis 0 only inverts: the exchange of axis 0 with itself changes nothing. */
  lemma WordStepAxisZero(x: seq<nat>, q: nat)
    requires |x| > 0
    ensures WordStep(x, q, 0) == if Bit(x[0], q) then x[0 := Xor(x[0], Pow2(q) - 1)] else x
  {
    var t := And(Xor(x[0], x[0]), Pow2(q) - 1);
    forall k: nat ensures Bit(Xor(x[0], t), k) == Bit(x[0], k) {
      ExchangeBits(x[0], x[0], q, k);
    }
    SameBits(Xor(x[0], t), x[0]);
  }

  // ---------------------------------------------------------------------------------------------
  // A whole iteration at Q = 2^q, and the two outer loops, over words.

  /** Steps i, i-1, ..., 0 at Q = 2^q. */
  function WordTurn(x: seq<nat>, q: nat, i: nat): (r: seq<nat>)
    requires i < |x|
    ensures |r| == |x|
    decreases i
  {
    if i == 0 then WordStep(x, q, 0) else WordTurn(WordStep(x, q, i), q, i - 1)
  }

  /** Steps i, i+1, ..., n-1 at Q = 2^q. */
  function WordUnturn(x: seq<nat>, q: nat, i: nat): (r: seq<nat>)
    requires i <= |x|
    ensures |r| == |x|
    decreases |x| - i
  {
    if i == |x| then x else WordUnturn(WordStep(x, q, i), q, i + 1)
  }

  /** The outer loop of TransposetoAxes from Q = 2^q up to 2^(b-1). */
  function UndoWords(x: seq<nat>, b: nat, q: nat): (r: seq<nat>)
    requires |x| > 0 && q <= b
    ensures |r| == |x|
    decreases b - q
  {
    if q == b then x else UndoWords(WordTurn(x, q, |x| - 1), b, q + 1)
  }

  /** The outer loop of AxestoTranspose from Q = 2^q down to 2. */
  function RedoWords(x: seq<nat>, q: nat): (r: seq<nat>)
    requires |x| > 0
    ensures |r| == |x|
    decreases q
  {
    if q == 0 then x else RedoWords(WordUnturn(x, q, 0), q - 1)
  }

  lemma {:induction false} WordTurnLevel(x: seq<nat>, q: nat, i: nat, p: nat)
    requires i < |x|
    ensures LevelAt(WordTurn(x, q, i), p) == if p < q then Turn(LevelAt(x, q), LevelAt(x, p), i) else LevelAt(x, p)
    decreases i
  {
    WordStepLevel(x, q, i, p);
    WordStepLevel(x, q, i, q);
    if i > 0 { WordTurnLevel(WordStep(x, q, i), q, i - 1, p); }
  }

  lemma {:induction false} WordUnturnLevel(x: seq<nat>, q: nat, i: nat, p: nat)
    requires i <= |x|
    ensures LevelAt(WordUnturn(x, q, i), p) == if p < q then Unturn(LevelAt(x, q), LevelAt(x, p), i) else LevelAt(x, p)
    decreases |x| - i
  {
    if i < |x| {
      WordStepLevel(x, q, i, p);
      WordStepLevel(x, q, i, q);
      WordUnturnLevel(WordStep(x, q, i), q, i + 1, p);
    }
  }

  lemma {:induction false} WordTurnLevels(x: seq<nat>, q: nat, p: nat)
    requires |x| > 0 && p <= q
    ensures LevelsOf(WordTurn(x, q, |x| - 1), p) == TurnAll(LevelAt(x, q), LevelsOf(x, p), |x| - 1)
  {
    if p > 0 {
      WordTurnLevel(x, q, |x| - 1, p - 1);
      WordTurnLevels(x, q, p - 1);
    }
  }

  lemma {:induction false} WordUnturnLevels(x: seq<nat>, q: nat, p: nat)
    requires |x| > 0 && p <= q
    ensures LevelsOf(WordUnturn(x, q, 0), p) == UnturnAll(LevelAt(x, q), LevelsOf(x, p), 0)
  {
    if p > 0 {
      WordUnturnLevel(x, q, 0, p - 1);
      WordUnturnLevels(x, q, p - 1);
    }
  }

  lemma UndoNext(x: seq<nat>, q: nat, g: seq<nat>, y: seq<nat>)
    requires |x| == |g| > 0 && y == WordTurn(x, q, |x| - 1)
    requires LevelsOf(x, q) == Undo(|x|, LevelsOf(g, q))
    requires LevelAt(x, q) == LevelAt(y, q) == LevelAt(g, q)
    ensures LevelsOf(y, q + 1) == Undo(|x|, LevelsOf(g, q + 1))
  {
    WordTurnLevels(x, q, q);
    assert LevelsOf(y, q + 1) == Top(LevelAt(y, q), LevelsOf(y, q));
    assert LevelsOf(g, q + 1) == Top(LevelAt(g, q), LevelsOf(g, q));
  }

  /** The levels from q up are the same. */
  ghost predicate SameFrom(x: seq<nat>, g: seq<nat>, q: nat)
  {
    forall p: nat :: q <= p ==> LevelAt(x, p) == LevelAt(g, p)
  }

  lemma TurnKeepsAbove(x: seq<nat>, q: nat, g: seq<nat>)
    requires |x| > 0 && SameFrom(x, g, q)
    ensures SameFrom(WordTurn(x, q, |x| - 1), g, q)
  {
    forall p: nat | q <= p ensures LevelAt(WordTurn(x, q, |x| - 1), p) == LevelAt(g, p) {
      WordTurnLevel(x, q, |x| - 1, p);
      assert LevelAt(x, p) == LevelAt(g, p);
    }
  }

  lemma {:induction false} UndoWordsLevels(x: seq<nat>, b: nat, q: nat, g: seq<nat>)
    requires |x| == |g| > 0 && q <= b
    requires LevelsOf(x, q) == Undo(|x|, LevelsOf(g, q)) && SameFrom(x, g, q)
    ensures LevelsOf(UndoWords(x, b, q), b) == Undo(|x|, LevelsOf(g, b)) && SameFrom(UndoWords(x, b, q), g, b)
    decreases b - q
  {
    if q < b {
      var y := WordTurn(x, q, |x| - 1);
      TurnKeepsAbove(x, q, g);
      assert LevelAt(x, q) == LevelAt(y, q) == LevelAt(g, q);
      UndoNext(x, q, g, y);
      UndoWordsLevels(y, b, q + 1, g);
    }
  }

  lemma {:induction false} RedoWordsLevels(x: seq<nat>, q: nat)
    requires |x| > 0
    ensures LevelsOf(RedoWords(x, q), q + 1) == Redo(|x|, LevelsOf(x, q + 1))
    ensures forall p: nat :: q <= p ==> LevelAt(RedoWords(x, q), p) == LevelAt(x, p)
    decreases q
  {
    if q == 0 {
      assert LevelsOf(x, 1) == Top(LevelAt(x, 0), Bottom);
    } else {
      var y := WordUnturn(x, q, 0);
      WordUnturnLevels(x, q, q);
      forall p: nat | q <= p ensures LevelAt(y, p) == LevelAt(x, p) { WordUnturnLevel(x, q, 0, p); }
      RedoWordsLevels(y, q - 1);
    }
  }

  /** Words whose levels from b on are clear are b-bit words. */
  lemma ClearAboveFits(x: seq<nat>, y: seq<nat>, b: nat)
    requires |x| == |y| && Fits(x, b)
    requires forall p: nat :: b <= p ==> LevelAt(y, p) == LevelAt(x, p)
    ensures Fits(y, b)
  {
    forall i | 0 <= i < |y| ensures y[i] < Pow2(b) {
      forall k: nat | b <= k ensures !Bit(y[i], k) {
        assert LevelAt(y, k)[i] == LevelAt(x, k)[i];
        NoBitAbove(x[i], b, k);
      }
      BelowFromBits(y[i], b);
    }
  }

  // ---------------------------------------------------------------------------------------------
  // Gray coding over words.

  /** y is x after the Gray decoding loop. */
  ghost predicate GrayDecoded(x: seq<nat>, y: seq<nat>)
  {
    && |x| == |y| > 0
    && y[0] == Xor(x[0], Shr(x[|x| - 1], 1))
    && forall i :: 0 < i < |x| ==> y[i] == Xor(x[i], x[i - 1])
  }

  lemma GrayDecodedBit(x: seq<nat>, y: seq<nat>, q: nat, i: nat)
    requires GrayDecoded(x, y) && i < |x|
    ensures Bit(y[i], q) == (Bit(x[i], q) != (if i == 0 then Bit(x[|x| - 1], q + 1) else Bit(x[i - 1], q)))
  {
    if i == 0 {
      BitXor(x[0], Shr(x[|x| - 1], 1), q);
      BitShr(x[|x| - 1], 1, q);
    } else {
      BitXor(x[i], x[i - 1], q);
    }
  }

  lemma GrayDecodedLevel(x: seq<nat>, y: seq<nat>, q: nat)
    requires GrayDecoded(x, y)
    ensures LevelAt(y, q) == GrayLevel(LevelAt(x, q), Bit(x[|x| - 1], q + 1))
  {
    var v, u, c := LevelAt(x, q), LevelAt(y, q), Bit(x[|x| - 1], q + 1);
    forall i | 0 <= i < |x| ensures u[i] == GrayLevel(v, c)[i] {
      GrayDecodedBit(x, y, q, i);
    }
    assert u == GrayLevel(v, c);
  }

  lemma GrayTop(n: nat, v: Level, low: Levels, c: bool)
    requires n == |v| > 0 && Shaped(low, n)
    ensures Gray(n, Top(v, low), c) == Top(GrayLevel(v, c), Gray(n, low, v[n - 1]))
    ensures Ungray(n, Top(v, low), c) == Top(UngrayLevel(v, c), Ungray(n, low, Parity(v, c, n - 1)))
  {
  }

  ghost predicate LevelsDecoded(x: seq<nat>, y: seq<nat>)
  {
    |x| == |y| > 0 && forall q: nat :: LevelAt(y, q) == GrayLevel(LevelAt(x, q), LevelAt(x, q + 1)[|x| - 1])
  }

  lemma {:induction false} GrayOfLevels(x: seq<nat>, y: seq<nat>, b: nat)
    requires LevelsDecoded(x, y)
    ensures LevelsOf(y, b) == Gray(|x|, LevelsOf(x, b), LevelAt(x, b)[|x| - 1])
  {
    if b > 0 {
      GrayOfLevels(x, y, b - 1);
      GrayTop(|x|, LevelAt(x, b - 1), LevelsOf(x, b - 1), LevelAt(x, b)[|x| - 1]);
      assert LevelAt(y, b - 1) == GrayLevel(LevelAt(x, b - 1), LevelAt(x, b - 1 + 1)[|x| - 1]);
    }
  }

  lemma GrayDecodedLevels(x: seq<nat>, y: seq<nat>, b: nat)
    requires GrayDecoded(x, y)
    ensures LevelsOf(y, b) == Gray(|x|, LevelsOf(x, b), Bit(x[|x| - 1], b))
  {
    forall q: nat ensures LevelAt(y, q) == GrayLevel(LevelAt(x, q), LevelAt(x, q + 1)[|x| - 1]) {
      GrayDecodedLevel(x, y, q);
    }
    GrayOfLevels(x, y, b);
  }

  lemma XorFits(x: nat, y: nat, b: nat)
    requires x < Pow2(b) && y < Pow2(b)
    ensures Xor(x, y) < Pow2(b)
  {
    forall k: nat | b <= k ensures !Bit(Xor(x, y), k) {
      BitXor(x, y, k);
      NoBitAbove(x, b, k);
      NoBitAbove(y, b, k);
    }
    BelowFromBits(Xor(x, y), b);
  }

  lemma ShrFits(x: nat, i: nat, b: nat)
    requires x < Pow2(b)
    ensures Shr(x, i) < Pow2(b)
  {
    forall k: nat | b <= k ensures !Bit(Shr(x, i), k) {
      BitShr(x, i, k);
      NoBitAbove(x, b, i + k);
    }
    BelowFromBits(Shr(x, i), b);
  }

  lemma GrayDecodedFits(x: seq<nat>, y: seq<nat>, b: nat)
    requires GrayDecoded(x, y) && Fits(x, b)
    ensures Fits(y, b)
  {
    ShrFits(x[|x| - 1], 1, b);
    XorFits(x[0], Shr(x[|x| - 1], 1), b);
    forall i | 0 < i < |x| ensures y[i] < Pow2(b) {
      XorFits(x[i], x[i - 1], b);
    }
  }

  /** Exclusive or of cnt bits of x from bit k up. */
  function XorRange(x: nat, k: nat, cnt: nat): (r: bool)
    decreases cnt
  {
    if cnt == 0 then false else Bit(x, k) != XorRange(x, k + 1, cnt - 1)
  }

  lemma {:induction false} XorRangeSplit(x: nat, k: nat, c: nat, d: nat)
    ensures XorRange(x, k, c + d) == (XorRange(x, k, c) != XorRange(x, k + c, d))
    decreases c
  {
    if c > 0 { XorRangeSplit(x, k + 1, c - 1, d); }
  }

  lemma {:induction false} XorRangeAbove(x: nat, b: nat, k: nat, cnt: nat)
    requires x < Pow2(b) && b <= k
    ensures !XorRange(x, k, cnt)
    decreases cnt
  {
    if cnt > 0 {
      NoBitAbove(x, b, k);
      XorRangeAbove(x, b, k + 1, cnt - 1);
    }
  }

  /** X[0] ^ ... ^ X[j] */
  function PrefixAt(x: seq<nat>, j: nat): (r: nat)
    requires j < |x|
  {
    if j == 0 then x[0] else Xor(x[j], PrefixAt(x, j - 1))
  }

  /** y is x after the Gray encoding loops, which leave last in X[n-1]. */
  ghost predicate GrayEncoded(x: seq<nat>, last: nat, y: seq<nat>)
  {
    && |x| == |y| > 0
    && y[|x| - 1] == last
    && SuffixXor(PrefixAt(x, |x| - 1), last)
    && forall i :: 0 <= i < |x| - 1 ==> y[i] == Xor(PrefixAt(x, i), Xor(PrefixAt(x, |x| - 1), last))
  }

  lemma {:induction false} PrefixAtBit(x: seq<nat>, j: nat, q: nat)
    requires j < |x|
    ensures Bit(PrefixAt(x, j), q) == Parity(LevelAt(x, q), false, j)
  {
    if j > 0 {
      PrefixAtBit(x, j - 1, q);
      BitXor(x[j], PrefixAt(x, j - 1), q);
    }
  }

  lemma {:induction false} PrefixAtFits(x: seq<nat>, j: nat, b: nat)
    requires j < |x| && Fits(x, b)
    ensures PrefixAt(x, j) < Pow2(b)
  {
    if j > 0 {
      PrefixAtFits(x, j - 1, b);
      XorFits(x[j], PrefixAt(x, j - 1), b);
    }
  }

  lemma {:induction false} ParityCarry(v: Level, c: bool, i: nat)
    requires i < |v|
    ensures Parity(v, c, i) == (Parity(v, false, i) != c)
  {
    if i > 0 { ParityCarry(v, c, i - 1); }
  }

  /** last holds in bit k the exclusive or of all bits of z from k up. */
  ghost predicate SuffixXor(z: nat, last: nat)
  {
    forall k: nat :: Bit(last, k) == (Bit(z, k) != Bit(last, k + 1))
  }

  lemma EncodedBit(x: seq<nat>, last: nat, y: seq<nat>, q: nat, i: nat)
    requires GrayEncoded(x, last, y) && i < |x|
    ensures Bit(y[i], q) == Parity(LevelAt(x, q), Bit(last, q + 1), i)
  {
    var z := PrefixAt(x, |x| - 1);
    PrefixAtBit(x, i, q);
    ParityCarry(LevelAt(x, q), Bit(last, q + 1), i);
    assert Bit(last, q) == (Bit(z, q) != Bit(last, q + 1));
    if i < |x| - 1 {
      BitXor(PrefixAt(x, i), Xor(z, last), q);
      BitXor(z, last, q);
    }
  }

  lemma EncodedLevel(x: seq<nat>, last: nat, y: seq<nat>, q: nat)
    requires GrayEncoded(x, last, y)
    ensures LevelAt(y, q) == UngrayLevel(LevelAt(x, q), Bit(last, q + 1))
  {
    var v, u, c := LevelAt(x, q), LevelAt(y, q), Bit(last, q + 1);
    forall i | 0 <= i < |x| ensures u[i] == UngrayLevel(v, c)[i] {
      EncodedBit(x, last, y, q, i);
    }
    assert u == UngrayLevel(v, c);
  }

  lemma {:induction false} EncodedLevels(x: seq<nat>, last: nat, y: seq<nat>, b: nat, c: bool)
    requires GrayEncoded(x, last, y) && c == Bit(last, b)
    ensures LevelsOf(y, b) == Ungray(|x|, LevelsOf(x, b), c)
  {
    if b > 0 {
      var v := LevelAt(x, b - 1);
      EncodedLevel(x, last, y, b - 1);
      EncodedBit(x, last, y, b - 1, |x| - 1);
      EncodedLevels(x, last, y, b - 1, Parity(v, c, |x| - 1));
      GrayTop(|x|, v, LevelsOf(x, b - 1), c);
    }
  }

  lemma EncodedFits(x: seq<nat>, last: nat, y: seq<nat>, b: nat)
    requires GrayEncoded(x, last, y) && Fits(x, b) && last < Pow2(b)
    ensures Fits(y, b)
  {
    var n := |x|;
    PrefixAtFits(x, n - 1, b);
    XorFits(PrefixAt(x, n - 1), last, b);
    forall i | 0 <= i < n - 1 ensures y[i] < Pow2(b) {
      PrefixAtFits(x, i, b);
      XorFits(PrefixAt(x, i), Xor(PrefixAt(x, n - 1), last), b);
    }
  }

  // ---------------------------------------------------------------------------------------------
  // The transforms, in place.

  method GrayDecode(x: array<nat>)
    requires x.Length > 0
    modifies x
    ensures GrayDecoded(old(x[..]), x[..])
  {
    var n := x.Length;
    var t := Shr(x[n - 1], 1);
    var i := n - 1;
    while i > 0
      invariant 0 <= i < n
      invariant forall j :: 0 <= j <= i ==> x[j] == old(x[j])
      invariant forall j :: i < j < n ==> x[j] == Xor(old(x[j]), old(x[j - 1]))
    {
      x[i] := Xor(x[i], x[i - 1]);
      i := i - 1;
    }
    x[0] := Xor(x[0], t);
  }

  /** One iteration of the outer loop of TransposetoAxes. */
  method UndoLevel(x: array<nat>, ghost q: nat, mask: nat)
    requires x.Length > 0 && mask == Pow2(q)
    modifies x
    ensures x[..] == WordTurn(old(x[..]), q, x.Length - 1)
  {
    var p := mask - 1;
    var i := x.Length - 1;
    while i > 0
      invariant 0 <= i < x.Length
      invariant WordTurn(x[..], q, i) == WordTurn(old(x[..]), q, x.Length - 1)
    {
      ghost var before := x[..];
      AndPow2(x[i], q);
      if And(x[i], mask) != 0 {
        x[0] := Xor(x[0], p);
      } else {
        var t := And(Xor(x[0], x[i]), p);
        x[0] := Xor(x[0], t);
        x[i] := Xor(x[i], t);
      }
      assert x[..] == WordStep(before, q, i);
      i := i - 1;
    }
    WordStepAxisZero(x[..], q);
    AndPow2(x[0], q);
    if And(x[0], mask) != 0 {
      x[0] := Xor(x[0], p);
    }
  }

  /** One iteration of the outer loop of AxestoTranspose. */
  method RedoLevel(x: array<nat>, ghost q: nat, mask: nat)
    requires x.Length > 0 && mask == Pow2(q)
    modifies x
    ensures x[..] == WordUnturn(old(x[..]), q, 0)
  {
    var p := mask - 1;
    WordStepAxisZero(x[..], q);
    AndPow2(x[0], q);
    if And(x[0], mask) != 0 {
      x[0] := Xor(x[0], p);
    }
    var i := 1;
    while i < x.Length
      invariant 1 <= i <= x.Length
      invariant WordUnturn(x[..], q, i) == WordUnturn(old(x[..]), q, 0)
    {
      ghost var before := x[..];
      AndPow2(x[i], q);
      if And(x[i], mask) != 0 {
        x[0] := Xor(x[0], p);
      } else {
        var t := And(Xor(x[0], x[i]), p);
        x[0] := Xor(x[0], t);
        x[i] := Xor(x[i], t);
      }
      assert x[..] == WordStep(before, q, i);
      i := i + 1;
    }
  }

  lemma {:induction false} Pow2Injective(j: nat, k: nat)
    ensures Pow2(j) == Pow2(k) ==> j == k
  {
    if j > 0 && k > 0 { Pow2Injective(j - 1, k - 1); }
  }

  /** 2^q in an unsigned 32-bit word. */
  function Word32(q: nat): (w: nat)
  {
    Pow2(q) % WORD
  }

  lemma Word32Of(q: nat)
    requires q <= 32
    ensures Word32(q) == if q == 32 then 0 else Pow2(q)
  {
    Pows();
    if q < 32 { Pow2Less(q, 32); }
  }

  lemma {:induction false} Pow2Less(j: nat, k: nat)
    requires j < k
    ensures Pow2(j) < Pow2(k)
  {
    if j < k - 1 { Pow2Less(j, k - 1); }
  }

  /** The passes of the decoder, from bit 1 up to bit b - 1.  The end mark is 2^b as a 32-bit word: for words of
      32 bits both it and the mask wrap to zero. */
  method UndoExcess(x: array<nat>, b: nat)
    requires x.Length > 0 && 1 <= b <= 32
    modifies x
    ensures x[..] == UndoWords(old(x[..]), b, 1)
  {
    var end := 2 * Pow2(b - 1) % WORD;
    var mask := 2;
    ghost var q := 1;
    Word32Of(1);
    Word32Of(b);
    while mask != end
      invariant 1 <= q <= b && mask == Word32(q) && end == Word32(b)
      invariant UndoWords(x[..], b, q) == UndoWords(old(x[..]), b, 1)
      decreases b - q
    {
      Word32Of(q);
      UndoLevel(x, q, mask);
      mask := 2 * mask % WORD;
      q := q + 1;
    }
    Word32Same(q, b);
  }

  lemma Word32Same(q: nat, b: nat)
    requires q <= b <= 32 && Word32(q) == Word32(b)
    ensures q == b
  {
    Word32Of(q);
    Word32Of(b);
    Pow2Injective(q, b);
  }

  /** The passes of the encoder, from bit b - 1 down to bit 1. */
  method InverseUndo(x: array<nat>, b: nat)
    requires x.Length > 0 && 1 <= b
    modifies x
    ensures x[..] == RedoWords(old(x[..]), b - 1)
  {
    var mask := Pow2(b - 1);
    ghost var q := b - 1;
    while mask > 1
      invariant 0 <= q < b && mask == Pow2(q)
      invariant RedoWords(x[..], q) == RedoWords(old(x[..]), b - 1)
      decreases q
    {
      RedoLevel(x, q, mask);
      mask := mask / 2;
      q := q - 1;
    }
    Pow2Injective(q, 0);
  }

  /** Xors a word with itself shifted by 1, 2, 4, ... until the shift reaches b. */
  method PrefixXor(x: nat, b: nat) returns (y: nat)
    requires x < Pow2(b)
    ensures y < Pow2(b) && SuffixXor(x, y)
  {
    y := x;
    var i := 1;
    forall k: nat ensures Bit(y, k) == XorRange(x, k, 1) { assert !XorRange(x, k + 1, 0); }
    while i < b
      invariant i >= 1 && y < Pow2(b)
      invariant forall k: nat :: Bit(y, k) == XorRange(x, k, i)
    {
      var z := Xor(y, Shr(y, i));
      ShrFits(y, i, b);
      XorFits(y, Shr(y, i), b);
      forall k: nat ensures Bit(z, k) == XorRange(x, k, 2 * i) {
        BitXor(y, Shr(y, i), k);
        BitShr(y, i, k);
        XorRangeSplit(x, k, i, i);
      }
      y := z;
      i := 2 * i;
    }
    forall k: nat ensures Bit(y, k) == (Bit(x, k) != Bit(y, k + 1)) {
      XorRangeSplit(x, k + 1, i - 1, 1);
      XorRangeAbove(x, b, k + i, 1);
    }
  }

  /** Xors every axis with the one before it, from the second one up. */
  method PrefixAxes(x: array<nat>)
    requires x.Length > 0
    modifies x
    ensures forall j :: 0 <= j < x.Length ==> x[j] == PrefixAt(old(x[..]), j)
  {
    var i := 1;
    while i < x.Length
      invariant 1 <= i <= x.Length
      invariant forall j :: 0 <= j < i ==> x[j] == PrefixAt(old(x[..]), j)
      invariant forall j :: i <= j < x.Length ==> x[j] == old(x[j])
    {
      x[i] := Xor(x[i], x[i - 1]);
      i := i + 1;
    }
  }

  /** Xors every axis but the last with t, from the second to last one down. */
  method XorAxes(x: array<nat>, t: nat)
    requires x.Length > 0
    modifies x
    ensures x[x.Length - 1] == old(x[x.Length - 1])
    ensures forall j :: 0 <= j < x.Length - 1 ==> x[j] == Xor(old(x[j]), t)
  {
    var i := x.Length - 2;
    while i >= 0
      invariant -1 <= i <= x.Length - 2
      invariant forall j :: 0 <= j <= i || j == x.Length - 1 ==> x[j] == old(x[j])
      invariant forall j :: i < j < x.Length - 1 ==> x[j] == Xor(old(x[j]), t)
    {
      x[i] := Xor(x[i], t);
      i := i - 1;
    }
  }

  method GrayEncode(x: array<nat>, b: nat) returns (ghost last: nat)
    requires x.Length > 0 && Fits(x[..], b)
    modifies x
    ensures last < Pow2(b) && GrayEncoded(old(x[..]), last, x[..])
  {
    var n := x.Length;
    ghost var was := x[..];
    PrefixAtFits(was, n - 1, b);
    PrefixAxes(x);
    var t := x[n - 1];
    var y := PrefixXor(t, b);
    x[n - 1] := y;
    t := Xor(t, y);
    assert forall j :: 0 <= j < n - 1 ==> x[j] == PrefixAt(was, j);
    XorAxes(x, t);
    last := y;
  }

  method TransposeToAxes(x: array<nat>, b: nat)
    requires x.Length > 0 && 1 <= b <= 32 && Fits(x[..], b)
    modifies x
    ensures Fits(x[..], b) && x[..] == AxesOf(old(x[..]), b)
  {
    GrayDecode(x);
    UndoneIsAxes(old(x[..]), x[..], b);
    UndoExcess(x, b);
  }

  lemma UndoneIsAxes(x: seq<nat>, g: seq<nat>, b: nat)
    requires GrayDecoded(x, g) && 1 <= b && Fits(x, b)
    ensures Fits(UndoWords(g, b, 1), b) && UndoWords(g, b, 1) == AxesOf(x, b)
  {
    var n := |x|;
    NoBitAbove(x[n - 1], b, b);
    GrayDecodedLevels(x, g, b);
    GrayDecodedFits(x, g, b);
    assert LevelsOf(g, 1) == Top(LevelAt(g, 0), Bottom);
    UndoWordsLevels(g, b, 1, g);
    ClearAboveFits(g, UndoWords(g, b, 1), b);
    WordsOfLevels(UndoWords(g, b, 1), ToAxes(n, LevelsOf(x, b)), b);
  }

  method AxesToTranspose(x: array<nat>, b: nat)
    requires x.Length > 0 && 1 <= b <= 32 && Fits(x[..], b)
    modifies x
    ensures Fits(x[..], b) && x[..] == TransposeOf(old(x[..]), b)
  {
    RedoneFits(x[..], b);
    InverseUndo(x, b);
    ghost var last := GrayEncode(x, b);
    EncodedIsTranspose(old(x[..]), last, x[..], b);
  }

  lemma RedoneFits(x: seq<nat>, b: nat)
    requires |x| > 0 && 1 <= b && Fits(x, b)
    ensures Fits(RedoWords(x, b - 1), b)
    ensures LevelsOf(RedoWords(x, b - 1), b) == Redo(|x|, LevelsOf(x, b))
  {
    RedoWordsLevels(x, b - 1);
    ClearAboveFits(x, RedoWords(x, b - 1), b);
  }

  lemma EncodedIsTranspose(x: seq<nat>, last: nat, y: seq<nat>, b: nat)
    requires |x| > 0 && 1 <= b && Fits(x, b)
    requires last < Pow2(b) && GrayEncoded(RedoWords(x, b - 1), last, y)
    ensures Fits(y, b) && y == TransposeOf(x, b)
  {
    var w := RedoWords(x, b - 1);
    RedoneFits(x, b);
    NoBitAbove(last, b, b);
    EncodedLevels(w, last, y, b, false);
    EncodedFits(w, last, y, b);
    WordsOfLevels(y, ToTranspose(|x|, LevelsOf(x, b)), b);
  }

  // ---------------------------------------------------------------------------------------------
  // What the transforms are for.

  /** Both directions undo each other on all b-bit positions. */
  lemma RoundTrip(x: seq<nat>, b: nat)
    requires |x| > 0 && Fits(x, b)
    ensures Fits(AxesOf(x, b), b) && TransposeOf(AxesOf(x, b), b) == x
    ensures Fits(TransposeOf(x, b), b) && AxesOf(TransposeOf(x, b), b) == x
  {
    var n, m := |x|, LevelsOf(x, b);
    TransposeAxesInverse(n, m);
    LevelsOfWords(n, ToAxes(n, m));
    WordsFit(n, ToAxes(n, m));
    LevelsOfWords(n, ToTranspose(n, m));
    WordsFit(n, ToTranspose(n, m));
    WordsOfLevels(x, m, b);
  }

  /** One term of the sum in main: bit q of axis i, at its place in the Hilbert integer. */
  function Term(x: seq<nat>, q: nat, i: nat): (r: nat)
    requires i < |x|
  {
    if Bit(x[i], q) then Pow2(|x| * q + (|x| - 1 - i)) else 0
  }

  function LevelSum(x: seq<nat>, q: nat, cnt: nat): (r: nat)
    requires cnt <= |x|
  {
    if cnt == 0 then 0 else LevelSum(x, q, cnt - 1) + Term(x, q, cnt - 1)
  }

  /** The Hilbert integer of a transposed index, as main prints it, for any n and b. */
  function HilbertInteger(x: seq<nat>, b: nat): (r: nat)
  {
    if b == 0 then 0 else HilbertInteger(x, b - 1) + LevelSum(x, b - 1, |x|)
  }

  lemma {:induction false} Pow2Add(j: nat, k: nat)
    ensures Pow2(j + k) == Pow2(j) * Pow2(k)
  {
    if j > 0 { Pow2Add(j - 1, k); }
  }

  lemma Distribute(n: nat, k: nat)
    ensures n * k == n + n * (k - 1)
  {
  }

  lemma {:induction false} WeightIsPow2(n: nat, k: nat)
    ensures Weight(n, k) == Pow2(n * k)
  {
    if k > 0 {
      WeightIsPow2(n, k - 1);
      Pow2Add(n, n * (k - 1));
      Distribute(n, k);
    }
  }

  lemma DigitStep(d: nat, bit: bool, w: nat)
    ensures (2 * d + (if bit then 1 else 0)) * w == d * (2 * w) + (if bit then w else 0)
  {
  }

  lemma {:induction false} LevelSumIsDigit(x: seq<nat>, q: nat, cnt: nat)
    requires cnt <= |x|
    ensures LevelSum(x, q, cnt) == Digit(LevelAt(x, q)[..cnt]) * Pow2(|x| * q + (|x| - cnt))
  {
    if cnt > 0 {
      LevelSumIsDigit(x, q, cnt - 1);
      var v := LevelAt(x, q);
      assert v[..cnt][..cnt - 1] == v[..cnt - 1];
      var low := |x| * q + (|x| - cnt);
      DigitStep(Digit(v[..cnt - 1]), v[cnt - 1], Pow2(low));
      assert Pow2(low + 1) == 2 * Pow2(low);
    }
  }

  lemma {:induction false} HilbertIntegerIsIndex(x: seq<nat>, b: nat)
    ensures HilbertInteger(x, b) == Index(|x|, LevelsOf(x, b))
  {
    if b > 0 {
      HilbertIntegerIsIndex(x, b - 1);
      LevelSumIsDigit(x, b - 1, |x|);
      assert LevelAt(x, b - 1)[..|x|] == LevelAt(x, b - 1);
      WeightIsPow2(|x|, b - 1);
    }
  }

  /** Two cells that differ by exactly 1 in exactly one axis. */
  ghost predicate Adjacent(x: seq<nat>, y: seq<nat>)
  {
    && |x| == |y|
    && exists j :: 0 <= j < |x| && DifferByOne(x[j], y[j]) && forall i :: 0 <= i < |x| && i != j ==> x[i] == y[i]
  }

  /** The walk: consecutive Hilbert integers decode to adjacent cells. */
  lemma HilbertWalkTheorem(x: seq<nat>, y: seq<nat>, b: nat)
    requires |x| == |y| > 0 && Fits(x, b) && Fits(y, b)
    requires HilbertInteger(y, b) == HilbertInteger(x, b) + 1
    ensures Adjacent(AxesOf(x, b), AxesOf(y, b))
  {
    var n, m, m' := |x|, LevelsOf(x, b), LevelsOf(y, b);
    HilbertIntegerIsIndex(x, b);
    HilbertIntegerIsIndex(y, b);
    Walk(n, m, m');
    var p, p' := ToAxes(n, m), ToAxes(n, m');
    var j: nat :| NeighboursAlong(n, p, p', j);
    var c, d := AxesOf(x, b), AxesOf(y, b);
    assert DifferByOne(c[j], d[j]) && forall i :: 0 <= i < n && i != j ==> c[i] == d[i];
  }

  /** What main prints for the axes of a cell. */
  function HilbertNumber(cell: seq<nat>, b: nat): (h: nat)
    requires |cell| > 0
  {
    HilbertInteger(TransposeOf(cell, b), b)
  }

  /** The cell reached after h steps of the walk. */
  function CellAt(n: nat, b: nat, h: nat): (cell: seq<nat>)
    requires n > 0
    ensures |cell| == n
  {
    AxesOf(WordsOf(n, LevelsAt(n, b, h)), b)
  }

  /** The walk is at every number below 2^(n*b) once: the cell at h has number h. */
  lemma CellAtNumber(n: nat, b: nat, h: nat)
    requires n > 0 && h < Weight(n, b)
    ensures var x := WordsOf(n, LevelsAt(n, b, h)); Fits(x, b) && HilbertInteger(x, b) == h
    ensures Fits(CellAt(n, b, h), b) && HilbertNumber(CellAt(n, b, h), b) == h
  {
    var m := LevelsAt(n, b, h);
    LevelsOfWords(n, m);
    WordsFit(n, m);
    IndexOfLevels(n, b, h);
    HilbertIntegerIsIndex(WordsOf(n, m), b);
    RoundTrip(WordsOf(n, m), b);
  }

  /** Every step of the walk goes to an adjacent cell. */
  lemma StepsAreAdjacent(n: nat, b: nat, h: nat)
    requires n > 0 && h + 1 < Weight(n, b)
    ensures Adjacent(CellAt(n, b, h), CellAt(n, b, h + 1))
  {
    CellAtNumber(n, b, h);
    CellAtNumber(n, b, h + 1);
    HilbertWalkTheorem(WordsOf(n, LevelsAt(n, b, h)), WordsOf(n, LevelsAt(n, b, h + 1)), b);
  }

  /** Every cell of the n-cube of side 2^b is on the walk, at its Hilbert number. */
  lemma NumberedCell(cell: seq<nat>, b: nat)
    requires |cell| > 0 && Fits(cell, b)
    ensures HilbertNumber(cell, b) < Weight(|cell|, b) && CellAt(|cell|, b, HilbertNumber(cell, b)) == cell
  {
    var n, x := |cell|, TransposeOf(cell, b);
    RoundTrip(cell, b);
    var m := LevelsOf(x, b);
    HilbertIntegerIsIndex(x, b);
    IndexBound(n, m);
    var h := HilbertNumber(cell, b);
    IndexOfLevels(n, b, h);
    IndexInjective(n, m, LevelsAt(n, b, h));
    WordsOfLevels(x, m, b);
  }
}
