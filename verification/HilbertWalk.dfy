// Consecutive Hilbert indices are decoded to neighbouring cells: cells that differ by exactly 1 in
// exactly one axis.  The proof is by induction on the number of levels, with the bit c carried into
// the Gray code of a block as a parameter: c == true is the block walked backwards.
module HilbertWalk {
  import opened BitWords
  import opened HilbertLevels

  /** The coordinate of a position along axis i. */
  function Coord(m: Levels, i: nat, n: nat): (r: nat)
    requires i < n && Shaped(m, n)
  {
    if m.Bottom? then 0
    else Coord(m.low, i, n) + (if m.level[i] then Pow2(Height(m.low)) else 0)
  }

  /** The number a level denotes, v[0] being the most significant bit. */
  function Digit(v: Level): (r: nat)
  {
    if v == [] then 0
    else 2 * Digit(v[..|v| - 1]) + (if v[|v| - 1] then 1 else 0)
  }

  /** 2^(n*k): the weight of level k, and the number of cells of k levels. */
  function Weight(n: nat, k: nat): (r: nat)
    ensures r >= 1
  {
    if k == 0 then 1 else
      assert Pow2(n) * Weight(n, k - 1) >= 1 * Weight(n, k - 1);
      Pow2(n) * Weight(n, k - 1)
  }

  /** The Hilbert integer: the levels are its base 2^n digits, the top one the most significant. */
  function Index(n: nat, m: Levels): (r: nat)
    requires Shaped(m, n)
  {
    if m.Bottom? then 0
    else Digit(m.level) * Weight(n, Height(m.low)) + Index(n, m.low)
  }

  predicate DifferByOne(x: nat, y: nat)
  {
    x == y + 1 || y == x + 1
  }

  ghost predicate NeighboursAlong(n: nat, p: Levels, p': Levels, j: nat)
    requires Shaped(p, n) && Shaped(p', n)
  {
    && j < n
    && (forall i :: 0 <= i < n && i != j ==> Coord(p, i, n) == Coord(p', i, n))
    && DifferByOne(Coord(p, j, n), Coord(p', j, n))
  }

  ghost predicate Neighbours(n: nat, p: Levels, p': Levels)
    requires Shaped(p, n) && Shaped(p', n)
  {
    exists j: nat :: NeighboursAlong(n, p, p', j)
  }

  // ---------------------------------------------------------------------------------------------
  // Corners: blocks are entered and left at the origin or at the far end of axis 0.

  /** b levels that are all v. */
  function Constant(v: Level, b: nat): (r: Levels)
    ensures Height(r) == b && Shaped(r, |v|)
  {
    if b == 0 then Bottom else Top(v, Constant(v, b - 1))
  }

  function Zeros(n: nat): (r: Level)
    ensures |r| == n && forall i :: 0 <= i < n ==> !r[i]
  {
    seq(n, _ => false)
  }

  /** The level of the first (all clear) or last (all set) index. */
  function End(n: nat, ones: bool): (r: Level)
    ensures |r| == n && forall i :: 0 <= i < n ==> r[i] == ones
  {
    seq(n, _ => ones)
  }

  /** Axis 0 set, the others clear: at every level, the far end of axis 0. */
  function Unit(n: nat): (r: Level)
    requires n > 0
    ensures |r| == n && r[0] && forall i :: 0 < i < n ==> !r[i]
  {
    Zeros(n)[0 := true]
  }

  function Corner(n: nat, far: bool): (r: Level)
    requires n > 0
    ensures |r| == n
  {
    if far then Unit(n) else Zeros(n)
  }

  lemma {:induction false} TurnCornerZeros(n: nat, far: bool, i: nat)
    requires i < n
    ensures Turn(Corner(n, far), Zeros(n), i) == Corner(n, far)
    decreases i
  {
    if i > 0 {
      assert Step(Corner(n, far), Zeros(n), i) == Zeros(n);
      TurnCornerZeros(n, far, i - 1);
    }
  }

  lemma {:induction false} TurnConstant(g: Level, v: Level, b: nat)
    requires |g| == |v| > 0
    ensures TurnAll(g, Constant(v, b), |g| - 1) == Constant(Turn(g, v, |g| - 1), b)
  {
    if b > 0 { TurnConstant(g, v, b - 1); }
  }

  /** Undoing a top level which is a corner, over levels at the origin, gives that corner. */
  lemma {:induction false} UndoCorner(n: nat, b: nat, far: bool)
    requires n > 0
    ensures Undo(n, Top(Corner(n, far), Constant(Zeros(n), b))) == Constant(Corner(n, far), b + 1)
  {
    if b > 0 { UndoCorner(n, b - 1, false); }
    TurnConstant(Corner(n, far), Zeros(n), b);
    TurnCornerZeros(n, far, n - 1);
  }

  lemma GrayLevelOfEnd(n: nat, ones: bool, c: bool)
    requires n > 0
    ensures GrayLevel(End(n, ones), c) == Corner(n, ones != c)
  {
  }

  /** The Gray code of the first (or last) index of a block. */
  lemma {:induction false} GrayOfEnd(n: nat, b: nat, ones: bool, c: bool)
    requires n > 0
    ensures Gray(n, Constant(End(n, ones), b + 1), c) == Top(Corner(n, ones != c), Constant(Zeros(n), b))
  {
    GrayLevelOfEnd(n, ones, c);
    if b > 0 { GrayOfEnd(n, b - 1, ones, ones); }
  }

  /** The cell at the first (or last) index of a block of b levels. */
  lemma DecodeEnd(n: nat, b: nat, ones: bool, c: bool)
    requires n > 0
    ensures Undo(n, Gray(n, Constant(End(n, ones), b), c)) == Constant(Corner(n, ones != c), b)
  {
    if b > 0 {
      GrayOfEnd(n, b - 1, ones, c);
      UndoCorner(n, b - 1, ones != c);
    }
  }

  // ---------------------------------------------------------------------------------------------
  // How consecutive digits turn the corner between their blocks.

  /** A turn up to step i touches only axes 0..i, and only reads those of g. */
  lemma {:induction false} TurnLocal(g: Level, v: Level, g': Level, v': Level, i: nat)
    requires |g| == |v| == |g'| == |v'| && i < |v|
    requires forall k :: 0 <= k <= i ==> g[k] == g'[k] && v[k] == v'[k]
    ensures forall k :: i < k < |v| ==> Turn(g, v, i)[k] == v[k]
    ensures forall k :: 0 <= k <= i ==> Turn(g, v, i)[k] == Turn(g', v', i)[k]
    decreases i
  {
    if i > 0 {
      TurnLocal(g, Step(g, v, i), g', Step(g', v', i), i - 1);
      TurnLocal(g', Step(g', v', i), g, Step(g, v, i), i - 1);
    }
  }

  ghost predicate DifferExactlyAt(v: Level, v': Level, j: nat)
  {
    && |v| == |v'|
    && j < |v|
    && v[j] != v'[j]
    && forall k :: 0 <= k < |v| && k != j ==> v[k] == v'[k]
  }

  lemma StepUnit(g: Level, j: nat)
    requires 0 < j < |g|
    ensures Step(g, Unit(|g|), j) == Zeros(|g|)[j := !g[j]]
  {
  }

  lemma TurnPair(g: Level, v: Level, g': Level, v': Level, j: nat)
    requires |g| == |v| && DifferExactlyAt(g, g', j) && DifferExactlyAt(v, v', j) && j > 0
    ensures DifferExactlyAt(Turn(g, v, j - 1), Turn(g', v', j - 1), j)
    ensures Turn(g, v, j - 1)[j] == v[j]
  {
    TurnLocal(g, v, g', v', j - 1);
    TurnLocal(g', v', g, v, j - 1);
  }

  /** Turning the far corner under digits that differ at j gives two corners facing each other along j. */
  lemma TurnUnit(g: Level, g': Level, j: nat)
    requires DifferExactlyAt(g, g', j)
    ensures DifferExactlyAt(Turn(g, Unit(|g|), j), Turn(g', Unit(|g|), j), j)
    ensures Turn(g, Unit(|g|), j)[j] == !g[j]
  {
    if j > 0 {
      StepUnit(g, j);
      StepUnit(g', j);
      var v, v' := Zeros(|g|)[j := !g[j]], Zeros(|g|)[j := !g'[j]];
      assert Turn(g, Unit(|g|), j) == Turn(g, v, j - 1) && Turn(g', Unit(|g|), j) == Turn(g', v', j - 1);
      TurnPair(g, v, g', v', j);
    }
  }

  /** The same from the origin, when below j the digits read 1, 0, ..., 0. */
  lemma {:induction false} TurnOrigin(g: Level, g': Level, j: nat, i: nat)
    requires DifferExactlyAt(g, g', j) && j < i < |g|
    requires g[j + 1] && forall k :: j + 1 < k < |g| ==> !g[k]
    ensures DifferExactlyAt(Turn(g, Zeros(|g|), i), Turn(g', Zeros(|g|), i), j)
    ensures Turn(g, Zeros(|g|), i)[j] == !g[j]
    decreases i
  {
    var n := |g|;
    if i == j + 1 {
      assert Step(g, Zeros(n), i) == Unit(n) == Step(g', Zeros(n), i);
      TurnUnit(g, g', j);
    } else {
      assert Step(g, Zeros(n), i) == Zeros(n) == Step(g', Zeros(n), i);
      TurnOrigin(g, g', j, i - 1);
    }
  }

  /** The carry position of an increment. */
  lemma {:induction false} Increment(u: Level, u': Level) returns (j: nat)
    requires |u| == |u'| && Digit(u') == Digit(u) + 1
    ensures j < |u| && (forall k :: 0 <= k < j ==> u[k] == u'[k]) && !u[j] && u'[j]
    ensures forall k :: j < k < |u| ==> u[k] && !u'[k]
  {
    var e := |u| - 1;
    if u[e] {
      j := Increment(u[..e], u'[..e]);
    } else {
      DigitInjective(u[..e], u'[..e]);
      j := e;
    }
  }

  lemma {:induction false} DigitInjective(u: Level, v: Level)
    requires |u| == |v| && Digit(u) == Digit(v)
    ensures u == v
  {
    if u != [] {
      var e := |u| - 1;
      DigitInjective(u[..e], v[..e]);
      assert u == u[..e] + [u[e]] && v == v[..e] + [v[e]];
    }
  }

  /** The corner shared by the blocks of digits u and u + 1: where the first is left and the second entered. */
  lemma SharedCorner(u: Level, u': Level, c: bool) returns (j: nat)
    requires |u| == |u'| > 0 && Digit(u') == Digit(u) + 1
    ensures u'[|u| - 1] == !u[|u| - 1]
    ensures
      var corner := Corner(|u|, !u[|u| - 1]);
      var g, g' := GrayLevel(u, c), GrayLevel(u', c);
      && DifferExactlyAt(g, g', j)
      && DifferExactlyAt(Turn(g, corner, |u| - 1), Turn(g', corner, |u| - 1), j)
      && Turn(g, corner, |u| - 1)[j] == !g[j]
  {
    j := Increment(u, u');
    var n := |u|;
    var g, g' := GrayLevel(u, c), GrayLevel(u', c);
    if j == n - 1 {
      TurnUnit(g, g', j);
    } else {
      TurnOrigin(g, g', j, n - 1);
    }
  }

  // ---------------------------------------------------------------------------------------------
  // Neighbours stay neighbours under a turn.

  lemma {:induction false} StepCoords(g: Level, m: Levels, i: nat)
    requires i < |g| && Shaped(m, |g|)
    ensures
      var n, r := |g|, StepAll(g, m, i);
      if g[i] then
        && Coord(r, 0, n) + Coord(m, 0, n) == Pow2(Height(m)) - 1
        && forall k :: 0 < k < n ==> Coord(r, k, n) == Coord(m, k, n)
      else
        && Coord(r, 0, n) == Coord(m, i, n)
        && Coord(r, i, n) == Coord(m, 0, n)
        && forall k :: 0 < k < n && k != i ==> Coord(r, k, n) == Coord(m, k, n)
  {
    if m.Top? { StepCoords(g, m.low, i); }
  }

  lemma StepNeighbours(g: Level, p: Levels, p': Levels, i: nat)
    requires i < |g| && Shaped(p, |g|) && Shaped(p', |g|) && Height(p) == Height(p')
    requires Neighbours(|g|, p, p')
    ensures Neighbours(|g|, StepAll(g, p, i), StepAll(g, p', i))
  {
    var n, r, r' := |g|, StepAll(g, p, i), StepAll(g, p', i);
    var j: nat :| NeighboursAlong(n, p, p', j);
    StepCoords(g, p, i);
    StepCoords(g, p', i);
    assert NeighboursAlong(n, r, r', if g[i] then j else if j == i then 0 else if j == 0 then i else j);
  }

  lemma {:induction false} TurnAllUnfold(g: Level, m: Levels, i: nat)
    requires i < |g| && Shaped(m, |g|)
    ensures TurnAll(g, m, i) == if i == 0 then StepAll(g, m, 0) else TurnAll(g, StepAll(g, m, i), i - 1)
  {
    if m.Top? { TurnAllUnfold(g, m.low, i); }
  }

  lemma {:induction false} TurnNeighbours(g: Level, p: Levels, p': Levels, i: nat)
    requires i < |g| && Shaped(p, |g|) && Shaped(p', |g|) && Height(p) == Height(p')
    requires Neighbours(|g|, p, p')
    ensures Neighbours(|g|, TurnAll(g, p, i), TurnAll(g, p', i))
    decreases i
  {
    StepNeighbours(g, p, p', i);
    TurnAllUnfold(g, p, i);
    TurnAllUnfold(g, p', i);
    if i > 0 {
      TurnNeighbours(g, StepAll(g, p, i), StepAll(g, p', i), i - 1);
    }
  }

  /** The same top level over both cells. */
  lemma SameTopNeighbours(n: nat, p: Levels, p': Levels, g: Level)
    requires Shaped(p, n) && Shaped(p', n) && Height(p) == Height(p') && |g| == n
    requires Neighbours(n, p, p')
    ensures Neighbours(n, Top(g, p), Top(g, p'))
  {
    var j: nat :| NeighboursAlong(n, p, p', j);
    forall i | 0 <= i < n ensures Coord(Top(g, p), i, n) - Coord(p, i, n) == Coord(Top(g, p'), i, n) - Coord(p', i, n) {
    }
    assert NeighboursAlong(n, Top(g, p), Top(g, p'), j);
  }

  lemma {:induction false} CoordOfConstant(v: Level, b: nat, i: nat)
    requires i < |v|
    ensures Coord(Constant(v, b), i, |v|) == if v[i] then Pow2(b) - 1 else 0
  {
    if b > 0 { CoordOfConstant(v, b - 1, i); }
  }

  /** Constant blocks facing each other along j, under top levels that differ at j. */
  lemma FacingNeighbours(n: nat, b: nat, v: Level, v': Level, g: Level, g': Level, j: nat)
    requires |v| == |g| == n
    requires DifferExactlyAt(v, v', j) && DifferExactlyAt(g, g', j) && v[j] == !g[j]
    ensures Neighbours(n, Top(g, Constant(v, b)), Top(g', Constant(v', b)))
  {
    forall i | 0 <= i < n
      ensures Coord(Top(g, Constant(v, b)), i, n) == (if v[i] then Pow2(b) - 1 else 0) + (if g[i] then Pow2(b) else 0)
      ensures Coord(Top(g', Constant(v', b)), i, n)
              == (if v'[i] then Pow2(b) - 1 else 0) + (if g'[i] then Pow2(b) else 0)
    {
      CoordOfConstant(v, b, i);
      CoordOfConstant(v', b, i);
    }
    assert NeighboursAlong(n, Top(g, Constant(v, b)), Top(g', Constant(v', b)), j);
  }

  // ---------------------------------------------------------------------------------------------
  // The index arithmetic.

  lemma {:induction false} DigitBound(v: Level)
    ensures Digit(v) < Pow2(|v|)
    ensures Digit(v) == 0 ==> v == End(|v|, false)
    ensures Digit(v) == Pow2(|v|) - 1 ==> v == End(|v|, true)
  {
    if v != [] { DigitBound(v[..|v| - 1]); }
  }

  lemma {:induction false} IndexBound(n: nat, m: Levels)
    requires Shaped(m, n)
    ensures Index(n, m) < Weight(n, Height(m))
    ensures Index(n, m) == 0 ==> m == Constant(End(n, false), Height(m))
    ensures Index(n, m) == Weight(n, Height(m)) - 1 ==> m == Constant(End(n, true), Height(m))
  {
    if m.Top? {
      IndexBound(n, m.low);
      DigitBound(m.level);
      DigitTimes(Digit(m.level), Pow2(n), Weight(n, Height(m.low)), Index(n, m.low));
    }
  }

  lemma MulOutside(e: int, w: int)
    requires w >= 0
    ensures e <= -1 ==> e * w <= -w
    ensures e >= 0 ==> e * w >= 0
    ensures e >= 1 ==> e * w >= w
    ensures e >= 2 ==> e * w >= 2 * w
  {
    if e >= 1 { assert e * w == w + (e - 1) * w; }
    if e >= 2 { assert e * w == 2 * w + (e - 2) * w; }
    if e <= -1 { assert e * w == -w + (e + 1) * w; }
  }

  lemma DigitTimes(d: nat, e: nat, w: nat, low: nat)
    requires d < e && low < w
    ensures d * w + low < e * w
    ensures d * w + low == 0 ==> d == 0 && low == 0
    ensures d * w + low == e * w - 1 ==> d == e - 1 && low == w - 1
  {
    MulOutside(d, w);
    MulOutside(e - d, w);
    assert (e - d) * w == e * w - d * w;
  }

  /** Either the low levels advance, or they wrap and the top digit advances. */
  lemma Carry(d: nat, d': nat, w: nat, low: nat, low': nat)
    requires low < w && low' < w && d' * w + low' == d * w + low + 1
    ensures (d' == d && low' == low + 1) || (d' == d + 1 && low == w - 1 && low' == 0)
  {
    var e := d' - d;
    assert e * w == d' * w - d * w;
    MulOutside(e, w);
    if e == 1 { assert e * w == w; }
  }

  lemma SameQuotient(d: nat, d': nat, w: nat, low: nat, low': nat)
    requires low < w && low' < w && d * w + low == d' * w + low'
    ensures d == d' && low == low'
  {
    var e := d' - d;
    assert e * w == d' * w - d * w;
    MulOutside(e, w);
  }

  // ---------------------------------------------------------------------------------------------
  // The walk.

  lemma {:induction false} WalkWithCarry(n: nat, m: Levels, m': Levels, c: bool)
    requires n > 0 && Shaped(m, n) && Shaped(m', n) && Height(m) == Height(m')
    requires Index(n, m') == Index(n, m) + 1
    ensures Neighbours(n, Undo(n, Gray(n, m, c)), Undo(n, Gray(n, m', c)))
  {
    var u, u', low, low' := m.level, m'.level, m.low, m'.low;
    IndexBound(n, low);
    IndexBound(n, low');
    Carry(Digit(u), Digit(u'), Weight(n, Height(low)), Index(n, low), Index(n, low'));
    if Digit(u') == Digit(u) {
      DigitInjective(u, u');
      WalkWithCarry(n, low, low', u[n - 1]);
      WithinBlock(n, GrayLevel(u, c), Undo(n, Gray(n, low, u[n - 1])), Undo(n, Gray(n, low', u[n - 1])));
    } else {
      BetweenBlocks(n, Height(low), u, u', c);
    }
  }

  lemma WithinBlock(n: nat, g: Level, cell: Levels, cell': Levels)
    requires n > 0 && |g| == n && Shaped(cell, n) && Shaped(cell', n) && Height(cell) == Height(cell')
    requires Neighbours(n, cell, cell')
    ensures Neighbours(n, Top(g, TurnAll(g, cell, n - 1)), Top(g, TurnAll(g, cell', n - 1)))
  {
    TurnNeighbours(g, cell, cell', n - 1);
    SameTopNeighbours(n, TurnAll(g, cell, n - 1), TurnAll(g, cell', n - 1), g);
  }

  /** The cell at the first or last index of the block of digit u. */
  lemma BlockEnd(n: nat, b: nat, u: Level, ones: bool, c: bool)
    requires n > 0 && |u| == n
    ensures
      var g := GrayLevel(u, c);
      Undo(n, Gray(n, Top(u, Constant(End(n, ones), b)), c))
        == Top(g, Constant(Turn(g, Corner(n, ones != u[n - 1]), n - 1), b))
  {
    DecodeEnd(n, b, ones, u[n - 1]);
    TurnConstant(GrayLevel(u, c), Corner(n, ones != u[n - 1]), b);
  }

  lemma BetweenBlocks(n: nat, b: nat, u: Level, u': Level, c: bool)
    requires n > 0 && |u| == |u'| == n && Digit(u') == Digit(u) + 1
    ensures Neighbours(n, Undo(n, Gray(n, Top(u, Constant(End(n, true), b)), c)),
                          Undo(n, Gray(n, Top(u', Constant(End(n, false), b)), c)))
  {
    var g, g' := GrayLevel(u, c), GrayLevel(u', c);
    var j := SharedCorner(u, u', c);
    var corner := Corner(n, !u[n - 1]);
    BlockEnd(n, b, u, true, c);
    BlockEnd(n, b, u', false, c);
    FacingNeighbours(n, b, Turn(g, corner, n - 1), Turn(g', corner, n - 1), g, g', j);
  }

  /** The walk theorem on levels. */
  lemma Walk(n: nat, m: Levels, m': Levels)
    requires n > 0 && Shaped(m, n) && Shaped(m', n) && Height(m) == Height(m')
    requires Index(n, m') == Index(n, m) + 1
    ensures Neighbours(n, ToAxes(n, m), ToAxes(n, m'))
  {
    WalkWithCarry(n, m, m', false);
  }

  // ---------------------------------------------------------------------------------------------
  // Every index below 2^(n*b) is the index of exactly one position.

  function DigitLevel(n: nat, d: nat): (v: Level)
    ensures |v| == n
  {
    if n == 0 then [] else DigitLevel(n - 1, d / 2) + [d % 2 == 1]
  }

  /** Quotient and remainder, by repeated subtraction. */
  function Divide(h: nat, w: nat): (r: (nat, nat))
    requires w > 0
    ensures r.1 < w && h == r.0 * w + r.1
  {
    if h < w then (0, h)
    else
      var r := Divide(h - w, w);
      assert (r.0 + 1) * w == r.0 * w + w;
      (r.0 + 1, r.1)
  }

  function LevelsAt(n: nat, b: nat, h: nat): (m: Levels)
    ensures Height(m) == b && Shaped(m, n)
  {
    if b == 0 then Bottom
    else
      var (top, low) := Divide(h, Weight(n, b - 1));
      Top(DigitLevel(n, top), LevelsAt(n, b - 1, low))
  }

  lemma {:induction false} DigitOfLevel(n: nat, d: nat)
    requires d < Pow2(n)
    ensures Digit(DigitLevel(n, d)) == d
  {
    if n > 0 {
      DigitOfLevel(n - 1, d / 2);
      var v := DigitLevel(n, d);
      assert v[..n - 1] == DigitLevel(n - 1, d / 2);
    }
  }

  lemma {:induction false} IndexOfLevels(n: nat, b: nat, h: nat)
    requires h < Weight(n, b)
    ensures Index(n, LevelsAt(n, b, h)) == h
  {
    if b > 0 {
      var w := Weight(n, b - 1);
      var (top, low) := Divide(h, w);
      QuotientBound(top, low, Pow2(n), w);
      DigitOfLevel(n, top);
      IndexOfLevels(n, b - 1, low);
    }
  }

  lemma QuotientBound(top: nat, low: nat, e: nat, w: nat)
    requires top * w + low < e * w
    ensures top < e
  {
    MulOutside(top - e, w);
    assert (top - e) * w == top * w - e * w;
  }

  lemma {:induction false} IndexInjective(n: nat, m: Levels, m': Levels)
    requires Shaped(m, n) && Shaped(m', n) && Height(m) == Height(m') && Index(n, m) == Index(n, m')
    ensures m == m'
  {
    if m.Top? {
      IndexBound(n, m.low);
      IndexBound(n, m'.low);
      SameQuotient(Digit(m.level), Digit(m'.level), Weight(n, Height(m.low)), Index(n, m.low), Index(n, m'.low));
      DigitInjective(m.level, m'.level);
      IndexInjective(n, m.low, m'.low);
    }
  }
}
