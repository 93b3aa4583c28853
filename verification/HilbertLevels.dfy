// The Hilbert transform of contribs/skilling.c on "levels": level q of a position is the vector of
// the bits q of all its axes, so a position of n axes and b bits is b vectors of n booleans.
module HilbertLevels {

  type Level = seq<bool>

  /** The levels of a position, the most significant one outermost. */
  datatype Levels = Bottom | Top(level: Level, low: Levels)

  predicate Shaped(m: Levels, n: nat)
  {
    m.Bottom? || (|m.level| == n && Shaped(m.low, n))
  }

  function Height(m: Levels): (h: nat)
  {
    if m.Bottom? then 0 else 1 + Height(m.low)
  }

  // ---------------------------------------------------------------------------------------------
  // One invert/exchange step, and the turn a level applies to each level below it.

  /** Step i under the level g: invert axis 0 if g[i] is set, else exchange axes 0 and i. */
  function Step(g: Level, v: Level, i: nat): (r: Level)
    requires |g| == |v| && i < |v|
    ensures |r| == |v|
  {
    if g[i] then v[0 := !v[0]] else v[0 := v[i]][i := v[0]]
  }

  /** Steps i, i-1, ..., 0. */
  function Turn(g: Level, v: Level, i: nat): (r: Level)
    requires |g| == |v| && i < |v|
    ensures |r| == |v|
    decreases i
  {
    if i == 0 then Step(g, v, 0) else Turn(g, Step(g, v, i), i - 1)
  }

  /** Steps i, i+1, ..., |v|-1. */
  function Unturn(g: Level, v: Level, i: nat): (r: Level)
    requires |g| == |v| && i <= |v|
    ensures |r| == |v|
    decreases |v| - i
  {
    if i == |v| then v else Unturn(g, Step(g, v, i), i + 1)
  }

  function StepAll(g: Level, m: Levels, i: nat): (r: Levels)
    requires i < |g| && Shaped(m, |g|)
    ensures Height(r) == Height(m) && Shaped(r, |g|)
  {
    if m.Bottom? then m else Top(Step(g, m.level, i), StepAll(g, m.low, i))
  }

  function TurnAll(g: Level, m: Levels, i: nat): (r: Levels)
    requires i < |g| && Shaped(m, |g|)
    ensures Height(r) == Height(m) && Shaped(r, |g|)
  {
    if m.Bottom? then m else Top(Turn(g, m.level, i), TurnAll(g, m.low, i))
  }

  function UnturnAll(g: Level, m: Levels, i: nat): (r: Levels)
    requires i <= |g| && Shaped(m, |g|)
    ensures Height(r) == Height(m) && Shaped(r, |g|)
  {
    if m.Bottom? then m else Top(Unturn(g, m.level, i), UnturnAll(g, m.low, i))
  }

  // ---------------------------------------------------------------------------------------------
  // The two halves of each direction.

  /** "Undo excess work": every level turns all the levels below it, lowest level first. */
  function Undo(n: nat, m: Levels): (r: Levels)
    requires n > 0 && Shaped(m, n)
    ensures Height(r) == Height(m) && Shaped(r, n)
  {
    if m.Bottom? then m else Top(m.level, TurnAll(m.level, Undo(n, m.low), n - 1))
  }

  /** "Inverse undo": highest level first. */
  function Redo(n: nat, m: Levels): (r: Levels)
    requires n > 0 && Shaped(m, n)
    ensures Height(r) == Height(m) && Shaped(r, n)
    decreases Height(m)
  {
    if m.Bottom? then m else Top(m.level, Redo(n, UnturnAll(m.level, m.low, 0)))
  }

  /** v ^ (v >> 1) with c shifted in above the leading bit v[0]. */
  function GrayLevel(v: Level, c: bool): (r: Level)
    ensures |r| == |v|
  {
    seq(|v|, i requires 0 <= i < |v| => v[i] != (if i == 0 then c else v[i - 1]))
  }

  /** The Gray code of the whole index, whose bits are read from the top level down. */
  function Gray(n: nat, m: Levels, c: bool): (r: Levels)
    requires n > 0 && Shaped(m, n)
    ensures Height(r) == Height(m) && Shaped(r, n)
  {
    if m.Bottom? then m else Top(GrayLevel(m.level, c), Gray(n, m.low, m.level[n - 1]))
  }

  /** Exclusive or of v[0..i] and c. */
  function Parity(v: Level, c: bool, i: nat): (r: bool)
    requires i < |v|
  {
    v[i] != (if i == 0 then c else Parity(v, c, i - 1))
  }

  function UngrayLevel(v: Level, c: bool): (r: Level)
    ensures |r| == |v|
  {
    seq(|v|, i requires 0 <= i < |v| => Parity(v, c, i))
  }

  function Ungray(n: nat, m: Levels, c: bool): (r: Levels)
    requires n > 0 && Shaped(m, n)
    ensures Height(r) == Height(m) && Shaped(r, n)
  {
    if m.Bottom? then m else Top(UngrayLevel(m.level, c), Ungray(n, m.low, Parity(m.level, c, n - 1)))
  }

  /** The position at a (transposed) Hilbert index. */
  function ToAxes(n: nat, m: Levels): (r: Levels)
    requires n > 0 && Shaped(m, n)
    ensures Height(r) == Height(m) && Shaped(r, n)
  {
    Undo(n, Gray(n, m, false))
  }

  /** The (transposed) Hilbert index of a position. */
  function ToTranspose(n: nat, m: Levels): (r: Levels)
    requires n > 0 && Shaped(m, n)
    ensures Height(r) == Height(m) && Shaped(r, n)
  {
    Ungray(n, Redo(n, m), false)
  }

  // ---------------------------------------------------------------------------------------------
  // The two directions are mutually inverse.

  lemma StepInvolution(g: Level, v: Level, i: nat)
    requires |g| == |v| && i < |v|
    ensures Step(g, Step(g, v, i), i) == v
  {
  }

  lemma {:induction false} UnturnTurn(g: Level, v: Level, i: nat)
    requires |g| == |v| && i < |v|
    ensures Unturn(g, Turn(g, v, i), 0) == Unturn(g, v, i + 1)
    decreases i
  {
    if i == 0 {
      StepInvolution(g, v, 0);
    } else {
      UnturnTurn(g, Step(g, v, i), i - 1);
      StepInvolution(g, v, i);
    }
  }

  lemma {:induction false} TurnUnturn(g: Level, v: Level, i: nat)
    requires |g| == |v| && i < |v|
    ensures Turn(g, Unturn(g, v, i), |v| - 1) == (if i == 0 then v else Turn(g, v, i - 1))
    decreases |v| - i
  {
    StepInvolution(g, v, i);
    if i + 1 < |v| {
      TurnUnturn(g, Step(g, v, i), i + 1);
    }
  }

  lemma {:induction false} UnturnTurnAll(g: Level, m: Levels)
    requires |g| > 0 && Shaped(m, |g|)
    ensures UnturnAll(g, TurnAll(g, m, |g| - 1), 0) == m
    ensures TurnAll(g, UnturnAll(g, m, 0), |g| - 1) == m
  {
    if m.Top? {
      UnturnTurn(g, m.level, |g| - 1);
      TurnUnturn(g, m.level, 0);
      UnturnTurnAll(g, m.low);
    }
  }

  lemma {:induction false} RedoUndo(n: nat, m: Levels)
    requires n > 0 && Shaped(m, n)
    ensures Redo(n, Undo(n, m)) == m
  {
    if m.Top? {
      UnturnTurnAll(m.level, Undo(n, m.low));
      RedoUndo(n, m.low);
    }
  }

  lemma {:induction false} UndoRedo(n: nat, m: Levels)
    requires n > 0 && Shaped(m, n)
    ensures Undo(n, Redo(n, m)) == m
    decreases Height(m)
  {
    if m.Top? {
      UndoRedo(n, UnturnAll(m.level, m.low, 0));
      UnturnTurnAll(m.level, m.low);
    }
  }

  lemma {:induction false} ParityOfGray(v: Level, c: bool, i: nat)
    requires i < |v|
    ensures Parity(GrayLevel(v, c), c, i) == v[i]
  {
    if i > 0 { ParityOfGray(v, c, i - 1); }
  }

  lemma UngrayLevelInverse(v: Level, c: bool)
    ensures UngrayLevel(GrayLevel(v, c), c) == v
    ensures GrayLevel(UngrayLevel(v, c), c) == v
  {
    forall i | 0 <= i < |v| ensures UngrayLevel(GrayLevel(v, c), c)[i] == v[i] {
      ParityOfGray(v, c, i);
    }
  }

  lemma {:induction false} UngrayGray(n: nat, m: Levels, c: bool)
    requires n > 0 && Shaped(m, n)
    ensures Ungray(n, Gray(n, m, c), c) == m
  {
    if m.Top? {
      UngrayLevelInverse(m.level, c);
      ParityOfGray(m.level, c, n - 1);
      UngrayGray(n, m.low, m.level[n - 1]);
    }
  }

  lemma {:induction false} GrayUngray(n: nat, m: Levels, c: bool)
    requires n > 0 && Shaped(m, n)
    ensures Gray(n, Ungray(n, m, c), c) == m
  {
    if m.Top? {
      UngrayLevelInverse(m.level, c);
      GrayUngray(n, m.low, Parity(m.level, c, n - 1));
    }
  }

  lemma TransposeAxesInverse(n: nat, m: Levels)
    requires n > 0 && Shaped(m, n)
    ensures ToTranspose(n, ToAxes(n, m)) == m
    ensures ToAxes(n, ToTranspose(n, m)) == m
  {
    RedoUndo(n, Gray(n, m, false));
    UngrayGray(n, m, false);
    GrayUngray(n, Redo(n, m), false);
    UndoRedo(n, m);
  }
}
