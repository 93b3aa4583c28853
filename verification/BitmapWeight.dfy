// hweight: the number of set bits of a 32-bit word, by adding ever wider fields (src/common/bitstring.c).
module BitmapWeight {
  import opened BitWords

  const WORD_BITS := 32

  /** One line of hweight, on unsigned 32-bit words: neighbouring fields of m bits are added. */
  function Line(w: nat, m: nat, mask: nat): (r: nat)
  {
    (And(w, mask) + And(Shr(w, m), mask)) % WORD
  }

  function Hweight(w: nat): (r: nat)
  {
    var r1 := Line(w, 1, 0x55555555);
    var r2 := Line(r1, 2, 0x33333333);
    var r4 := Line(r2, 4, 0x0F0F0F0F);
    var r8 := Line(r4, 8, 0x00FF00FF);
    Line(r8, 16, 0x0000FFFF)
  }

  /** How many of the bits 0, ..., k - 1 of w are set. */
  function Ones(w: nat, k: nat): (n: nat)
    ensures n <= k
  {
    if k == 0 then 0 else Ones(w, k - 1) + if Bit(w, k - 1) then 1 else 0
  }

  // ---------------------------------------------------------------------------------------------
  // Taking words apart: the low m bits, and x << m.

  function Low(w: nat, m: nat): (r: nat)
    ensures r < Pow2(m)
    decreases m
  {
    if m == 0 then 0 else w % 2 + 2 * Low(w / 2, m - 1)
  }

  function Shl(x: nat, m: nat): (r: nat)
  {
    if m == 0 then x else 2 * Shl(x, m - 1)
  }

  lemma {:induction false} Parts(q: nat, m: nat, r: nat)
    requires r < Pow2(m)
    ensures Low(Shl(q, m) + r, m) == r && Shr(Shl(q, m) + r, m) == q
  {
    if m > 0 {
      Parts(q, m - 1, r / 2);
      assert (Shl(q, m) + r) / 2 == Shl(q, m - 1) + r / 2;
    }
  }

  lemma {:induction false} ShlSum(x: nat, y: nat, m: nat)
    ensures Shl(x + y, m) == Shl(x, m) + Shl(y, m)
  {
    if m > 0 { ShlSum(x, y, m - 1); }
  }

  lemma {:induction false} ShrShr(w: nat, a: nat, b: nat)
    ensures Shr(Shr(w, a), b) == Shr(w, a + b)
    decreases a
  {
    if a > 0 { ShrShr(w / 2, a - 1, b); }
  }

  lemma {:induction false} LowLow(w: nat, m: nat, k: nat)
    requires m <= k
    ensures Low(Low(w, k), m) == Low(w, m)
    decreases m
  {
    if m > 0 { LowLow(w / 2, m - 1, k - 1); }
  }

  lemma {:induction false} Pow2Le(a: nat, b: nat)
    requires a <= b
    ensures Pow2(a) <= Pow2(b)
  {
    if a < b { Pow2Le(a, b - 1); }
  }

  lemma {:induction false} ShlBound(h: nat, k: nat, m: nat, x: nat)
    requires h < Pow2(k) && x < Pow2(m)
    ensures Shl(h, m) + x < Pow2(k + m)
  {
    if m > 0 { ShlBound(h, k, m - 1, x / 2); }
  }

  // ---------------------------------------------------------------------------------------------
  // A word as n fields of m bits.

  function FieldSum(w: nat, m: nat, n: nat): (s: nat)
    decreases n
  {
    if n == 0 then 0 else Low(w, m) + FieldSum(Shr(w, m), m, n - 1)
  }

  /** Every other field, from the first one on. */
  function Halves(w: nat, m: nat, p: nat): (r: nat)
    decreases p
  {
    if p == 0 then 0 else Low(w, m) + Shl(Halves(Shr(w, 2 * m), m, p - 1), 2 * m)
  }

  lemma FieldStep(w: nat, m: nat, n: nat)
    requires n > 0
    ensures FieldSum(w, m, n) == Low(w, m) + FieldSum(Shr(w, m), m, n - 1)
  {
  }

  lemma FieldPair(w: nat, m: nat, n: nat)
    requires n > 1
    ensures FieldSum(w, m, n) == Low(w, m) + Low(Shr(w, m), m) + FieldSum(Shr(w, 2 * m), m, n - 2)
  {
    FieldStep(w, m, n);
    FieldStep(Shr(w, m), m, n - 1);
    ShrShr(w, m, m);
  }

  lemma SmallSum(m: nat, x: nat, y: nat)
    requires m > 0 && x < Pow2(m) && y < Pow2(m)
    ensures x + y < Pow2(2 * m)
  {
    Pow2Le(m + 1, 2 * m);
  }

  /** The bits p pairs of fields take. */
  function Span(m: nat, p: nat): (k: nat)
  {
    if p == 0 then 0 else Span(m, p - 1) + 2 * m
  }

  lemma HalvesStep(w: nat, m: nat, p: nat)
    requires p > 0
    ensures Halves(w, m, p) == Low(w, m) + Shl(Halves(Shr(w, 2 * m), m, p - 1), 2 * m)
  {
  }

  /** One field of the sum. */
  lemma FoldField(x: nat, m: nat, p: nat, h0: nat, h1: nat)
    requires p > 0 && x < Pow2(2 * m) && h0 + h1 < Pow2(Span(m, p - 1))
    ensures
      var r := x + Shl(h0, 2 * m) + Shl(h1, 2 * m);
      FieldSum(r, 2 * m, p) == x + FieldSum(h0 + h1, 2 * m, p - 1) && r < Pow2(Span(m, p))
  {
    ShlSum(h0, h1, 2 * m);
    Parts(h0 + h1, 2 * m, x);
    FieldStep(Shl(h0 + h1, 2 * m) + x, 2 * m, p);
    ShlBound(h0 + h1, Span(m, p - 1), 2 * m, x);
  }

  /** Adding the two sets of halves adds neighbouring fields: the sum of the fields stays. */
  lemma {:induction false} Fold(w: nat, m: nat, p: nat, n: nat)
    requires m > 0 && n == 2 * p
    ensures
      var r := Halves(w, m, p) + Halves(Shr(w, m), m, p);
      FieldSum(r, 2 * m, p) == FieldSum(w, m, n) && r < Pow2(Span(m, p))
    decreases p
  {
    if p > 0 {
      var v, w' := Shr(w, 2 * m), Shr(w, m);
      Fold(v, m, p - 1, n - 2);
      HalvesStep(w, m, p);
      HalvesStep(w', m, p);
      assert Shr(w', 2 * m) == Shr(v, m) by {
        ShrShr(w, m, 2 * m);
        ShrShr(w, 2 * m, m);
      }
      SmallSum(m, Low(w, m), Low(w', m));
      FoldField(Low(w, m) + Low(w', m), m, p, Halves(v, m, p - 1), Halves(Shr(v, m), m, p - 1));
      FieldPair(w, m, n);
    }
  }

  // ---------------------------------------------------------------------------------------------
  // The masks select the halves.

  lemma {:induction false} AndZero(x: nat)
    ensures And(x, 0) == 0
  {
    if x > 0 { AndZero(x / 2); }
  }

  lemma AndHalf(x: nat, y: nat)
    ensures And(x, y) == 2 * And(x / 2, y / 2) + (if x % 2 == 1 && y % 2 == 1 then 1 else 0)
  {
  }

  lemma {:induction false} AndLow(x: nat, m: nat)
    ensures And(x, Pow2(m) - 1) == Low(x, m)
    decreases m
  {
    if m == 0 {
      AndZero(x);
    } else {
      AndLow(x / 2, m - 1);
      AndHalf(x, Pow2(m) - 1);
      assert (Pow2(m) - 1) / 2 == Pow2(m - 1) - 1;
    }
  }

  lemma AndPartsStep(w: nat, x: nat, l: nat, z: nat, rest: nat)
    requires x % 2 == z % 2 && l % 2 == w % 2 && And(w / 2, x / 2) == And(l / 2, z / 2) + rest
    ensures And(w, x) == And(l, z) + 2 * rest
  {
    AndHalf(w, x);
    AndHalf(l, z);
  }

  lemma {:induction false} AndParts(w: nat, l: nat, h: nat, x: nat, y: nat, z: nat, k: nat)
    requires l == Low(w, k) && h == Shr(w, k) && z < Pow2(k) && x == Shl(y, k) + z
    ensures And(w, x) == And(l, z) + Shl(And(h, y), k)
    decreases k
  {
    if k == 0 {
      AndZero(0);
    } else {
      AndParts(w / 2, l / 2, h, x / 2, y, z / 2, k - 1);
      AndPartsStep(w, x, l, z, Shl(And(h, y), k - 1));
    }
  }

  /** p masks of m ones, 2m bits apart. */
  function Mask(m: nat, p: nat): (r: nat)
  {
    if p == 0 then 0 else (Pow2(m) - 1) + Shl(Mask(m, p - 1), 2 * m)
  }

  lemma {:induction false} AndMask(w: nat, m: nat, p: nat)
    ensures And(w, Mask(m, p)) == Halves(w, m, p)
    decreases p
  {
    if p == 0 {
      AndZero(w);
    } else {
      Pow2Le(m, 2 * m);
      AndParts(w, Low(w, 2 * m), Shr(w, 2 * m), Mask(m, p), Mask(m, p - 1), Pow2(m) - 1, 2 * m);
      AndLow(Low(w, 2 * m), m);
      LowLow(w, m, 2 * m);
      AndMask(Shr(w, 2 * m), m, p - 1);
    }
  }

  // ---------------------------------------------------------------------------------------------
  // The five lines.

  /** The fields are added in pairs, and nothing wraps. */
  lemma FoldStep(w: nat, m: nat, p: nat, mask: nat)
    requires m > 0 && mask == Mask(m, p) && Pow2(Span(m, p)) == WORD
    ensures FieldSum(Line(w, m, mask), 2 * m, p) == FieldSum(w, m, 2 * p) && Line(w, m, mask) < WORD
  {
    var x, y := And(w, mask), And(Shr(w, m), mask);
    AndMask(w, m, p);
    AndMask(Shr(w, m), m, p);
    Fold(w, m, p, 2 * p);
    assert x + y < WORD;
    assert (x + y) % WORD == x + y;
  }

  lemma {:induction false} OnesHead(w: nat, k: nat)
    requires k > 0
    ensures Ones(w, k) == w % 2 + Ones(w / 2, k - 1)
  {
    if k > 1 { OnesHead(w, k - 1); }
  }

  lemma {:induction false} OnesAreFields(w: nat, k: nat)
    ensures FieldSum(w, 1, k) == Ones(w, k)
    decreases k
  {
    if k > 0 {
      OnesAreFields(w / 2, k - 1);
      OnesHead(w, k);
      assert Low(w, 1) == w % 2 && Shr(w, 1) == w / 2;
    }
  }

  lemma Mask1()
    ensures Mask(1, 16) == 0x55555555 && Span(1, 16) == 32
  {
    assert Mask(1, 2) == 0x5 && Span(1, 2) == 4;
    assert Mask(1, 4) == 0x55 && Span(1, 4) == 8;
    assert Mask(1, 6) == 0x555 && Span(1, 6) == 12;
    assert Mask(1, 8) == 0x5555 && Span(1, 8) == 16;
    assert Mask(1, 10) == 0x55555 && Span(1, 10) == 20;
    assert Mask(1, 12) == 0x555555 && Span(1, 12) == 24;
    assert Mask(1, 14) == 0x5555555 && Span(1, 14) == 28;
  }

  lemma Mask2()
    ensures Mask(2, 8) == 0x33333333 && Span(2, 8) == 32
  {
    assert Mask(2, 4) == 0x3333;
  }

  lemma Mask4()
    ensures Mask(4, 4) == 0x0F0F0F0F && Span(4, 4) == 32
  {
    assert Mask(4, 2) == 0x0F0F;
  }

  lemma ShlBy4(x: nat, k: nat)
    requires k >= 4
    ensures Shl(x, k) == 16 * Shl(x, k - 4)
  {
    assert Shl(x, k - 2) == 4 * Shl(x, k - 4);
  }

  lemma ShlBy16(x: nat)
    ensures Shl(x, 16) == 0x1_0000 * x
  {
    ShlBy4(x, 16);
    ShlBy4(x, 12);
    ShlBy4(x, 8);
    ShlBy4(x, 4);
  }

  lemma Mask8()
    ensures Mask(8, 2) == 0x00FF00FF && Span(8, 2) == 32
  {
    Pows();
    ShlBy16(0);
    ShlBy16(0xFF);
    assert Mask(8, 1) == 0xFF + Shl(Mask(8, 0), 16);
    assert Mask(8, 2) == 0xFF + Shl(Mask(8, 1), 16);
  }

  lemma Mask16()
    ensures Mask(16, 1) == 0x0000FFFF && Span(16, 1) == 32
  {
    Pows();
    ShlSum(0, 0, 32);
    assert Mask(16, 1) == 0xFFFF + Shl(Mask(16, 0), 32);
  }

  lemma {:induction false} LowOfSmall(r: nat, m: nat)
    requires r < Pow2(m)
    ensures Low(r, m) == r
    decreases m
  {
    if m > 0 { LowOfSmall(r / 2, m - 1); }
  }

  lemma OneField(r: nat)
    requires r < WORD == Pow2(32)
    ensures FieldSum(r, 32, 1) == r
  {
    FieldStep(r, 32, 1);
    LowOfSmall(r, 32);
  }

  /** hweight is the number of set bits. */
  lemma HweightIsOnes(w: nat)
    ensures Hweight(w) == Ones(w, WORD_BITS)
  {
    Mask1();
    Mask2();
    Mask4();
    Mask8();
    Mask16();
    Pows();
    OnesAreFields(w, 32);
    FoldStep(w, 1, 16, 0x55555555);
    var r1 := Line(w, 1, 0x55555555);
    FoldStep(r1, 2, 8, 0x33333333);
    var r2 := Line(r1, 2, 0x33333333);
    FoldStep(r2, 4, 4, 0x0F0F0F0F);
    var r4 := Line(r2, 4, 0x0F0F0F0F);
    FoldStep(r4, 8, 2, 0x00FF00FF);
    var r8 := Line(r4, 8, 0x00FF00FF);
    FoldStep(r8, 16, 1, 0x0000FFFF);
    OneField(Line(r8, 16, 0x0000FFFF));
  }
}
