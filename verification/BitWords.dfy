// Unsigned words as natural numbers, with the C bitwise operators given by their binary
// expansions and characterised bit by bit.
module BitWords {

  function Pow2(k: nat): (r: nat)
    ensures r >= 1
  {
    if k == 0 then 1 else 2 * Pow2(k - 1)
  }

  /** 2^32. */
  const WORD := 0x1_0000_0000

  lemma Pows()
    ensures Pow2(8) == 0x100 && Pow2(16) == 0x1_0000 && Pow2(32) == WORD
  {
    assert Pow2(4) == 16;
    assert Pow2(8) == 0x100;
    assert Pow2(12) == 0x1000;
    assert Pow2(16) == 0x1_0000;
    assert Pow2(20) == 0x10_0000;
    assert Pow2(24) == 0x100_0000;
    assert Pow2(28) == 0x1000_0000;
  }

  /** Bit k of x, bit 0 being the least significant. */
  predicate Bit(x: nat, k: nat)
  {
    if k == 0 then x % 2 == 1 else Bit(x / 2, k - 1)
  }

  function Xor(x: nat, y: nat): (r: nat)
    decreases x + y
  {
    if x == 0 && y == 0 then 0
    else 2 * Xor(x / 2, y / 2) + (if x % 2 != y % 2 then 1 else 0)
  }

  function And(x: nat, y: nat): (r: nat)
  {
    if x == 0 then 0
    else 2 * And(x / 2, y / 2) + (if x % 2 == 1 && y % 2 == 1 then 1 else 0)
  }

  function Or(x: nat, y: nat): (r: nat)
    decreases x + y
  {
    if x == 0 && y == 0 then 0
    else 2 * Or(x / 2, y / 2) + (if x % 2 == 1 || y % 2 == 1 then 1 else 0)
  }

  /** x >> i */
  function Shr(x: nat, i: nat): (r: nat)
  {
    if i == 0 then x else Shr(x / 2, i - 1)
  }

  lemma {:induction false} BitOfZero(k: nat)
    ensures !Bit(0, k)
  {
    if k > 0 {
      BitOfZero(k - 1);
    }
  }

  lemma {:induction false} BitXor(x: nat, y: nat, k: nat)
    ensures Bit(Xor(x, y), k) == (Bit(x, k) != Bit(y, k))
  {
    if x == 0 && y == 0 {
      BitOfZero(k);
    } else if k > 0 {
      BitXor(x / 2, y / 2, k - 1);
      assert Xor(x, y) / 2 == Xor(x / 2, y / 2);
    }
  }

  lemma {:induction false} BitAnd(x: nat, y: nat, k: nat)
    ensures Bit(And(x, y), k) == (Bit(x, k) && Bit(y, k))
  {
    if x == 0 {
      BitOfZero(k);
    } else if k > 0 {
      BitAnd(x / 2, y / 2, k - 1);
      assert And(x, y) / 2 == And(x / 2, y / 2);
    }
  }

  lemma OrHalf(x: nat, y: nat)
    ensures Or(x, y) / 2 == Or(x / 2, y / 2) && (Or(x, y) % 2 == 1 <==> x % 2 == 1 || y % 2 == 1)
  {
  }

  lemma {:induction false} BitOr(x: nat, y: nat, k: nat)
    ensures Bit(Or(x, y), k) == (Bit(x, k) || Bit(y, k))
    decreases k
  {
    OrHalf(x, y);
    if k > 0 { BitOr(x / 2, y / 2, k - 1); }
  }

  lemma {:induction false} BitShr(x: nat, i: nat, k: nat)
    ensures Bit(Shr(x, i), k) == Bit(x, i + k)
  {
    if i > 0 {
      BitShr(x / 2, i - 1, k);
    }
  }

  /** 2^q has exactly bit q. */
  lemma {:induction false} BitOfPow2(q: nat, k: nat)
    ensures Bit(Pow2(q), k) == (k == q)
  {
    if q == 0 {
      if k > 0 { BitOfZero(k - 1); }
    } else if k > 0 {
      BitOfPow2(q - 1, k - 1);
    }
  }

  /** 2^q - 1 has exactly the bits below q. */
  lemma {:induction false} BitOfMask(q: nat, k: nat)
    ensures Bit(Pow2(q) - 1, k) == (k < q)
  {
    if q == 0 {
      BitOfZero(k);
    } else {
      assert (Pow2(q) - 1) / 2 == Pow2(q - 1) - 1;
      if k > 0 { BitOfMask(q - 1, k - 1); }
    }
  }

  lemma {:induction false} NoBitAbove(x: nat, b: nat, k: nat)
    requires x < Pow2(b) && b <= k
    ensures !Bit(x, k)
  {
    if b == 0 {
      BitOfZero(k);
    } else {
      NoBitAbove(x / 2, b - 1, k - 1);
    }
  }

  lemma {:induction false} BelowFromBits(x: nat, b: nat)
    requires forall k: nat :: b <= k ==> !Bit(x, k)
    ensures x < Pow2(b)
    decreases b, x
  {
    if b > 0 || x > 0 {
      if b == 0 { assert !Bit(x, b); }
      var b' := if b == 0 then 0 else b - 1;
      forall k: nat | b' <= k ensures !Bit(x / 2, k) { assert !Bit(x, k + 1); }
      BelowFromBits(x / 2, b');
    }
  }

  /** Words with the same bits are the same word. */
  lemma {:induction false} SameBits(x: nat, y: nat)
    requires forall k: nat :: Bit(x, k) == Bit(y, k)
    ensures x == y
    decreases x + y
  {
    assert Bit(x, 0) == Bit(y, 0);
    if x > 0 || y > 0 {
      forall k: nat ensures Bit(x / 2, k) == Bit(y / 2, k) {
        assert Bit(x, k + 1) == Bit(y, k + 1);
      }
      SameBits(x / 2, y / 2);
    }
  }

  /** Adding 2^h to a word below it sets bit h. */
  lemma {:induction false} BitAddPow2(x: nat, h: nat, k: nat)
    requires x < Pow2(h)
    ensures Bit(x + Pow2(h), k) == (k == h || Bit(x, k))
  {
    if h == 0 {
      BitOfPow2(0, k);
      BitOfZero(k);
    } else if k > 0 {
      assert (x + Pow2(h)) / 2 == x / 2 + Pow2(h - 1);
      BitAddPow2(x / 2, h - 1, k - 1);
    }
  }

  /** Testing a word against 2^q with `&` tests bit q. */
  lemma AndPow2(x: nat, q: nat)
    ensures And(x, Pow2(q)) != 0 <==> Bit(x, q)
  {
    var a := And(x, Pow2(q));
    forall k: nat ensures Bit(a, k) == (k == q && Bit(x, q)) {
      BitAnd(x, Pow2(q), k);
      BitOfPow2(q, k);
    }
    if Bit(x, q) {
      assert Bit(a, q);
      if a == 0 { BitOfZero(q); }
    } else {
      forall k: nat ensures Bit(a, k) == Bit(0, k) { BitOfZero(k); }
      SameBits(a, 0);
    }
  }
}
