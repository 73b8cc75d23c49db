/** Shifts, low bits and exclusive or on natural numbers, one bit at a time. */
module Bits {
  import opened Powers
  import opened Numbers

  function Shr(a: nat, w: nat): nat
    decreases w
  {
    if w == 0 then a else Shr(a / 2, w - 1)
  }

  function Shl(a: nat, w: nat): nat {
    if w == 0 then a else 2 * Shl(a, w - 1)
  }

  /** The w low bits of a. */
  function Low(a: nat, w: nat): (l: nat)
    ensures l < Pow2(w)
    decreases w
  {
    if w == 0 then 0 else a % 2 + 2 * Low(a / 2, w - 1)
  }

  /** h above the w low bits of l. */
  function Cat(h: nat, l: nat, w: nat): nat
    decreases w
  {
    if w == 0 then h else l % 2 + 2 * Cat(h, l / 2, w - 1)
  }

  function Xor(a: nat, b: nat): nat
    decreases a + b
  {
    if a == 0 && b == 0 then 0
    else (if a % 2 == b % 2 then 0 else 1) + 2 * Xor(a / 2, b / 2)
  }

  lemma {:induction false} XorSelf(a: nat)
    ensures Xor(a, a) == 0
  {
    if a > 0 { XorSelf(a / 2); }
  }

  /** The field extraction of the address mapping: a value xor its own high part. */
  lemma {:induction false} XorHigh(a: nat, w: nat)
    ensures Xor(a, Shl(Shr(a, w), w)) == Low(a, w)
    decreases w
  {
    if w == 0 {
      XorSelf(a);
    } else {
      XorHigh(a / 2, w - 1);
      assert Shl(Shr(a, w), w) / 2 == Shl(Shr(a / 2, w - 1), w - 1);
    }
  }

  lemma {:induction false} CatParts(h: nat, l: nat, w: nat)
    requires l < Pow2(w)
    ensures Shr(Cat(h, l, w), w) == h && Low(Cat(h, l, w), w) == l
    decreases w
  {
    if w > 0 {
      CatParts(h, l / 2, w - 1);
      assert Cat(h, l, w) / 2 == Cat(h, l / 2, w - 1);
    }
  }

  lemma {:induction false} CatBack(a: nat, w: nat)
    ensures Cat(Shr(a, w), Low(a, w), w) == a
    decreases w
  {
    if w > 0 {
      CatBack(a / 2, w - 1);
      assert Low(a, w) / 2 == Low(a / 2, w - 1);
    }
  }

  lemma {:induction false} ShrShr(a: nat, v: nat, w: nat)
    ensures Shr(Shr(a, v), w) == Shr(a, v + w)
    decreases v
  {
    if v > 0 { ShrShr(a / 2, v - 1, w); }
  }

  /** A number is its w low bits and, above them, the rest. */
  lemma {:induction false} LowAndShr(a: nat, w: nat)
    ensures a == Low(a, w) + Pow2(w) * Shr(a, w)
    decreases w
  {
    if w > 0 {
      LowAndShr(a / 2, w - 1);
      TwiceProduct(Pow2(w - 1), Shr(a, w));
    }
  }

  function Or(a: nat, b: nat): nat
    decreases a + b
  {
    if a == 0 && b == 0 then 0
    else (if a % 2 == 0 && b % 2 == 0 then 0 else 1) + 2 * Or(a / 2, b / 2)
  }

  function And(a: nat, b: nat): nat
    decreases a + b
  {
    if a == 0 && b == 0 then 0
    else (if a % 2 == 1 && b % 2 == 1 then 1 else 0) + 2 * And(a / 2, b / 2)
  }

  /** Bit i of a. */
  predicate Bit(a: nat, i: nat) { Shr(a, i) % 2 == 1 }

  lemma {:induction false} AndBit(a: nat, b: nat, i: nat)
    ensures Bit(And(a, b), i) <==> Bit(a, i) && Bit(b, i)
    decreases i
  {
    if i > 0 {
      assert And(a, b) / 2 == And(a / 2, b / 2);
      AndBit(a / 2, b / 2, i - 1);
    }
  }

  /** Numbers with the same bits are the same. */
  lemma {:induction false} SameBits(a: nat, b: nat)
    requires forall i: nat :: Bit(a, i) <==> Bit(b, i)
    ensures a == b
    decreases a + b
  {
    if a + b > 0 {
      forall i: nat ensures Bit(a / 2, i) <==> Bit(b / 2, i) {
        assert Shr(a, i + 1) == Shr(a / 2, i) && Shr(b, i + 1) == Shr(b / 2, i);
        assert Bit(a, i + 1) <==> Bit(b, i + 1);
      }
      SameBits(a / 2, b / 2);
      assert Bit(a, 0) <==> Bit(b, 0);
    }
  }

  lemma {:induction false} OrZero(b: nat)
    ensures Or(0, b) == b
    decreases b
  {
    if b > 0 { OrZero(b / 2); }
  }

  lemma {:induction false} TwiceProduct(p: nat, c: nat)
    ensures (2 * p) * c == 2 * (p * c)
  {
  }

  lemma {:induction false} OrTwice(a: nat, b: nat)
    ensures Or(a, 2 * b) == a % 2 + 2 * Or(a / 2, b)
  {
  }

  /** Joining bits that do not overlap is addition. */
  lemma {:induction false} OrDisjoint(a: nat, c: nat, k: nat)
    requires a < Pow2(k)
    ensures Or(a, Pow2(k) * c) == a + Pow2(k) * c
    decreases k
  {
    if k == 0 {
      OrZero(c);
    } else {
      OrDisjoint(a / 2, c, k - 1);
      TwiceProduct(Pow2(k - 1), c);
      OrTwice(a, Pow2(k - 1) * c);
    }
  }

  lemma {:induction false} AndZero(a: nat)
    ensures And(a, 0) == 0
    decreases a
  {
    if a > 0 { AndZero(a / 2); }
  }

  lemma {:induction false} AndOdd(a: nat, m: nat)
    ensures And(a, 2 * m + 1) == a % 2 + 2 * And(a / 2, m)
  {
    assert (2 * m + 1) / 2 == m;
  }

  /** Masking with n ones is the remainder by 2^n. */
  lemma {:induction false} AndMask(a: nat, n: nat)
    ensures And(a, Pow2(n) - 1) == a % Pow2(n)
    decreases n
  {
    if n == 0 {
      AndZero(a);
    } else {
      var p := Pow2(n - 1);
      assert Pow2(n) == 2 * p && Pow2(n) - 1 == 2 * (p - 1) + 1;
      hide Pow2, And;
      AndMask(a / 2, n - 1);
      HalfMod(a, p);
      AndOdd(a, p - 1);
    }
  }

  lemma {:induction false} HalfMod(a: nat, p: nat)
    requires p >= 1
    ensures a % (2 * p) == a % 2 + 2 * (a / 2 % p)
  {
    var q := a / 2 / p;
    var r := a / 2 % p;
    assert a / 2 == p * q + r;
    assert a == (2 * p) * q + (a % 2 + 2 * r);
    var x := a % 2 + 2 * r;
    assert 0 <= x < 2 * p;
    assert (2 * p) * q == q * (2 * p);
    ModUnique(a, q, x, 2 * p);
  }
}
