/** Arithmetic on bit vectors of any width, kept in arrays of 64-bit words with the least
    significant word first. */
module WordArithmetic {
  import opened Numbers

  type Word = x: int | 0 <= x < 0x1_0000_0000_0000_0000

  /** The number an array of words stands for. */
  function Value(s: seq<Word>): nat { Val(0x1_0000_0000_0000_0000, s) }

  /** Numbers of nw words lie below this. */
  function Limit(nw: nat): (p: nat)
    ensures p >= 1
  {
    PowPositive(0x1_0000_0000_0000_0000, nw);
    Pow(0x1_0000_0000_0000_0000, nw)
  }

  /** Reduction of a result to one word. */
  function Wrap(x: int): Word { x % 0x1_0000_0000_0000_0000 }

  lemma {:induction false} ValueBound(s: seq<Word>)
    ensures Value(s) < Limit(|s|)
  {
    ValBound(0x1_0000_0000_0000_0000, s);
  }

  lemma {:induction false} ValueNext(s: seq<Word>, i: nat)
    requires i < |s|
    ensures Value(s[..i + 1]) == Value(s[..i]) + s[i] * Limit(i)
    ensures Limit(i + 1) == 0x1_0000_0000_0000_0000 * Limit(i)
  {
    ValNext(0x1_0000_0000_0000_0000, s, i);
    assert Pow(0x1_0000_0000_0000_0000, i + 1) == 0x1_0000_0000_0000_0000 * Pow(0x1_0000_0000_0000_0000, i);
  }

  // ----- Filling and copying -----

  method ValEmpty(d: array<Word>, nw: nat)
    requires nw <= d.Length
    modifies d
    ensures forall i :: 0 <= i < d.Length ==> d[i] == if i < nw then 0 else old(d[i])
  {
    for i := 0 to nw
      invariant forall j :: 0 <= j < d.Length ==> d[j] == if j < i then 0 else old(d[j])
    {
      d[i] := 0;
    }
  }

  method ValSet(d: array<Word>, nw: nat, num: Word)
    requires 1 <= nw <= d.Length
    modifies d
    ensures Value(d[..nw]) == num
  {
    ValEmpty(d, nw);
    d[0] := num;
    ValZero(0x1_0000_0000_0000_0000, d[..nw][1..]);
  }

  method ValCpy(d: array<Word>, s: array<Word>, nw: nat)
    requires nw <= d.Length && nw <= s.Length && d != s
    modifies d
    ensures d[..nw] == s[..nw]
  {
    for i := 0 to nw
      invariant d[..i] == s[..i]
    {
      d[i] := s[i];
    }
  }

  // ----- Addition, negation, subtraction -----

  /** One word of an addition: the wrapped sum and the carry, as the comparisons find it. */
  lemma {:induction false} AddWord(a: Word, b: Word, carry: nat)
    requires carry <= 1
    ensures var d := Wrap(a + b + carry);
            var out := if Wrap(a + b) < a || d < carry then 1 else 0;
            d + 0x1_0000_0000_0000_0000 * out == a + b + carry
  {
  }

  lemma {:induction false} NegWord(a: Word, borrow: nat)
    requires borrow <= 1
    ensures var d := Wrap(0 - a as int - borrow);
            var out := if a != 0 || d != 0 then 1 else 0;
            a + d + borrow == 0x1_0000_0000_0000_0000 * out
  {
  }

  lemma {:induction false} SubWord(a: Word, b: Word, borrow: nat)
    requires borrow <= 1
    ensures var d := Wrap(a - b - borrow);
            var out := if a < Wrap(a - b) || Wrap(a - b) < d then 1 else 0;
            d + b + borrow == a + 0x1_0000_0000_0000_0000 * out
  {
  }

  /** The next word of a sum. */
  lemma {:induction false} AddStep(p: nat, d: nat, x: nat, y: nat, carry: nat, e: Word, a: Word, b: Word, out: nat)
    requires d + carry * p == x + y && e + 0x1_0000_0000_0000_0000 * out == a + b + carry
    ensures (d + e * p) + out * (0x1_0000_0000_0000_0000 * p) == (x + a * p) + (y + b * p)
  {
    MulDistrib(a, b, p);
    MulDistrib(a + b, carry, p);
    MulDistrib(e, 0x1_0000_0000_0000_0000 * out, p);
    MulAssoc(out, 0x1_0000_0000_0000_0000, p);
  }

  method AddN(d: array<Word>, s0: array<Word>, s1: array<Word>, nw: nat)
    requires d.Length >= nw && s0.Length >= nw && s1.Length >= nw && d != s0 && d != s1
    modifies d
    ensures Value(d[..nw]) == (Value(s0[..nw]) + Value(s1[..nw])) % Limit(nw)
    ensures d[nw..] == old(d[nw..])
  {
    hide Value, Limit;
    var carry: int := 0;
    EmptyValues(d[..0], s0[..0], s1[..0]);
    for i := 0 to nw
      invariant 0 <= carry <= 1
      invariant Value(d[..i]) + carry * Limit(i) == Value(s0[..i]) + Value(s1[..i])
      invariant d[nw..] == old(d[nw..])
    {
      var a: int, b: int := s0[i], s1[i];
      AddWord(a, b, carry);
      ghost var before, c := d[..i], carry;
      d[i] := Wrap(a + b + carry);
      carry := if Wrap(a + b) < a || d[i] < carry then 1 else 0;
      assert d[..i] == before;
      PrefixNext(d[..], i);
      PrefixNext(s0[..], i);
      PrefixNext(s1[..], i);
      AddStep(Limit(i), Value(d[..i]), Value(s0[..i]), Value(s1[..i]), c, d[i], a, b, carry);
    }
    ValueBound(d[..nw]);
    ModUnique(Value(s0[..nw]) + Value(s1[..nw]), carry, Value(d[..nw]), Limit(nw));
  }

  /** The next word of a negation. */
  lemma {:induction false} NegStep(p: nat, d: nat, x: nat, borrow: nat, e: Word, a: Word, out: nat)
    requires d + x == borrow * p && a + e + borrow == 0x1_0000_0000_0000_0000 * out
    ensures (d + e * p) + (x + a * p) == out * (0x1_0000_0000_0000_0000 * p)
  {
    MulDistrib(a, e, p);
    MulDistrib(a + e, borrow, p);
    MulAssoc(out, 0x1_0000_0000_0000_0000, p);
  }

  method NegN(d: array<Word>, s0: array<Word>, nw: nat)
    requires d.Length >= nw && s0.Length >= nw && d != s0
    modifies d
    ensures Value(d[..nw]) == (0 - Value(s0[..nw])) % Limit(nw)
    ensures d[nw..] == old(d[nw..])
  {
    hide Value, Limit;
    var borrow: int := 0;
    EmptyValues(d[..0], s0[..0], s0[..0]);
    for i := 0 to nw
      invariant 0 <= borrow <= 1
      invariant Value(d[..i]) + Value(s0[..i]) == borrow * Limit(i)
      invariant d[nw..] == old(d[nw..])
    {
      var a: int := s0[i];
      NegWord(a, borrow);
      ghost var before, c := d[..i], borrow;
      d[i] := Wrap(0 - a - borrow);
      borrow := if a != 0 || d[i] != 0 then 1 else 0;
      assert d[..i] == before;
      PrefixNext(d[..], i);
      PrefixNext(s0[..], i);
      NegStep(Limit(i), Value(d[..i]), Value(s0[..i]), c, d[i], a, borrow);
    }
    ValueBound(d[..nw]);
    assert (-borrow) * Limit(nw) == -(borrow * Limit(nw));
    ModUnique(0 - Value(s0[..nw]), -borrow, Value(d[..nw]), Limit(nw));
  }

  /** The next word of a difference. */
  lemma {:induction false} SubStep(p: nat, d: nat, x: nat, y: nat, borrow: nat, e: Word, a: Word, b: Word, out: nat)
    requires d + y == x + borrow * p && e + b + borrow == a + 0x1_0000_0000_0000_0000 * out
    ensures (d + e * p) + (y + b * p) == (x + a * p) + out * (0x1_0000_0000_0000_0000 * p)
  {
    MulDistrib(e, b, p);
    MulDistrib(e + b, borrow, p);
    MulDistrib(a, 0x1_0000_0000_0000_0000 * out, p);
    MulAssoc(out, 0x1_0000_0000_0000_0000, p);
  }

  method SubN(d: array<Word>, s0: array<Word>, s1: array<Word>, nw: nat)
    requires d.Length >= nw && s0.Length >= nw && s1.Length >= nw && d != s0 && d != s1
    modifies d
    ensures Value(d[..nw]) == (Value(s0[..nw]) - Value(s1[..nw])) % Limit(nw)
    ensures d[nw..] == old(d[nw..])
  {
    hide Value, Limit;
    var borrow: int := 0;
    EmptyValues(d[..0], s0[..0], s1[..0]);
    for i := 0 to nw
      invariant 0 <= borrow <= 1
      invariant Value(d[..i]) + Value(s1[..i]) == Value(s0[..i]) + borrow * Limit(i)
      invariant d[nw..] == old(d[nw..])
    {
      var a: int, b: int := s0[i], s1[i];
      SubWord(a, b, borrow);
      ghost var before, c := d[..i], borrow;
      d[i] := Wrap(a - b - borrow);
      borrow := if a < Wrap(a - b) || Wrap(a - b) < d[i] then 1 else 0;
      assert d[..i] == before;
      PrefixNext(d[..], i);
      PrefixNext(s0[..], i);
      PrefixNext(s1[..], i);
      SubStep(Limit(i), Value(d[..i]), Value(s0[..i]), Value(s1[..i]), c, d[i], a, b, borrow);
    }
    ValueBound(d[..nw]);
    assert (-borrow) * Limit(nw) == -(borrow * Limit(nw));
    ModUnique(Value(s0[..nw]) - Value(s1[..nw]), -borrow, Value(d[..nw]), Limit(nw));
  }

  /** Subtraction undoes addition, and negation is subtraction from zero: on words, not only
      on numbers. */
  lemma {:induction false} SubUndoesAdd(a: seq<Word>, b: seq<Word>, sum: seq<Word>, back: seq<Word>)
    requires |a| == |b| == |sum| == |back|
    requires Value(sum) == (Value(a) + Value(b)) % Limit(|a|) && Value(back) == (Value(sum) - Value(b)) % Limit(|a|)
    ensures back == a
  {
    hide Value, Limit;
    var p := Limit(|a|);
    var q := (Value(a) + Value(b)) / p;
    ValueBound(a);
    assert p * q == q * p && (-q) * p == -(q * p);
    ModUnique(Value(sum) - Value(b), -q, Value(a), p);
    ValueInjective(a, back);
  }

  lemma {:induction false} ValueInjective(s: seq<Word>, t: seq<Word>)
    requires |s| == |t| && Value(s) == Value(t)
    ensures s == t
  {
    ValInjective(0x1_0000_0000_0000_0000, s, t);
  }

  lemma {:induction false} EmptyValues(s: seq<Word>, t: seq<Word>, u: seq<Word>)
    requires |s| == |t| == |u| == 0
    ensures Value(s) == 0 && Value(t) == 0 && Value(u) == 0
  {
  }

  lemma {:induction false} PrefixNext(s: seq<Word>, i: nat)
    requires i < |s|
    ensures s[..i + 1][..i] == s[..i]
    ensures Value(s[..i + 1]) == Value(s[..i]) + s[i] * Limit(i)
    ensures Limit(i + 1) == 0x1_0000_0000_0000_0000 * Limit(i)
  {
    ValueNext(s, i);
  }

  // ----- Comparison by the top bit of the difference -----

  lemma {:induction false} TopBit(s: seq<Word>)
    requires |s| > 0
    ensures s[|s| - 1] >= 0x8000_0000_0000_0000 <==> 2 * Value(s) >= Limit(|s|)
  {
    var n := |s| - 1;
    ValueNext(s, n);
    assert s[..n + 1] == s;
    ValueBound(s[..n]);
    hide Value, Limit;
    var p := Limit(n);
    if s[n] >= 0x8000_0000_0000_0000 {
      MulMono(0x8000_0000_0000_0000, s[n], p, p);
    } else {
      MulMono(s[n], 0x7FFF_FFFF_FFFF_FFFF, p, p);
    }
  }

  /** What the comparison computes: the top bit of the wrapped difference. */
  predicate Borrows(x: nat, y: nat, limit: nat)
    requires limit >= 1
  {
    2 * ((x - y) % limit) >= limit
  }

  method Ltu(s0: array<Word>, s1: array<Word>, nw: nat) returns (lt: bool)
    requires nw > 0 && s0.Length >= nw && s1.Length >= nw
    ensures lt == Borrows(Value(s0[..nw]), Value(s1[..nw]), Limit(nw))
  {
    hide Value, Limit;
    var diff := new Word[nw];
    SubN(diff, s0, s1, nw);
    lt := diff[nw - 1] / 0x8000_0000_0000_0000 == 1;
    TopBit(diff[..nw]);
  }

  /** The comparison is right exactly if the difference fits half the range. */
  lemma {:induction false} LtuExactly(x: nat, y: nat, limit: nat)
    requires x < limit && y < limit
    ensures (Borrows(x, y, limit) <==> x < y) <==> 0 - limit <= 2 * (x - y) < limit
  {
    if x >= y { ModUnique(x - y, 0, x - y, limit); } else { ModUnique(x - y, -1, x - y + limit, limit); }
  }

  /** So it is right for all numbers below half the range. */
  lemma {:induction false} LtuBelowHalf(x: nat, y: nat, limit: nat)
    requires 2 * x < limit && 2 * y < limit
    ensures Borrows(x, y, limit) <==> x < y
  {
    LtuExactly(x, y, limit);
  }

  /** But a number with the top bit set comes out below zero. */
  lemma {:induction false} LtuWrong(s: seq<Word>, zero: seq<Word>)
    requires s == [0, 0, 0x8000_0000_0000_0000] && zero == [0, 0, 0]
    ensures Borrows(Value(s), Value(zero), Limit(3)) && Value(s) >= Value(zero)
  {
    ValZero(0x1_0000_0000_0000_0000, zero);
    ValueBound(s);
    TopBit(s);
    hide Value, Limit;
    LtuExactly(Value(s), 0, Limit(3));
  }
}
