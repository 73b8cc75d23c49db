/** Long multiplication on the 32-bit halves of arrays of 64-bit words. */
module WordProduct {
  import opened Powers
  import opened Numbers
  import opened WordArithmetic
  import opened WordShifts

  // ----- The halves of words, lowest first -----

  function HalfAt(s: seq<Word>, i: nat): (h: nat)
    requires i < 2 * |s|
    ensures h < 0x1_0000_0000
  {
    if i % 2 == 0 then s[i / 2] % 0x1_0000_0000 else s[i / 2] / 0x1_0000_0000
  }

  function Halves(s: seq<Word>): (h: seq<nat>)
    ensures |h| == 2 * |s| && Digits(0x1_0000_0000, h)
  {
    seq(2 * |s|, i requires 0 <= i < 2 * |s| => HalfAt(s, i))
  }

  /** Numbers of n halves lie below this. */
  function HalfLimit(n: nat): (p: nat)
    ensures p >= 1
  {
    PowPositive(0x1_0000_0000, n);
    Pow(0x1_0000_0000, n)
  }

  function HalfValue(h: seq<nat>): nat { Val(0x1_0000_0000, h) }

  /** Words and their halves stand for the same number. */
  lemma {:induction false} HalvesValue(s: seq<Word>)
    ensures HalfValue(Halves(s)) == Value(s)
  {
    if |s| > 0 {
      HalvesValue(s[1..]);
      var h := Halves(s);
      assert h[2..] == Halves(s[1..]);
      assert h[1..][1..] == h[2..];
      assert HalfValue(h) == h[0] + 0x1_0000_0000 * HalfValue(h[1..]);
      assert HalfValue(h[1..]) == h[1] + 0x1_0000_0000 * HalfValue(h[2..]);
      HalvesOfWord(s[0], h[0], h[1], HalfValue(h[2..]));
    } else {
      assert Halves(s) == [];
    }
  }

  lemma {:induction false} HalvesOfWord(w: Word, low: nat, high: nat, rest: nat)
    requires low == w % 0x1_0000_0000 && high == w / 0x1_0000_0000
    ensures low + 0x1_0000_0000 * (high + 0x1_0000_0000 * rest) == w + 0x1_0000_0000_0000_0000 * rest
  {
  }

  lemma {:induction false} HalfLimitPow2(n: nat)
    ensures HalfLimit(n) == Pow2(32 * n)
  {
    WordBits();
    PowOfPow2(32, n);
  }

  lemma {:induction false} HalfSplit(h: seq<nat>, n: nat)
    requires n <= |h| && Digits(0x1_0000_0000, h)
    ensures HalfValue(h) == HalfValue(h[..n]) + HalfLimit(n) * HalfValue(h[n..])
    ensures HalfValue(h[..n]) < HalfLimit(n)
  {
    ValSplit(0x1_0000_0000, h, n);
    ValBound(0x1_0000_0000, h[..n]);
  }

  /** The n low halves. */
  lemma {:induction false} LowHalves(s: seq<Word>, n: nat)
    requires n <= 2 * |s|
    ensures HalfValue(Halves(s)[..n]) == Value(s) % Pow2(32 * n)
  {
    hide Pow2, Value, HalfValue, Halves, HalfLimit;
    var h := Halves(s);
    HalvesValue(s);
    HalfSplit(h, n);
    HalfLimitPow2(n);
    var high := HalfValue(h[n..]);
    assert HalfLimit(n) * high == high * HalfLimit(n);
    ModUnique(Value(s), high, HalfValue(h[..n]), HalfLimit(n));
  }

  method SetHalf(a: array<Word>, i: nat, x: nat)
    requires i < 2 * a.Length && x < 0x1_0000_0000
    modifies a
    ensures Halves(a[..]) == old(Halves(a[..]))[i := x]
  {
    var w: int := a[i / 2];
    ghost var was := a[..];
    a[i / 2] := if i % 2 == 0 then w / 0x1_0000_0000 * 0x1_0000_0000 + x else w % 0x1_0000_0000 + x * 0x1_0000_0000;
    forall k | 0 <= k < 2 * a.Length ensures HalfAt(a[..], k) == if k == i then x else HalfAt(was, k) {
    }
  }

  // ----- Numbers behind the loops -----

  /** A product of halves, with what is already there and the carry. */
  function Accumulate(u: nat, v: nat, w: nat, k: nat): nat { u * v + w + k }

  /** It never overflows a word. */
  lemma {:induction false} NoOverflow(u: nat, v: nat, w: nat, k: nat)
    requires u < 0x1_0000_0000 && v < 0x1_0000_0000 && w < 0x1_0000_0000 && k < 0x1_0000_0000
    ensures u * v + w + k < 0x1_0000_0000_0000_0000
  {
    MulMono(u, 0xFFFF_FFFF, v, 0xFFFF_FFFF);
  }

  /** One step along a row. total and total' are the destination before and after, place is
      the weight of the digit that changes, low that of the multiplier digit. */
  lemma {:induction false} RowStep(total: nat, total': nat, base: nat, done: nat, u: nat, v: nat, w: nat, k: nat,
                                   place: nat, upper: nat, low: nat, t: nat)
    requires t == u * v + w + k && place == upper * low
    requires total + k * place == base + done * v * low
    requires total' + w * place == total + (t % 0x1_0000_0000) * place
    ensures total' + (t / 0x1_0000_0000) * (0x1_0000_0000 * place) == base + (done + u * upper) * v * low
  {
    var h := t / 0x1_0000_0000;
    assert t == t % 0x1_0000_0000 + 0x1_0000_0000 * h;
    MulAssoc(h, 0x1_0000_0000, place);
    MulDistrib(t % 0x1_0000_0000, 0x1_0000_0000 * h, place);
    MulDistrib(u * v, w, place);
    MulDistrib(u * v + w, k, place);
    assert total' + h * (0x1_0000_0000 * place) == base + done * v * low + (u * v) * place;
    assert (u * v) * place == (u * upper) * v * low by {
      MulAssoc(u * v, upper, low);
      assert (u * v) * upper == (u * upper) * v;
    }
    MulDistrib(done, u * upper, v);
    MulDistrib(done * v, u * upper * v, low);
  }

  /** A row cut off at the end of the destination: what is missing is a multiple of its limit. */
  lemma {:induction false} RowCut(all: nat, part: nat, rest: nat, upper: nat, v: nat, low: nat, limit: nat)
    requires all == part + upper * rest && upper * low == limit
    ensures all * v * low == part * v * low + (rest * v) * limit
  {
    MulDistrib(part, upper * rest, v);
    MulDistrib(part * v, upper * rest * v, low);
    assert upper * rest * v * low == (rest * v) * (upper * low) by {
      assert upper * rest * v == (rest * v) * upper;
      MulAssoc(rest * v, upper, low);
    }
  }

  // ----- The loops -----

  /** The invariant of a row: the destination w, started from w0, holds the product of the
      first i halves of u and the digit v, with the carry k still to be stored. */
  predicate RowDone(w0: seq<nat>, w: seq<nat>, u: seq<nat>, v: nat, i: nat, j: nat, p: nat, k: nat) {
    && |w| == |w0| && p <= |w| && i <= |u| && i + j <= p && k < 0x1_0000_0000
    && Digits(0x1_0000_0000, w) && w[i + j..] == w0[i + j..]
    && HalfValue(w[..p]) + k * HalfLimit(i + j) == HalfValue(w0[..p]) + HalfValue(u[..i]) * v * HalfLimit(j)
  }

  lemma {:induction false} RowStart(w: seq<nat>, u: seq<nat>, v: nat, j: nat, p: nat)
    requires j <= p <= |w| && Digits(0x1_0000_0000, w)
    ensures RowDone(w, w, u, v, 0, j, p, 0)
  {
    assert u[..0] == [];
    assert 0 * v * HalfLimit(j) == 0;
  }

  lemma {:induction false} RowNext(w0: seq<nat>, w: seq<nat>, u: seq<nat>, v: nat, i: nat, j: nat, p: nat, k: nat)
    requires RowDone(w0, w, u, v, i, j, p, k) && i < |u| && i + j < p
    requires Digits(0x1_0000_0000, u) && v < 0x1_0000_0000
    ensures var t := Accumulate(u[i], v, w[i + j], k);
            && t < 0x1_0000_0000_0000_0000
            && RowDone(w0, w[i + j := t % 0x1_0000_0000], u, v, i + 1, j, p, t / 0x1_0000_0000)
  {
    var t := Accumulate(u[i], v, w[i + j], k);
    NoOverflow(u[i], v, w[i + j], k);
    var w' := w[i + j := t % 0x1_0000_0000];
    assert w'[..p] == w[..p][i + j := t % 0x1_0000_0000];
    assert w'[i + 1 + j..] == w[i + j..][1..] && w0[i + 1 + j..] == w0[i + j..][1..];
    ValUpdate(0x1_0000_0000, w[..p], i + j, t % 0x1_0000_0000);
    ValNext(0x1_0000_0000, u, i);
    PowAdd(0x1_0000_0000, i, j);
    assert HalfLimit(i + 1 + j) == 0x1_0000_0000 * HalfLimit(i + j);
    hide HalfValue, HalfLimit;
    RowStep(HalfValue(w[..p]), HalfValue(w'[..p]), HalfValue(w0[..p]), HalfValue(u[..i]), u[i], v, w[i + j], k,
            HalfLimit(i + j), HalfLimit(i), HalfLimit(j), t);
  }

  /** What a row adds to the destination, up to a multiple of its limit. */
  predicate RowAdded(w0: seq<nat>, w: seq<nat>, u: seq<nat>, v: nat, j: nat, p: nat, q: nat) {
    && |w| == |w0| && p <= |w| && Digits(0x1_0000_0000, w) && w[p..] == w0[p..]
    && HalfValue(w[..p]) + q * HalfLimit(p) == HalfValue(w0[..p]) + HalfValue(u) * v * HalfLimit(j)
  }

  /** A row that fits: the last carry goes into a half that was zero. */
  lemma {:induction false} RowFits(w0: seq<nat>, w: seq<nat>, u: seq<nat>, v: nat, j: nat, p: nat, k: nat)
    requires RowDone(w0, w, u, v, |u|, j, p, k) && j + |u| < p && w[j + |u|] == 0
    ensures RowAdded(w0, w[j + |u| := k], u, v, j, p, 0)
  {
    var n := j + |u|;
    var w' := w[n := k];
    assert w'[..p] == w[..p][n := k];
    ValUpdate(0x1_0000_0000, w[..p], n, k);
    assert u[..|u|] == u;
    assert w'[p..] == w[n..][p - n..] && w0[p..] == w0[n..][p - n..];
    hide HalfValue, HalfLimit;
    assert 0 * HalfLimit(n) == 0 && 0 * HalfLimit(p) == 0;
  }

  /** A row cut off by the end of the destination. */
  lemma {:induction false} RowTruncated(w0: seq<nat>, w: seq<nat>, u: seq<nat>, v: nat, j: nat, p: nat, k: nat)
    returns (q: nat)
    requires j <= p && p - j <= |u| && RowDone(w0, w, u, v, p - j, j, p, k) && Digits(0x1_0000_0000, u)
    ensures RowAdded(w0, w, u, v, j, p, q)
  {
    var i := p - j;
    HalfSplit(u, i);
    PowAdd(0x1_0000_0000, i, j);
    var rest := HalfValue(u[i..]);
    q := k + rest * v;
    hide HalfValue, HalfLimit;
    RowCut(HalfValue(u), HalfValue(u[..i]), rest, HalfLimit(i), v, HalfLimit(j), HalfLimit(p));
    MulDistrib(k, rest * v, HalfLimit(p));
  }

  /** A row that lies wholly beyond the destination. */
  lemma {:induction false} RowBeyond(w: seq<nat>, u: seq<nat>, v: nat, j: nat, p: nat) returns (q: nat)
    requires p <= j && p <= |w| && Digits(0x1_0000_0000, w)
    ensures RowAdded(w, w, u, v, j, p, q)
  {
    PowAdd(0x1_0000_0000, j - p, p);
    q := HalfValue(u) * v * HalfLimit(j - p);
    MulAssoc(HalfValue(u) * v, HalfLimit(j - p), HalfLimit(p));
  }

  lemma {:induction false} HalvesAt(s: seq<Word>, i: nat)
    requires i < 2 * |s|
    ensures Halves(s)[i] == HalfAt(s, i)
  {
  }

  /** One step of a row: multiply, add, store the low half and keep the high one. */
  method MulStep(d: array<Word>, s0: array<Word>, v: nat, i: nat, j: nat, m: nat, p: nat, k: Word, ghost w0: seq<nat>)
    returns (k': Word)
    requires d != s0 && i < m <= 2 * s0.Length && i + j < p <= 2 * d.Length && v < 0x1_0000_0000
    requires RowDone(w0, Halves(d[..]), Halves(s0[..])[..m], v, i, j, p, k)
    modifies d
    ensures RowDone(w0, Halves(d[..]), Halves(s0[..])[..m], v, i + 1, j, p, k')
    ensures forall x :: j + m <= x < 2 * d.Length ==> Halves(d[..])[x] == old(Halves(d[..]))[x]
  {
    ghost var u, w := Halves(s0[..])[..m], Halves(d[..]);
    RowNext(w0, w, u, v, i, j, p, k);
    HalvesAt(s0[..], i);
    HalvesAt(d[..], i + j);
    hide RowDone, Halves, Accumulate, HalfAt;
    var t: Word := Accumulate(HalfAt(s0[..], i), v, HalfAt(d[..], i + j), k);
    SetHalf(d, i + j, t % 0x1_0000_0000);
    k' := t / 0x1_0000_0000;
  }

  lemma {:induction false} RowShape(w0: seq<nat>, w: seq<nat>, u: seq<nat>, v: nat, i: nat, j: nat, p: nat, k: nat)
    requires RowDone(w0, w, u, v, i, j, p, k)
    ensures |w| == |w0| && k < 0x1_0000_0000
  {
  }

  method MulRow(d: array<Word>, s0: array<Word>, v: nat, j: nat, m: nat, p: nat) returns (ghost q: nat)
    requires d != s0 && m <= 2 * s0.Length && p <= 2 * d.Length && v < 0x1_0000_0000
    requires forall x :: j + m <= x < p ==> Halves(d[..])[x] == 0
    modifies d
    ensures RowAdded(old(Halves(d[..])), Halves(d[..]), Halves(s0[..])[..m], v, j, p, q)
    ensures forall x :: j + 1 + m <= x < p ==> Halves(d[..])[x] == 0
  {
    ghost var w0, u := Halves(d[..]), Halves(s0[..])[..m];
    hide RowDone, RowAdded, Halves;
    if p <= j {
      q := RowBeyond(w0, u, v, j, p);
      return;
    }
    var k: Word := 0;
    RowStart(w0, u, v, j, p);
    var i := 0;
    while i < Min(m, p - j)
      invariant 0 <= i <= Min(m, p - j)
      invariant RowDone(w0, Halves(d[..]), u, v, i, j, p, k)
      invariant forall x :: j + m <= x < p ==> Halves(d[..])[x] == 0
    {
      k := MulStep(d, s0, v, i, j, m, p, k, w0);
      i := i + 1;
    }
    RowShape(w0, Halves(d[..]), u, v, i, j, p, k);
    if j + m < p {
      RowFits(w0, Halves(d[..]), u, v, j, p, k);
      SetHalf(d, j + m, k);
      q := 0;
    } else {
      q := RowTruncated(w0, Halves(d[..]), u, v, j, p, k);
    }
  }

  // ----- The product -----

  function NWords(nb: nat): nat
    requires nb >= 1
  {
    1 + (nb - 1) / 64
  }

  function NHalves(nb: nat): nat
    requires nb >= 1
  {
    1 + (nb - 1) / 32
  }

  /** The invariant over rows: the product with the first j halves of v, up to a multiple of
      the limit of the destination. */
  predicate ProductDone(w: seq<nat>, u: seq<nat>, v: seq<nat>, j: nat, p: nat, q: nat) {
    && p <= |w| && j <= |v|
    && HalfValue(w[..p]) + q * HalfLimit(p) == HalfValue(u) * HalfValue(v[..j])
  }

  lemma {:induction false} NextProduct(w0: seq<nat>, w: seq<nat>, u: seq<nat>, v: seq<nat>, j: nat, p: nat, q: nat, q': nat)
    requires ProductDone(w0, u, v, j, p, q) && j < |v| && RowAdded(w0, w, u, v[j], j, p, q')
    ensures ProductDone(w, u, v, j + 1, p, q + q')
  {
    ValNext(0x1_0000_0000, v, j);
    hide HalfValue, HalfLimit;
    MulDistrib(q, q', HalfLimit(p));
    MulDistrib(HalfValue(u), HalfValue(v[..j]), v[j] * HalfLimit(j));
    MulAssoc(HalfValue(u), v[j], HalfLimit(j));
  }

  lemma {:induction false} HalvesFit(nb: nat)
    requires nb >= 1
    ensures NHalves(nb) <= 2 * NWords(nb) <= NHalves(nb) + 1
  {
  }

  /** The product of the halves named by the widths, reduced to the destination's. */
  method MulN(d: array<Word>, s0: array<Word>, s1: array<Word>, nbd: nat, nb0: nat, nb1: nat)
    requires d != s0 && d != s1 && nbd >= 1 && nb0 >= 1 && nb1 >= 1
    requires d.Length == NWords(nbd) && NWords(nb0) <= s0.Length && NWords(nb1) <= s1.Length
    modifies d
    ensures Value(d[..]) == ((Value(s0[..]) % Pow2(32 * NHalves(nb0))) * (Value(s1[..]) % Pow2(32 * NHalves(nb1))))
                            % Pow2(32 * NHalves(nbd))
  {
    ValEmpty(d, d.Length);
    var m, n, p := NHalves(nb0), NHalves(nb1), NHalves(nbd);
    HalvesFit(nb0);
    HalvesFit(nb1);
    HalvesFit(nbd);
    hide NHalves, NWords;
    ghost var u, v := Halves(s0[..])[..m], Halves(s1[..])[..n];
    ghost var q := 0;
    ZeroHalves(d[..]);
    StartProduct(Halves(d[..]), u, v, p);
    hide Halves, HalfValue, HalfLimit, ProductDone, RowAdded, Pow2, Value;
    for j := 0 to n
      invariant ProductDone(Halves(d[..]), u, v, j, p, q)
      invariant forall x :: j + m <= x < p ==> Halves(d[..])[x] == 0
      invariant forall x :: p <= x < 2 * d.Length ==> Halves(d[..])[x] == 0
    {
      HalvesAt(s1[..], j);
      ghost var w0 := Halves(d[..]);
      ghost var q' := MulRow(d, s0, HalfAt(s1[..], j), j, m, p);
      NextProduct(w0, Halves(d[..]), u, v, j, p, q, q');
      AboveKept(w0, Halves(d[..]), u, v[j], j, p, q');
      q := q + q';
    }
    ProductResult(d[..], s0[..], s1[..], m, n, p, q);
  }

  lemma {:induction false} AboveKept(w0: seq<nat>, w: seq<nat>, u: seq<nat>, v: nat, j: nat, p: nat, q: nat)
    requires RowAdded(w0, w, u, v, j, p, q)
    ensures |w| == |w0| && forall x :: p <= x < |w| ==> w[x] == w0[x]
  {
    forall x | p <= x < |w| ensures w[x] == w0[x] {
      assert w[x] == w[p..][x - p] && w0[x] == w0[p..][x - p];
    }
  }

  lemma {:induction false} ZeroHalves(s: seq<Word>)
    requires forall i :: 0 <= i < |s| ==> s[i] == 0
    ensures forall x :: 0 <= x < 2 * |s| ==> Halves(s)[x] == 0
  {
  }

  lemma {:induction false} StartProduct(w: seq<nat>, u: seq<nat>, v: seq<nat>, p: nat)
    requires p <= |w| && forall x :: 0 <= x < |w| ==> w[x] == 0
    ensures ProductDone(w, u, v, 0, p, 0)
  {
    ValZero(0x1_0000_0000, w[..p]);
    assert v[..0] == [];
  }

  lemma {:induction false} ProductResult(d: seq<Word>, s0: seq<Word>, s1: seq<Word>, m: nat, n: nat, p: nat, q: nat)
    requires m <= 2 * |s0| && n <= 2 * |s1| && p <= 2 * |d|
    requires ProductDone(Halves(d), Halves(s0)[..m], Halves(s1)[..n], n, p, q)
    requires forall x :: p <= x < 2 * |d| ==> Halves(d)[x] == 0
    ensures Value(d) == ((Value(s0) % Pow2(32 * m)) * (Value(s1) % Pow2(32 * n))) % Pow2(32 * p)
  {
    var w := Halves(d);
    LowHalves(s0, m);
    LowHalves(s1, n);
    HalvesValue(d);
    HalfSplit(w, p);
    ValZero(0x1_0000_0000, w[p..]);
    assert Halves(s1)[..n][..n] == Halves(s1)[..n];
    HalfLimitPow2(p);
    hide Pow2, Value, HalfLimit, Halves;
    ModUnique(HalfValue(Halves(s0)[..m]) * HalfValue(Halves(s1)[..n]), q, HalfValue(w[..p]), HalfLimit(p));
  }
}
