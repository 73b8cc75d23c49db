/** Numbers written as sequences of digits, least significant first, in any base. */
module Numbers {
  import opened Powers

  function Pow(b: nat, n: nat): nat {
    if n == 0 then 1 else b * Pow(b, n - 1)
  }

  function Min(a: int, b: int): int { if a <= b then a else b }

  /** The number whose digits are s. */
  function Val(b: nat, s: seq<nat>): nat {
    if |s| == 0 then 0 else s[0] + b * Val(b, s[1..])
  }

  predicate Digits(b: nat, s: seq<nat>) { forall i :: 0 <= i < |s| ==> s[i] < b }

  // ----- Powers -----

  lemma {:induction false} PowPositive(b: nat, n: nat)
    requires b >= 1
    ensures Pow(b, n) >= 1
  {
    if n > 0 {
      PowPositive(b, n - 1);
      MulMono(1, b, 1, Pow(b, n - 1));
    }
  }

  lemma {:induction false} MulMono(a: nat, b: nat, x: nat, y: nat)
    requires a <= b && x <= y
    ensures a * x <= b * y
  {
    assert b * y - a * x == (b - a) * y + a * (y - x);
  }

  lemma {:induction false} MulAssoc(a: int, b: int, c: int)
    ensures a * (b * c) == (a * b) * c && (a * b) * c == b * (a * c)
  {
  }

  lemma {:induction false} MulDistrib(a: int, b: int, c: int)
    ensures a * (b + c) == a * b + a * c && (a + b) * c == a * c + b * c
  {
  }

  lemma {:induction false} PowAdd(b: nat, m: nat, n: nat)
    ensures Pow(b, m + n) == Pow(b, m) * Pow(b, n)
  {
    if m > 0 {
      PowAdd(b, m - 1, n);
      MulAssoc(b, Pow(b, m - 1), Pow(b, n));
    }
  }

  lemma {:induction false} PowMono(b: nat, m: nat, n: nat)
    requires b >= 1 && m <= n
    ensures Pow(b, m) <= Pow(b, n)
  {
    if m < n {
      PowMono(b, m, n - 1);
      MulMono(1, b, Pow(b, n - 1), Pow(b, n - 1));
    }
  }

  /** Powers of a power of two. */
  lemma {:induction false} PowOfPow2(k: nat, n: nat)
    ensures Pow(Pow2(k), n) == Pow2(k * n)
  {
    if n > 0 {
      PowOfPow2(k, n - 1);
      Pow2Add(k, k * (n - 1));
      assert k + k * (n - 1) == k * n;
    }
  }

  // ----- Values -----

  lemma {:induction false} ValSnoc(b: nat, s: seq<nat>, x: nat)
    ensures Val(b, s + [x]) == Val(b, s) + x * Pow(b, |s|)
  {
    if |s| == 0 {
      assert (s + [x])[1..] == [];
    } else {
      assert (s + [x])[1..] == s[1..] + [x];
      ValSnoc(b, s[1..], x);
      MulDistrib(b, Val(b, s[1..]), x * Pow(b, |s| - 1));
      MulAssoc(b, x, Pow(b, |s| - 1));
    }
  }

  /** One more digit of a longer number. */
  lemma {:induction false} ValNext(b: nat, s: seq<nat>, i: nat)
    requires i < |s|
    ensures Val(b, s[..i + 1]) == Val(b, s[..i]) + s[i] * Pow(b, i)
  {
    assert s[..i + 1] == s[..i] + [s[i]];
    ValSnoc(b, s[..i], s[i]);
  }

  lemma {:induction false} ValSplit(b: nat, s: seq<nat>, i: nat)
    requires i <= |s|
    ensures Val(b, s) == Val(b, s[..i]) + Pow(b, i) * Val(b, s[i..])
    decreases |s| - i
  {
    if i == |s| {
      assert s[..i] == s;
    } else {
      ValSplit(b, s, i + 1);
      ValNext(b, s, i);
      assert s[i..][1..] == s[i + 1..];
      MulDistrib(Pow(b, i), s[i], b * Val(b, s[i + 1..]));
      MulAssoc(b, Pow(b, i), Val(b, s[i + 1..]));
      MulAssoc(Pow(b, i), b, Val(b, s[i + 1..]));
    }
  }

  lemma {:induction false} ValBound(b: nat, s: seq<nat>)
    requires Digits(b, s)
    ensures Val(b, s) < Pow(b, |s|)
  {
    if |s| > 0 {
      ValBound(b, s[1..]);
      MulMono(b, b, Val(b, s[1..]) + 1, Pow(b, |s| - 1));
      MulDistrib(b, Val(b, s[1..]), 1);
    }
  }

  lemma {:induction false} ValZero(b: nat, s: seq<nat>)
    requires forall i :: 0 <= i < |s| ==> s[i] == 0
    ensures Val(b, s) == 0
  {
    if |s| > 0 { ValZero(b, s[1..]); }
  }

  /** Changing one digit. */
  lemma {:induction false} ValUpdate(b: nat, s: seq<nat>, i: nat, x: nat)
    requires i < |s|
    ensures Val(b, s[i := x]) + s[i] * Pow(b, i) == Val(b, s) + x * Pow(b, i)
  {
    ValSplit(b, s, i);
    ValSplit(b, s[i := x], i);
    assert s[i := x][..i] == s[..i];
    assert s[i := x][i..][1..] == s[i..][1..];
    var rest := b * Val(b, s[i..][1..]);
    MulDistrib(Pow(b, i), s[i], rest);
    MulDistrib(Pow(b, i), x, rest);
  }

  /** Equal numbers have equal digits. */
  lemma {:induction false} ValInjective(b: nat, s: seq<nat>, t: seq<nat>)
    requires Digits(b, s) && Digits(b, t) && |s| == |t| && Val(b, s) == Val(b, t)
    ensures s == t
  {
    if |s| > 0 {
      LastDigit(b, s[0], Val(b, s[1..]), t[0], Val(b, t[1..]));
      ValInjective(b, s[1..], t[1..]);
      assert s == [s[0]] + s[1..] && t == [t[0]] + t[1..];
    }
  }

  lemma {:induction false} LastDigit(b: nat, x: nat, p: nat, y: nat, q: nat)
    requires x < b && y < b && x + b * p == y + b * q
    ensures x == y && p == q
  {
    if p < q { MulMono(b, b, p + 1, q); } else if q < p { MulMono(b, b, q + 1, p); }
    MulDistrib(b, p, 1);
    MulDistrib(b, q, 1);
  }

  // ----- Remainders -----

  /** The remainder is the only number below m that differs by a multiple of m. */
  lemma {:induction false} ModUnique(x: int, q: int, r: int, m: nat)
    requires x == r + q * m && 0 <= r < m
    ensures x % m == r && x / m == q
  {
    var d := x / m - q;
    assert x == m * (x / m) + x % m;
    MulDistrib(x / m, -q, m);
    assert d * m == r - x % m;
    assert (-d) * m == -(d * m);
    if d >= 1 { MulMono(1, d, m, m); } else if d <= -1 { MulMono(1, -d, m, m); }
  }

  /** The remainder of a multiple is the multiple of the remainder. */
  lemma {:induction false} ModBlocks(x: nat, n: nat, l: nat, size: nat)
    requires l > 0 && size > 0 && size == n * l
    ensures n > 0 && (x * l) % size == (x % n) * l
  {
    BlocksPositive(n, l);
    var q, r := x / n, x % n;
    assert x == n * q + r;
    assert n * q == q * n;
    MulDistrib(q * n, r, l);
    MulAssoc(q, n, l);
    MulMono(r + 1, n, l, l);
    MulDistrib(r, 1, l);
    ModUnique(x * l, q, r * l, size);
  }

  lemma {:induction false} BlocksPositive(n: nat, l: nat)
    requires n * l > 0
    ensures n > 0
  {
  }
}
