/** Powers of two and the bit widths derived from them. */
module Powers {
  function Pow2(n: nat): (p: nat)
    ensures p >= 1
  {
    if n == 0 then 1 else 2 * Pow2(n - 1)
  }

  lemma {:induction false} Pow2Add(m: nat, n: nat)
    ensures Pow2(m + n) == Pow2(m) * Pow2(n)
  {
    if m > 0 {
      Pow2Add(m - 1, n);
      assert 2 * (Pow2(m - 1) * Pow2(n)) == 2 * Pow2(m - 1) * Pow2(n);
    }
  }

  lemma {:induction false} Pow2Mono(m: nat, n: nat)
    requires m <= n
    ensures Pow2(m) <= Pow2(n)
  {
    if m < n { Pow2Mono(m, n - 1); }
  }

  /** The least n with v <= 2^n. */
  function CeilLog2(v: nat): (n: nat)
    ensures v <= Pow2(n)
    ensures v <= 1 ==> n == 0
    ensures v >= 2 ==> n >= 1 && Pow2(n - 1) < v
  {
    if v <= 1 then 0 else 1 + CeilLog2((v + 1) / 2)
  }

  lemma {:induction false} CeilLog2Unique(v: nat, n: nat)
    requires v <= Pow2(n)
    requires if n == 0 then v <= 1 else Pow2(n - 1) < v
    ensures CeilLog2(v) == n
  {
    var m := CeilLog2(v);
    if m < n {
      Pow2Mono(m, n - 1);
    } else if n < m {
      Pow2Mono(n, m - 1);
    }
  }

  /** The greatest n with 2^n <= v, for v >= 1. */
  function FloorLog2(v: nat): (n: nat)
    ensures v >= 1 ==> Pow2(n) <= v < Pow2(n + 1)
    ensures v == 0 ==> n == 0
  {
    if v <= 1 then 0 else 1 + FloorLog2(v / 2)
  }

  lemma {:induction false} FloorLog2Unique(v: nat, n: nat)
    requires Pow2(n) <= v < Pow2(n + 1)
    ensures FloorLog2(v) == n
  {
    var m := FloorLog2(v);
    if m < n {
      Pow2Mono(m + 1, n);
    } else if n < m {
      Pow2Mono(n + 1, m);
    }
  }

  /** The logarithm rounded up: halve until nothing is left, then correct. */
  method Log2(value: nat) returns (log: nat)
    ensures log == CeilLog2(value)
  {
    log := 0;
    var rest: nat := value / 2;
    while rest > 0
      invariant FloorLog2(value) == log + if rest == 0 then 0 else 1 + FloorLog2(rest)
    {
      rest := rest / 2;
      log := log + 1;
    }
    if Pow2(log) < value { log := log + 1; }
    CeilLog2Unique(value, log);
  }

  predicate IsPow2(v: nat) { v == Pow2(CeilLog2(v)) }

  /** The test by rounding up accepts the powers of two and nothing else. */
  lemma {:induction false} IsPow2Exact(v: nat)
    ensures IsPow2(v) <==> exists n :: v == Pow2(n)
  {
    if n: nat :| v == Pow2(n) { CeilLog2Unique(v, n); }
  }
}
