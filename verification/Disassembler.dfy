/** The instruction table of the disassembler: hash chains that agree with an ordered scan. */
module Disassemblers {
  import opened Packets
  import opened Powers
  import opened Bits

  datatype Insn = Insn(name: string, pattern: nat, mask: nat)
  {
    predicate Matches(bits: nat) { And(bits, mask) == pattern }

    /** The mask covers the low byte, so that the low byte selects a chain. */
    predicate Hashed() { mask % 256 == 255 }
  }

  /** An entry matches exactly if every bit of its mask agrees with the pattern and the pattern
      has no bit outside the mask. */
  lemma {:induction false} MatchesExactly(e: Insn, bits: nat)
    ensures e.Matches(bits) <==>
              forall i: nat :: (Bit(e.mask, i) ==> (Bit(bits, i) <==> Bit(e.pattern, i))) && (Bit(e.pattern, i) ==> Bit(e.mask, i))
  {
    forall i: nat ensures Bit(And(bits, e.mask), i) <==> Bit(bits, i) && Bit(e.mask, i) { AndBit(bits, e.mask, i); }
    hide Bit;
    if forall i: nat :: (Bit(e.mask, i) ==> (Bit(bits, i) <==> Bit(e.pattern, i))) && (Bit(e.pattern, i) ==> Bit(e.mask, i)) {
      SameBits(And(bits, e.mask), e.pattern);
    }
  }

  /** The chain an entry belongs to; the last one is for entries that are not hashed. */
  function ChainOf(e: Insn): nat { if e.Hashed() then e.pattern % 256 else 256 }

  // ----- The ordered scan -----

  /** The first entry of some chain that matches, in order of insertion. */
  function FirstIn(es: seq<Insn>, chain: nat, bits: nat): Option<Insn> {
    if |es| == 0 then None
    else
      match FirstIn(es[..|es| - 1], chain, bits)
      case Some(e) => Some(e)
      case None =>
        var e := es[|es| - 1];
        if ChainOf(e) == chain && e.Matches(bits) then Some(e) else None
  }

  /** The first hashed entry that matches, wherever it hashes to. */
  function FirstHashed(es: seq<Insn>, bits: nat): Option<Insn> {
    if |es| == 0 then None
    else
      match FirstHashed(es[..|es| - 1], bits)
      case Some(e) => Some(e)
      case None =>
        var e := es[|es| - 1];
        if e.Hashed() && e.Matches(bits) then Some(e) else None
  }

  /** What lookup promises: the first hashed entry that matches, else the first of the rest. */
  function Scan(es: seq<Insn>, bits: nat): Option<Insn> {
    match FirstHashed(es, bits)
    case Some(e) => Some(e)
    case None => FirstIn(es, 256, bits)
  }

  // ----- The low byte selects the chain -----

  lemma {:induction false} AndLow(a: nat, m: nat, n: nat)
    requires m % Pow2(n) == Pow2(n) - 1
    ensures And(a, m) % Pow2(n) == a % Pow2(n)
    decreases n
  {
    if n > 0 {
      var p := Pow2(n - 1);
      HalfMod(m, p);
      HalfMod(a, p);
      HalfMod(And(a, m), p);
      AndHalves(a, m);
      hide And, Pow2;
      AndLow(a / 2, m / 2, n - 1);
    }
  }

  lemma {:induction false} AndHalves(a: nat, m: nat)
    ensures And(a, m) / 2 == And(a / 2, m / 2)
    ensures And(a, m) % 2 == if a % 2 == 1 && m % 2 == 1 then 1 else 0
  {
  }

  /** A hashed entry that matches is in the chain of the low byte. */
  lemma {:induction false} MatchesItsChain(e: Insn, bits: nat)
    requires e.Hashed() && e.Matches(bits)
    ensures ChainOf(e) == bits % 256
  {
    assert Pow2(8) == 256;
    AndLow(bits, e.mask, 8);
  }

  lemma {:induction false} HashedInChain(es: seq<Insn>, bits: nat)
    ensures FirstHashed(es, bits) == FirstIn(es, bits % 256, bits)
  {
    if |es| > 0 {
      HashedInChain(es[..|es| - 1], bits);
      var e := es[|es| - 1];
      if e.Hashed() && e.Matches(bits) { MatchesItsChain(e, bits); }
    }
  }

  /** Nothing is found only if no inserted entry matches. */
  lemma {:induction false} ScanNone(es: seq<Insn>, bits: nat)
    ensures Scan(es, bits).None? <==> forall k :: 0 <= k < |es| ==> !es[k].Matches(bits)
    ensures Scan(es, bits).Some? ==> Scan(es, bits).value in es && Scan(es, bits).value.Matches(bits)
  {
    if |es| > 0 {
      var front := es[..|es| - 1];
      ScanNone(front, bits);
      FirstsMatch(front, bits);
      assert forall k :: 0 <= k < |front| ==> front[k] == es[k];
      assert es[|es| - 1] in es;
    }
  }

  lemma {:induction false} FirstsMatch(es: seq<Insn>, bits: nat)
    ensures FirstHashed(es, bits).Some? ==> FirstHashed(es, bits).value in es && FirstHashed(es, bits).value.Matches(bits)
    ensures FirstIn(es, 256, bits).Some? ==> FirstIn(es, 256, bits).value in es && FirstIn(es, 256, bits).value.Matches(bits)
  {
    if |es| > 0 { FirstsMatch(es[..|es| - 1], bits); }
  }

  // ----- The table -----

  class Disassembler {
    var chain: seq<seq<Insn>>
    ghost var inserted: seq<Insn>

    /** Each chain finds what an ordered scan of its entries finds. */
    ghost predicate Valid()
      reads this
    {
      && |chain| == 257
      && forall k :: 0 <= k < 257 ==> chain[k] == Chain(inserted, k)
    }

    constructor ()
      ensures Valid() && inserted == []
    {
      chain := seq(257, k => []);
      inserted := [];
    }

    method AddInsn(e: Insn)
      requires Valid()
      modifies this
      ensures Valid() && inserted == old(inserted) + [e]
    {
      var idx := 256;
      if e.mask % 256 == 255 { idx := e.pattern % 256; }
      chain := chain[idx := chain[idx] + [e]];
      inserted := inserted + [e];
      forall k | 0 <= k < 257 ensures chain[k] == Chain(inserted, k) {
        assert inserted[..|inserted| - 1] == old(inserted);
        assert Chain(old(inserted), k) + [] == Chain(old(inserted), k);
      }
    }

    method SearchChain(idx: nat, bits: nat) returns (found: Option<Insn>)
      requires Valid() && idx < 257
      ensures found == FirstIn(inserted, idx, bits)
    {
      for j := 0 to |chain[idx]|
        invariant forall k :: 0 <= k < j ==> !chain[idx][k].Matches(bits)
      {
        if chain[idx][j].Matches(bits) {
          ChainFirst(inserted, idx, bits, j);
          return Some(chain[idx][j]);
        }
      }
      ChainNone(inserted, idx, bits);
      return None;
    }

    /** The chain of the low byte first, then the chain of the rest. */
    method Lookup(bits: nat) returns (found: Option<Insn>)
      requires Valid()
      ensures found == Scan(inserted, bits)
    {
      HashedInChain(inserted, bits);
      found := SearchChain(bits % 256, bits);
      if found.None? { found := SearchChain(256, bits); }
    }
  }

  /** The entries of a chain, in order of insertion. */
  function Chain(es: seq<Insn>, k: nat): seq<Insn> {
    if |es| == 0 then []
    else Chain(es[..|es| - 1], k) + if ChainOf(es[|es| - 1]) == k then [es[|es| - 1]] else []
  }

  lemma {:induction false} ChainNone(es: seq<Insn>, k: nat, bits: nat)
    requires forall j :: 0 <= j < |Chain(es, k)| ==> !Chain(es, k)[j].Matches(bits)
    ensures FirstIn(es, k, bits).None?
  {
    if |es| > 0 {
      var front := Chain(es[..|es| - 1], k);
      assert forall j :: 0 <= j < |front| ==> Chain(es, k)[j] == front[j];
      assert ChainOf(es[|es| - 1]) == k ==> Chain(es, k)[|front|] == es[|es| - 1];
      ChainNone(es[..|es| - 1], k, bits);
    }
  }

  lemma {:induction false} ChainFirst(es: seq<Insn>, k: nat, bits: nat, j: nat)
    requires j < |Chain(es, k)| && Chain(es, k)[j].Matches(bits)
    requires forall i :: 0 <= i < j ==> !Chain(es, k)[i].Matches(bits)
    ensures FirstIn(es, k, bits) == Some(Chain(es, k)[j])
  {
    var front := Chain(es[..|es| - 1], k);
    assert forall i :: 0 <= i < |front| ==> Chain(es, k)[i] == front[i];
    if j < |front| {
      ChainFirst(es[..|es| - 1], k, bits, j);
    } else {
      ChainNone(es[..|es| - 1], k, bits);
    }
  }
}
