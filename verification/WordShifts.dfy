/** Masks, right shifts, field extraction and logarithms on arrays of 64-bit words. */
module WordShifts {
  import opened Powers
  import opened Bits
  import opened Numbers
  import opened WordArithmetic

  lemma {:induction false} Squared(k: nat, p: nat, m: nat, q: nat)
    requires Pow2(k) == p && m == k + k && q == p * p
    ensures Pow2(m) == q
  {
    Pow2Add(k, k);
  }

  lemma {:induction false} WordBits()
    ensures Pow2(8) == 0x100 && Pow2(16) == 0x1_0000 && Pow2(32) == 0x1_0000_0000
    ensures Pow2(64) == 0x1_0000_0000_0000_0000
  {
    assert Pow2(4) == 16;
    hide Pow2;
    Squared(4, 16, 8, 0x100);
    Squared(8, 0x100, 16, 0x1_0000);
    Squared(16, 0x1_0000, 32, 0x1_0000_0000);
    Squared(32, 0x1_0000_0000, 64, 0x1_0000_0000_0000_0000);
  }

  /** The limit of nw words as a power of two. */
  lemma {:induction false} LimitPow2(nw: nat)
    ensures Limit(nw) == Pow2(64 * nw)
  {
    WordBits();
    PowOfPow2(64, nw);
  }

  // ----- Masks -----

  /** The n low bits of a word set. */
  function MaskVal(n: nat): Word
    requires 1 <= n <= 64
  {
    0xFFFF_FFFF_FFFF_FFFF / Pow2(64 - n)
  }

  lemma {:induction false} OnesOver(p: nat, q: nat)
    requires p * q == 0x1_0000_0000_0000_0000 && q >= 1
    ensures 0xFFFF_FFFF_FFFF_FFFF / q == p - 1
  {
    assert (p - 1) * q == p * q - q;
    ModUnique(0xFFFF_FFFF_FFFF_FFFF, p - 1, q - 1, q);
  }

  lemma {:induction false} MaskValIs(n: nat)
    requires 1 <= n <= 64
    ensures MaskVal(n) == Pow2(n) - 1
  {
    hide Pow2;
    WordBits();
    Pow2Add(n, 64 - n);
    OnesOver(Pow2(n), Pow2(64 - n));
  }

  lemma {:induction false} OnesValue(s: seq<Word>)
    requires forall i :: 0 <= i < |s| ==> s[i] == 0xFFFF_FFFF_FFFF_FFFF
    ensures Value(s) == Limit(|s|) - 1
  {
    if |s| > 0 { OnesValue(s[1..]); }
  }

  /** The nb low bits set in all words. */
  method MaskN(d: array<Word>, nw: nat, nb: nat)
    requires d.Length >= nw && nb <= 64 * nw
    modifies d
    ensures Value(d[..nw]) == Pow2(nb) - 1
  {
    var full, bits := nb / 64, nb % 64;
    for i := 0 to full
      invariant forall j :: 0 <= j < i ==> d[j] == 0xFFFF_FFFF_FFFF_FFFF
    {
      d[i] := 0xFFFF_FFFF_FFFF_FFFF;
    }
    for i := full to nw
      invariant forall j :: 0 <= j < full ==> d[j] == 0xFFFF_FFFF_FFFF_FFFF
      invariant forall j :: full <= j < i ==> d[j] == 0
    {
      d[i] := 0;
    }
    if bits > 0 { d[full] := MaskVal(bits); }
    MaskValue(d[..nw], full, bits);
  }

  lemma {:induction false} MaskValue(s: seq<Word>, full: nat, bits: nat)
    requires bits < 64 && full <= |s| && (bits > 0 ==> full < |s|)
    requires forall j :: 0 <= j < full ==> s[j] == 0xFFFF_FFFF_FFFF_FFFF
    requires forall j :: full <= j < |s| ==> s[j] == if j == full && bits > 0 then MaskVal(bits) else 0
    ensures Value(s) == Pow2(64 * full + bits) - 1
  {
    OnesValue(s[..full]);
    ValSplit(0x1_0000_0000_0000_0000, s, full);
    LimitPow2(full);
    Pow2Add(64 * full, bits);
    var rest := s[full..];
    if bits > 0 {
      MaskValIs(bits);
      ValZero(0x1_0000_0000_0000_0000, rest[1..]);
      assert Pow2(64 * full) * (Pow2(bits) - 1) == Pow2(64 * full) * Pow2(bits) - Pow2(64 * full);
    } else {
      ValZero(0x1_0000_0000_0000_0000, rest);
    }
  }

  // ----- Right shift -----

  /** Shifts within a word. */
  function WordShr(v: Word, k: nat): Word
    requires k < 64
  {
    DivBound(v, Pow2(k));
    v / Pow2(k)
  }

  function WordShl(v: Word, k: nat): Word
    requires k < 64
  {
    Wrap(v * Pow2(k))
  }

  lemma {:induction false} DivBound(v: nat, p: nat)
    requires p >= 1
    ensures 0 <= v / p <= v
  {
    assert v == p * (v / p) + v % p;
    if v / p > v { MulMono(1, p, v / p, v / p); }
  }

  /** The bits a shift by k moves out of a word, at the top of the next word. */
  lemma {:induction false} ShiftedOut(v: Word, k: nat)
    requires 0 < k < 64
    ensures WordShl(v, 64 - k) == (v % Pow2(k)) * Pow2(64 - k)
    ensures WordShr(v, k) < Pow2(64 - k)
  {
    hide Pow2;
    WordBits();
    Pow2Add(k, 64 - k);
    Pow2Add(64 - k, k);
    SplitWord(v, Pow2(k), Pow2(64 - k));
  }

  lemma {:induction false} SplitWord(v: Word, p: nat, q: nat)
    requires p >= 1 && q >= 1 && p * q == 0x1_0000_0000_0000_0000
    ensures Wrap(v * q) == (v % p) * q && v / p < q
  {
    var h, r := v / p, v % p;
    assert v == p * h + r;
    assert v * q == h * (p * q) + r * q by {
      MulDistrib(p * h, r, q);
      MulAssoc(h, p, q);
    }
    assert r * q < p * q by { MulMono(r + 1, p, q, q); MulDistrib(r, 1, q); }
    ModUnique(v * q, h, r * q, p * q);
    if h >= q { MulMono(p, p, q, h); }
  }

  /** One word of the shifted number. */
  function ShiftedWord(v: Word, k: nat, carry: Word): nat
    requires k < 64
  {
    Or(WordShr(v, k), carry)
  }

  lemma {:induction false} ShiftedWordIs(v: Word, k: nat, rem: nat, carry: Word)
    requires k < 64 && rem < Pow2(k) && carry == rem * Pow2(64 - k)
    ensures ShiftedWord(v, k, carry) == v / Pow2(k) + rem * Pow2(64 - k) < 0x1_0000_0000_0000_0000
  {
    hide Pow2;
    WordBits();
    Pow2Add(64 - k, k);
    Pow2Add(k, 64 - k);
    var q := Pow2(64 - k);
    SplitWord(v, Pow2(k), q);
    assert rem * q == q * rem;
    OrDisjoint(v / Pow2(k), rem, 64 - k);
    assert q * rem + q <= q * Pow2(k) by { MulMono(q, q, rem + 1, Pow2(k)); MulDistrib(q, rem, 1); }
  }

  /** The remainder that is carried into the next word. */
  lemma {:induction false} CarryIs(v: Word, k: nat)
    requires k < 64
    ensures v % Pow2(k) < Pow2(k)
    ensures (if k == 0 then 0 else WordShl(v, 64 - k)) == (v % Pow2(k)) * Pow2(64 - k)
  {
    if k == 0 {
      assert v % Pow2(0) == 0;
    } else {
      ShiftedOut(v, k);
    }
  }

  /** Long division by 2^k, a word at a time from the top. */
  lemma {:induction false} ShiftStep(x: nat, quot: nat, rem: nat, v: Word, p: nat, q: nat)
    requires x == quot * p + rem && p >= 1 && p * q == 0x1_0000_0000_0000_0000
    ensures v + 0x1_0000_0000_0000_0000 * x
         == ((v / p + rem * q) + 0x1_0000_0000_0000_0000 * quot) * p + v % p
  {
    assert v == p * (v / p) + v % p;
    var w := 0x1_0000_0000_0000_0000;
    MulDistrib(w, quot * p, rem);
    MulAssoc(w, quot, p);
    MulDistrib(v / p + rem * q, w * quot, p);
    MulDistrib(v / p, rem * q, p);
    MulAssoc(rem, q, p);
    assert rem * w == rem * (q * p);
  }

  /** The quotient of the whole number from the quotient of its high words. */
  lemma {:induction false} ShiftWhole(low: nat, l: nat, high: nat, quot: nat, rem: nat, p: nat)
    requires low < l && high == quot * p + rem && rem < p
    ensures (low + l * high) / (l * p) == quot
  {
    MulDistrib(l, quot * p, rem);
    MulAssoc(l, quot, p);
    assert l * (quot * p) == quot * (l * p);
    assert low + l * rem < l * p by { MulMono(l, l, rem + 1, p); MulDistrib(l, rem, 1); }
    ModUnique(low + l * high, quot, low + l * rem, l * p);
  }

  /** The invariant of the shift: the words above position i, divided so far. */
  predicate Divided(high: seq<Word>, quot: seq<Word>, bits: nat, rem: nat, carry: Word)
  {
    bits < 64 && rem < Pow2(bits) && carry == rem * Pow2(64 - bits)
    && Value(high) == Value(quot) * Pow2(bits) + rem
  }

  lemma {:induction false} NextDivided(high: seq<Word>, quot: seq<Word>, bits: nat, rem: nat, carry: Word, v: Word)
    requires Divided(high, quot, bits, rem, carry)
    ensures ShiftedWord(v, bits, carry) < 0x1_0000_0000_0000_0000
    ensures Divided([v] + high, [ShiftedWord(v, bits, carry)] + quot, bits, v % Pow2(bits),
                    if bits == 0 then 0 else WordShl(v, 64 - bits))
  {
    hide Value, Pow2;
    ShiftedWordIs(v, bits, rem, carry);
    CarryIs(v, bits);
    WordBits();
    Pow2Add(bits, 64 - bits);
    ValueHead([v] + high, v, high);
    ValueHead([ShiftedWord(v, bits, carry)] + quot, ShiftedWord(v, bits, carry), quot);
    ShiftStep(Value(high), Value(quot), rem, v, Pow2(bits), Pow2(64 - bits));
  }

  /** Moves the words above the shifted-out ones down, from the top. */
  method ShiftDown(d: array<Word>, s0: array<Word>, words: nat, bits: nat, nw: nat)
    returns (ghost rem: nat, ghost carried: Word)
    requires d.Length >= nw && s0.Length >= nw && d != s0 && words <= nw && bits < 64
    modifies d
    ensures Divided(s0[words..nw], d[..nw - words], bits, rem, carried)
    ensures forall j :: nw - words <= j < d.Length ==> d[j] == old(d[j])
  {
    hide Divided, ShiftedWord, WordShl, Pow2;
    var carry: Word := 0;
    rem := 0;
    StartDivided(s0[nw..nw], d[nw - words..nw - words], bits);
    for i := nw downto words
      invariant Divided(s0[i..nw], d[i - words..nw - words], bits, rem, carry)
      invariant forall j :: nw - words <= j < d.Length ==> d[j] == old(d[j])
    {
      var v := s0[i];
      ghost var high, quot := s0[i + 1..nw], d[i + 1 - words..nw - words];
      NextDivided(high, quot, bits, rem, carry, v);
      d[i - words] := ShiftedWord(v, bits, carry);
      assert s0[i..nw] == [v] + high;
      assert d[i - words..nw - words] == [d[i - words]] + quot;
      carry := if bits == 0 then 0 else WordShl(v, 64 - bits);
      rem := v % Pow2(bits);
    }
    carried := carry;
  }

  method RshN(d: array<Word>, s0: array<Word>, amount: nat, nw: nat)
    requires d.Length >= nw && s0.Length >= nw && d != s0 && amount < 64 * nw
    modifies d
    ensures Value(d[..nw]) == Value(s0[..nw]) / Pow2(amount)
    ensures forall j :: nw <= j < d.Length ==> d[j] == old(d[j])
  {
    hide Divided, Pow2, Value;
    var bits, words := amount % 64, amount / 64;
    for i := 0 to words
      invariant forall j :: nw - i <= j < nw ==> d[j] == 0
      invariant forall j :: nw <= j < d.Length ==> d[j] == old(d[j])
    {
      d[nw - i - 1] := 0;
    }
    ghost var rem, carry := ShiftDown(d, s0, words, bits, nw);
    assert s0[..nw][words..] == s0[words..nw] && d[..nw][..nw - words] == d[..nw - words];
    ShiftResult(s0[..nw], d[..nw], words, bits, rem, carry);
  }

  lemma {:induction false} StartDivided(s: seq<Word>, t: seq<Word>, bits: nat)
    requires |s| == |t| == 0 && bits < 64
    ensures Divided(s, t, bits, 0, 0)
  {
  }

  lemma {:induction false} ValueHead(s: seq<Word>, v: Word, rest: seq<Word>)
    requires s == [v] + rest
    ensures Value(s) == v + 0x1_0000_0000_0000_0000 * Value(rest)
  {
    assert s[1..] == rest;
  }

  lemma {:induction false} ShiftResult(s: seq<Word>, d: seq<Word>, words: nat, bits: nat, rem: nat, carry: Word)
    requires |s| == |d| && words <= |s| && Divided(s[words..], d[..|d| - words], bits, rem, carry)
    requires forall j :: |d| - words <= j < |d| ==> d[j] == 0
    ensures Value(d) == Value(s) / Pow2(64 * words + bits)
  {
    ValSplit(0x1_0000_0000_0000_0000, s, words);
    ValSplit(0x1_0000_0000_0000_0000, d, |d| - words);
    ValZero(0x1_0000_0000_0000_0000, d[|d| - words..]);
    ValueBound(s[..words]);
    LimitPow2(words);
    Pow2Add(64 * words, bits);
    hide Pow2, Limit;
    ShiftWhole(Value(s[..words]), Limit(words), Value(s[words..]), Value(d[..|d| - words]), rem, Pow2(bits));
  }

  // ----- Field extraction -----

  lemma {:induction false} ModWhole(low: nat, l: nat, high: nat, p: nat)
    requires low < l && p >= 1
    ensures l * p >= 1 && (low + l * high) % (l * p) == low + l * (high % p)
  {
    var q, r := high / p, high % p;
    assert high == p * q + r;
    MulDistrib(l, p * q, r);
    MulAssoc(l, p, q);
    assert (l * p) * q == q * (l * p);
    MulMono(l, l, r + 1, p);
    MulDistrib(l, r, 1);
    ModUnique(low + l * high, q, low + l * r, l * p);
  }

  /** Words above the first do not matter for its low bits. */
  lemma {:induction false} ModFirst(v: Word, rest: nat, p: nat, q: nat)
    requires p >= 1 && p * q == 0x1_0000_0000_0000_0000
    ensures (v + 0x1_0000_0000_0000_0000 * rest) % p == v % p
  {
    assert v == p * (v / p) + v % p;
    assert (p * q) * rest == p * (q * rest) by { MulAssoc(p, q, rest); }
    MulDistrib(p, v / p, q * rest);
    assert p * (v / p + q * rest) == (v / p + q * rest) * p;
    ModUnique(v + (p * q) * rest, v / p + q * rest, v % p, p);
  }

  lemma {:induction false} ExtractValue(s: seq<Word>, r: seq<Word>, full: nat, bits: nat)
    requires bits < 64 && full + (if bits > 0 then 1 else 0) == |r| <= |s| && r[..full] == s[..full]
    requires bits > 0 ==> r[full] == s[full] % Pow2(bits)
    ensures Value(r) == Value(s) % Pow2(64 * full + bits)
  {
    ValSplit(0x1_0000_0000_0000_0000, s, full);
    ValSplit(0x1_0000_0000_0000_0000, r, full);
    ValueBound(s[..full]);
    LimitPow2(full);
    Pow2Add(64 * full, bits);
    ModWhole(Value(s[..full]), Limit(full), Value(s[full..]), Pow2(bits));
    if bits > 0 {
      ExtractTop(s[full..], r[full..], bits);
    } else {
      assert r[full..] == [];
    }
  }

  lemma {:induction false} ExtractTop(s: seq<Word>, r: seq<Word>, bits: nat)
    requires 0 < bits < 64 && |s| > 0 && |r| == 1 && r[0] == s[0] % Pow2(bits)
    ensures Value(r) == Value(s) % Pow2(bits)
  {
    hide Pow2;
    WordBits();
    Pow2Add(bits, 64 - bits);
    ModFirst(s[0], Value(s[1..]), Pow2(bits), Pow2(64 - bits));
    ValueHead(s, s[0], s[1..]);
    ValueHead(r, r[0], r[1..]);
    EmptyValues(r[1..], [], []);
  }

  /** The dw low bits. */
  method ExtractLow(values: array<Word>, dw: nat) returns (res: array<Word>)
    requires 1 <= dw <= 64 * values.Length
    ensures fresh(res) && res.Length == 1 + (dw - 1) / 64
    ensures Value(res[..]) == Value(values[..]) % Pow2(dw)
  {
    hide Value, Pow2;
    res := new Word[1 + (dw - 1) / 64];
    var full, bits := dw / 64, dw % 64;
    for i := 0 to full
      invariant forall j :: 0 <= j < i ==> res[j] == values[j]
    {
      res[i] := values[i];
    }
    if bits > 0 {
      MaskValIs(bits);
      AndMask(values[full], bits);
      res[full] := And(values[full], MaskVal(bits));
    }
    assert res[..][..full] == values[..][..full];
    ExtractValue(values[..], res[..], full, bits);
  }

  /** The field of dw bits that starts at bit s. */
  method Extract(values: array<Word>, s: nat, dw: nat) returns (res: array<Word>)
    requires 1 <= dw <= 64 * values.Length && s < 64 * values.Length
    ensures fresh(res) && Value(res[..]) == Value(values[..]) / Pow2(s) % Pow2(dw)
  {
    hide Value, Pow2;
    var x := new Word[values.Length];
    RshN(x, values, s, values.Length);
    assert x[..x.Length] == x[..] && values[..values.Length] == values[..];
    res := ExtractLow(x, dw);
  }

  // ----- Logarithms -----

  lemma {:induction false} QuotientBounds(v: nat, p: nat, low: nat, high: nat)
    requires p >= 1 && low <= v / p < high
    ensures p * low <= v < p * high
  {
    var q := v / p;
    assert v == p * q + v % p;
    MulMono(p, p, low, q);
    MulMono(p, p, q + 1, high);
    MulDistrib(p, q, 1);
  }

  lemma {:induction false} QuotientOver(v: nat, p: nat, high: nat)
    requires p >= 1
    ensures v < p * high ==> v / p < high
    ensures v >= p ==> v / p >= 1
  {
    var q := v / p;
    assert v == p * q + v % p;
    if q >= high { MulMono(p, p, high, q); }
    if q <= 0 { MulMono(p, p, q, 0); }
  }

  /** The logarithm of a number of at least 2^k. */
  lemma {:induction false} LogStep(v: nat, k: nat)
    requires v >= Pow2(k)
    ensures FloorLog2(v) == k + FloorLog2(v / Pow2(k))
  {
    hide Pow2;
    QuotientOver(v, Pow2(k), 0);
    var n := FloorLog2(v / Pow2(k));
    Pow2Add(k, n);
    Pow2Add(k, n + 1);
    QuotientBounds(v, Pow2(k), Pow2(n), Pow2(n + 1));
    FloorLog2Unique(v, k + n);
  }

  /** One step of the search among 2k bits: if more than k are used, shift by k. */
  lemma {:induction false} LogHalf(v: nat, k: nat)
    requires v < Pow2(k + k)
    ensures var shift := if v >= Pow2(k) then k else 0;
            FloorLog2(v) == shift + FloorLog2(v / Pow2(shift)) && v / Pow2(shift) < Pow2(k)
  {
    Pow2Add(k, k);
    QuotientOver(v, Pow2(k), Pow2(k));
    if v >= Pow2(k) { LogStep(v, k); } else { assert v / Pow2(0) == v; }
  }

  /** Adding a lower bit to the count by a bitwise or. */
  lemma {:induction false} OrCount(r: nat, shift: nat, j: nat)
    requires r % (2 * Pow2(j)) == 0 && (shift == 0 || shift == Pow2(j))
    ensures Or(shift, r) == r + shift
  {
    var c := r / (2 * Pow2(j));
    assert r == (2 * Pow2(j)) * c;
    OrDisjoint(shift, c, j + 1);
  }

  lemma {:induction false} SmallPow2()
    ensures Pow2(0) == 1 && Pow2(1) == 2 && Pow2(2) == 4 && Pow2(3) == 8 && Pow2(4) == 16
  {
  }

  /** One step of the search, with the shift added to the count. */
  method HalveRange(v: nat, r: nat, k: nat, j: nat, top: nat) returns (v': nat, r': nat)
    requires Pow2(j) == k && top == Pow2(k) - 1 && v < Pow2(k + k) && r % (2 * k) == 0
    ensures r + FloorLog2(v) == r' + FloorLog2(v') && v' < Pow2(k) && r' % k == 0
  {
    hide Pow2, FloorLog2, Or;
    LogHalf(v, k);
    var shift := if v > top then k else 0;
    v' := v / Pow2(shift);
    OrCount(r, shift, j);
    r' := Or(shift, r);
    EvenMultiple(r, k, shift);
  }

  lemma {:induction false} EvenMultiple(r: nat, k: nat, shift: nat)
    requires k >= 1 && r % (2 * k) == 0 && (shift == 0 || shift == k)
    ensures (r + shift) % k == 0
  {
    var c := r / (2 * k);
    assert r == (2 * k) * c == (2 * c) * k;
    var d := if shift == 0 then 2 * c else 2 * c + 1;
    assert d * k == r + shift by { MulDistrib(2 * c, 1, k); }
    ModUnique(r + shift, d, 0, k);
  }

  /** The position of the highest set bit, by binary search. */
  method Log2Word(value: Word) returns (r: nat)
    ensures r == FloorLog2(value)
  {
    SmallPow2();
    WordBits();
    hide Pow2, FloorLog2, Or;
    var v: nat := value;
    LogHalf(v, 32);
    r := if v > 0xFFFF_FFFF then 32 else 0;
    v := v / Pow2(r);
    v, r := HalveRange(v, r, 16, 4, 0xFFFF);
    v, r := HalveRange(v, r, 8, 3, 0xFF);
    v, r := HalveRange(v, r, 4, 2, 0xF);
    v, r := HalveRange(v, r, 2, 1, 0x3);
    LogTwoBits(v);
    OrCount(r, v / 2, 0);
    r := Or(v / 2, r);
  }

  lemma {:induction false} LogTwoBits(v: nat)
    requires v < 4
    ensures FloorLog2(v) == v / 2
  {
  }

  /** The highest set bit is in the highest word that is not zero. */
  lemma {:induction false} LogOfWords(s: seq<Word>, i: nat)
    requires i < |s| && s[i] > 0 && forall j :: i < j < |s| ==> s[j] == 0
    ensures FloorLog2(Value(s)) == FloorLog2(s[i]) + 64 * i
  {
    ValSplit(0x1_0000_0000_0000_0000, s, i);
    ValueBound(s[..i]);
    LimitPow2(i);
    ValZero(0x1_0000_0000_0000_0000, s[i..][1..]);
    assert Value(s[i..]) == s[i];
    hide Pow2, Value, FloorLog2;
    var p := Pow2(64 * i);
    assert p * s[i] == s[i] * p;
    ModUnique(Value(s), s[i], Value(s[..i]), p);
    MulMono(p, p, 1, s[i]);
    LogStep(Value(s), 64 * i);
  }

  method Log2N(s0: array<Word>, nw: nat) returns (r: nat)
    requires nw <= s0.Length
    ensures r == FloorLog2(Value(s0[..nw]))
  {
    hide FloorLog2, Value;
    for i := nw downto 0
      invariant forall j :: i <= j < nw ==> s0[j] == 0
    {
      if s0[i] > 0 {
        r := Log2Word(s0[i]);
        LogOfWords(s0[..nw], i);
        return r + 64 * i;
      }
    }
    ZeroLog(s0[..nw]);
    r := 0;
  }

  lemma {:induction false} ZeroLog(s: seq<Word>)
    requires forall i :: 0 <= i < |s| ==> s[i] == 0
    ensures Value(s) == 0 && FloorLog2(Value(s)) == 0
  {
    ValZero(0x1_0000_0000_0000_0000, s);
  }
}
