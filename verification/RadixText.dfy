/** The parser for numbers in several radixes, which multiplies and adds in place. */
module RadixText {
  import opened Powers
  import opened Numbers
  import opened WordArithmetic
  import opened WordShifts
  import opened WordProduct
  import opened HexText

  // ----- The text -----

  datatype Radix = Radix(base: nat, skip: nat)

  /** The radix a text announces and the length of the announcement. */
  function RadixOf(s: string): (r: Radix)
    ensures r.skip <= |s| && 2 <= r.base <= 16
  {
    if |s| >= 1 && s[0] == 'd' then Radix(10, 1)
    else if |s| >= 1 && (s[0] == 'h' || s[0] == 'x') then Radix(16, 1)
    else if |s| >= 2 && (s[..2] == "0h" || s[..2] == "0x") then Radix(16, 2)
    else if |s| >= 1 && s[0] == 'b' then Radix(2, 1)
    else if |s| >= 2 && s[..2] == "0b" then Radix(2, 2)
    else Radix(10, 0)
  }

  /** The value of a letter or digit, or -1. */
  function DigitOf(c: char): (d: int)
    ensures -1 <= d < 36
  {
    if '0' <= c <= '9' then c as int - '0' as int
    else if 'a' <= c <= 'z' then c as int - 'a' as int + 10
    else if 'A' <= c <= 'Z' then c as int - 'A' as int + 10
    else -1
  }

  /** What the parser accepts. The comparison lets a digit equal to the radix through. */
  predicate Accepted(c: char, base: nat) { c == '_' || 0 <= DigitOf(c) <= base }

  predicate AllAccepted(s: string, base: nat) { forall i :: 0 <= i < |s| ==> Accepted(s[i], base) }

  /** The digits of an accepted text, least significant first. */
  function RadixDigits(s: string, base: nat): (ds: seq<nat>)
    requires AllAccepted(s, base)
  {
    if |s| == 0 then []
    else RadixDigits(s[1..], base) + if s[0] == '_' then [] else [DigitOf(s[0]) as nat]
  }

  function RadixValue(s: string, base: nat): nat
    requires AllAccepted(s, base)
  {
    Val(base, RadixDigits(s, base))
  }

  /** What a number in a radix is made of. */
  predicate AllProper(s: string, base: nat) { forall i :: 0 <= i < |s| ==> s[i] == '_' || 0 <= DigitOf(s[i]) < base }

  predicate HasForeign(s: string, base: nat) { exists i :: 0 <= i < |s| && DigitOf(s[i]) == base }

  /** The parser accepts exactly the texts made of proper digits, except for those it accepts
      with a digit equal to the radix. */
  lemma {:induction false} AcceptedExactly(s: string, base: nat)
    ensures AllProper(s, base) <==> AllAccepted(s, base) && !HasForeign(s, base)
    ensures (AllAccepted(s, base) <==> AllProper(s, base)) <==> !(AllAccepted(s, base) && HasForeign(s, base))
    ensures AllProper(s, base) ==> Digits(base, RadixDigits(s, base))
  {
    assert forall i :: 0 <= i < |s| && Accepted(s[i], base) && DigitOf(s[i]) != base ==> s[i] == '_' || 0 <= DigitOf(s[i]) < base;
    assert DigitOf('_') == -1;
    if AllProper(s, base) && |s| > 0 {
      assert forall i :: 0 <= i < |s[1..]| ==> s[1..][i] == s[i + 1];
      AcceptedExactly(s[1..], base);
    }
  }

  /** So a text with a digit that its radix does not have is accepted. */
  lemma {:induction false} AcceptsForeignDigit(s: string)
    requires s == "b2"
    ensures RadixOf(s) == Radix(2, 1) && AllAccepted(s[1..], 2) && RadixDigits(s[1..], 2) == [2]
  {
    var t := s[1..];
    assert t == "2" && t[1..] == "";
    assert RadixDigits(t[1..], 2) == [];
  }

  // ----- Numbers behind the loop -----

  /** What the loop knows after the digits ds: sums and place values, up to multiples of the
      limit m of the products, and exactly as long as the sum is below it. */
  predicate Parsed(base: nat, ds: seq<nat>, dest: nat, place: nat, m: nat, qd: int, qp: int) {
    && Val(base, ds) == dest + qd * m
    && Pow(base, |ds|) == place + qp * m && 0 <= place < m && qp >= 0
    && (Val(base, ds) < m ==> dest == Val(base, ds))
  }

  lemma {:induction false} NoMultiple(x: nat, r: nat, q: nat, m: nat)
    requires x == r + q * m && x < m
    ensures r == x
  {
    if q >= 1 { MulMono(1, q, m, m); }
  }

  lemma {:induction false} ProductParts(power: nat, place: nat, qp: nat, m: nat, d: nat, h: nat, prod: nat)
    requires power == place + qp * m && place * d == m * h + prod
    ensures d * power == prod + (h + d * qp) * m
  {
    MulDistrib(d, place, qp * m);
    MulAssoc(d, qp, m);
    MulDistrib(h, d * qp, m);
    assert m * h == h * m && place * d == d * place;
  }

  /** The product of a digit and its place value, as the multiplication leaves it. */
  function Product(place: nat, d: nat, m: nat): (p: nat)
    requires m >= 1
    ensures p < m
  {
    (place * d) % m
  }

  lemma {:induction false} DigitProduct(power: nat, place: nat, qp: nat, m: nat, d: nat) returns (h: nat)
    requires power == place + qp * m && place < m
    ensures d * power == Product(place, d, m) + h * m
    ensures d * power < m ==> Product(place, d, m) == d * power
  {
    var x := place * d;
    QuotientPositive(x, m, d, qp);
    DivisionIs(x, m);
    ProductParts(power, place, qp, m, d, x / m, x % m);
    h := x / m + d * qp;
    if d * power < m { NoMultiple(d * power, x % m, h, m); }
  }

  lemma {:induction false} DivisionIs(x: nat, m: nat)
    requires m >= 1
    ensures x == m * (x / m) + x % m && x / m >= 0
  {
  }

  /** The sum after one more digit. */
  lemma {:induction false} DigitSum(sum: nat, term: nat, dest: nat, prod: nat, dest': nat, m: nat, limit: nat, g: nat, qd: int, h: nat)
    returns (q: int)
    requires sum == dest + qd * m && term == prod + h * m && limit == g * m && limit >= 1
    requires dest' == (dest + prod) % limit && (sum < m ==> dest == sum) && (term < m ==> prod == term) && g >= 1
    ensures sum + term == dest' + q * m
    ensures sum + term < m ==> dest' == sum + term
  {
    var k := (dest + prod) / limit;
    assert dest + prod == limit * k + dest';
    MulAssoc(k, g, m);
    assert limit * k == k * (g * m);
    MulDistrib(qd, h, m);
    MulDistrib(qd + h, k * g, m);
    q := qd + h + k * g;
    if sum + term < m {
      MulMono(1, g, m, m);
      ModUnique(dest + prod, 0, dest + prod, limit);
    }
  }

  lemma {:induction false} ParseDigit(base: nat, ds: seq<nat>, dest: nat, place: nat, m: nat, qd: int, qp: int, d: nat,
                                      dest': nat, place': nat, limit: nat, g: nat)
    returns (qd': int, qp': int)
    requires Parsed(base, ds, dest, place, m, qd, qp) && limit == g * m && g >= 1 && limit >= 1
    requires dest' == (dest + Product(place, d, m)) % limit && place' == Product(place, base, m)
    ensures Parsed(base, ds + [d], dest', place', m, qd', qp')
  {
    hide Val, Pow, Product;
    ValSnoc(base, ds, d);
    var power := Pow(base, |ds|);
    var h := DigitProduct(power, place, qp, m, d);
    qd' := DigitSum(Val(base, ds), d * power, dest, Product(place, d, m), dest', m, limit, g, qd, h);
    qp' := DigitProduct(power, place, qp, m, base);
    NextPower(base, |ds|);
  }

  lemma {:induction false} NextPower(b: nat, n: nat)
    ensures Pow(b, n + 1) == b * Pow(b, n)
  {
  }

  lemma {:induction false} QuotientPositive(x: nat, m: nat, b: nat, q: int)
    requires m >= 1 && q >= 0
    ensures x / m + b * q >= 0
  {
    MulMono(0, b, 0, q);
  }

  // ----- The parser -----

  lemma {:induction false} NothingParsed(base: nat, m: nat)
    requires m > 1
    ensures Parsed(base, [], 0, 1, m, 0, 0)
  {
  }

  lemma {:induction false} NextRadixDigit(s: string, i: nat, base: nat)
    requires i < |s| && AllAccepted(s[i + 1..], base) && Accepted(s[i], base)
    ensures AllAccepted(s[i..], base)
    ensures RadixDigits(s[i..], base)
         == RadixDigits(s[i + 1..], base) + if s[i] == '_' then [] else [DigitOf(s[i]) as nat]
  {
    assert s[i..][1..] == s[i + 1..];
    forall k | 0 <= k < |s[i..]| ensures Accepted(s[i..][k], base) {
      assert k > 0 ==> s[i..][k] == s[i + 1..][k - 1];
    }
  }

  /** The limits of the words and of the halves that products are reduced to. */
  lemma {:induction false} ProductLimit(w: nat) returns (g: nat)
    requires w >= 1
    ensures Limit(NWords(w)) == g * Pow2(32 * NHalves(w)) && g >= 1 && Pow2(32 * NHalves(w)) > 1
  {
    HalvesFit(w);
    LimitPow2(NWords(w));
    var k := 64 * NWords(w) - 32 * NHalves(w);
    Pow2Add(k, 32 * NHalves(w));
    Pow2Mono(1, 32 * NHalves(w));
    g := Pow2(k);
  }

  /** dest and place after a digit: dest += place * digit, place *= base. */
  method AddDigit(dest: array<Word>, place: array<Word>, prod: array<Word>, alias: array<Word>, digit: Word, base: Word, w: nat)
    requires w >= 1 && dest.Length == place.Length == prod.Length == alias.Length == NWords(w)
    requires dest != place && dest != prod && dest != alias && place != prod && place != alias && prod != alias
    requires Value(place[..]) < Pow2(32 * NHalves(w))
    modifies dest, place, prod, alias
    ensures var m := Pow2(32 * NHalves(w));
            && Value(dest[..]) == (old(Value(dest[..])) + Product(old(Value(place[..])), digit, m)) % Limit(NWords(w))
            && Value(place[..]) == Product(old(Value(place[..])), base, m)
  {
    hide Value, Limit, Pow2;
    var nw := NWords(w);
    var one := new Word[1][digit];
    SmallFactor(one[..], digit);
    ghost var m, x := Pow2(32 * NHalves(w)), Value(place[..]);
    ModUnique(x, 0, x, m);
    MulN(prod, place, one, w, w, 64);
    ValCpy(alias, dest, nw);
    assert alias[..nw] == alias[..] && dest[..nw] == dest[..] && prod[..nw] == prod[..];
    AddN(dest, alias, prod, nw);
    assert dest[..nw] == dest[..];
    ValCpy(alias, place, nw);
    assert alias[..nw] == alias[..] && place[..nw] == place[..];
    one[0] := base;
    SmallFactor(one[..], base);
    MulN(place, alias, one, w, w, 64);
  }

  /** A factor of one word is not reduced. */
  lemma {:induction false} SmallFactor(s: seq<Word>, x: Word)
    requires s == [x]
    ensures Value(s) % Pow2(32 * NHalves(64)) == x
  {
    assert s[1..] == [];
    WordBits();
    assert 32 * NHalves(64) == 64;
  }

  /** Reads a number from a position of a text. It fails exactly if some character after the
      announcement of the radix is not accepted. Otherwise the words hold the number of the
      text, up to a multiple of the limit of the products, and exactly if it is below it. */
  method DatFromStr(text: string, res: array<Word>, pos: nat, w: nat) returns (ok: bool)
    requires w >= 1 && res.Length == NWords(w) && pos <= |text|
    modifies res
    ensures var r := RadixOf(text[pos..]);
            var digits := text[pos + r.skip..];
            && ok == AllAccepted(digits, r.base)
            && (ok ==>
                  var m := Pow2(32 * NHalves(w));
                  && Value(res[..]) % m == RadixValue(digits, r.base) % m
                  && (RadixValue(digits, r.base) < m ==> Value(res[..]) == RadixValue(digits, r.base)))
  {
    hide Value, Limit, Pow2, RadixDigits, Parsed, Product;
    var r := RadixOf(text[pos..]);
    var s := text[pos + r.skip..];
    var base: Word := r.base;
    var nw := NWords(w);
    var place, prod, alias := new Word[nw], new Word[nw], new Word[nw];
    ValSet(place, nw, 1);
    assert place[..nw] == place[..];
    ValEmpty(res, nw);
    ZeroValue(res[..]);
    ghost var m := Pow2(32 * NHalves(w));
    ghost var g := ProductLimit(w);
    ghost var qd, qp := 0, 0;
    NothingParsed(base, m);
    NoRadixDigits(s[|s|..], base);
    var i := |s|;
    while i > 0
      invariant 0 <= i <= |s| && AllAccepted(s[i..], base)
      invariant Parsed(base, RadixDigits(s[i..], base), Value(res[..]), Value(place[..]), m, qd, qp)
    {
      var c := s[i - 1];
      assert c == s[|s[..i]| - 1];
      if !Accepted(c, base) { return false; }
      NextRadixDigit(s, i - 1, base);
      ghost var ds := RadixDigits(s[i..], base);
      assert ds + [] == ds;
      if c != '_' {
        PlaceBelow(base, ds, Value(res[..]), Value(place[..]), m, qd, qp);
        ghost var dest, power := Value(res[..]), Value(place[..]);
        var d: Word := DigitOf(c);
        AddDigit(res, place, prod, alias, d, base, w);
        qd, qp := ParseDigit(base, ds, dest, power, m, qd, qp, d, Value(res[..]), Value(place[..]), Limit(nw), g);
      }
      i := i - 1;
    }
    assert s[0..] == s;
    ParsedResult(base, RadixDigits(s, base), Value(res[..]), Value(place[..]), m, qd, qp);
    return true;
  }

  lemma {:induction false} PlaceBelow(base: nat, ds: seq<nat>, dest: nat, place: nat, m: nat, qd: int, qp: int)
    requires Parsed(base, ds, dest, place, m, qd, qp)
    ensures place < m
  {
  }

  lemma {:induction false} NoRadixDigits(s: string, base: nat)
    requires |s| == 0
    ensures AllAccepted(s, base) && RadixDigits(s, base) == []
  {
  }

  lemma {:induction false} ZeroValue(s: seq<Word>)
    requires forall i :: 0 <= i < |s| ==> s[i] == 0
    ensures Value(s) == 0
  {
    ValZero(0x1_0000_0000_0000_0000, s);
  }

  lemma {:induction false} ParsedResult(base: nat, ds: seq<nat>, dest: nat, place: nat, m: nat, qd: int, qp: int)
    requires Parsed(base, ds, dest, place, m, qd, qp)
    ensures dest % m == Val(base, ds) % m && (Val(base, ds) < m ==> dest == Val(base, ds))
  {
    var q := dest / m;
    DivisionIs(dest, m);
    assert m * q == q * m;
    MulDistrib(q, qd, m);
    ModUnique(Val(base, ds), q + qd, dest % m, m);
  }

  // ----- Round trip -----

  /** The characters of hexadecimal digits mean the same here. */
  lemma {:induction false} CharsAccepted(ns: seq<nat>)
    requires Digits(16, ns)
    ensures AllAccepted(Chars(ns), 16) && RadixDigits(Chars(ns), 16) == ns
  {
    var cs := Chars(ns);
    forall i | 0 <= i < |cs| ensures Accepted(cs[i], 16) {
      CharAccepted(ns[|ns| - 1 - i]);
    }
    if |ns| > 0 {
      var n := |ns| - 1;
      CharsAccepted(ns[..n]);
      CharAccepted(ns[n]);
      assert cs[1..] == Chars(ns[..n]);
      assert ns[..n] + [ns[n]] == ns;
    } else {
      assert cs == [];
    }
  }

  lemma {:induction false} CharAccepted(n: nat)
    requires n < 16
    ensures Accepted(HexChar(n), 16) && DigitOf(HexChar(n)) == n && HexChar(n) != '_'
  {
  }

  /** The text of a number is read as hexadecimal, with the value of the number. */
  lemma {:induction false} HexStringRead(s: seq<Word>, w: nat)
    requires 1 <= w <= 64 * |s| && Value(s) < Pow2(w)
    ensures RadixOf(HexString(s, w)) == Radix(16, 2)
    ensures AllAccepted(HexString(s, w)[2..], 16) && RadixValue(HexString(s, w)[2..], 16) == Value(s)
  {
    var ns := Nibbles(s, (w + 3) / 4);
    CharsAccepted(ns);
    assert HexString(s, w)[2..] == Chars(ns) && HexString(s, w)[..2] == "0x";
    hide Nibbles, Value, Pow2, Chars, RadixDigits;
    LowNibbles(s, (w + 3) / 4);
    Pow2Mono(w, 4 * ((w + 3) / 4));
    ModUnique(Value(s), 0, Value(s), Pow2(4 * ((w + 3) / 4)));
  }

  /** Printing a number of w bits and parsing the text gives the same words. */
  method FromStrRoundTrip(values: array<Word>, w: nat) returns (ok: bool, back: array<Word>)
    requires w >= 1 && values.Length == NWords(w) && Value(values[..]) < Pow2(w)
    ensures ok && back[..] == values[..]
  {
    hide HexString, Value, Limit, Pow2, RadixValue;
    var str := ToStr(values, w);
    back := new Word[values.Length];
    HexStringRead(values[..], w);
    WidthBelow(w);
    assert str[0..] == str && 0 + 2 == 2;
    ok := DatFromStr(str, back, 0, w);
    ValueInjective(back[..], values[..]);
  }

  lemma {:induction false} WidthBelow(w: nat)
    requires w >= 1
    ensures Pow2(w) <= Pow2(32 * NHalves(w))
  {
    Pow2Mono(w, 32 * NHalves(w));
  }
}
