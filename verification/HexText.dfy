/** The hexadecimal printer of bit vectors and the parser that packs hexadecimal digits into
    words. */
module HexText {
  import opened Powers
  import opened Bits
  import opened Numbers
  import opened WordArithmetic
  import opened WordShifts

  // ----- Characters -----

  function HexChar(n: nat): char
    requires n < 16
  {
    if n < 10 then '0' + n as char else 'a' + (n - 10) as char
  }

  /** The value of a hexadecimal digit, or -1. */
  function HexDigit(c: char): (d: int)
    ensures -1 <= d < 16
  {
    if '0' <= c <= '9' then c as int - '0' as int
    else if 'a' <= c <= 'f' then c as int - 'a' as int + 10
    else if 'A' <= c <= 'F' then c as int - 'A' as int + 10
    else -1
  }

  lemma {:induction false} HexCharDigit(n: nat)
    requires n < 16
    ensures HexDigit(HexChar(n)) == n
  {
  }

  /** The digits of a text, least significant first; other characters are skipped. */
  function HexDigits(s: string): (ds: seq<nat>)
    ensures Digits(16, ds) && |ds| <= |s|
  {
    if |s| == 0 then []
    else HexDigits(s[1..]) + if HexDigit(s[0]) >= 0 then [HexDigit(s[0]) as nat] else []
  }

  function HexValue(s: string): nat { Val(16, HexDigits(s)) }

  // ----- Sixteen digits to a word -----

  lemma {:induction false} SixteenIsPow2(n: nat)
    ensures Pow(16, n) == Pow2(4 * n)
  {
    assert Pow2(4) == 16;
    PowOfPow2(4, n);
  }

  lemma {:induction false} SixteenLimit(nw: nat)
    ensures Pow(16, 16 * nw) == Limit(nw)
  {
    SixteenIsPow2(16 * nw);
    LimitPow2(nw);
  }

  // ----- Reading -----

  /** The state of the parser after the digits ds: full words and the word being filled. */
  predicate Packed(ds: seq<nat>, words: seq<Word>, accum: Word, bit: nat) {
    && bit < 64 && bit % 4 == 0 && |ds| == 16 * |words| + bit / 4 && Digits(16, ds)
    && Value(words) == Val(16, ds[..16 * |words|]) && accum == Val(16, ds[16 * |words|..])
  }

  lemma {:induction false} AccumBound(ds: seq<nat>, words: seq<Word>, accum: Word, bit: nat)
    requires Packed(ds, words, accum, bit)
    ensures accum < Pow2(bit)
  {
    ValBound(16, ds[16 * |words|..]);
    SixteenIsPow2(bit / 4);
  }

  lemma {:induction false} AtLeastSixteen(k: nat)
    requires k >= 4
    ensures Pow2(k) >= 16
  {
    assert Pow2(4) == 16;
    Pow2Mono(4, k);
  }

  lemma {:induction false} PlaceBound(accum: nat, d: nat, p: nat, q: nat)
    requires accum < p && d < 16 <= q && p * q == 0x1_0000_0000_0000_0000
    ensures d * p == p * d && accum + d * p < 0x1_0000_0000_0000_0000 && Wrap(d * p) == d * p
  {
    MulMono(p, p, d + 1, q);
    MulDistrib(p, d, 1);
  }

  /** A digit placed above the accumulated ones. */
  lemma {:induction false} PlaceDigit(accum: nat, d: nat, bit: nat)
    requires accum < Pow2(bit) && d < 16 && bit <= 60
    ensures Or(accum, WordShl(d, bit)) == accum + d * Pow2(bit) < 0x1_0000_0000_0000_0000
  {
    hide Pow2, Or, Wrap;
    WordBits();
    Pow2Add(bit, 64 - bit);
    AtLeastSixteen(64 - bit);
    PlaceBound(accum, d, Pow2(bit), Pow2(64 - bit));
    OrDisjoint(accum, d, bit);
  }

  lemma {:induction false} PackMore(ds: seq<nat>, words: seq<Word>, accum: Word, bit: nat, d: nat, a: Word)
    requires Packed(ds, words, accum, bit) && d < 16 && bit + 4 < 64 && a == accum + d * Pow2(bit)
    ensures Packed(ds + [d], words, a, bit + 4)
  {
    var n := 16 * |words|;
    SixteenIsPow2(bit / 4);
    hide Pow2, Val;
    assert (ds + [d])[n..] == ds[n..] + [d] && (ds + [d])[..n] == ds[..n];
    ValSnoc(16, ds[n..], d);
  }

  lemma {:induction false} PackFull(ds: seq<nat>, words: seq<Word>, accum: Word, d: nat, a: Word)
    requires Packed(ds, words, accum, 60) && d < 16 && a == accum + d * Pow2(60)
    ensures Packed(ds + [d], words + [a], 0, 0)
  {
    hide Pow2, Val, Value, Limit;
    var n := 16 * |words|;
    var ds' := ds + [d];
    SixteenIsPow2(15);
    assert ds'[n..] == ds[n..] + [d] && ds'[..n] == ds[..n];
    ValSnoc(16, ds[n..], d);
    ValSplit(16, ds', n);
    SixteenLimit(|words|);
    ValueSnoc(words, a);
    assert a * Limit(|words|) == Limit(|words|) * a;
    assert ds'[..n + 16] == ds' && ds'[n + 16..] == [];
    NoValue(ds'[n + 16..]);
  }

  lemma {:induction false} NoValue(ds: seq<nat>)
    requires |ds| == 0
    ensures Val(16, ds) == 0
  {
  }

  /** One more digit: the word goes on filling, or is full. */
  lemma {:induction false} PackDigit(ds: seq<nat>, words: seq<Word>, accum: Word, bit: nat, d: nat)
    requires Packed(ds, words, accum, bit) && d < 16
    ensures var a := Or(accum, WordShl(d, bit));
            && a < 0x1_0000_0000_0000_0000
            && (if bit + 4 == 64 then Packed(ds + [d], words + [a], 0, 0) else Packed(ds + [d], words, a, bit + 4))
  {
    AccumBound(ds, words, accum, bit);
    PackedSize(ds, words, accum, bit);
    hide Packed, Pow2, Or, WordShl;
    PlaceDigit(accum, d, bit);
    var a := Or(accum, WordShl(d, bit));
    if bit + 4 == 64 { PackFull(ds, words, accum, d, a); } else { PackMore(ds, words, accum, bit, d, a); }
  }

  lemma {:induction false} ValueSnoc(s: seq<Word>, x: Word)
    ensures Value(s + [x]) == Value(s) + x * Limit(|s|)
  {
    ValSnoc(0x1_0000_0000_0000_0000, s, x);
  }

  /** The words at the end of the text. */
  lemma {:induction false} PackedEnd(ds: seq<nat>, words: seq<Word>, accum: Word, bit: nat, nw: nat, res: seq<Word>)
    requires Packed(ds, words, accum, bit) && |res| == nw && |words| + (if bit > 0 then 1 else 0) <= nw
    requires forall i :: 0 <= i < nw ==>
               res[i] == if i < |words| then words[i] else if i == |words| && bit > 0 then accum else 0
    ensures Value(res) == Val(16, ds)
  {
    var n := |words|;
    ValSplit(16, ds, 16 * n);
    SixteenLimit(n);
    ValSplit(0x1_0000_0000_0000_0000, res, n);
    assert res[..n] == words;
    if bit > 0 {
      ValZero(0x1_0000_0000_0000_0000, res[n..][1..]);
    } else {
      ValZero(0x1_0000_0000_0000_0000, res[n..]);
      assert ds[16 * n..] == [];
    }
  }

  /** Digits beyond the words do not matter. */
  lemma {:induction false} ExtraDigits(all: seq<nat>, ds: seq<nat>, nw: nat)
    requires ds <= all && (|ds| == 16 * nw || (ds == all && |ds| <= 16 * nw)) && Digits(16, all)
    ensures Val(16, ds) == Val(16, all) % Limit(nw)
  {
    hide Val, Pow, Limit;
    SixteenLimit(nw);
    ValBound(16, ds);
    PowMono(16, |ds|, 16 * nw);
    assert all[..|ds|] == ds;
    ValSplit(16, all, |ds|);
    var high := Val(16, all[|ds|..]);
    if |ds| == 16 * nw {
      assert Limit(nw) * high == high * Limit(nw);
      ModUnique(Val(16, all), high, Val(16, ds), Limit(nw));
    } else {
      ModUnique(Val(16, all), 0, Val(16, ds), Limit(nw));
    }
  }

  lemma {:induction false} DigitsOfSuffix(s: string, i: nat)
    requires i <= |s|
    ensures HexDigits(s[i..]) <= HexDigits(s)
    decreases i
  {
    if i > 0 {
      DigitsOfSuffix(s, i - 1);
      assert s[i - 1..][1..] == s[i..];
    }
  }

  lemma {:induction false} NextDigit(s: string, i: nat)
    requires i < |s|
    ensures HexDigits(s[i..]) == HexDigits(s[i + 1..]) + if HexDigit(s[i]) >= 0 then [HexDigit(s[i]) as nat] else []
  {
    assert s[i..][1..] == s[i + 1..];
  }

  lemma {:induction false} NothingPacked(words: seq<Word>)
    requires |words| == 0
    ensures Packed([], words, 0, 0)
  {
  }

  lemma {:induction false} PackedSize(ds: seq<nat>, words: seq<Word>, accum: Word, bit: nat)
    requires Packed(ds, words, accum, bit)
    ensures bit < 64 && bit % 4 == 0 && |ds| == 16 * |words| + bit / 4
  {
  }

  /** One digit of the text: the word goes on filling, or is stored. */
  method PackOne(res: array<Word>, d: nat, w: nat, bit: nat, accum: Word, ghost ds: seq<nat>)
    returns (w': nat, bit': nat, accum': Word)
    requires w < res.Length && d < 16 && bit < 64 && Packed(ds, res[..w], accum, bit)
    modifies res
    ensures w' <= res.Length && bit' < 64 && Packed(ds + [d], res[..w'], accum', bit') && (w' == res.Length ==> bit' == 0)
  {
    PackDigit(ds, res[..w], accum, bit, d);
    PackedSize(ds, res[..w], accum, bit);
    hide Packed, Or, WordShl;
    ghost var words := res[..w];
    accum' := Or(accum, WordShl(d, bit));
    bit' := bit + 4;
    w' := w;
    if bit' == 64 {
      res[w] := accum';
      assert res[..w + 1] == words + [accum'];
      accum', bit', w' := 0, 0, w + 1;
    }
  }

  /** Reads digits from the right until the text or the words run out. */
  method ReadDigits(str: string, res: array<Word>) returns (w: nat, bit: nat, accum: Word, ghost ds: seq<nat>)
    modifies res
    ensures w <= res.Length && bit < 64 && Packed(ds, res[..w], accum, bit) && (w == res.Length ==> bit == 0)
    ensures ds <= HexDigits(str) && (w == res.Length || ds == HexDigits(str))
  {
    hide Packed, HexDigits;
    var digit := |str| - 1;
    accum, w, bit := 0, 0, 0;
    NoDigits(str[|str|..]);
    NothingPacked(res[..0]);
    while digit >= 0 && w < res.Length
      invariant -1 <= digit < |str| && w <= res.Length && bit < 64
      invariant Packed(HexDigits(str[digit + 1..]), res[..w], accum, bit)
      invariant w == res.Length ==> bit == 0
      decreases digit
    {
      var d := HexDigit(str[digit]);
      NextDigit(str, digit);
      ghost var before := HexDigits(str[digit + 1..]);
      assert before + [] == before;
      if d >= 0 {
        w, bit, accum := PackOne(res, d, w, bit, accum, before);
      }
      digit := digit - 1;
    }
    ds := HexDigits(str[digit + 1..]);
    DigitsOfSuffix(str, digit + 1);
    assert digit == -1 ==> str[digit + 1..] == str;
  }

  /** Packs the digits of a text into words. The number is that of the text, whatever else the
      text holds, reduced to the words. */
  method StrToDat(str: string, res: array<Word>)
    modifies res
    ensures Value(res[..]) == HexValue(str) % Limit(res.Length)
  {
    hide Packed, HexDigits, Limit, Value;
    var w, bit, accum, ds := ReadDigits(str, res);
    ghost var words := res[..w];
    PackedSize(ds, words, accum, bit);
    if bit != 0 {
      res[w] := accum;
      w := w + 1;
    }
    while w < res.Length
      invariant |words| + (if bit > 0 then 1 else 0) <= w <= res.Length
      invariant forall i :: 0 <= i < w ==>
                  res[i] == if i < |words| then words[i] else if i == |words| && bit > 0 then accum else 0
    {
      res[w] := 0;
      w := w + 1;
    }
    assert w == res.Length;
    PackedEnd(ds, words, accum, bit, res.Length, res[..]);
    ExtraDigits(HexDigits(str), ds, res.Length);
  }

  lemma {:induction false} NoDigits(s: string)
    requires |s| == 0
    ensures HexDigits(s) == []
  {
  }

  // ----- Printing -----

  /** Hexadecimal digit j of a word. */
  function WordNibble(v: Word, j: nat): (n: nat)
    ensures n < 16
  {
    v / Pow2(4 * j) % 16
  }

  function Nibble(s: seq<Word>, k: nat): (n: nat)
    requires k < 16 * |s|
    ensures n < 16
  {
    WordNibble(s[k / 16], k % 16)
  }

  /** The n low hexadecimal digits of some words. */
  function Nibbles(s: seq<Word>, n: nat): (ns: seq<nat>)
    requires n <= 16 * |s|
    ensures |ns| == n && Digits(16, ns)
  {
    seq(n, k requires 0 <= k < n => Nibble(s, k))
  }

  /** The quotient by 16^j, one digit further. */
  lemma {:induction false} NextQuotient(v: Word, j: nat)
    ensures v / Pow2(4 * j) == WordNibble(v, j) + 16 * (v / Pow2(4 * (j + 1)))
  {
    Pow2Add(4 * j, 4);
    assert Pow2(4) == 16;
    hide Pow2;
    DivDiv(v, Pow2(4 * j), 16);
  }

  lemma {:induction false} DivDiv(v: nat, p: nat, q: nat)
    requires p >= 1 && q >= 1
    ensures p * q >= 1 && v / (p * q) == v / p / q
  {
    var a, b := v / p, v / p / q;
    assert v == p * a + v % p;
    assert a == q * b + a % q;
    MulMono(1, p, 1, q);
    MulDistrib(p, q * b, a % q);
    MulAssoc(p, q, b);
    assert (p * q) * b == b * (p * q);
    MulMono(p, p, a % q + 1, q);
    MulDistrib(p, a % q, 1);
    ModUnique(v, b, p * (a % q) + v % p, p * q);
  }

  /** The digits of a word from position j on. */
  function NibblesFrom(v: Word, j: nat): (ns: seq<nat>)
    requires j <= 16
    ensures |ns| == 16 - j && forall k :: 0 <= k < |ns| ==> ns[k] == WordNibble(v, j + k)
    decreases 16 - j
  {
    if j == 16 then [] else [WordNibble(v, j)] + NibblesFrom(v, j + 1)
  }

  /** They stand for the quotient by 16^j. */
  lemma {:induction false} WordNibbles(v: Word, j: nat)
    requires j <= 16
    ensures Val(16, NibblesFrom(v, j)) == v / Pow2(4 * j)
    decreases 16 - j
  {
    hide WordNibble, Pow2;
    if j < 16 {
      WordNibbles(v, j + 1);
      assert NibblesFrom(v, j)[1..] == NibblesFrom(v, j + 1);
      NextQuotient(v, j);
    } else {
      WordBits();
      ModUnique(v, 0, v, Pow2(4 * j));
    }
  }

  lemma {:induction false} NibblesSplit(s: seq<Word>)
    requires |s| > 0
    ensures Nibbles(s, 16 * |s|)[..16] == NibblesFrom(s[0], 0)
    ensures Nibbles(s, 16 * |s|)[16..] == Nibbles(s[1..], 16 * |s[1..]|)
  {
    hide WordNibble, NibblesFrom;
  }

  lemma {:induction false} NibblesValue(s: seq<Word>)
    ensures Val(16, Nibbles(s, 16 * |s|)) == Value(s)
  {
    if |s| > 0 {
      NibblesValue(s[1..]);
      WordNibbles(s[0], 0);
      NibblesSplit(s);
      var ns := Nibbles(s, 16 * |s|);
      hide WordNibble, Nibbles, Val, Pow;
      ValSplit(16, ns, 16);
      SixteenLimit(1);
      OneWord();
      ValueHead(s, s[0], s[1..]);
    }
  }

  lemma {:induction false} OneWord()
    ensures Limit(1) == 0x1_0000_0000_0000_0000 && Pow2(0) == 1
  {
  }

  lemma {:induction false} NibblesPrefix(s: seq<Word>, n: nat)
    requires n <= 16 * |s|
    ensures Nibbles(s, 16 * |s|)[..n] == Nibbles(s, n)
  {
    hide WordNibble;
  }

  /** The n low digits stand for the number reduced to them. */
  lemma {:induction false} LowNibbles(s: seq<Word>, n: nat)
    requires n <= 16 * |s|
    ensures Val(16, Nibbles(s, n)) == Value(s) % Pow2(4 * n)
  {
    hide Val, Pow, Value, Nibbles, Pow2;
    NibblesValue(s);
    NibblesPrefix(s, n);
    var ns := Nibbles(s, 16 * |s|);
    ValSplit(16, ns, n);
    ValBound(16, ns[..n]);
    SixteenIsPow2(n);
    var high := Val(16, ns[n..]);
    assert Pow(16, n) * high == high * Pow(16, n);
    ModUnique(Value(s), high, Val(16, ns[..n]), Pow2(4 * n));
  }

  /** The characters of the digits, most significant first. */
  function Chars(ns: seq<nat>): string
    requires Digits(16, ns)
  {
    seq(|ns|, i requires 0 <= i < |ns| => HexChar(ns[|ns| - 1 - i]))
  }

  /** Reading the characters gives the digits back. */
  lemma {:induction false} CharsDigits(ns: seq<nat>)
    requires Digits(16, ns)
    ensures HexDigits(Chars(ns)) == ns
  {
    if |ns| > 0 {
      var n := |ns| - 1;
      CharsDigits(ns[..n]);
      HexCharDigit(ns[n]);
      assert Chars(ns)[1..] == Chars(ns[..n]);
      assert ns[..n] + [ns[n]] == ns;
    } else {
      assert Chars(ns) == [];
    }
  }

  /** The text of a number of w bits. */
  function HexString(s: seq<Word>, w: nat): string
    requires 1 <= w <= 64 * |s|
  {
    "0x" + Chars(Nibbles(s, (w + 3) / 4))
  }

  function LowChars(ns: seq<nat>): (cs: string)
    requires Digits(16, ns)
    ensures |cs| == |ns|
  {
    seq(|ns|, i requires 0 <= i < |ns| => HexChar(ns[i]))
  }

  lemma {:induction false} NextChar(s: seq<Word>, n: nat)
    requires n < 16 * |s|
    ensures LowChars(Nibbles(s, n + 1)) == LowChars(Nibbles(s, n)) + [HexChar(WordNibble(s[n / 16], n % 16))]
  {
    hide WordNibble, HexChar;
  }

  /** The digits of all words, least significant first. */
  method LowDigits(values: array<Word>, w: nat) returns (rres: string)
    requires w >= 1 && values.Length == 1 + (w - 1) / 64
    ensures rres == LowChars(Nibbles(values[..], (w + 3) / 4))
  {
    hide WordNibble, HexChar, LowChars, Nibbles;
    var digits := (w + 3) / 4;
    var nn: int := digits;
    rres := [];
    NoChars(values[..]);
    for i := 0 to values.Length
      invariant nn == digits - 16 * i && |rres| == (if nn >= 0 then 16 * i else digits) <= 16 * values.Length
      invariant rres == LowChars(Nibbles(values[..], |rres|))
    {
      var nibs := if nn < 16 then nn else 16;
      for j := 0 to nibs
        invariant |rres| == 16 * i + j <= 16 * values.Length
        invariant rres == LowChars(Nibbles(values[..], |rres|))
      {
        NextChar(values[..], 16 * i + j);
        rres := rres + [HexChar(WordNibble(values[i], j))];
      }
      nn := nn - 16;
    }
  }

  lemma {:induction false} NoChars(s: seq<Word>)
    ensures LowChars(Nibbles(s, 0)) == []
  {
  }

  function Reversed(s: string, n: nat): string
    requires n <= |s|
  {
    seq(n, k requires 0 <= k < n => s[|s| - 1 - k])
  }

  method ToStr(values: array<Word>, w: nat) returns (res: string)
    requires w >= 1 && values.Length == 1 + (w - 1) / 64
    ensures res == HexString(values[..], w)
  {
    var rres := LowDigits(values, w);
    hide Nibbles, HexChar;
    res := "0x";
    assert Reversed(rres, 0) == [];
    for i := 0 to |rres|
      invariant res == "0x" + Reversed(rres, i)
    {
      assert Reversed(rres, i + 1) == Reversed(rres, i) + [rres[|rres| - i - 1]];
      res := res + [rres[|rres| - i - 1]];
    }
    assert Reversed(rres, |rres|) == Chars(Nibbles(values[..], (w + 3) / 4));
  }

  // ----- Round trip -----

  /** The text of a number reads as that number. */
  lemma {:induction false} HexStringValue(s: seq<Word>, w: nat)
    requires 1 <= w <= 64 * |s| && Value(s) < Pow2(w)
    ensures HexValue(HexString(s, w)) == Value(s)
  {
    var ns := Nibbles(s, (w + 3) / 4);
    CharsDigits(ns);
    PrefixDigits(Chars(ns));
    hide HexDigits, Nibbles, Value, Pow2, Chars;
    LowNibbles(s, (w + 3) / 4);
    Pow2Mono(w, 4 * ((w + 3) / 4));
    ModUnique(Value(s), 0, Value(s), Pow2(4 * ((w + 3) / 4)));
    ValSnoc(16, ns, 0);
  }

  /** The prefix reads as one more zero. */
  lemma {:induction false} PrefixDigits(s: string)
    ensures HexDigits("0x" + s) == HexDigits(s) + [0]
  {
    var t := "x" + s;
    assert t[1..] == s && ("0x" + s)[1..] == t;
    assert HexDigits(t) == HexDigits(s);
  }

  /** Printing a number of w bits and reading the text back gives the same words. */
  method StrRoundTrip(values: array<Word>, w: nat) returns (back: array<Word>)
    requires w >= 1 && values.Length == 1 + (w - 1) / 64 && Value(values[..]) < Pow2(w)
    ensures back[..] == values[..]
  {
    hide HexString, HexValue, Value, Limit, Pow2;
    var str := ToStr(values, w);
    back := new Word[values.Length];
    HexStringValue(values[..], w);
    StrToDat(str, back);
    ValueBound(values[..]);
    ModUnique(Value(values[..]), 0, Value(values[..]), Limit(values.Length));
    ValueInjective(back[..], values[..]);
  }
}
