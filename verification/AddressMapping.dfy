/** The seven schemes that split a physical address into channel, rank, bank, row and column. */
module AddressMapping {
  import opened Configuration
  import opened Powers
  import opened Numbers
  import opened Bits

  datatype Location = Location(chan: nat, rank: nat, bank: nat, row: nat, col: nat)

  // ----- Widths -----

  function OffsetWidth(c: Config): nat { CeilLog2(c.busBytes) }

  function BurstWidth(c: Config): nat { CeilLog2(Times(c.busBytes, c.BL)) }

  /** A transaction is wider than one transfer, a row holds at least one transaction, and
      the numbers of ranks and banks are powers of two. */
  predicate GeometryOk(c: Config) {
    && IsPow2(c.numRanks) && IsPow2(c.numBanks)
    && OffsetWidth(c) < BurstWidth(c)
    && BurstWidth(c) - OffsetWidth(c) <= CeilLog2(c.numCols)
  }

  /** Low column bits, fixed by the burst length. */
  function ColLowWidth(c: Config): (w: nat)
    requires GeometryOk(c)
  {
    BurstWidth(c) - OffsetWidth(c)
  }

  /** Bit widths of the five fields. */
  datatype Widths = Widths(chan: nat, rank: nat, bank: nat, row: nat, col: nat)

  function WidthsOf(c: Config): (z: Widths)
    requires GeometryOk(c)
    ensures Pow2(z.rank) == c.numRanks && Pow2(z.bank) == c.numBanks && Pow2(z.col) < c.numCols
  {
    var colBits := CeilLog2(c.numCols);
    var high := colBits - ColLowWidth(c);
    Pow2Mono(high, colBits - 1);
    Widths(CeilLog2(c.numChans), CeilLog2(c.numRanks), CeilLog2(c.numBanks), CeilLog2(c.numRows), high)
  }

  // ----- Five fields, from the lowest bits up -----

  datatype Fields = Fields(f0: nat, f1: nat, f2: nat, f3: nat, f4: nat)

  predicate Fit(f: Fields, w: Fields) {
    f.f0 < Pow2(w.f0) && f.f1 < Pow2(w.f1) && f.f2 < Pow2(w.f2) && f.f3 < Pow2(w.f3) && f.f4 < Pow2(w.f4)
  }

  function Split(a: nat, w: Fields): (f: Fields)
    ensures Fit(f, w)
  {
    var a1 := Shr(a, w.f0);
    var a2 := Shr(a1, w.f1);
    var a3 := Shr(a2, w.f2);
    var a4 := Shr(a3, w.f3);
    Fields(Low(a, w.f0), Low(a1, w.f1), Low(a2, w.f2), Low(a3, w.f3), Low(a4, w.f4))
  }

  /** What is left of a above all five fields. */
  function Above(a: nat, w: Fields): nat {
    Shr(Shr(Shr(Shr(Shr(a, w.f0), w.f1), w.f2), w.f3), w.f4)
  }

  function Join(f: Fields, w: Fields): nat {
    Cat(Cat(Cat(Cat(Cat(0, f.f4, w.f4), f.f3, w.f3), f.f2, w.f2), f.f1, w.f1), f.f0, w.f0)
  }

  lemma {:induction false} SplitJoin(f: Fields, w: Fields)
    requires Fit(f, w)
    ensures Split(Join(f, w), w) == f && Above(Join(f, w), w) == 0
  {
    var a4 := Cat(0, f.f4, w.f4);
    var a3 := Cat(a4, f.f3, w.f3);
    var a2 := Cat(a3, f.f2, w.f2);
    var a1 := Cat(a2, f.f1, w.f1);
    CatParts(0, f.f4, w.f4);
    CatParts(a4, f.f3, w.f3);
    CatParts(a3, f.f2, w.f2);
    CatParts(a2, f.f1, w.f1);
    CatParts(a1, f.f0, w.f0);
  }

  lemma {:induction false} JoinSplit(a: nat, w: Fields)
    requires Above(a, w) == 0
    ensures Join(Split(a, w), w) == a
  {
    var a1 := Shr(a, w.f0);
    var a2 := Shr(a1, w.f1);
    var a3 := Shr(a2, w.f2);
    var a4 := Shr(a3, w.f3);
    CatBack(a4, w.f4);
    CatBack(a3, w.f3);
    CatBack(a2, w.f2);
    CatBack(a1, w.f1);
    CatBack(a, w.f0);
  }

  // ----- The schemes -----

  /** Field widths from the lowest address bits up. */
  function Arrange(scheme: AddressScheme, z: Widths): Fields {
    match scheme
    case Scheme1 => Fields(z.bank, z.col, z.row, z.rank, z.chan)
    case Scheme2 => Fields(z.rank, z.bank, z.col, z.row, z.chan)
    case Scheme3 => Fields(z.row, z.col, z.bank, z.rank, z.chan)
    case Scheme4 => Fields(z.col, z.row, z.bank, z.rank, z.chan)
    case Scheme5 => Fields(z.bank, z.rank, z.col, z.row, z.chan)
    case Scheme6 => Fields(z.col, z.rank, z.bank, z.row, z.chan)
    case Scheme7 => Fields(z.chan, z.bank, z.rank, z.col, z.row)
  }

  function ToLocation(scheme: AddressScheme, f: Fields): Location {
    match scheme
    case Scheme1 => Location(f.f4, f.f3, f.f0, f.f2, f.f1)
    case Scheme2 => Location(f.f4, f.f0, f.f1, f.f3, f.f2)
    case Scheme3 => Location(f.f4, f.f3, f.f2, f.f0, f.f1)
    case Scheme4 => Location(f.f4, f.f3, f.f2, f.f1, f.f0)
    case Scheme5 => Location(f.f4, f.f1, f.f0, f.f3, f.f2)
    case Scheme6 => Location(f.f4, f.f1, f.f2, f.f3, f.f0)
    case Scheme7 => Location(f.f0, f.f2, f.f1, f.f4, f.f3)
  }

  function ToFields(scheme: AddressScheme, l: Location): Fields {
    match scheme
    case Scheme1 => Fields(l.bank, l.col, l.row, l.rank, l.chan)
    case Scheme2 => Fields(l.rank, l.bank, l.col, l.row, l.chan)
    case Scheme3 => Fields(l.row, l.col, l.bank, l.rank, l.chan)
    case Scheme4 => Fields(l.col, l.row, l.bank, l.rank, l.chan)
    case Scheme5 => Fields(l.bank, l.rank, l.col, l.row, l.chan)
    case Scheme6 => Fields(l.col, l.rank, l.bank, l.row, l.chan)
    case Scheme7 => Fields(l.chan, l.bank, l.rank, l.col, l.row)
  }

  predicate InMemory(z: Widths, l: Location) {
    && l.chan < Pow2(z.chan) && l.rank < Pow2(z.rank) && l.bank < Pow2(z.bank)
    && l.row < Pow2(z.row) && l.col < Pow2(z.col)
  }

  lemma {:induction false} FieldsInMemory(scheme: AddressScheme, z: Widths, f: Fields)
    requires Fit(f, Arrange(scheme, z))
    ensures InMemory(z, ToLocation(scheme, f))
  {
    hide Pow2;
  }

  /** The address without its byte offset and low column bits. */
  function BurstNumber(c: Config, addr: nat): nat
    requires GeometryOk(c)
  {
    Shr(Shr(addr, OffsetWidth(c)), ColLowWidth(c))
  }

  /** Where an address is stored. */
  function Locate(c: Config, addr: nat): (l: Location)
    requires GeometryOk(c)
    ensures InMemory(WidthsOf(c), l)
    ensures l.rank < c.numRanks && l.bank < c.numBanks && l.col < c.numCols
  {
    var z := WidthsOf(c);
    var f := Split(BurstNumber(c, addr), Arrange(c.scheme, z));
    FieldsInMemory(c.scheme, z, f);
    ToLocation(c.scheme, f)
  }

  /** The burst-aligned address of a location. */
  function AddressOf(c: Config, l: Location): nat
    requires GeometryOk(c)
  {
    Cat(Join(ToFields(c.scheme, l), Arrange(c.scheme, WidthsOf(c))), 0, BurstWidth(c))
  }

  /** The addresses of the memory: aligned to a burst and with no bits above the fields. */
  predicate Addressable(c: Config, addr: nat)
    requires GeometryOk(c)
  {
    && Low(addr, BurstWidth(c)) == 0
    && Above(Shr(addr, BurstWidth(c)), Arrange(c.scheme, WidthsOf(c))) == 0
  }

  /** Every location has an address of the memory that maps to it. */
  lemma {:induction false} LocateAddressOf(c: Config, l: Location)
    requires GeometryOk(c) && InMemory(WidthsOf(c), l)
    ensures Addressable(c, AddressOf(c, l))
    ensures Locate(c, AddressOf(c, l)) == l
  {
    hide Pow2, CeilLog2, Shr, Low, Cat, Split, Join, Above, WidthsOf, Times;
    var w := Arrange(c.scheme, WidthsOf(c));
    var f := ToFields(c.scheme, l);
    SplitJoin(f, w);
    CatParts(Join(f, w), 0, BurstWidth(c));
    ShrShr(AddressOf(c, l), OffsetWidth(c), ColLowWidth(c));
  }

  /** The location of an address of the memory determines the address. */
  lemma {:induction false} AddressOfLocate(c: Config, addr: nat)
    requires GeometryOk(c) && Addressable(c, addr)
    ensures AddressOf(c, Locate(c, addr)) == addr
  {
    hide Pow2, CeilLog2, Shr, Low, Cat, Split, Join, Above, WidthsOf, Times;
    ShrShr(addr, OffsetWidth(c), ColLowWidth(c));
    JoinSplit(Shr(addr, BurstWidth(c)), Arrange(c.scheme, WidthsOf(c)));
    CatBack(addr, BurstWidth(c));
  }

  // ----- The arithmetic of an address -----

  datatype Place = Place(digit: nat, size: nat)

  /** The number with the given digits, lowest place first, each place of its own size. */
  function Mixed(places: seq<Place>, above: nat): nat {
    if |places| == 0 then above else places[0].digit + places[0].size * Mixed(places[1..], above)
  }

  predicate Proper(places: seq<Place>) { forall i :: 0 <= i < |places| ==> places[i].digit < places[i].size }

  /** The fields of a location in the order of the scheme, lowest first. Columns are counted in
      bursts; numbers of columns, rows and channels that are no powers of two are rounded up. */
  function PlacesOf(c: Config, l: Location): seq<Place>
    requires GeometryOk(c)
  {
    var chan := Place(l.chan, Pow2(CeilLog2(c.numChans)));
    var rank := Place(l.rank, c.numRanks);
    var bank := Place(l.bank, c.numBanks);
    var row := Place(l.row, Pow2(CeilLog2(c.numRows)));
    var col := Place(l.col, Pow2(CeilLog2(c.numCols) - ColLowWidth(c)));
    match c.scheme
    case Scheme1 => [bank, col, row, rank, chan]
    case Scheme2 => [rank, bank, col, row, chan]
    case Scheme3 => [row, col, bank, rank, chan]
    case Scheme4 => [col, row, bank, rank, chan]
    case Scheme5 => [bank, rank, col, row, chan]
    case Scheme6 => [col, rank, bank, row, chan]
    case Scheme7 => [chan, bank, rank, col, row]
  }

  /** The number of the transaction at an address has the fields of l as its lowest digits. */
  ghost predicate WrittenIn(c: Config, addr: nat, l: Location)
    requires GeometryOk(c)
  {
    Proper(PlacesOf(c, l))
    && exists above: nat :: addr / Pow2(BurstWidth(c)) == Mixed(PlacesOf(c, l), above)
  }

  lemma {:induction false} MixedHead(p: Place, ps: seq<Place>, above: nat)
    ensures Mixed([p] + ps, above) == p.digit + p.size * Mixed(ps, above)
  {
    assert ([p] + ps)[1..] == ps;
  }

  lemma {:induction false} MixedFive(p0: Place, p1: Place, p2: Place, p3: Place, p4: Place, above: nat)
    ensures Mixed([p0, p1, p2, p3, p4], above)
            == p0.digit + p0.size * (p1.digit + p1.size * (p2.digit + p2.size * (p3.digit + p3.size * (p4.digit + p4.size * above))))
  {
    assert [p0, p1, p2, p3, p4] == [p0] + [p1, p2, p3, p4] && [p1, p2, p3, p4] == [p1] + [p2, p3, p4];
    assert [p2, p3, p4] == [p2] + [p3, p4] && [p3, p4] == [p3] + [p4] && [p4] == [p4] + [];
    MixedHead(p0, [p1, p2, p3, p4], above);
    MixedHead(p1, [p2, p3, p4], above);
    MixedHead(p2, [p3, p4], above);
    MixedHead(p3, [p4], above);
    MixedHead(p4, [], above);
    assert Mixed([], above) == above;
    hide Mixed;
  }

  lemma {:induction false} SplitMixed(a: nat, w: Fields, f: Fields)
    requires f == Split(a, w)
    ensures Mixed(Placed(f, w), Above(a, w)) == a
  {
    var a1 := Shr(a, w.f0);
    var a2 := Shr(a1, w.f1);
    var a3 := Shr(a2, w.f2);
    var a4 := Shr(a3, w.f3);
    LowAndShr(a, w.f0);
    LowAndShr(a1, w.f1);
    LowAndShr(a2, w.f2);
    LowAndShr(a3, w.f3);
    LowAndShr(a4, w.f4);
    hide Pow2, Shr, Low, Mixed;
    MixedFive(Place(f.f0, Pow2(w.f0)), Place(f.f1, Pow2(w.f1)), Place(f.f2, Pow2(w.f2)), Place(f.f3, Pow2(w.f3)),
              Place(f.f4, Pow2(w.f4)), Above(a, w));
  }

  lemma {:induction false} BurstQuotient(c: Config, addr: nat)
    requires GeometryOk(c)
    ensures BurstNumber(c, addr) == addr / Pow2(BurstWidth(c))
  {
    ShrShr(addr, OffsetWidth(c), ColLowWidth(c));
    var q, r, p := Shr(addr, BurstWidth(c)), Low(addr, BurstWidth(c)), Pow2(BurstWidth(c));
    LowAndShr(addr, BurstWidth(c));
    hide Pow2, Shr, Low, OffsetWidth, BurstWidth;
    assert q * p == p * q;
    ModUnique(addr, q, r, p);
  }

  /** Fields as they are split off, with their sizes. */
  function Placed(f: Fields, w: Fields): seq<Place> {
    [Place(f.f0, Pow2(w.f0)), Place(f.f1, Pow2(w.f1)), Place(f.f2, Pow2(w.f2)), Place(f.f3, Pow2(w.f3)), Place(f.f4, Pow2(w.f4))]
  }

  lemma {:induction false} PlacesInOrder(c: Config, f: Fields)
    requires GeometryOk(c)
    ensures PlacesOf(c, ToLocation(c.scheme, f)) == Placed(f, Arrange(c.scheme, WidthsOf(c)))
  {
    hide Pow2, CeilLog2, Times, GeometryOk;
  }

  lemma {:induction false} FitProper(f: Fields, w: Fields)
    requires Fit(f, w)
    ensures Proper(Placed(f, w))
  {
    hide Pow2;
  }

  /** In each scheme the fields of the location of an address are the digits of its number. */
  lemma {:induction false} LocateWritten(c: Config, addr: nat)
    requires GeometryOk(c)
    ensures WrittenIn(c, addr, Locate(c, addr))
  {
    hide Pow2, CeilLog2, Split, Above, Mixed, Times, BurstNumber, GeometryOk, ToLocation, Arrange, Placed, PlacesOf, Proper;
    var w := Arrange(c.scheme, WidthsOf(c));
    var a := BurstNumber(c, addr);
    var f := Split(a, w);
    BurstQuotient(c, addr);
    SplitMixed(a, w, f);
    FitProper(f, w);
    PlacesInOrder(c, f);
    assert a == Mixed(PlacesOf(c, Locate(c, addr)), Above(a, w));
  }

  /** Digits determine a number's fields: only the location of an address is written in it. */
  lemma {:induction false} WrittenUnique(c: Config, addr: nat, l: Location)
    requires GeometryOk(c) && WrittenIn(c, addr, l)
    ensures l == Locate(c, addr)
  {
    LocateWritten(c, addr);
    var l' := Locate(c, addr);
    var x: nat :| addr / Pow2(BurstWidth(c)) == Mixed(PlacesOf(c, l), x);
    var y: nat :| addr / Pow2(BurstWidth(c)) == Mixed(PlacesOf(c, l'), y);
    SamePlaces(c, l, l');
    hide Mixed, Locate, GeometryOk, PlacesOf, BurstWidth;
    SameDigits(PlacesOf(c, l), x, PlacesOf(c, l'), y);
  }

  lemma {:induction false} SamePlaces(c: Config, l: Location, l': Location)
    requires GeometryOk(c)
    ensures |PlacesOf(c, l)| == |PlacesOf(c, l')|
    ensures forall i :: 0 <= i < |PlacesOf(c, l)| ==> PlacesOf(c, l)[i].size == PlacesOf(c, l')[i].size
    ensures PlacesOf(c, l) == PlacesOf(c, l') ==> l == l'
  {
    hide GeometryOk, Pow2, CeilLog2, ColLowWidth;
    var ps, qs := PlacesOf(c, l), PlacesOf(c, l');
    assert ps == qs ==> ps[0] == qs[0] && ps[1] == qs[1] && ps[2] == qs[2] && ps[3] == qs[3] && ps[4] == qs[4];
  }

  lemma {:induction false} SameDigits(ps: seq<Place>, x: nat, qs: seq<Place>, y: nat)
    requires |ps| == |qs| && Proper(ps) && Proper(qs) && Mixed(ps, x) == Mixed(qs, y)
    requires forall i :: 0 <= i < |ps| ==> ps[i].size == qs[i].size
    ensures ps == qs
  {
    if |ps| > 0 {
      LastDigit(ps[0].size, ps[0].digit, Mixed(ps[1..], x), qs[0].digit, Mixed(qs[1..], y));
      SameDigits(ps[1..], x, qs[1..], y);
      assert ps == [ps[0]] + ps[1..] && qs == [qs[0]] + qs[1..];
    }
  }

  // ----- The mapping as it is computed -----

  /** Shifts the w low bits off an address and recovers them by exclusive or. */
  method TakeField(a: nat, w: nat) returns (field: nat, rest: nat)
    ensures field == Low(a, w) && rest == Shr(a, w)
  {
    rest := Shr(a, w);
    field := Xor(a, Shl(rest, w));
    XorHigh(a, w);
  }

  /** Takes the fields off the address one after the other, in the order of the scheme. */
  method MapAddress(c: Config, addr: nat) returns (chan: nat, rank: nat, bank: nat, row: nat, col: nat)
    requires GeometryOk(c)
    ensures Location(chan, rank, bank, row, col) == Locate(c, addr)
    ensures WrittenIn(c, addr, Location(chan, rank, bank, row, col))
  {
    hide WrittenIn;
    var chanBits := Log2(c.numChans);
    var rankBits := Log2(c.numRanks);
    var bankBits := Log2(c.numBanks);
    var rowBits := Log2(c.numRows);
    var colBits := Log2(c.numCols);
    var offsetBits := Log2(c.busBytes);
    var burstBits := Log2(Times(c.busBytes, c.BL));
    hide Pow2, CeilLog2, Shr, Low, Times;
    var colHighBits := colBits - (burstBits - offsetBits);
    var a := Shr(Shr(addr, offsetBits), burstBits - offsetBits);
    match c.scheme {
      case Scheme1 =>
        bank, a := TakeField(a, bankBits);
        col, a := TakeField(a, colHighBits);
        row, a := TakeField(a, rowBits);
        rank, a := TakeField(a, rankBits);
        chan, a := TakeField(a, chanBits);
      case Scheme2 =>
        rank, a := TakeField(a, rankBits);
        bank, a := TakeField(a, bankBits);
        col, a := TakeField(a, colHighBits);
        row, a := TakeField(a, rowBits);
        chan, a := TakeField(a, chanBits);
      case Scheme3 =>
        row, a := TakeField(a, rowBits);
        col, a := TakeField(a, colHighBits);
        bank, a := TakeField(a, bankBits);
        rank, a := TakeField(a, rankBits);
        chan, a := TakeField(a, chanBits);
      case Scheme4 =>
        col, a := TakeField(a, colHighBits);
        row, a := TakeField(a, rowBits);
        bank, a := TakeField(a, bankBits);
        rank, a := TakeField(a, rankBits);
        chan, a := TakeField(a, chanBits);
      case Scheme5 =>
        bank, a := TakeField(a, bankBits);
        rank, a := TakeField(a, rankBits);
        col, a := TakeField(a, colHighBits);
        row, a := TakeField(a, rowBits);
        chan, a := TakeField(a, chanBits);
      case Scheme6 =>
        col, a := TakeField(a, colHighBits);
        rank, a := TakeField(a, rankBits);
        bank, a := TakeField(a, bankBits);
        row, a := TakeField(a, rowBits);
        chan, a := TakeField(a, chanBits);
      case Scheme7 =>
        chan, a := TakeField(a, chanBits);
        bank, a := TakeField(a, bankBits);
        rank, a := TakeField(a, rankBits);
        col, a := TakeField(a, colHighBits);
        row, a := TakeField(a, rowBits);
    }
    LocateWritten(c, addr);
  }
}
