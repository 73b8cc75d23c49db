/** A run of a configuration that does not space writes to different ranks, up to the
    collision of write data. */
module CollisionExample {
  import opened Configuration
  import opened Packets
  import opened BankTiming
  import opened Scheduling
  import opened Powers
  import opened Bits
  import opened AddressMapping
  import opened MemoryModel
  import opened SystemInvariant
  import opened Runs
  import opened Collisions

  /** Two ranks of one bank, bursts of four cycles, columns accessible right after an ACTIVATE. */
  const Tight := Config(
    1, 2, 1, 1, 8, 1,                        // channels, ranks, banks, rows, columns, bus bytes
    2, 0, 8,                                 // CL, AL, BL
    0, 0, 0, 0, 1,                           // tRAS, tRCD, tRRD, tRC, tRP
    0, 0, 0, 0, 0, 1,                        // tCCD, tRTP, tWTR, tWR, tRTRS, tRFC
    1, 0, 0, 1,                              // tFAW, tCKE, tXP, tCMD
    100, 50, 1, 2, 1,                        // refresh, queue depths, row accesses
    ClosePage, PerRank, RankThenBankRoundRobin, Scheme1, false)

  predicate IsTight(c: Config) { c == Tight }

  lemma {:induction false} TightValid(c: Config)
    requires IsTight(c)
    ensures c.Valid() && !c.WritesSpaced()
  {
    assert Times(c.numRanks, c.refreshStagger) == 100 by { assert Times(1, 50) == 50; }
  }

  lemma {:induction false} TightGeometry(c: Config)
    requires IsTight(c)
    ensures GeometryOk(c) && OffsetWidth(c) == 0 && ColLowWidth(c) == 3 && WidthsOf(c) == Widths(0, 1, 0, 0, 0)
  {
    assert CeilLog2(4) == 2;
    assert CeilLog2(8) == 3;
    assert Times(1, 8) == 8;
  }

  lemma {:induction false} TightScheme(c: Config)
    requires IsTight(c)
    ensures c.scheme.Scheme1?
  {
  }

  lemma {:induction false} SplitBurst(n: nat)
    requires n < 2
    ensures Split(n, Fields(0, 0, 0, 1, 0)) == Fields(0, 0, 0, n, 0)
  {
    assert Shr(n, 0) == n && Low(n, 0) == 0 && Low(n, 1) == n + 2 * Low(n / 2, 0) && Low(n / 2, 0) == 0;
  }

  lemma {:induction false} LocateBurst(c: Config, a: nat, n: nat)
    requires GeometryOk(c) && c.scheme.Scheme1? && OffsetWidth(c) == 0 && ColLowWidth(c) == 3
    requires WidthsOf(c) == Widths(0, 1, 0, 0, 0) && Shr(a, 3) == n < 2
    ensures Locate(c, a) == Location(0, n, 0, 0, 0)
  {
    hide WidthsOf, ColLowWidth, OffsetWidth, GeometryOk, Split;
    assert Shr(a, 0) == a;
    assert BurstNumber(c, a) == n;
    SplitBurst(n);
  }

  /** The bursts at addresses 0 and 8 are in ranks 0 and 1. */
  lemma {:induction false} Places(c: Config, a: nat)
    requires IsTight(c) && (a == 0 || a == 8)
    ensures GeometryOk(c) && Locate(c, a) == Location(0, a / 8, 0, 0, 0)
  {
    hide IsTight;
    TightGeometry(c);
    TightScheme(c);
    hide OffsetWidth, ColLowWidth, WidthsOf, Locate, GeometryOk;
    assert Shr(a, 3) == a / 8 by {
      assert Shr(a, 3) == Shr(a / 2 / 2 / 2, 0);
    }
    LocateBurst(c, a, a / 8);
  }

  lemma {:induction false} PowerSame(c: Config, s: State, r: nat)
    requires PowerReady(c, s) && r < c.numRanks && !c.lowPower
    ensures PowerOf(c, s, r).Ok? && AfterPower(s, r, PowerOf(c, s, r).value) == s
  {
    hide QueueEmpty;
    assert PowerOf(c, s, r) == Ok(Powered(s.ctrl.table[r], s.ctrl.powerDown[r], s.ranks[r]));
    assert s.ctrl.table[r := s.ctrl.table[r]] == s.ctrl.table && s.ranks[r := s.ranks[r]] == s.ranks;
    assert s.ctrl.powerDown[r := s.ctrl.powerDown[r]] == s.ctrl.powerDown;
  }

  /** With power management off no rank changes. */
  lemma {:induction false} PowerOff(c: Config, s: State, n: nat)
    requires PowerReady(c, s) && n <= c.numRanks && !c.lowPower
    ensures PowerPhase(c, s, n) == Ok(s)
  {
    hide PowerPhase, PowerOf, AfterPower, PowerReady;
    if n > 0 {
      PowerOff(c, s, n - 1);
      PowerSame(c, s, n - 1);
      PowerUnfold(c, s, n, s);
    } else {
      PowerNone(c, s);
    }
  }

  // ----- What the scheduler picks -----

  /** The head of the first queue looked at. */
  lemma {:induction false} PicksHere(c: Config, v: View, q: QueueState)
    requires c.Valid() && ViewOk(c, v) && StateOk(c, q) && c.policy.ClosePage? && c.structure.PerRank?
    requires !q.refreshWaiting
    requires var packets := q.queues[q.nextRank][0]; |packets| > 0 && Pickable(c, v, packets, 0)
    ensures Decide(c, v, q) == Decision(Take(q.nextRank, 0, 0, false), Position(q.nextRank, q.nextBank),
                                        Position(q.nextRankPRE, q.nextBankPRE))
  {
  }

  /** The head of the second queue looked at. */
  lemma {:induction false} PicksNext(c: Config, v: View, q: QueueState)
    requires c.Valid() && ViewOk(c, v) && StateOk(c, q) && c.policy.ClosePage? && c.structure.PerRank?
    requires !q.refreshWaiting && c.numRanks == 2 && q.queues[q.nextRank][0] == []
    requires var packets := q.queues[1 - q.nextRank][0]; |packets| > 0 && Pickable(c, v, packets, 0)
    ensures Decide(c, v, q) == Decision(Take(1 - q.nextRank, 0, 0, false), Position(1 - q.nextRank, q.nextBank),
                                        Position(q.nextRankPRE, q.nextBankPRE))
  {
    var start := Position(q.nextRank, q.nextBank);
    var next := StepPos(c, true, start);
    assert !HasPick(c, v, q, start) && HasPick(c, v, q, next);
    assert Scan(c, v, q, start, 2) == Scan(c, v, q, next, 1);
  }

  lemma {:induction false} PicksNothing(c: Config, v: View, q: QueueState)
    requires c.Valid() && ViewOk(c, v) && StateOk(c, q) && c.policy.ClosePage? && c.structure.PerRank?
    requires !q.refreshWaiting && c.numRanks == 2 && q.queues[0][0] == [] && q.queues[1][0] == []
    ensures Decide(c, v, q) == Decision(Nothing, Position(q.nextRank, q.nextBank), Position(q.nextRankPRE, q.nextBankPRE))
  {
    var start := Position(q.nextRank, q.nextBank);
    var next := StepPos(c, true, start);
    assert !HasPick(c, v, q, start) && !HasPick(c, v, q, next);
    assert Scan(c, v, q, start, 2) == Scan(c, v, q, next, 1);
  }

  // ----- States of two ranks of one bank, with no reads -----

  /** The parts of a state that change in the run. */
  datatype Snap = Snap(
    m0: BankState, m1: BankState,            // the controller's table
    q0: seq<BusPacket>, q1: seq<BusPacket>, next: nat, f0: seq<nat>, f1: seq<nat>,
    ts: seq<Transaction>, a: nat, b: nat,    // transactions and refresh counters
    cmd: Option<BusPacket>, data: Option<Timed>, writes: seq<Timed>,
    k0: BankState, k1: BankState)            // the tables of the ranks

  function QueueOf(z: Snap): QueueState {
    QueueState([[z.q0], [z.q1]], z.next, 0, 0, 0, 0, false, [z.f0, z.f1], [[0], [0]], true)
  }

  function RankOf(k: BankState): RankState { RankState([k], [map[]], false, false, [], None) }

  function At(t: nat, z: Snap, log: History): State {
    State(t,
          Controller([[z.m0], [z.m1]], QueueOf(z), z.ts, [], [], [z.a, z.b], 0, [false, false],
                     if z.cmd.Some? then Some(Timed(z.cmd.value, 1)) else None, z.data, z.writes),
          [RankOf(z.k0), RankOf(z.k1)], [], log)
  }

  lemma {:induction false} QuietRanks(c: Config, t: nat, z: Snap, log: History)
    ensures RanksPhase(c, At(t, z, log)) == At(t, z, log)
  {
    var s := At(t, z, log);
    NoArrivals(s.ranks);
    assert Countdown([]) == [];
    assert RankUpdate(c, s.ranks[0]) == s.ranks[0] && RankUpdate(c, s.ranks[1]) == s.ranks[1];
    assert RanksPhase(c, s).ranks == s.ranks;
  }

  lemma {:induction false} Ticks(c: Config, t: nat, z: Snap, log: History)
    ensures TickPhase(c, At(t, z, log)) == At(t, z.(m0 := TickBank(c, z.m0), m1 := TickBank(c, z.m1)), log)
  {
    hide TickBank;
    var table := TickTable(c, [[z.m0], [z.m1]]);
    assert table[0] == [TickBank(c, z.m0)] && table[1] == [TickBank(c, z.m1)];
    assert table == [[TickBank(c, z.m0)], [TickBank(c, z.m1)]];
  }

  /** The command on the bus arrives at its rank. */
  function Delivered(c: Config, t: nat, z: Snap): Snap {
    if z.cmd.None? then z
    else if z.cmd.value.rank == 0 then z.(cmd := None, k0 := RankBank(c, z.cmd.value, t, 0, z.k0))
    else z.(cmd := None, k1 := RankBank(c, z.cmd.value, t, 0, z.k1))
  }

  lemma {:induction false} Delivers(c: Config, t: nat, z: Snap, log: History)
    requires z.cmd.Some? ==>
               && z.cmd.value.rank < 2 && (z.cmd.value.kind.Activate? || z.cmd.value.kind.IsWrite())
               && RankAllows(z.cmd.value, t, [if z.cmd.value.rank == 0 then z.k0 else z.k1])
    ensures CommandPhase(c, At(t, z, log)) == Ok(At(t, Delivered(c, t, z), log))
  {
    hide RankBank, RankAllows;
    if z.cmd.Some? {
      var p := z.cmd.value;
      var k := if p.rank == 0 then z.k0 else z.k1;
      assert RankTable(c, p, t, [k]) == [RankBank(c, p, t, 0, k)];
      var ranks := [RankOf(z.k0), RankOf(z.k1)];
      var k' := RankOf(RankBank(c, p, t, 0, k));
      assert RankReceive(c, RankOf(k), p, t) == Ok(k');
      assert ranks[p.rank := k'] == if p.rank == 0 then [k', RankOf(z.k1)] else [RankOf(z.k0), k'];
    }
  }

  /** A burst on the data bus goes on; data whose time has come starts one. */
  lemma {:induction false} Bursts(c: Config, t: nat, z: Snap, log: History)
    requires z.cmd.None? && (z.data.Some? ==> z.data.value.left > 1 && z.writes == [])
    requires z.writes != [] ==> |z.writes| == 1 && z.writes[0].left == 1
    ensures var data := if z.data.Some? then Some(Timed(z.data.value.packet, z.data.value.left - 1))
                        else if z.writes != [] then Some(Timed(z.writes[0].packet, c.BL / 2)) else None;
            && DataPhase(c, At(t, z, log)) == Ok(At(t, z.(data := BusTick(z.data)), log))
            && WritePhase(c, At(t, z.(data := BusTick(z.data)), log)) == Ok(At(t, z.(data := data, writes := []), log))
  {
    if z.writes == [] {
      assert Countdown([]) == [];
    } else {
      assert Countdown(z.writes) == [Timed(z.writes[0].packet, 0)];
      assert Countdown(z.writes)[1..] == [];
    }
  }

  /** The first half of a cycle. */
  lemma {:induction false} FirstPart(c: Config, t: nat, z: Snap, log: History, y: Snap)
    requires var x := z.(m0 := TickBank(c, z.m0), m1 := TickBank(c, z.m1));
             && (x.cmd.Some? ==>
                   && x.cmd.value.rank < 2 && (x.cmd.value.kind.Activate? || x.cmd.value.kind.IsWrite())
                   && RankAllows(x.cmd.value, t, [if x.cmd.value.rank == 0 then x.k0 else x.k1]))
             && y == Delivered(c, t, x)
    requires (y.data.Some? ==> y.data.value.left > 1 && y.writes == [])
             && (y.writes != [] ==> |y.writes| == 1 && y.writes[0].left == 1)
    ensures var data := if y.data.Some? then Some(Timed(y.data.value.packet, y.data.value.left - 1))
                        else if y.writes != [] then Some(Timed(y.writes[0].packet, c.BL / 2)) else None;
            FirstHalf(c, At(t, z, log)) == Ok(At(t, y.(data := data, writes := []), log))
  {
    hide At, TickBank, RanksPhase, TickPhase, CommandPhase, DataPhase, WritePhase, RankAllows;
    QuietRanks(c, t, z, log);
    NotWaiting(c, t, z, log);
    Ticks(c, t, z, log);
    var x := z.(m0 := TickBank(c, z.m0), m1 := TickBank(c, z.m1));
    Delivers(c, t, x, log);
    Bursts(c, t, y, log);
  }

  lemma {:induction false} NotWaiting(c: Config, t: nat, z: Snap, log: History)
    ensures AdmitPhase(c, At(t, z, log)) == At(t, z, log)
  {
  }

  // ----- The second half -----

  /** What the scheduler needs to know of the configuration. */
  predicate Small(c: Config) {
    && c.Valid() && c.numRanks == 2 && c.numBanks == 1 && c.AL == 0 && c.tCMD == 1 && !c.lowPower && c.cmdQueueDepth == 2
    && c.structure.PerRank? && c.policy.ClosePage? && c.scheduling.RankThenBankRoundRobin?
  }

  predicate QueueFine(c: Config, r: nat, q: seq<BusPacket>) {
    forall i :: 0 <= i < |q| ==> PacketOk(c, r, 0, q[i])
  }

  predicate Fine(c: Config, z: Snap) { Small(c) && z.next < 2 && QueueFine(c, 0, z.q0) && QueueFine(c, 1, z.q1) }

  lemma {:induction false} FineReady(c: Config, t: nat, z: Snap, log: History)
    requires Fine(c, z)
    ensures PopReady(c, At(t, z, log)) && PowerReady(c, At(t, z, log)) && RefreshReady(c, At(t, z, log))
  {
  }

  function AgedSnap(z: Snap): Snap { z.(f0 := Aged(z.f0), f1 := Aged(z.f1)) }

  function Window(c: Config, p: BusPacket, r: nat, w: seq<nat>): seq<nat> {
    if p.kind.Activate? && p.rank == r then w + [c.tFAW] else w
  }

  /** The state after p, the head of its rank's queue, is popped. */
  function PoppedSnap(c: Config, t: nat, z: Snap, p: BusPacket): Snap {
    z.(m0 := IssueBank(c, p, t, 0, 0, z.m0), m1 := IssueBank(c, p, t, 1, 0, z.m1),
       q0 := if p.rank == 0 && |z.q0| > 0 then z.q0[1..] else z.q0,
       q1 := if p.rank != 0 && |z.q1| > 0 then z.q1[1..] else z.q1,
       next := if p.rank == 0 then 1 else 0,
       f0 := Window(c, p, 0, Aged(z.f0)), f1 := Window(c, p, 1, Aged(z.f1)),
       cmd := Some(p), writes := if p.kind.IsWrite() then z.writes + [Timed(DataPacket(p), c.WL())] else z.writes)
  }

  predicate Issues(c: Config, t: nat, z: Snap, p: BusPacket) {
    && Fine(c, z) && p.rank < 2 && p.bank == 0
    && (var q := if p.rank == 0 then z.q0 else z.q1;
        |q| > 0 && q[0] == p)
    && (z.next != p.rank ==> (if p.rank == 0 then z.q1 else z.q0) == [])
    && Issuable(c, View([[z.m0], [z.m1]], [[0], [0]], [Aged(z.f0), Aged(z.f1)], t), p)
  }

  lemma {:induction false} Decides(c: Config, t: nat, z: Snap, p: BusPacket)
    requires Issues(c, t, z, p)
    ensures var q := QueueOf(AgedSnap(z));
            var v := ViewOf(q, [[z.m0], [z.m1]], t);
            && ViewOk(c, v) && StateOk(c, q)
            && Decide(c, v, q) == Decision(Take(p.rank, 0, 0, false), Position(p.rank, 0), Position(0, 0))
  {
    hide Decide, Issuable, Aged;
    var q := QueueOf(AgedSnap(z));
    var v := ViewOf(q, [[z.m0], [z.m1]], t);
    assert StateOk(c, q);
    if z.next == p.rank { PicksHere(c, v, q); } else { PicksNext(c, v, q); }
  }

  lemma {:induction false} Takes(c: Config, z: Snap, p: BusPacket, d: Decision)
    requires Fine(c, z) && p.rank < 2 && p.bank == 0 && StateOk(c, QueueOf(z))
    requires var q := if p.rank == 0 then z.q0 else z.q1; |q| > 0 && q[0] == p
    requires d == Decision(Take(p.rank, 0, 0, false), Position(p.rank, 0), Position(0, 0))
    ensures Commit(c, QueueOf(z), d) ==
            Popped(QueueOf(z.(q0 := if p.rank == 0 then z.q0[1..] else z.q0, q1 := if p.rank != 0 then z.q1[1..] else z.q1,
                              next := if p.rank == 0 then 1 else 0,
                              f0 := Window(c, p, 0, z.f0), f1 := Window(c, p, 1, z.f1))), Some(p))
  {
    var q := if p.rank == 0 then z.q0 else z.q1;
    assert Without(q, 0, false) == q[1..];
    assert [z.q0][0 := q[1..]] == [q[1..]] && [z.q1][0 := q[1..]] == [q[1..]];
    var queues := Update2([[z.q0], [z.q1]], p.rank, 0, q[1..]);
    assert queues == if p.rank == 0 then [[q[1..]], [z.q1]] else [[z.q0], [q[1..]]];
    assert FawAfter(c, [z.f0, z.f1], Some(p)) == [Window(c, p, 0, z.f0), Window(c, p, 1, z.f1)];
  }

  lemma {:induction false} IssuesTable(c: Config, p: BusPacket, t: nat, m: BankState, n: BankState)
    ensures IssueTable(c, p, t, [[m], [n]]) == [[IssueBank(c, p, t, 0, 0, m)], [IssueBank(c, p, t, 1, 0, n)]]
  {
    hide IssueBank;
    var table := IssueTable(c, p, t, [[m], [n]]);
    assert table[0] == [IssueBank(c, p, t, 0, 0, m)] && table[1] == [IssueBank(c, p, t, 1, 0, n)];
  }

  lemma {:induction false} Pops(c: Config, t: nat, z: Snap, log: History, p: BusPacket)
    requires Issues(c, t, z, p) && z.cmd.None?
    ensures PopReady(c, At(t, z, log))
    ensures PopPhase(c, At(t, z, log))
         == Ok(At(t, PoppedSnap(c, t, z, p), log.(issued := log.issued + [Issue(t, p)])))
  {
    FineReady(c, t, z, log);
    Decides(c, t, z, p);
    assert AgedAll([z.f0, z.f1]) == [Aged(z.f0), Aged(z.f1)];
    IssuesTable(c, p, t, z.m0, z.m1);
    hide Decide, Issuable, Aged, IssueBank, IssueTable, AgedAll, Commit, StateOk, Window;
    Takes(c, AgedSnap(z), p, Decision(Take(p.rank, 0, 0, false), Position(p.rank, 0), Position(0, 0)));
  }

  lemma {:induction false} PopsNothing(c: Config, t: nat, z: Snap, log: History)
    requires Fine(c, z) && z.q0 == [] && z.q1 == []
    ensures PopReady(c, At(t, z, log)) && PopPhase(c, At(t, z, log)) == Ok(At(t, AgedSnap(z), log))
  {
    FineReady(c, t, z, log);
    hide Decide, Aged;
    assert AgedAll([z.f0, z.f1]) == [Aged(z.f0), Aged(z.f1)];
    var q := QueueOf(AgedSnap(z));
    PicksNothing(c, ViewOf(q, [[z.m0], [z.m1]], t), q);
  }

  function SplitSnap(c: Config, z: Snap): Snap
    requires GeometryOk(c)
  {
    if |z.ts| != 1 then z
    else
      var pair := [ActivatePacket(c, z.ts[0]), ColumnPacket(c, z.ts[0])];
      if Locate(c, z.ts[0].addr).rank == 0 then z.(q0 := pair, ts := []) else z.(q1 := pair, ts := [])
  }

  /** The only transaction, a write, goes to an empty queue. */
  lemma {:induction false} Splits(c: Config, t: nat, z: Snap, log: History)
    requires Fine(c, z) && GeometryOk(c)
    requires z.ts == [] || (|z.ts| == 1 && z.ts[0].isWrite
                            && (if Locate(c, z.ts[0].addr).rank == 0 then z.q0 else z.q1) == [])
    ensures SplitReady(c, At(t, z, log)) && SplitPhase(c, At(t, z, log)) == Ok(At(t, SplitSnap(c, z), log))
  {
    FineReady(c, t, z, log);
    hide Locate, GeometryOk, ActivatePacket, ColumnPacket;
    var queues := [[z.q0], [z.q1]];
    if z.ts != [] {
      var w := z.ts[0];
      assert z.ts == [w];
      var pair := [ActivatePacket(c, w), ColumnPacket(c, w)];
      assert FirstWithRoom(c, queues, [w], 0) == 0;
      assert RemoveAt([w], 0) == [];
      assert [] + pair == pair;
      assert [z.q0][0 := pair] == [pair] && [z.q1][0 := pair] == [pair];
      assert Update2(queues, 0, 0, pair) == [[pair], [z.q1]] && Update2(queues, 1, 0, pair) == [[z.q0], [pair]];
    }
  }

  lemma {:induction false} Ends(c: Config, t: nat, z: Snap, log: History)
    requires Fine(c, z)
    ensures PowerReady(c, At(t, z, log)) && PowerPhase(c, At(t, z, log), 2) == Ok(At(t, z, log))
    ensures ClockPhase(ReturnPhase(At(t, z, log))) == At(t + 1, z.(a := Dec(z.a), b := Dec(z.b)), log)
  {
    FineReady(c, t, z, log);
    PowerOff(c, At(t, z, log), 2);
    assert AllDecremented([z.a, z.b]) == [Dec(z.a), Dec(z.b)];
  }

  lemma {:induction false} SecondPart(c: Config, t: nat, z: Snap, log: History, y: Snap, log': History)
    requires Fine(c, z) && z.a > 0 && PopReady(c, At(t, z, log)) && PopPhase(c, At(t, z, log)) == Ok(At(t, y, log'))
    requires Fine(c, y) && GeometryOk(c) && Fine(c, SplitSnap(c, y))
    requires y.ts == [] || (|y.ts| == 1 && y.ts[0].isWrite
                            && (if Locate(c, y.ts[0].addr).rank == 0 then y.q0 else y.q1) == [])
    ensures var x := SplitSnap(c, y);
            SecondHalf(c, At(t, z, log)) == Ok(At(t + 1, x.(a := Dec(x.a), b := Dec(x.b)), log'))
  {
    FineReady(c, t, z, log);
    assert RefreshPhase(c, At(t, z, log)) == At(t, z, log);
    hide PopPhase, SplitPhase, PowerPhase, At, GeometryOk, Fine, SplitSnap, PopReady, SplitReady, PowerReady, RefreshReady;
    Splits(c, t, y, log');
    Ends(c, t, SplitSnap(c, y), log');
  }

  // ----- The run -----

  function Bank(mode: BankMode, read: int, write: int, activate: int, precharge: int, last: PacketKind, left: nat): BankState {
    BankState(mode, 0, read, write, activate, precharge, 0, last, left)
  }

  lemma {:induction false} AgesEmpty(w: seq<nat>)
    requires w == []
    ensures Aged(w) == []
  {
  }

  lemma {:induction false} AgesOne(w: seq<nat>)
    requires w == [1]
    ensures Aged(w) == []
  {
    assert seq(|w|, j requires 0 <= j < |w| => Dec(w[j])) == [0];
  }

  /** The parts after the first half of a cycle. */
  function FirstSnap(c: Config, t: nat, z: Snap): Snap {
    var y := Delivered(c, t, z.(m0 := TickBank(c, z.m0), m1 := TickBank(c, z.m1)));
    y.(data := if y.data.Some? then Some(Timed(y.data.value.packet, Dec(y.data.value.left)))
               else if y.writes != [] then Some(Timed(y.writes[0].packet, c.BL / 2)) else None,
       writes := [])
  }

  predicate FirstOk(t: nat, z: Snap) {
    && (z.cmd.Some? ==>
          && z.cmd.value.rank < 2 && (z.cmd.value.kind.Activate? || z.cmd.value.kind.IsWrite())
          && RankAllows(z.cmd.value, t, [if z.cmd.value.rank == 0 then z.k0 else z.k1]))
    && (z.data.Some? ==> z.data.value.left > 1 && z.writes == [])
    && (z.writes != [] ==> |z.writes| == 1 && z.writes[0].left == 1)
  }

  predicate SplitOk(c: Config, y: Snap) {
    && GeometryOk(c)
    && (y.ts == [] || (|y.ts| == 1 && y.ts[0].isWrite
                       && (if Locate(c, y.ts[0].addr).rank == 0 then y.q0 else y.q1) == []))
  }

  /** A cycle in which p is popped. */
  lemma {:induction false} Cycles(c: Config, t: nat, z: Snap, log: History, p: BusPacket, x: Snap, y: Snap, w: Snap)
    requires FirstOk(t, z) && x == FirstSnap(c, t, z) && Issues(c, t, x, p) && x.a > 0
    requires y == PoppedSnap(c, t, x, p) && Fine(c, y) && SplitOk(c, y) && w == SplitSnap(c, y) && Fine(c, w)
    ensures Cycle(c, At(t, z, log))
         == Ok(At(t + 1, w.(a := Dec(w.a), b := Dec(w.b)), log.(issued := log.issued + [Issue(t, p)])))
  {
    hide GeometryOk, Locate, FirstHalf, SecondHalf, PopPhase, At, Aged, Issuable, RankAllows, RankBank, TickBank, IssueBank, Fine, SplitSnap, PoppedSnap, PopReady;
    FirstPart(c, t, z, log, Delivered(c, t, z.(m0 := TickBank(c, z.m0), m1 := TickBank(c, z.m1))));
    assert x.cmd.None?;
    Pops(c, t, x, log, p);
    IssuesFine(c, t, x, p);
    SecondPart(c, t, x, log, y, log.(issued := log.issued + [Issue(t, p)]));
  }

  lemma {:induction false} IssuesFine(c: Config, t: nat, z: Snap, p: BusPacket)
    requires Issues(c, t, z, p)
    ensures Fine(c, z)
  {
  }

  // ----- Banks -----

  /** The times of the configuration: bursts of four cycles, a write latency of one, a cycle to
      precharge, and no other waiting. */
  predicate Hasty(c: Config) {
    && c.CL == 2 && c.AL == 0 && c.BL == 8 && c.tRAS == 0 && c.tRCD == 0 && c.tRRD == 0 && c.tRC == 0 && c.tRP == 1
    && c.tCCD == 0 && c.tWTR == 0 && c.tWR == 0 && c.tRTRS == 0 && c.tFAW == 1
  }

  lemma {:induction false} ActivateBank(c: Config, p: BusPacket, t: nat, m: BankState)
    requires Hasty(c) && p.kind.Activate? && p.row == 0 && p.bank == 0
    requires m == FreshBank
    ensures IssueBank(c, p, t, p.rank, 0, m) == Bank(RowActive, t, t, t, t, Activate, 0)
    ensures RankBank(c, p, t, 0, m) == Bank(RowActive, t, t, t, t, Read, 0)
    ensures forall r, n: BankState :: r != p.rank ==> IssueBank(c, p, t, r, 0, n) == n
  {
  }

  lemma {:induction false} WriteBank(c: Config, p: BusPacket, t: nat, m: BankState, k: BankState)
    requires Hasty(c) && p.kind.WriteP? && p.bank == 0 && t > 0
    requires m == Bank(RowActive, t - 1, t - 1, t - 1, t - 1, Activate, 0)
    requires k == Bank(RowActive, t, t, t, t, Read, 0)
    ensures IssueBank(c, p, t, p.rank, 0, m) == Bank(RowActive, t + 6, t + 6, t + 6, t - 1, WriteP, 5)
    ensures RankBank(c, p, t + 1, 0, k) == Bank(Idle, t + 6, t + 5, t + 7, t, Read, 0)
    ensures forall r :: r != p.rank ==> IssueBank(c, p, t, r, 0, FreshBank) == FreshBank
  {
  }

  // ----- The cycles -----

  predicate Env(c: Config) { Small(c) && Hasty(c) && GeometryOk(c) }

  /** a and w are the commands of write t, for rank r. */
  predicate CommandsOf(c: Config, t: Transaction, r: nat, a: BusPacket, w: BusPacket) {
    && GeometryOk(c) && t.isWrite && Locate(c, t.addr).rank == r && ActivatePacket(c, t) == a && ColumnPacket(c, t) == w
    && PacketOk(c, r, 0, a) && PacketOk(c, r, 0, w)
    && a.kind.Activate? && w.kind.WriteP? && a.rank == w.rank == r && a.bank == w.bank == a.row == w.row == 0
  }

  /** The first transaction's commands are queued. */
  lemma {:induction false} Cycle0(c: Config, z: Snap, log: History, t: Transaction, a: BusPacket, w: BusPacket)
    requires Env(c) && CommandsOf(c, t, 0, a, w)
    requires z == Snap(FreshBank, FreshBank, [], [], 0, [], [], [t], 50, 100, None, None, [], FreshBank, FreshBank)
    ensures Cycle(c, At(0, z, log)) == Ok(At(1, z.(q0 := [a, w], ts := [], a := 49, b := 99), log))
  {
    hide GeometryOk, Locate, ActivatePacket, ColumnPacket, FirstHalf, SecondHalf, PopPhase, At, Hasty;
    FirstPart(c, 0, z, log, z);
    AgesEmpty(z.f0);
    PopsNothing(c, 0, z, log);
    SecondPart(c, 0, z, log, z, log);
  }

  /** The first ACTIVATE is popped. */
  lemma {:induction false} Cycle1(c: Config, z: Snap, log: History, t: Transaction, a: BusPacket, w: BusPacket)
    requires Env(c) && CommandsOf(c, t, 0, a, w)
    requires z == Snap(FreshBank, FreshBank, [a, w], [], 0, [], [], [], 49, 99, None, None, [], FreshBank, FreshBank)
    ensures Cycle(c, At(1, z, log))
         == Ok(At(2, z.(m0 := Bank(RowActive, 1, 1, 1, 1, Activate, 0), q0 := [w], next := 1, f0 := [1],
                        a := 48, b := 98, cmd := Some(a)),
                  log.(issued := log.issued + [Issue(1, a)])))
  {
    hide GeometryOk, Locate, ActivatePacket, ColumnPacket, At, Aged, Cycle;
    AgesEmpty(z.f0);
    ActivateBank(c, a, 1, FreshBank);
    hide IssueBank, RankBank;
    assert FirstSnap(c, 1, z) == z;
    var y := PoppedSnap(c, 1, z, a);
    assert y.q0 == [w] && y.f0 == [1];
    Cycles(c, 1, z, log, a, z, y, y);
  }

  /** The first write is popped, and the second transaction's commands are queued. */
  lemma {:induction false} Cycle2(c: Config, z: Snap, log: History, t: Transaction, a: BusPacket, w: BusPacket,
                                  t': Transaction, a': BusPacket, w': BusPacket)
    requires Env(c) && CommandsOf(c, t, 0, a, w) && CommandsOf(c, t', 1, a', w')
    requires z == Snap(Bank(RowActive, 1, 1, 1, 1, Activate, 0), FreshBank, [w], [], 1, [1], [], [t'], 48, 98,
                       Some(a), None, [], FreshBank, FreshBank)
    ensures Cycle(c, At(2, z, log))
         == Ok(At(3, z.(m0 := Bank(RowActive, 8, 8, 8, 1, WriteP, 5), q0 := [], q1 := [a', w'], f0 := [],
                        ts := [], a := 47, b := 97, cmd := Some(w), writes := [Timed(DataPacket(w), 1)],
                        k0 := Bank(RowActive, 2, 2, 2, 2, Read, 0)),
                  log.(issued := log.issued + [Issue(2, w)])))
  {
    hide GeometryOk, Locate, ActivatePacket, ColumnPacket, At, Aged, Cycle;
    AgesOne(z.f0);
    AgesEmpty(z.f1);
    ActivateBank(c, a, 2, FreshBank);
    WriteBank(c, w, 2, z.m0, Bank(RowActive, 2, 2, 2, 2, Read, 0));
    hide IssueBank, RankBank;
    var x := z.(cmd := None, k0 := Bank(RowActive, 2, 2, 2, 2, Read, 0));
    assert FirstSnap(c, 2, z) == x;
    var y := PoppedSnap(c, 2, x, w);
    assert y.q0 == [] && y.writes == [Timed(DataPacket(w), 1)];
    Cycles(c, 2, z, log, w, x, y, y.(q1 := [a', w'], ts := []));
  }

  /** The first burst starts, and the second ACTIVATE is popped. */
  lemma {:induction false} Cycle3(c: Config, z: Snap, log: History, t: Transaction, a: BusPacket, w: BusPacket,
                                  t': Transaction, a': BusPacket, w': BusPacket)
    requires Env(c) && CommandsOf(c, t, 0, a, w) && CommandsOf(c, t', 1, a', w')
    requires z == Snap(Bank(RowActive, 8, 8, 8, 1, WriteP, 5), FreshBank, [], [a', w'], 1, [], [], [], 47, 97,
                       Some(w), None, [Timed(DataPacket(w), 1)], Bank(RowActive, 2, 2, 2, 2, Read, 0), FreshBank)
    ensures Cycle(c, At(3, z, log))
         == Ok(At(4, z.(m0 := Bank(RowActive, 8, 8, 8, 1, WriteP, 4), m1 := Bank(RowActive, 3, 3, 3, 3, Activate, 0),
                        q1 := [w'], next := 0, f1 := [1], a := 46, b := 96, cmd := Some(a'),
                        data := Some(Timed(DataPacket(w), 4)), writes := [], k0 := Bank(Idle, 8, 7, 9, 2, Read, 0)),
                  log.(issued := log.issued + [Issue(3, a')])))
  {
    hide GeometryOk, Locate, ActivatePacket, ColumnPacket, At, Aged, Cycle;
    AgesEmpty(z.f0);
    ActivateBank(c, a', 3, FreshBank);
    WriteBank(c, w, 2, Bank(RowActive, 1, 1, 1, 1, Activate, 0), z.k0);
    hide IssueBank, RankBank;
    var x := z.(m0 := Bank(RowActive, 8, 8, 8, 1, WriteP, 4), cmd := None, k0 := Bank(Idle, 8, 7, 9, 2, Read, 0),
                data := Some(Timed(DataPacket(w), 4)), writes := []);
    assert FirstSnap(c, 3, z) == x;
    var y := PoppedSnap(c, 3, x, a');
    assert y.q1 == [w'] && y.f1 == [1];
    Cycles(c, 3, z, log, a', x, y, y);
  }

  /** The second write is popped. */
  lemma {:induction false} Cycle4(c: Config, z: Snap, log: History, t: Transaction, a: BusPacket, w: BusPacket,
                                  t': Transaction, a': BusPacket, w': BusPacket)
    requires Env(c) && CommandsOf(c, t, 0, a, w) && CommandsOf(c, t', 1, a', w')
    requires z == Snap(Bank(RowActive, 8, 8, 8, 1, WriteP, 4), Bank(RowActive, 3, 3, 3, 3, Activate, 0), [], [w'], 0, [], [1],
                       [], 46, 96, Some(a'), Some(Timed(DataPacket(w), 4)), [],
                       Bank(Idle, 8, 7, 9, 2, Read, 0), FreshBank)
    ensures Cycle(c, At(4, z, log)).Ok?
    ensures var s := Cycle(c, At(4, z, log)).value;
            s.clock == 5 && s.log == log.(issued := log.issued + [Issue(4, w')])
  {
    hide GeometryOk, Locate, ActivatePacket, ColumnPacket, Aged, Cycle;
    AgesOne(z.f1);
    AgesEmpty(z.f0);
    ActivateBank(c, a', 4, FreshBank);
    hide IssueBank, RankBank;
    var x := z.(m0 := Bank(RowActive, 8, 8, 8, 1, WriteP, 3), cmd := None, k1 := Bank(RowActive, 4, 4, 4, 4, Read, 0),
                data := Some(Timed(DataPacket(w), 3)));
    assert FirstSnap(c, 4, z) == x;
    var y := PoppedSnap(c, 4, x, w');
    assert y.q1 == [];
    Cycles(c, 4, z, log, w', x, y, y);
  }

  // ----- The run -----

  lemma {:induction false} Start(c: Config)
    requires IsTight(c)
    ensures c.Valid() && c.transQueueDepth == 1
    ensures Init(c) == At(0, Snap(FreshBank, FreshBank, [], [], 0, [], [], [], 50, 100, None, None, [], FreshBank, FreshBank),
                          History([], [], [], [], [], []))
  {
    TightValid(c);
    assert Times(1, 50) == 50 && Times(2, 50) == 100;
    assert InitRank(c) == RankOf(FreshBank) by {
      assert InitRank(c).table == [FreshBank] && InitRank(c).storage == [map[]];
    }
    assert Init(c).ranks == [RankOf(FreshBank), RankOf(FreshBank)];
    var queue := InitQueue(c);
    assert queue.queues[0] == [[]] && queue.queues[1] == [[]] && queue.counters[0] == [0] && queue.counters[1] == [0];
    assert queue.queues == [[[]], [[]]] && queue.counters == [[0], [0]] && queue.faw == [[], []];
    var ctrl := InitController(c);
    assert ctrl.table[0] == [FreshBank] && ctrl.table[1] == [FreshBank];
    assert ctrl.table == [[FreshBank], [FreshBank]] && ctrl.powerDown == [false, false];
    assert ctrl.refreshCountdown == [50, 100];
  }

  lemma {:induction false} Accepts(c: Config, t: nat, z: Snap, log: History, w: Transaction, id: nat)
    requires z.ts == [] && c.transQueueDepth == 1 && |log.accepted| == id
    ensures Submit(c, At(t, z, log), w) == At(t, z.(ts := [w.(id := id)]), log.(accepted := log.accepted + [w.(id := id)]))
  {
    assert [] + [w.(id := id)] == [w.(id := id)];
  }

  lemma {:induction false} Continues(c: Config, events: seq<Event>, e: Event, s: State)
    requires c.Valid() && Run(c, events) == Ok(s)
    ensures Run(c, events + [e]) == Happen(c, s, e)
  {
    hide Happen;
    assert (events + [e])[..|events|] == events;
  }

  lemma {:induction false} ClockTicks(c: Config, events: seq<Event>, s: State, s': State)
    requires c.Valid() && Run(c, events) == Ok(s) && Cycle(c, s) == Ok(s')
    ensures Run(c, events + [Clock]) == Ok(s')
  {
    hide Run, Cycle;
    Continues(c, events, Clock, s);
  }

  lemma {:induction false} Requested(c: Config, events: seq<Event>, s: State, t: Transaction)
    requires c.Valid() && Run(c, events) == Ok(s)
    ensures Run(c, events + [Request(t)]) == Ok(Submit(c, s, t))
  {
    hide Run, Submit;
    Continues(c, events, Request(t), s);
  }

  /** Up to the acceptance of the second transaction. */
  lemma {:induction false} TwoCycles(c: Config, z: Snap, log: History, t: Transaction, a: BusPacket, w: BusPacket, t': Transaction)
    returns (events: seq<Event>)
    requires c.Valid() && Env(c) && CommandsOf(c, t, 0, a, w) && t.id == 0 && t'.id == 1 && c.transQueueDepth == 1
    requires z == Snap(FreshBank, FreshBank, [], [], 0, [], [], [], 50, 100, None, None, [], FreshBank, FreshBank)
    requires |log.accepted| == 0 && Run(c, []) == Ok(At(0, z, log))
    ensures Run(c, events)
         == Ok(At(2, z.(m0 := Bank(RowActive, 1, 1, 1, 1, Activate, 0), q0 := [w], next := 1, f0 := [1], ts := [t'],
                        a := 48, b := 98, cmd := Some(a)),
                  log.(accepted := log.accepted + [t] + [t'], issued := log.issued + [Issue(1, a)])))
  {
    hide Run, At, Cycle, Submit, CommandsOf, Env;
    var log1 := log.(accepted := log.accepted + [t]);
    var log2 := log1.(issued := log.issued + [Issue(1, a)]);
    var z1 := z.(ts := [t]);
    var z2 := z.(q0 := [a, w], a := 49, b := 99);
    var z3 := z.(m0 := Bank(RowActive, 1, 1, 1, 1, Activate, 0), q0 := [w], next := 1, f0 := [1], a := 48, b := 98, cmd := Some(a));
    Requested(c, [], At(0, z, log), t);
    Accepts(c, 0, z, log, t, 0);
    Cycle0(c, z1, log1, t, a, w);
    ClockTicks(c, [] + [Request(t)], At(0, z1, log1), At(1, z2, log1));
    Cycle1(c, z2, log1, t, a, w);
    ClockTicks(c, [] + [Request(t)] + [Clock], At(1, z2, log1), At(2, z3, log2));
    Requested(c, [] + [Request(t)] + [Clock] + [Clock], At(2, z3, log2), t');
    Accepts(c, 2, z3, log2, t', 1);
    events := [] + [Request(t)] + [Clock] + [Clock] + [Request(t')];
  }

  /** The cycles after that. */
  lemma {:induction false} ThreeCycles(c: Config, before: seq<Event>, z: Snap, log: History, t: Transaction, a: BusPacket,
                                       w: BusPacket, t': Transaction, a': BusPacket, w': BusPacket) returns (events: seq<Event>)
    requires c.Valid() && Env(c) && CommandsOf(c, t, 0, a, w) && CommandsOf(c, t', 1, a', w')
    requires z == Snap(Bank(RowActive, 1, 1, 1, 1, Activate, 0), FreshBank, [w], [], 1, [1], [], [t'], 48, 98,
                       Some(a), None, [], FreshBank, FreshBank)
    requires Run(c, before) == Ok(At(2, z, log))
    ensures Run(c, events).Ok?
    ensures var s := Run(c, events).value;
            s.clock == 5 && s.log.issued == log.issued + [Issue(2, w)] + [Issue(3, a')] + [Issue(4, w')]
  {
    hide Run, At, Cycle, Submit, CommandsOf, Env;
    var log3 := log.(issued := log.issued + [Issue(2, w)]);
    var z3 := z.(m0 := Bank(RowActive, 8, 8, 8, 1, WriteP, 5), q0 := [], q1 := [a', w'], f0 := [], ts := [], a := 47, b := 97,
                 cmd := Some(w), writes := [Timed(DataPacket(w), 1)], k0 := Bank(RowActive, 2, 2, 2, 2, Read, 0));
    var log4 := log.(issued := log3.issued + [Issue(3, a')]);
    var z4 := z3.(m0 := Bank(RowActive, 8, 8, 8, 1, WriteP, 4), m1 := Bank(RowActive, 3, 3, 3, 3, Activate, 0), q1 := [w'],
                  next := 0, f1 := [1], a := 46, b := 96, cmd := Some(a'), data := Some(Timed(DataPacket(w), 4)),
                  writes := [], k0 := Bank(Idle, 8, 7, 9, 2, Read, 0));
    Cycle2(c, z, log, t, a, w, t', a', w');
    ClockTicks(c, before, At(2, z, log), At(3, z3, log3));
    Cycle3(c, z3, log3, t, a, w, t', a', w');
    ClockTicks(c, before + [Clock], At(3, z3, log3), At(4, z4, log4));
    Cycle4(c, z4, log4, t, a, w, t', a', w');
    ClockTicks(c, before + [Clock] + [Clock], At(4, z4, log4), Cycle(c, At(4, z4, log4)).value);
    events := before + [Clock] + [Clock] + [Clock];
  }

  lemma {:induction false} RunsFromInit(c: Config)
    requires c.Valid()
    ensures Run(c, []) == Ok(Init(c))
  {
  }

  lemma {:induction false} TightHasty(c: Config)
    requires IsTight(c)
    ensures Hasty(c) && c.WL() == 1
  {
  }

  lemma {:induction false} TightSmall(c: Config)
    requires IsTight(c) && c.Valid()
    ensures Small(c)
  {
    hide Config.Valid;
  }

  lemma {:induction false} TightEnv(c: Config)
    requires IsTight(c) && GeometryOk(c)
    ensures Env(c) && !c.WritesSpaced() && c.WL() == 1 && c.BL == 8
  {
    hide IsTight, GeometryOk, Small;
    TightValid(c);
    TightHasty(c);
    TightSmall(c);
  }

  lemma {:induction false} HasCommands(c: Config, t: Transaction, r: nat)
    requires Small(c) && GeometryOk(c) && t.isWrite && r < 2 && Locate(c, t.addr) == Location(0, r, 0, 0, 0)
    ensures CommandsOf(c, t, r, ActivatePacket(c, t), ColumnPacket(c, t))
  {
    hide Locate, GeometryOk;
  }

  lemma {:induction false} FiveCycles(c: Config, t: Transaction, t': Transaction) returns (events: seq<Event>)
    requires IsTight(c) && t.isWrite && t'.isWrite && t.id == 0 && t'.id == 1 && t.addr == 0 && t'.addr == 8
    ensures SystemOk(c) && !c.WritesSpaced() && c.WL() == 1 && c.BL == 8 && Run(c, events).Ok?
    ensures var w, w' := ColumnPacket(c, t), ColumnPacket(c, t');
            && w.kind.IsWrite() && w'.kind.IsWrite()
            && Run(c, events).value.clock == 5
            && Issue(2, w) in Run(c, events).value.log.issued && Issue(4, w') in Run(c, events).value.log.issued
  {
    hide IsTight;
    Start(c);
    Places(c, t.addr);
    Places(c, t'.addr);
    TightEnv(c);
    hide Init, Run, At, Hasty, GeometryOk, Locate, ActivatePacket, ColumnPacket;
    RunsFromInit(c);
    HasCommands(c, t, 0);
    HasCommands(c, t', 1);
    var a, w := ActivatePacket(c, t), ColumnPacket(c, t);
    var a', w' := ActivatePacket(c, t'), ColumnPacket(c, t');
    hide Small;
    var z := Snap(FreshBank, FreshBank, [], [], 0, [], [], [], 50, 100, None, None, [], FreshBank, FreshBank);
    var log := History([], [], [], [], [], []);
    var before := TwoCycles(c, z, log, t, a, w, t');
    var z' := z.(m0 := Bank(RowActive, 1, 1, 1, 1, Activate, 0), q0 := [w], next := 1, f0 := [1], ts := [t'],
                 a := 48, b := 98, cmd := Some(a));
    var log' := log.(accepted := log.accepted + [t] + [t'], issued := log.issued + [Issue(1, a)]);
    events := ThreeCycles(c, before, z', log', t, a, w, t', a', w');
  }

  /** A run that has popped two writes less than a burst apart ends in a collision when the
      data of the later one is due. */
  lemma {:induction false} RunCollides(c: Config, events: seq<Event>, e: Issue, f: Issue)
    requires SystemOk(c) && Run(c, events).Ok?
    requires e in Run(c, events).value.log.issued && f in Run(c, events).value.log.issued
    requires e.packet.kind.IsWrite() && f.packet.kind.IsWrite() && e.time < f.time < e.time + c.BL / 2
    requires f.time + c.WL() == Run(c, events).value.clock
    ensures Run(c, events + [Clock]) == Exit(DataBusCollision)
  {
    hide Run, Cycle, Inv, GeometryOk;
    var s := Run(c, events).value;
    RunSafe(c, events);
    CollisionExactly(c, s);
    assert Collides(c, s.log.issued, s.clock);
    CycleSafe(c, s);
    Continues(c, events, Clock, s);
  }

  /** Without the spacing of writes the collision happens: a configuration that meets every
      other condition has a run that ends in one. */
  lemma {:induction false} CollisionReachable(c: Config, t: Transaction, t': Transaction) returns (events: seq<Event>)
    requires IsTight(c)
    requires t.isWrite && t'.isWrite && t.id == 0 && t'.id == 1 && t.addr == 0 && t'.addr == 8
    ensures SystemOk(c) && !c.WritesSpaced() && Run(c, events) == Exit(DataBusCollision)
  {
    hide Run, GeometryOk, ColumnPacket, IsTight;
    var before := FiveCycles(c, t, t');
    RunCollides(c, before, Issue(2, ColumnPacket(c, t)), Issue(4, ColumnPacket(c, t')));
    events := before + [Clock];
  }
}
