/** The invariant of the whole memory system and its preservation by each phase of a cycle. */
module SystemInvariant {
  import opened Configuration
  import opened Packets
  import opened BankTiming
  import opened Scheduling
  import opened AddressMapping
  import opened MemoryModel
  import opened Pairing
  import opened Lockstep
  import opened Spacing
  import opened ActivateWindow
  import opened WritePath
  import opened ReadPath
  import opened Conservation
  import opened Ordering
  import opened Refinement
  import opened RefreshCadence

  /** How far each part of the system has been stepped: the controller's countdowns, the
      arrival of the command on the bus, the activate windows, the data bus, the write
      queue, the ranks, and the bound on the times of popped commands. */
  datatype Stamps = Stamps(table: int, arrival: nat, window: int, bus: int, fifo: int, rank: int, past: nat)

  function AtBoundary(clock: nat): Stamps {
    Stamps(clock - 1, clock, clock - 1, clock - 1, clock - 1, clock - 1, clock)
  }

  predicate Bounded(c: Config, queues: Queues) {
    forall r, s :: 0 <= r < |queues| && 0 <= s < |queues[r]| ==> |queues[r][s]| <= c.cmdQueueDepth
  }

  predicate IssuedInRange(c: Config, issued: seq<Issue>) {
    forall n :: 0 <= n < |issued| ==> InRange(c, issued[n].packet)
  }

  /** The command side: queues, tables, buses and the history of commands. */
  predicate Commands(c: Config, s: State, z: Stamps) {
    && StateOk(c, s.ctrl.queue) && Bounded(c, s.ctrl.queue.queues)
    && WellPaired(c, s.ctrl.queue.queues, s.ctrl.table, s.ctrl.queue.counters)
    && InStep(c, s.ctrl.table, s.ranks, s.ctrl.powerDown, s.ctrl.cmdBus, z.table, z.arrival)
    && AllHeld(c, s.ctrl.table, s.log.issued, z.table)
    && Gaps(c, s.log.issued) && Past(s.log.issued, z.past) && IssuedInRange(c, s.log.issued)
    && Windows(c, s.log.issued, s.ctrl.queue.faw, z.window)
    && LastOnBus(s.log.issued, s.ctrl.cmdBus, z.arrival)
  }

  /** The data side: write data in flight, storage, read data in flight. */
  ghost predicate DataPaths(c: Config, s: State, z: Stamps) {
    && FlightOk(c, s.log.issued, s.ctrl.dataBus, s.ctrl.writes, z.bus, z.fifo)
    && Stored(c, s.ranks, Landed(s.log.issued, s.ctrl.dataBus, s.ctrl.writes).landed)
    && AllAnswers(c, Arrived(s.log.issued, s.ctrl.cmdBus), s.ranks, z.rank)
  }

  /** The order of transactions and the values reads return. */
  predicate Orders(c: Config, s: State) {
    && InOrder(c, s.log.accepted, s.ctrl.transactions, s.ctrl.queue.queues, s.log.issued)
    && Faithful(c, s.log.accepted, s.ctrl.cmdBus, s.ranks, s.log.received)
  }

  ghost predicate Accounts(s: State) {
    Conserved(s.ctrl, s.ranks) && Accounted(s.ctrl, s.log)
  }

  ghost predicate Good(c: Config, s: State, z: Stamps) {
    SystemOk(c) && Commands(c, s, z) && DataPaths(c, s, z) && Orders(c, s) && Accounts(s)
  }

  ghost predicate OnCadence(c: Config, s: State) {
    Cadence(c, s.log.requests, s.ctrl.refreshRank, s.ctrl.refreshCountdown, s.clock)
  }

  ghost predicate AheadOfCadence(c: Config, s: State) {
    CadenceAhead(c, s.log.requests, s.ctrl.refreshRank, s.ctrl.refreshCountdown, s.clock)
  }

  /** The clock and the refresh bookkeeping are as before. */
  predicate SameCadence(s: State, s': State) {
    && s'.clock == s.clock && s'.log.requests == s.log.requests
    && s'.ctrl.refreshRank == s.ctrl.refreshRank && s'.ctrl.refreshCountdown == s.ctrl.refreshCountdown
  }

  // ----- Frames -----

  predicate SameTables(ranks: seq<RankState>, ranks': seq<RankState>) {
    |ranks'| == |ranks|
    && forall r :: 0 <= r < |ranks| ==>
         ranks'[r].table == ranks[r].table && ranks'[r].poweredDown == ranks[r].poweredDown
  }

  predicate SameReads(ranks: seq<RankState>, ranks': seq<RankState>) {
    |ranks'| == |ranks|
    && forall r :: 0 <= r < |ranks| ==>
         ranks'[r].bus == ranks[r].bus && ranks'[r].readQueue == ranks[r].readQueue
  }

  predicate SameStorage(ranks: seq<RankState>, ranks': seq<RankState>) {
    |ranks'| == |ranks| && forall r :: 0 <= r < |ranks| ==> ranks'[r].storage == ranks[r].storage
  }

  lemma {:induction false} FrameCommands(c: Config, s: State, s': State, z: Stamps)
    requires Commands(c, s, z) && SameTables(s.ranks, s'.ranks)
    requires s'.ctrl.queue == s.ctrl.queue && s'.ctrl.table == s.ctrl.table && s'.ctrl.powerDown == s.ctrl.powerDown
    requires s'.ctrl.cmdBus == s.ctrl.cmdBus && s'.log.issued == s.log.issued
    ensures Commands(c, s', z)
  {
    FrameInStep(c, s.ctrl.table, s.ranks, s'.ranks, s.ctrl.powerDown, s.ctrl.cmdBus, z.table, z.arrival);
  }

  lemma {:induction false} FrameDataPaths(c: Config, s: State, s': State, z: Stamps)
    requires DataPaths(c, s, z) && SameReads(s.ranks, s'.ranks) && SameStorage(s.ranks, s'.ranks)
    requires s'.ctrl.dataBus == s.ctrl.dataBus && s'.ctrl.writes == s.ctrl.writes
    requires s'.ctrl.cmdBus == s.ctrl.cmdBus && s'.log.issued == s.log.issued
    ensures DataPaths(c, s', z)
  {
    FrameStored(c, s.ranks, s'.ranks, Landed(s.log.issued, s.ctrl.dataBus, s.ctrl.writes).landed);
    FrameAnswers(c, Arrived(s.log.issued, s.ctrl.cmdBus), s.ranks, s'.ranks, z.rank);
  }

  lemma {:induction false} FrameOrders(c: Config, s: State, s': State)
    requires GeometryOk(c) && Orders(c, s) && SameReads(s.ranks, s'.ranks)
    requires s.ctrl.cmdBus.None? || SameStorage(s.ranks, s'.ranks)
    requires s'.ctrl.transactions == s.ctrl.transactions && s'.ctrl.queue.queues == s.ctrl.queue.queues
    requires s'.ctrl.cmdBus == s.ctrl.cmdBus && s'.log.issued == s.log.issued
    requires s'.log.accepted == s.log.accepted && s'.log.received == s.log.received
    ensures Orders(c, s')
  {
    FrameFaithful(c, s.log.accepted, s.ctrl.cmdBus, s.ranks, s'.ranks, s.log.received);
  }

  lemma {:induction false} FrameAccounts(s: State, s': State)
    requires Accounts(s) && SameReads(s.ranks, s'.ranks)
    requires s'.ctrl.transactions == s.ctrl.transactions && s'.ctrl.queue.queues == s.ctrl.queue.queues
    requires s'.ctrl.cmdBus == s.ctrl.cmdBus && s'.ctrl.pendingReads == s.ctrl.pendingReads
    requires s'.ctrl.returned == s.ctrl.returned
    requires s'.log.accepted == s.log.accepted && s'.log.callbacks == s.log.callbacks
    ensures Accounts(s')
  {
    forall a ensures Addrs(s'.ctrl.pendingReads, a) == InPipeline(s'.ctrl, s'.ranks, a) {
      assert Addrs(s.ctrl.pendingReads, a) == InPipeline(s.ctrl, s.ranks, a);
      FrameRanksAddrs(s.ranks, s'.ranks, a);
    }
  }

  // ----- Between cycles and the first phases -----

  lemma {:induction false} AcceptGood(c: Config, s: State, t: Transaction, z: Stamps)
    requires Good(c, s, z)
    ensures Good(c, Accept(s, t), z)
  {
    hide WellPaired, InStep, AllHeld, Gaps, Past, IssuedInRange, Windows, LastOnBus, Bounded, FlightOk, Stored, AllAnswers, InOrder, Faithful, StateOk;
    var t' := t.(id := |s.log.accepted|);
    AcceptInOrder(c, s.log.accepted, s.ctrl.transactions, s.ctrl.queue.queues, s.log.issued, t');
    AcceptFaithful(c, s.log.accepted, s.ctrl.cmdBus, s.ranks, s.log.received, t');
    var s' := Accept(s, t);
    forall a ensures Addrs(s'.ctrl.pendingReads, a) == InPipeline(s'.ctrl, s'.ranks, a) {
      assert Addrs(s.ctrl.pendingReads, a) == InPipeline(s.ctrl, s.ranks, a);
    }
    forall a
      ensures ReadsOf(s'.log.accepted, a)
              == ReadsOf(s'.ctrl.transactions, a) + Addrs(s'.ctrl.pendingReads, a) + Calls(s'.log.callbacks, a)
    {
      AddrsCat(s.log.accepted, [t'], a);
      AddrsCat(s.ctrl.transactions, [t'], a);
    }
  }

  lemma {:induction false} PrefixSpaced(c: Config, issued: seq<Issue>, now: nat, n: nat)
    requires Gaps(c, issued) && Past(issued, now) && n <= |issued|
    ensures Gaps(c, issued[..n]) && Past(issued[..n], now)
  {
    var front := issued[..n];
    forall i, j | 0 <= i < j < |front| ensures Gap(c, front[i], front[j]) && front[i].time < front[j].time {
      assert Gap(c, issued[i], issued[j]);
    }
  }

  lemma {:induction false} RanksAnswers(c: Config, s: State, z: Stamps)
    requires c.Valid() && DataPaths(c, s, z) && Gaps(c, s.log.issued) && Past(s.log.issued, z.past)
    ensures DataPaths(c, RanksPhase(c, s), z.(rank := z.rank + 1))
    ensures forall r :: 0 <= r < |s.ranks| && |s.ranks[r].readQueue| > 0 && s.ranks[r].readQueue[0].left == 1 ==>
              BusTick(s.ranks[r].bus).None?
  {
    var s' := RanksPhase(c, s);
    var arrived := Arrived(s.log.issued, s.ctrl.cmdBus);
    FrameStored(c, s.ranks, s'.ranks, Landed(s.log.issued, s.ctrl.dataBus, s.ctrl.writes).landed);
    PrefixSpaced(c, s.log.issued, z.past, |arrived|);
    assert arrived == s.log.issued[..|arrived|];
    UpdateAllAnswers(c, arrived, s.ranks, s'.ranks, z.rank, z.past);
  }

  lemma {:induction false} RanksCommands(c: Config, s: State, z: Stamps)
    requires Commands(c, s, z)
    ensures Commands(c, RanksPhase(c, s), z.(rank := z.rank + 1))
  {
    FrameCommands(c, s, RanksPhase(c, s), z.(rank := z.rank + 1));
  }

  lemma {:induction false} RanksGood(c: Config, s: State, z: Stamps)
    requires Good(c, s, z)
    ensures Good(c, RanksPhase(c, s), z.(rank := z.rank + 1))
  {
    hide WellPaired, InStep, AllHeld, IssuedInRange, Windows, LastOnBus, Bounded, FlightOk, Stored, AllAnswers, InOrder, Faithful, Conserved, Accounted, StateOk;
    RanksAnswers(c, s, z);
    RanksCommands(c, s, z);
    RanksFaithful(c, s);
    RanksAccounts(c, s);
  }

  lemma {:induction false} RanksFaithful(c: Config, s: State)
    requires GeometryOk(c) && Faithful(c, s.log.accepted, s.ctrl.cmdBus, s.ranks, s.log.received)
    ensures var s' := RanksPhase(c, s);
            Faithful(c, s.log.accepted, s.ctrl.cmdBus, s'.ranks, s'.log.received)
  {
    var s' := RanksPhase(c, s);
    ArrivalsFaithful(c, s.log.accepted, s.ranks);
    forall r | 0 <= r < |s'.ranks| ensures RankFaithful(c, s.log.accepted, s'.ranks[r]) {
      UpdateFaithful(c, s.log.accepted, s.ranks[r]);
    }
  }

  lemma {:induction false} RanksAccounts(c: Config, s: State)
    requires Accounts(s)
    requires forall r :: 0 <= r < |s.ranks| && |s.ranks[r].readQueue| > 0 && s.ranks[r].readQueue[0].left == 1 ==>
               BusTick(s.ranks[r].bus).None?
    ensures Accounts(RanksPhase(c, s))
  {
    var s' := RanksPhase(c, s);
    forall a ensures Addrs(s'.ctrl.pendingReads, a) == InPipeline(s'.ctrl, s'.ranks, a) {
      assert Addrs(s.ctrl.pendingReads, a) == InPipeline(s.ctrl, s.ranks, a);
      ArrivalsAddrs(c, s.ranks, s'.ranks, a);
      AddrsCat(s.ctrl.returned, Returns(Arrivals(s.ranks)), a);
    }
  }

  lemma {:induction false} TickGood(c: Config, s: State, z: Stamps)
    requires Good(c, s, z)
    ensures Good(c, TickPhase(c, s), z.(table := z.table + 1))
  {
    hide WellPaired, InStep, AllHeld, Gaps, Past, IssuedInRange, Windows, LastOnBus, Bounded, FlightOk, Stored, AllAnswers, InOrder, Faithful, TickTable;
    TickPairing(c, s.ctrl.queue.queues, s.ctrl.table, s.ctrl.queue.counters);
    TickInStep(c, s.ctrl.table, s.ranks, s.ctrl.powerDown, s.ctrl.cmdBus, z.table, z.arrival);
    TickAllHeld(c, s.ctrl.table, s.ranks, s.ctrl.powerDown, s.ctrl.cmdBus, s.log.issued, z.table, z.arrival);
    var s' := TickPhase(c, s);
    forall a ensures Addrs(s'.ctrl.pendingReads, a) == InPipeline(s'.ctrl, s'.ranks, a) {
      assert Addrs(s.ctrl.pendingReads, a) == InPipeline(s.ctrl, s.ranks, a);
    }
  }

  // ----- Buses -----

  lemma {:induction false} DeliverCommands(c: Config, s: State, z: Stamps)
    requires Commands(c, s, z) && s.ctrl.cmdBus.Some? && z.arrival == s.clock
    ensures CommandPhase(c, s).Ok? && Commands(c, CommandPhase(c, s).value, z)
  {
    DeliverInStep(c, s.ctrl.table, s.ranks, s.ctrl.powerDown, s.ctrl.cmdBus, z.table, z.arrival);
  }

  lemma {:induction false} DeliverDataPaths(c: Config, s: State, z: Stamps)
    requires c.Valid() && DataPaths(c, s, z) && s.ctrl.cmdBus.Some? && z.arrival == s.clock && z.rank == s.clock
    requires LastOnBus(s.log.issued, s.ctrl.cmdBus, z.arrival) && OnTheBus(c, s.ranks, s.ctrl.cmdBus, z.arrival)
    requires CommandPhase(c, s).Ok?
    ensures DataPaths(c, CommandPhase(c, s).value, z)
  {
    var s' := CommandPhase(c, s).value;
    DeliverAnswers(c, s.log.issued, s.ctrl.cmdBus, s.ranks, s.clock);
    FrameStored(c, s.ranks, s'.ranks, Landed(s.log.issued, s.ctrl.dataBus, s.ctrl.writes).landed);
  }

  lemma {:induction false} DeliverOrders(c: Config, s: State, z: Stamps)
    requires GeometryOk(c) && Orders(c, s) && Accounts(s) && s.ctrl.cmdBus.Some? && z.arrival == s.clock
    requires OnTheBus(c, s.ranks, s.ctrl.cmdBus, z.arrival) && CommandPhase(c, s).Ok?
    ensures Orders(c, CommandPhase(c, s).value) && Accounts(CommandPhase(c, s).value)
  {
    var s' := CommandPhase(c, s).value;
    DeliverFaithful(c, s.log.accepted, s.ctrl.cmdBus, s.ranks, s.log.received, s.clock);
    forall a ensures Addrs(s'.ctrl.pendingReads, a) == InPipeline(s'.ctrl, s'.ranks, a) {
      assert Addrs(s.ctrl.pendingReads, a) == InPipeline(s.ctrl, s.ranks, a);
      ReceiveAddrs(c, s.ranks, s.ctrl.cmdBus.value.packet, s.clock, a);
    }
  }

  /** The command on the bus, if any, reaches its rank without an exit. */
  lemma {:induction false} CommandGood(c: Config, s: State, z: Stamps)
    requires Good(c, s, z) && z.arrival == s.clock && z.rank == s.clock
    ensures CommandPhase(c, s).Ok?
    ensures Good(c, CommandPhase(c, s).value, z) && CommandPhase(c, s).value.ctrl.cmdBus.None?
  {
    hide WellPaired, AllHeld, Gaps, Past, IssuedInRange, Windows, LastOnBus, Bounded, FlightOk, Stored, AllAnswers, InOrder, Faithful, Conserved, Accounted, StateOk;
    if s.ctrl.cmdBus.Some? {
      DeliverCommands(c, s, z);
      DeliverDataPaths(c, s, z);
      DeliverOrders(c, s, z);
    } else {
      assert CommandPhase(c, s).value == s;
    }
  }

  /** The write on the data bus is one the controller accepted, in range of its bank. */
  lemma {:induction false} FlyingInRange(c: Config, s: State, z: Stamps)
    requires SystemOk(c) && FlightOk(c, s.log.issued, s.ctrl.dataBus, s.ctrl.writes, z.bus, z.fifo)
    requires Gaps(c, s.log.issued) && Past(s.log.issued, z.past) && Orders(c, s) && s.ctrl.dataBus.Some?
    ensures var p := s.ctrl.dataBus.value.packet;
            p.kind.Data? && p.rank < c.numRanks && p.bank < c.numBanks && p.col < c.numCols
  {
    WriteIssuesMembers(s.log.issued);
    var e := Landed(s.log.issued, s.ctrl.dataBus, s.ctrl.writes).flying[0];
    assert e in WriteIssues(s.log.issued);
    var n :| 0 <= n < |s.log.issued| && s.log.issued[n] == e;
    assert Known(c, s.log.accepted, s.log.issued[n].packet);
  }

  lemma {:induction false} DataDataPaths(c: Config, s: State, z: Stamps)
    requires SystemOk(c) && DataPaths(c, s, z) && z.bus == z.fifo && s.ctrl.cmdBus.None?
    requires s.ctrl.dataBus.Some? ==>
               var p := s.ctrl.dataBus.value.packet;
               p.kind.Data? && p.rank < c.numRanks && p.bank < c.numBanks && p.col < c.numCols
    ensures DataPhase(c, s).Ok? && DataPaths(c, DataPhase(c, s).value, z.(bus := z.bus + 1))
    ensures SameReads(s.ranks, DataPhase(c, s).value.ranks)
  {
    BusStep(c, s.log.issued, s.ctrl.dataBus, s.ctrl.writes, z.bus);
    var s' := DataPhase(c, s).value;
    if BusDone(s.ctrl.dataBus).Some? {
      var f := Landed(s.log.issued, s.ctrl.dataBus, s.ctrl.writes);
      var p := BusDone(s.ctrl.dataBus).value;
      LandStored(c, s.ranks, f.landed, f.flying[0], RankReceive(c, s.ranks[p.rank], p, s.clock).value);
    }
    FrameAnswers(c, s.log.issued, s.ranks, s'.ranks, z.rank);
  }

  lemma {:induction false} DataTables(c: Config, s: State)
    requires DataPhase(c, s).Ok?
    requires s.ctrl.dataBus.Some? ==> s.ctrl.dataBus.value.packet.kind.Data?
    ensures SameTables(s.ranks, DataPhase(c, s).value.ranks)
  {
    var s' := DataPhase(c, s).value;
    if BusDone(s.ctrl.dataBus).Some? {
      var p := s.ctrl.dataBus.value.packet;
      assert RankTable(c, p, s.clock, s.ranks[p.rank].table) == s.ranks[p.rank].table;
    }
  }

  /** Write data lands in its bank. */
  lemma {:induction false} DataGood(c: Config, s: State, z: Stamps)
    requires Good(c, s, z) && z.bus == z.fifo && s.ctrl.cmdBus.None?
    ensures DataPhase(c, s).Ok?
    ensures Good(c, DataPhase(c, s).value, z.(bus := z.bus + 1)) && DataPhase(c, s).value.ctrl.cmdBus.None?
  {
    hide WellPaired, InStep, AllHeld, Gaps, Past, IssuedInRange, Windows, LastOnBus, Bounded, FlightOk, Stored, AllAnswers, InOrder, Faithful, Conserved, Accounted, StateOk;
    if s.ctrl.dataBus.Some? { FlyingInRange(c, s, z); }
    DataDataPaths(c, s, z);
    DataTables(c, s);
    var s' := DataPhase(c, s).value;
    DataCommands(c, s, s', z);
    FrameOrders(c, s, s');
    FrameAccounts(s, s');
  }

  lemma {:induction false} DataCommands(c: Config, s: State, s': State, z: Stamps)
    requires Commands(c, s, z) && SameTables(s.ranks, s'.ranks)
    requires s'.ctrl.queue == s.ctrl.queue && s'.ctrl.table == s.ctrl.table && s'.ctrl.powerDown == s.ctrl.powerDown
    requires s'.ctrl.cmdBus == s.ctrl.cmdBus && s'.log.issued == s.log.issued
    ensures Commands(c, s', z.(bus := z.bus + 1))
  {
    FrameCommands(c, s, s', z.(bus := z.bus + 1));
  }

  // ----- Write queue -----

  lemma {:induction false} WriteDataPaths(c: Config, s: State, z: Stamps)
    requires c.Valid() && DataPaths(c, s, z) && z.bus == z.fifo + 1
    requires Gaps(c, s.log.issued) && Past(s.log.issued, z.past)
    ensures c.WritesSpaced() ==> WritePhase(c, s).Ok?
    ensures WritePhase(c, s).Exit? ==> WritePhase(c, s).fault.DataBusCollision?
    ensures WritePhase(c, s).Ok? ==> DataPaths(c, WritePhase(c, s).value, z.(fifo := z.fifo + 1))
  {
    hide FlightOk, Stored, AllAnswers, Landed, Gaps, Past, Countdown;
    QueueStep(c, s.log.issued, s.ctrl.dataBus, s.ctrl.writes, z.fifo, z.past);
  }

  /** The only exit of the write queue is a data bus collision, and there is none if the
      configuration spaces writes to different ranks. */
  lemma {:induction false} WriteGood(c: Config, s: State, z: Stamps)
    requires Good(c, s, z) && z.bus == z.fifo + 1 && s.ctrl.cmdBus.None?
    ensures c.WritesSpaced() ==> WritePhase(c, s).Ok?
    ensures WritePhase(c, s).Exit? ==> WritePhase(c, s).fault.DataBusCollision?
    ensures WritePhase(c, s).Ok? ==>
              Good(c, WritePhase(c, s).value, z.(fifo := z.fifo + 1)) && WritePhase(c, s).value.ctrl.cmdBus.None?
  {
    hide WellPaired, InStep, AllHeld, Gaps, Past, IssuedInRange, Windows, LastOnBus, Bounded, FlightOk, Stored, AllAnswers, InOrder, Faithful, Conserved, Accounted, StateOk;
    WriteDataPaths(c, s, z);
    if WritePhase(c, s).Ok? {
      var s' := WritePhase(c, s).value;
      WriteCommands(c, s, s', z);
      FrameOrders(c, s, s');
      FrameAccounts(s, s');
    }
  }

  lemma {:induction false} WriteCommands(c: Config, s: State, s': State, z: Stamps)
    requires Commands(c, s, z) && s'.ranks == s.ranks
    requires s'.ctrl.queue == s.ctrl.queue && s'.ctrl.table == s.ctrl.table && s'.ctrl.powerDown == s.ctrl.powerDown
    requires s'.ctrl.cmdBus == s.ctrl.cmdBus && s'.log.issued == s.log.issued
    ensures Commands(c, s', z.(fifo := z.fifo + 1))
  {
    FrameCommands(c, s, s', z.(fifo := z.fifo + 1));
  }

  // ----- Refresh requests -----

  lemma {:induction false} RefreshCommands(c: Config, s: State, z: Stamps)
    requires Commands(c, s, z) && RefreshReady(c, s)
    ensures Commands(c, RefreshPhase(c, s), z)
  {
    var s' := RefreshPhase(c, s);
    FrameInStep(c, s.ctrl.table, s.ranks, s'.ranks, s.ctrl.powerDown, s.ctrl.cmdBus, z.table, z.arrival);
  }

  lemma {:induction false} RefreshKeeps(c: Config, s: State)
    requires RefreshReady(c, s)
    ensures var s' := RefreshPhase(c, s);
            && SameReads(s.ranks, s'.ranks) && SameStorage(s.ranks, s'.ranks)
            && s'.ctrl.queue.queues == s.ctrl.queue.queues
            && s'.ctrl == s.ctrl.(queue := s'.ctrl.queue, refreshCountdown := s'.ctrl.refreshCountdown,
                                  refreshRank := s'.ctrl.refreshRank)
            && s'.log == s.log.(requests := s'.log.requests)
            && s'.clock == s.clock
  {
  }

  lemma {:induction false} RefreshOrders(c: Config, s: State, s': State)
    requires GeometryOk(c) && Orders(c, s) && Accounts(s) && SameReads(s.ranks, s'.ranks) && SameStorage(s.ranks, s'.ranks)
    requires s'.ctrl.queue.queues == s.ctrl.queue.queues
    requires s'.ctrl == s.ctrl.(queue := s'.ctrl.queue, refreshCountdown := s'.ctrl.refreshCountdown,
                                refreshRank := s'.ctrl.refreshRank)
    requires s'.log == s.log.(requests := s'.log.requests)
    ensures Orders(c, s') && Accounts(s')
  {
    FrameOrders(c, s, s');
    FrameAccounts(s, s');
  }

  lemma {:induction false} RefreshGood(c: Config, s: State, z: Stamps)
    requires Good(c, s, z) && RefreshReady(c, s)
    ensures Good(c, RefreshPhase(c, s), z)
    ensures RefreshPhase(c, s).clock == s.clock && RefreshPhase(c, s).ctrl.cmdBus == s.ctrl.cmdBus
  {
    hide WellPaired, InStep, AllHeld, Gaps, Past, IssuedInRange, Windows, LastOnBus, Bounded, FlightOk, Stored, AllAnswers, InOrder, Faithful, Conserved, Accounted, RefreshPhase, StateOk;
    var s' := RefreshPhase(c, s);
    RefreshKeeps(c, s);
    RefreshCommands(c, s, z);
    FrameDataPaths(c, s, s', z);
    RefreshOrders(c, s, s');
  }

  // ----- Popping a command -----

  function AgedQueue(q: QueueState): QueueState { q.(faw := AgedAll(q.faw)) }

  /** The scheduler's decision in state s. */
  function DecisionOf(c: Config, s: State): Decision
    requires PopReady(c, s)
  {
    Decide(c, ViewOf(AgedQueue(s.ctrl.queue), s.ctrl.table, s.clock), AgedQueue(s.ctrl.queue))
  }

  predicate Choosing(c: Config, s: State, v: View, q: QueueState, ch: Choice) {
    && c.Valid() && ViewOk(c, v) && StateOk(c, q) && ChoiceOk(c, q, ch) && Sound(c, v, q, ch)
    && v == ViewOf(q, s.ctrl.table, s.clock) && q == AgedQueue(s.ctrl.queue)
  }

  lemma {:induction false} DecisionSound(c: Config, s: State)
    requires PopReady(c, s) && WellPaired(c, s.ctrl.queue.queues, s.ctrl.table, s.ctrl.queue.counters)
    ensures var q := AgedQueue(s.ctrl.queue);
            Choosing(c, s, ViewOf(q, s.ctrl.table, s.clock), q, DecisionOf(c, s).choice)
    ensures Pop(c, s.ctrl.queue, s.ctrl.table, s.clock) == Commit(c, AgedQueue(s.ctrl.queue), DecisionOf(c, s))
  {
    var q := AgedQueue(s.ctrl.queue);
    DecideSound(c, ViewOf(q, s.ctrl.table, s.clock), q);
  }

  lemma {:induction false} AfterBounded(c: Config, q: QueueState, ch: Choice)
    requires StateOk(c, q) && ChoiceOk(c, q, ch) && Bounded(c, q.queues)
    ensures Bounded(c, QueuesAfter(c, q, ch))
  {
  }

  lemma {:induction false} CommitOk(c: Config, q: QueueState, d: Decision)
    requires c.Valid() && StateOk(c, q) && ChoiceOk(c, q, d.choice) && PosOk(c, d.scan) && PosOk(c, d.pre)
    requires QueuesOk(c, QueuesAfter(c, q, d.choice))
    ensures StateOk(c, Commit(c, q, d).queue)
  {
    var p := Chosen(c, q, d.choice);
    var keep := c.AL > 0 && q.sendAct;
    assert PosOk(c, if p.None? || keep then d.scan else NextPosition(c, d.scan));
  }

  /** Readiness of the chosen command, as the invariants of the other modules use it. */
  predicate Ready(c: Config, s: State, p: BusPacket) {
    && InRange(c, p) && !p.kind.Data? && Rect(s.ctrl.table, c.numRanks, c.numBanks)
    && |s.ctrl.powerDown| == c.numRanks && !s.ctrl.powerDown[p.rank]
    && (if p.kind.Refresh? then forall b :: 0 <= b < c.numBanks ==> BankReady(p, s.clock, s.ctrl.table[p.rank][b])
        else BankReady(p, s.clock, s.ctrl.table[p.rank][p.bank]))
  }

  lemma {:induction false} PopChosenReady(c: Config, s: State, z: Stamps, v: View, q: QueueState, ch: Choice, p: BusPacket)
    requires Commands(c, s, z) && z.table == s.clock && s.ctrl.cmdBus.None?
    requires Choosing(c, s, v, q, ch) && Chosen(c, q, ch) == Some(p)
    ensures Ready(c, s, p)
    ensures p.kind.Activate? ==> s.ctrl.table[p.rank][p.bank].countdown == 0
  {
    ChosenReady(c, v, q, ch, p, s.ranks, s.ctrl.powerDown, z.arrival);
  }

  lemma {:induction false} PopStaysPaired(c: Config, s: State, v: View, q: QueueState, ch: Choice, p: BusPacket)
    requires WellPaired(c, s.ctrl.queue.queues, s.ctrl.table, s.ctrl.queue.counters)
    requires Choosing(c, s, v, q, ch) && Chosen(c, q, ch) == Some(p) && InRange(c, p)
    requires p.kind.Activate? ==> s.ctrl.table[p.rank][p.bank].countdown == 0
    ensures WellPaired(c, QueuesAfter(c, q, ch), IssueTable(c, p, s.clock, s.ctrl.table), CountersAfter(c, q, ch))
  {
    PopPairing(c, v, q, ch, p);
  }

  lemma {:induction false} PopStaysInStep(c: Config, s: State, z: Stamps, p: BusPacket)
    requires c.Valid() && s.ctrl.cmdBus.None? && z.table == s.clock && Ready(c, s, p)
    requires InStep(c, s.ctrl.table, s.ranks, s.ctrl.powerDown, s.ctrl.cmdBus, z.table, z.arrival)
    ensures InStep(c, IssueTable(c, p, s.clock, s.ctrl.table), s.ranks, s.ctrl.powerDown, Some(Timed(p, c.tCMD)),
                   s.clock, s.clock + 1)
    ensures Busy(IssueTable(c, p, s.clock, s.ctrl.table), Some(Timed(p, c.tCMD)))
  {
    PopInStep(c, s.ctrl.table, s.ranks, s.ctrl.powerDown, p, s.clock, z.arrival);
    IssuedBusy(c, s.ctrl.table, p, s.clock);
  }

  lemma {:induction false} ActivateHasRoom(c: Config, v: View, q: QueueState, ch: Choice, p: BusPacket)
    requires c.Valid() && ViewOk(c, v) && StateOk(c, q) && ChoiceOk(c, q, ch) && Sound(c, v, q, ch)
    requires v.faw == q.faw && Chosen(c, q, ch) == Some(p) && InRange(c, p)
    ensures p.kind.Activate? ==> |q.faw[p.rank]| < 4
  {
  }

  lemma {:induction false} PopHistory(c: Config, s: State, z: Stamps, v: View, q: QueueState, ch: Choice, p: BusPacket)
    requires Commands(c, s, z) && z.table == s.clock && z.window == s.clock - 1 && z.past == s.clock
    requires s.ctrl.cmdBus.None? && Choosing(c, s, v, q, ch) && Chosen(c, q, ch) == Some(p) && Ready(c, s, p)
    ensures var issued := s.log.issued + [Issue(s.clock, p)];
            && AllHeld(c, IssueTable(c, p, s.clock, s.ctrl.table), issued, s.clock)
            && Gaps(c, issued) && Past(issued, s.clock + 1) && IssuedInRange(c, issued)
            && Windows(c, issued, FawAfter(c, q.faw, Some(p)), s.clock)
  {
    hide WellPaired, Windows, Sound, QueuesOk, FawAfter, IssueTable;
    PopGaps(c, s.ctrl.table, s.ranks, s.ctrl.powerDown, s.log.issued, p, s.clock, z.arrival);
    ActivateHasRoom(c, v, q, ch, p);
    PopWindows(c, s.log.issued, s.ctrl.queue.faw, s.clock, Some(p));
  }

  lemma {:induction false} PopCommands(c: Config, s: State, z: Stamps, v: View, q: QueueState, d: Decision, p: BusPacket)
    requires Commands(c, s, z) && z.table == s.clock && z.window == s.clock - 1 && z.past == s.clock
    requires s.ctrl.cmdBus.None? && Choosing(c, s, v, q, d.choice) && Chosen(c, q, d.choice) == Some(p)
    requires PosOk(c, d.scan) && PosOk(c, d.pre)
    ensures var s' := AfterPop(c, s, Commit(c, q, d).queue, p);
            Commands(c, s', z.(arrival := s.clock + 1, window := s.clock, past := s.clock + 1))
            && Busy(s'.ctrl.table, s'.ctrl.cmdBus)
    ensures Ready(c, s, p)
  {
    hide WellPaired, InStep, AllHeld, Gaps, Past, IssuedInRange, Windows, Bounded, Sound, IssueTable, QueuesAfter, CountersAfter, QueuesOk, Busy, FawAfter, NextPosition, Ready;
    PopChosenReady(c, s, z, v, q, d.choice, p);
    PopStaysPaired(c, s, v, q, d.choice, p);
    PopStaysInStep(c, s, z, p);
    PopHistory(c, s, z, v, q, d.choice, p);
    CommitOk(c, q, d);
    AfterBounded(c, q, d.choice);
  }

  lemma {:induction false} PopDataPaths(c: Config, s: State, z: Stamps, q': QueueState, p: BusPacket)
    requires c.Valid() && DataPaths(c, s, z) && z.bus == z.fifo == s.clock && s.ctrl.cmdBus.None?
    ensures DataPaths(c, AfterPop(c, s, q', p), z)
  {
    PopFlight(c, s.log.issued, s.ctrl.dataBus, s.ctrl.writes, s.clock, p);
    var issued := s.log.issued + [Issue(s.clock, p)];
    assert issued[..|issued| - 1] == s.log.issued;
  }

  lemma {:induction false} PopOrders(c: Config, s: State, z: Stamps, v: View, q: QueueState, d: Decision, p: BusPacket)
    requires Choosing(c, s, v, q, d.choice) && Chosen(c, q, d.choice) == Some(p)
    requires PosOk(c, d.scan) && PosOk(c, d.pre)
    requires Orders(c, s) && DataPaths(c, s, z) && z.bus == z.fifo == s.clock && s.ctrl.cmdBus.None?
    requires Past(s.log.issued, s.clock) && Gaps(c, s.log.issued + [Issue(s.clock, p)]) && InRange(c, p)
    ensures Orders(c, AfterPop(c, s, Commit(c, q, d).queue, p))
  {
    var e := Issue(s.clock, p);
    PopInOrder(c, v, s.log.accepted, s.ctrl.transactions, q, d.choice, s.log.issued, e);
    PopFaithful(c, s.log.accepted, s.ctrl.transactions, QueuesAfter(c, q, d.choice), s.log.issued, e,
                s.ctrl.dataBus, s.ctrl.writes, s.ranks, s.log.received);
  }

  lemma {:induction false} PopAccounts(c: Config, s: State, v: View, q: QueueState, d: Decision, p: BusPacket)
    requires Choosing(c, s, v, q, d.choice) && Chosen(c, q, d.choice) == Some(p)
    requires PosOk(c, d.scan) && PosOk(c, d.pre) && Accounts(s) && s.ctrl.cmdBus.None?
    ensures Accounts(AfterPop(c, s, Commit(c, q, d).queue, p))
  {
    hide Addrs, ReadsOf, Calls, QueueAddrs, RanksAddrs, IssueTable;
    var s' := AfterPop(c, s, Commit(c, q, d).queue, p);
    forall a ensures Addrs(s'.ctrl.pendingReads, a) == InPipeline(s'.ctrl, s'.ranks, a) {
      assert Addrs(s.ctrl.pendingReads, a) == InPipeline(s.ctrl, s.ranks, a);
      PopAddrs(c, q, d.choice, a);
    }
  }

  lemma {:induction false} PopSomeGood(c: Config, s: State, z: Stamps, v: View, q: QueueState, d: Decision, p: BusPacket)
    requires Good(c, s, z) && s.ctrl.cmdBus.None?
    requires z.table == z.bus == z.fifo == s.clock && z.window == s.clock - 1 && z.past == s.clock
    requires Choosing(c, s, v, q, d.choice) && Chosen(c, q, d.choice) == Some(p)
    requires PosOk(c, d.scan) && PosOk(c, d.pre)
    ensures var s' := AfterPop(c, s, Commit(c, q, d).queue, p);
            Good(c, s', z.(arrival := s.clock + 1, window := s.clock, past := s.clock + 1))
            && Busy(s'.ctrl.table, s'.ctrl.cmdBus)
  {
    hide WellPaired, InStep, AllHeld, Gaps, Past, IssuedInRange, Windows, LastOnBus, Bounded, FlightOk, Stored, AllAnswers, InOrder, Faithful, Conserved, Accounted, Commit, Sound, ViewOk;
    PopCommands(c, s, z, v, q, d, p);
    PopDataPaths(c, s, z, Commit(c, q, d).queue, p);
    PopOrders(c, s, z, v, q, d, p);
    PopAccounts(c, s, v, q, d, p);
  }

  lemma {:induction false} PopNoneCommands(c: Config, s: State, z: Stamps, q': QueueState)
    requires Commands(c, s, z) && c.Valid() && s.ctrl.cmdBus.None? && z.window == s.clock - 1 && z.past == s.clock
    requires StateOk(c, q') && q'.queues == s.ctrl.queue.queues && q'.counters == s.ctrl.queue.counters
    requires q'.faw == AgedAll(s.ctrl.queue.faw)
    ensures Commands(c, s.(ctrl := s.ctrl.(queue := q')),
                     z.(arrival := s.clock + 1, window := s.clock, past := s.clock + 1))
  {
    PopWindows(c, s.log.issued, s.ctrl.queue.faw, s.clock, None);
    forall r | 0 <= r < c.numRanks
      ensures RankInStep(c, z.table, s.ctrl.table[r], Future(c, s.ranks[r].table, None, s.clock + 1, r))
    {
      assert RankInStep(c, z.table, s.ctrl.table[r], Future(c, s.ranks[r].table, None, z.arrival, r));
    }
  }

  lemma {:induction false} PopNoneGood(c: Config, s: State, z: Stamps, q: QueueState, d: Decision)
    requires Good(c, s, z) && s.ctrl.cmdBus.None? && z.window == s.clock - 1 && z.past == s.clock
    requires q == AgedQueue(s.ctrl.queue) && StateOk(c, q) && d.choice.Nothing? && PosOk(c, d.scan) && PosOk(c, d.pre)
    ensures Good(c, s.(ctrl := s.ctrl.(queue := Commit(c, q, d).queue)),
                 z.(arrival := s.clock + 1, window := s.clock, past := s.clock + 1))
  {
    var q' := Commit(c, q, d).queue;
    var s' := s.(ctrl := s.ctrl.(queue := q'));
    CommitOk(c, q, d);
    PopNoneCommands(c, s, z, q');
    FrameOrders(c, s, s');
    FrameAccounts(s, s');
  }

  lemma {:induction false} GoodPopReady(c: Config, s: State, z: Stamps)
    requires Good(c, s, z)
    ensures PopReady(c, s) && WellPaired(c, s.ctrl.queue.queues, s.ctrl.table, s.ctrl.queue.counters)
  {
  }

  /** The scheduler's command, if any, goes on the bus without an exit. */
  lemma {:induction false} PopGood(c: Config, s: State, z: Stamps)
    requires Good(c, s, z) && s.ctrl.cmdBus.None?
    requires z.table == z.bus == z.fifo == s.clock && z.window == s.clock - 1 && z.past == s.clock
    ensures PopReady(c, s) && PopPhase(c, s).Ok?
    ensures var s' := PopPhase(c, s).value;
            && Good(c, s', z.(arrival := s.clock + 1, window := s.clock, past := s.clock + 1))
            && Busy(s'.ctrl.table, s'.ctrl.cmdBus) && SameCadence(s, s')
  {
    hide Good, Decide, IssueTable, QueuesOk, WellPaired, ViewOf;
    GoodPopReady(c, s, z);
    DecisionSound(c, s);
    var q := AgedQueue(s.ctrl.queue);
    var v := ViewOf(q, s.ctrl.table, s.clock);
    var d := DecisionOf(c, s);
    match Chosen(c, q, d.choice)
    case None => PopNoneGood(c, s, z, q, d);
    case Some(p) => PopSomeGood(c, s, z, v, q, d, p);
  }

  // ----- Splitting a transaction -----

  lemma {:induction false} SplitPaired(c: Config, s: State, t: Transaction, queues': Queues)
    requires SystemOk(c) && WellPaired(c, s.ctrl.queue.queues, s.ctrl.table, s.ctrl.queue.counters)
    requires var l := Locate(c, t.addr);
             queues' == Update2(s.ctrl.queue.queues, l.rank, c.Slot(l.bank),
                                QueueFor(c, s.ctrl.queue.queues, t) + [ActivatePacket(c, t), ColumnPacket(c, t)])
    ensures WellPaired(c, queues', s.ctrl.table, s.ctrl.queue.counters)
  {
    SplitQueuesOk(c, s.ctrl.queue.queues, t);
    forall r, b | 0 <= r < c.numRanks && 0 <= b < c.Slots()
      ensures QueuePaired(c, queues'[r][b], s.ctrl.table[r], s.ctrl.queue.counters[r])
    {
      var q := s.ctrl.queue.queues[r][b];
      assert QueuePaired(c, q, s.ctrl.table[r], s.ctrl.queue.counters[r]);
      EnqueuePaired(c, q, ActivatePacket(c, t), ColumnPacket(c, t), s.ctrl.table[r], s.ctrl.queue.counters[r]);
    }
  }

  lemma {:induction false} SplitCommands(c: Config, s: State, z: Stamps)
    requires SystemOk(c) && Commands(c, s, z)
    ensures SplitPhase(c, s).Ok? && Commands(c, SplitPhase(c, s).value, z)
  {
    hide InStep, AllHeld, Gaps, Past, IssuedInRange, Windows, LastOnBus, GeometryOk, Locate, ActivatePacket, ColumnPacket, QueuePaired, BankPolicy;
    var queues, ts := s.ctrl.queue.queues, s.ctrl.transactions;
    var i := FirstWithRoom(c, queues, ts, 0);
    if i < |ts| {
      var t := ts[i];
      var l := Locate(c, t.addr);
      assert |queues[l.rank][c.Slot(l.bank)]| <= c.cmdQueueDepth;
      SplitPaired(c, s, t, SplitPhase(c, s).value.ctrl.queue.queues);
    }
  }

  lemma {:induction false} SplitOrders(c: Config, s: State)
    requires SystemOk(c) && QueuesOk(c, s.ctrl.queue.queues) && Orders(c, s) && SplitPhase(c, s).Ok?
    ensures Orders(c, SplitPhase(c, s).value)
  {
    var queues, ts := s.ctrl.queue.queues, s.ctrl.transactions;
    var i := FirstWithRoom(c, queues, ts, 0);
    if i < |ts| {
      SplitInOrder(c, s.log.accepted, ts, queues, s.log.issued, i, SplitPhase(c, s).value.ctrl.queue.queues);
    }
  }

  lemma {:induction false} SplitAccounts(c: Config, s: State)
    requires SystemOk(c) && QueuesOk(c, s.ctrl.queue.queues) && Accounts(s) && SplitPhase(c, s).Ok?
    ensures Accounts(SplitPhase(c, s).value)
  {
    hide Addrs, ReadsOf, Calls, QueueAddrs, RanksAddrs;
    var queues, ts := s.ctrl.queue.queues, s.ctrl.transactions;
    var s' := SplitPhase(c, s).value;
    var i := FirstWithRoom(c, queues, ts, 0);
    if i < |ts| {
      forall a
        ensures Addrs(s'.ctrl.pendingReads, a) == InPipeline(s'.ctrl, s'.ranks, a)
        ensures ReadsOf(s'.log.accepted, a)
                == ReadsOf(s'.ctrl.transactions, a) + Addrs(s'.ctrl.pendingReads, a) + Calls(s'.log.callbacks, a)
      {
        assert Addrs(s.ctrl.pendingReads, a) == InPipeline(s.ctrl, s.ranks, a);
        assert ReadsOf(s.log.accepted, a)
            == ReadsOf(s.ctrl.transactions, a) + Addrs(s.ctrl.pendingReads, a) + Calls(s.log.callbacks, a);
        SplitAddrs(c, queues, ts[i], a);
        AddrsRemove(ts, i, a);
        AddrsCat(s.ctrl.pendingReads, [ts[i]], a);
        AddrsOne(ts[i], a);
      }
    }
  }

  /** Splitting a transaction never overflows a queue. */
  lemma {:induction false} SplitGood(c: Config, s: State, z: Stamps)
    requires Good(c, s, z)
    ensures SplitPhase(c, s).Ok? && Good(c, SplitPhase(c, s).value, z)
    ensures SplitPhase(c, s).value.ctrl.table == s.ctrl.table && SplitPhase(c, s).value.ctrl.cmdBus == s.ctrl.cmdBus
    ensures SameCadence(s, SplitPhase(c, s).value)
  {
    hide WellPaired, InStep, AllHeld, Gaps, Past, IssuedInRange, Windows, LastOnBus, Bounded, FlightOk, Stored, AllAnswers, InOrder, Faithful, Conserved, Accounted;
    SplitCommands(c, s, z);
    SplitOrders(c, s);
    SplitAccounts(c, s);
  }

  // ----- Power management -----

  lemma {:induction false} PowerRankKeeps(c: Config, now: nat, empty: bool, banks: seq<BankState>, down: bool, k: RankState)
    requires |banks| > 0 && PowerRank(c, now, empty, banks, down, k).Ok? && PowerOk(banks, down, k)
    ensures var p := PowerRank(c, now, empty, banks, down, k).value;
            && |p.banks| == |banks|
            && (forall b :: 0 <= b < |banks| ==>
                  && (p.banks[b].mode.RowActive? <==> banks[b].mode.RowActive?)
                  && KeepsRow(banks[b], p.banks[b]) && p.banks[b].countdown == banks[b].countdown)
            && p.rank == k.(table := p.rank.table, poweredDown := p.rank.poweredDown)
  {
  }

  lemma {:induction false} PowerPaired(c: Config, queues: Queues, table: Table, counters: seq<seq<nat>>, r: nat,
                                       banks: seq<BankState>)
    requires WellPaired(c, queues, table, counters) && r < c.numRanks && |banks| == c.numBanks
    requires forall b :: 0 <= b < c.numBanks ==>
               && (banks[b].mode.RowActive? <==> table[r][b].mode.RowActive?)
               && KeepsRow(table[r][b], banks[b]) && banks[b].countdown == table[r][b].countdown
    ensures WellPaired(c, queues, table[r := banks], counters)
  {
    forall i, s | 0 <= i < c.numRanks && 0 <= s < c.Slots()
      ensures QueuePaired(c, queues[i][s], table[r := banks][i], counters[i])
    {
      KeepPaired(c, queues[i][s], table[i], table[r := banks][i], counters[i], counters[i]);
    }
    forall i, b | 0 <= i < c.numRanks && 0 <= b < c.numBanks
      ensures BankPolicy(c, table[r := banks][i][b], counters[i][b])
    {
      assert BankPolicy(c, table[i][b], counters[i][b]);
    }
  }

  lemma {:induction false} PowerInStep(c: Config, table: Table, ranks: seq<RankState>, down: seq<bool>,
                                       cmdBus: Option<Timed>, t: int, at: nat, r: nat, p: Powered)
    requires InStep(c, table, ranks, down, cmdBus, t, at) && r < c.numRanks
    requires cmdBus.Some? && cmdBus.value.packet.rank == r ==> p == Powered(table[r], down[r], ranks[r])
    requires !(cmdBus.Some? && cmdBus.value.packet.rank == r) ==>
               RankInStep(c, t, p.banks, p.rank.table) && PowerOk(p.banks, p.down, p.rank)
    ensures InStep(c, table[r := p.banks], ranks[r := p.rank], down[r := p.down], cmdBus, t, at)
  {
    var table', ranks', down' := table[r := p.banks], ranks[r := p.rank], down[r := p.down];
    forall i | 0 <= i < c.numRanks
      ensures RankInStep(c, t, table'[i], Future(c, ranks'[i].table, cmdBus, at, i))
      ensures PowerOk(table'[i], down'[i], ranks'[i])
    {
      assert RankInStep(c, t, table[i], Future(c, ranks[i].table, cmdBus, at, i));
      assert PowerOk(table[i], down[i], ranks[i]);
    }
  }

  lemma {:induction false} PowerAllHeld(c: Config, table: Table, issued: seq<Issue>, t: int, r: nat, banks: seq<BankState>)
    requires AllHeld(c, table, issued, t) && r < |table|
    requires forall n :: 0 <= n < |issued| ==> RankHeld(c, t, issued[n], r, banks)
    ensures AllHeld(c, table[r := banks], issued, t)
  {
    var table' := table[r := banks];
    forall n, i | 0 <= n < |issued| && 0 <= i < |table'| ensures RankHeld(c, t, issued[n], i, table'[i]) {
      assert RankHeld(c, t, issued[n], i, table[i]);
    }
  }

  lemma {:induction false} PowerOfOk(c: Config, s: State, z: Stamps, r: nat)
    requires PowerReady(c, s) && Commands(c, s, z) && r < c.numRanks && z.table == s.clock
    requires Busy(s.ctrl.table, s.ctrl.cmdBus)
    ensures PowerOf(c, s, r).Ok?
    ensures var p := PowerOf(c, s, r).value;
            if s.ctrl.cmdBus.Some? && s.ctrl.cmdBus.value.packet.rank == r
            then p == Powered(s.ctrl.table[r], s.ctrl.powerDown[r], s.ranks[r])
            else RankInStep(c, s.clock, p.banks, p.rank.table) && PowerOk(p.banks, p.down, p.rank)
    ensures PowerOk(s.ctrl.table[r], s.ctrl.powerDown[r], s.ranks[r])
  {
    var empty := QueueEmpty(s.ctrl.queue.queues[r]);
    assert RankInStep(c, s.clock, s.ctrl.table[r], Future(c, s.ranks[r].table, s.ctrl.cmdBus, z.arrival, r));
    assert PowerOk(s.ctrl.table[r], s.ctrl.powerDown[r], s.ranks[r]);
    if s.ctrl.cmdBus.Some? && s.ctrl.cmdBus.value.packet.rank == r {
      BusyRankUntouched(c, s.clock, empty, s.ctrl.table[r], s.ctrl.powerDown[r], s.ranks[r],
                        s.ctrl.cmdBus.value.packet.bank);
    } else {
      PowerRankInStep(c, s.clock, empty, s.ctrl.table[r], s.ctrl.powerDown[r], s.ranks[r]);
    }
  }

  lemma {:induction false} PowerCommands(c: Config, s: State, z: Stamps, r: nat)
    requires PowerReady(c, s) && Commands(c, s, z) && r < c.numRanks && z.table == s.clock
    requires Busy(s.ctrl.table, s.ctrl.cmdBus)
    ensures PowerOf(c, s, r).Ok?
    ensures var s' := AfterPower(s, r, PowerOf(c, s, r).value);
            Commands(c, s', z) && Busy(s'.ctrl.table, s'.ctrl.cmdBus)
    ensures var s' := AfterPower(s, r, PowerOf(c, s, r).value);
            SameReads(s.ranks, s'.ranks) && SameStorage(s.ranks, s'.ranks)
  {
    PowerOfOk(c, s, z, r);
    var p := PowerOf(c, s, r).value;
    var empty := QueueEmpty(s.ctrl.queue.queues[r]);
    PowerRankKeeps(c, s.clock, empty, s.ctrl.table[r], s.ctrl.powerDown[r], s.ranks[r]);
    PowerPaired(c, s.ctrl.queue.queues, s.ctrl.table, s.ctrl.queue.counters, r, p.banks);
    PowerInStep(c, s.ctrl.table, s.ranks, s.ctrl.powerDown, s.ctrl.cmdBus, z.table, z.arrival, r, p);
    forall n | 0 <= n < |s.log.issued| ensures RankHeld(c, z.table, s.log.issued[n], r, p.banks) {
      assert RankHeld(c, z.table, s.log.issued[n], r, s.ctrl.table[r]);
      PowerHeld(c, z.table, s.log.issued[n], r, s.clock, empty, s.ctrl.table[r], s.ctrl.powerDown[r], s.ranks[r]);
    }
    PowerAllHeld(c, s.ctrl.table, s.log.issued, z.table, r, p.banks);
  }

  lemma {:induction false} PowerStepGood(c: Config, s: State, z: Stamps, r: nat)
    requires Good(c, s, z) && PowerReady(c, s) && r < c.numRanks && z.table == s.clock
    requires Busy(s.ctrl.table, s.ctrl.cmdBus)
    ensures PowerOf(c, s, r).Ok?
    ensures var s' := AfterPower(s, r, PowerOf(c, s, r).value);
            Good(c, s', z) && Busy(s'.ctrl.table, s'.ctrl.cmdBus) && SameCadence(s, s')
  {
    hide WellPaired, InStep, AllHeld, Gaps, Past, IssuedInRange, Windows, LastOnBus, Bounded, FlightOk, Stored, AllAnswers, InOrder, Faithful, Conserved, Accounted, PowerRank, Busy, StateOk;
    PowerCommands(c, s, z, r);
    var s' := AfterPower(s, r, PowerOf(c, s, r).value);
    FrameDataPaths(c, s, s', z);
    FrameOrders(c, s, s');
    FrameAccounts(s, s');
  }

  lemma {:induction false} PowerUnfold(c: Config, s: State, n: nat, s1: State)
    requires PowerReady(c, s) && 0 < n <= c.numRanks && PowerPhase(c, s, n - 1) == Ok(s1)
    requires PowerReady(c, s1) && PowerOf(c, s1, n - 1).Ok? && s1.clock == s.clock
    ensures PowerPhase(c, s, n) == Ok(AfterPower(s1, n - 1, PowerOf(c, s1, n - 1).value))
  {
  }

  lemma {:induction false} PowerNone(c: Config, s: State)
    requires PowerReady(c, s)
    ensures PowerPhase(c, s, 0) == Ok(s)
  {
  }

  lemma {:induction false} PowerStaysReady(c: Config, s: State, n: nat)
    requires PowerReady(c, s) && n <= c.numRanks && PowerPhase(c, s, n).Ok?
    ensures PowerReady(c, PowerPhase(c, s, n).value)
  {
  }

  /** Powering ranks down and up never fails. */
  lemma {:induction false} PowerGood(c: Config, s: State, z: Stamps, n: nat)
    requires Good(c, s, z) && PowerReady(c, s) && n <= c.numRanks && z.table == s.clock
    requires Busy(s.ctrl.table, s.ctrl.cmdBus)
    ensures PowerPhase(c, s, n).Ok?
    ensures var s' := PowerPhase(c, s, n).value;
            Good(c, s', z) && Busy(s'.ctrl.table, s'.ctrl.cmdBus) && SameCadence(s, s')
  {
    hide Good, PowerPhase, Busy, PowerRank, PowerReady;
    if n > 0 {
      PowerGood(c, s, z, n - 1);
      var s1 := PowerPhase(c, s, n - 1).value;
      PowerStaysReady(c, s, n - 1);
      PowerStepGood(c, s1, z, n - 1);
      PowerUnfold(c, s, n, s1);
    } else {
      PowerNone(c, s);
    }
  }

  // ----- The end of the cycle -----

  lemma {:induction false} ReturnGood(c: Config, s: State, z: Stamps)
    requires Good(c, s, z)
    ensures Good(c, ReturnPhase(s), z) && SameCadence(s, ReturnPhase(s))
  {
    hide WellPaired, InStep, AllHeld, Gaps, Past, IssuedInRange, Windows, LastOnBus, Bounded, FlightOk, Stored, AllAnswers, InOrder, Faithful, Conserved, Accounted, StateOk;
    ReturnConserved(s);
  }

  lemma {:induction false} ClockGood(c: Config, s: State, z: Stamps)
    requires Good(c, s, z) && AheadOfCadence(c, s)
    ensures Good(c, ClockPhase(s), z) && OnCadence(c, ClockPhase(s)) && ClockPhase(s).clock == s.clock + 1
  {
    hide WellPaired, InStep, AllHeld, Gaps, Past, IssuedInRange, Windows, LastOnBus, Bounded, FlightOk, Stored, AllAnswers, InOrder, Faithful, Conserved, Accounted, StateOk, Cadence, CadenceAhead;
    var s' := ClockPhase(s);
    DecrementCadence(c, s.log.requests, s.ctrl.refreshRank, s.ctrl.refreshCountdown, s'.ctrl.refreshCountdown, s.clock);
    FrameOrders(c, s, s');
    FrameAccounts(s, s');
  }
}
