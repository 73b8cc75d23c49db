/** Theorems about every run of the memory system. */
module Runs {
  import opened Configuration
  import opened Packets
  import opened Scheduling
  import opened MemoryModel
  import opened Pairing
  import opened Lockstep
  import opened Spacing
  import opened ActivateWindow
  import opened WritePath
  import opened ReadPath
  import opened Conservation
  import opened Ordering
  import opened Refinement
  import opened RefreshCadence
  import opened SystemInvariant

  /** The invariant between cycles. */
  ghost predicate Inv(c: Config, s: State) {
    Good(c, s, AtBoundary(s.clock)) && OnCadence(c, s)
  }

  // ----- The initial state -----

  lemma {:induction false} InitPaired(c: Config)
    requires SystemOk(c)
    ensures var s := Init(c);
            && StateOk(c, s.ctrl.queue) && Bounded(c, s.ctrl.queue.queues)
            && WellPaired(c, s.ctrl.queue.queues, s.ctrl.table, s.ctrl.queue.counters)
  {
    var s := Init(c);
    forall r, q | 0 <= r < c.numRanks && 0 <= q < c.Slots()
      ensures QueuePaired(c, s.ctrl.queue.queues[r][q], s.ctrl.table[r], s.ctrl.queue.counters[r])
    {
    }
  }

  lemma {:induction false} InitInStep(c: Config)
    requires SystemOk(c)
    ensures var s := Init(c); InStep(c, s.ctrl.table, s.ranks, s.ctrl.powerDown, s.ctrl.cmdBus, -1, 0)
  {
    var s := Init(c);
    forall r | 0 <= r < c.numRanks
      ensures RankInStep(c, -1, s.ctrl.table[r], Future(c, s.ranks[r].table, None, 0, r))
      ensures PowerOk(s.ctrl.table[r], s.ctrl.powerDown[r], s.ranks[r])
    {
    }
  }

  lemma {:induction false} InitWindows(c: Config)
    requires SystemOk(c)
    ensures Windows(c, [], Init(c).ctrl.queue.faw, -1)
  {
    var s := Init(c);
    forall r | 0 <= r < c.numRanks ensures WindowOk(c, Activates([], r), s.ctrl.queue.faw[r], -1) {
    }
  }

  lemma {:induction false} InitCommands(c: Config)
    requires SystemOk(c)
    ensures Commands(c, Init(c), AtBoundary(0))
  {
    InitPaired(c);
    InitInStep(c);
    InitWindows(c);
    hide StateOk, Bounded, WellPaired, InStep, Windows, Config.Valid;
  }

  lemma {:induction false} SumZero(ms: seq<nat>)
    requires forall i :: 0 <= i < |ms| ==> ms[i] == 0
    ensures Sum(ms) == 0
  {
    if |ms| > 0 { SumZero(ms[..|ms| - 1]); }
  }

  lemma {:induction false} InitAccounts(c: Config)
    requires c.Valid()
    ensures Accounts(Init(c))
  {
    var s := Init(c);
    forall a ensures Addrs(s.ctrl.pendingReads, a) == InPipeline(s.ctrl, s.ranks, a) {
      var queues := s.ctrl.queue.queues;
      forall r | 0 <= r < |queues| ensures RankQueueAddrs(queues[r], a) == 0 {
        SumZero(seq(|queues[r]|, q requires 0 <= q < |queues[r]| => ReadAddrs(queues[r][q], a)));
      }
      SumZero(seq(|queues|, r requires 0 <= r < |queues| => RankQueueAddrs(queues[r], a)));
      assert QueueAddrs(queues, a) == 0;
      RanksAddrsZero(s.ranks, a);
    }
  }

  lemma {:induction false} RanksAddrsZero(ranks: seq<RankState>, a: nat)
    requires forall r :: 0 <= r < |ranks| ==> ranks[r].readQueue == [] && ranks[r].bus.None?
    ensures RanksAddrs(ranks, a) == 0
  {
    if |ranks| > 0 {
      RanksAddrsSnoc(ranks, a);
      RanksAddrsZero(ranks[..|ranks| - 1], a);
    }
  }

  lemma {:induction false} InitStored(c: Config)
    requires c.Valid()
    ensures Stored(c, Init(c).ranks, [])
  {
    var s := Init(c);
    forall r, b | 0 <= r < c.numRanks && 0 <= b < c.numBanks ensures BankStored(s.ranks[r], [], r, b) {
    }
  }

  lemma {:induction false} InitAnswers(c: Config)
    requires c.Valid()
    ensures AllAnswers(c, [], Init(c).ranks, -1)
  {
  }

  lemma {:induction false} InitFlight(c: Config)
    ensures FlightOk(c, [], None, [], -1, -1) && Landed([], None, []).landed == []
  {
  }

  lemma {:induction false} InitDataPaths(c: Config)
    requires c.Valid()
    ensures DataPaths(c, Init(c), AtBoundary(0))
  {
    hide Stored, FlightOk, AllAnswers, Landed, InitRank;
    var s := Init(c);
    InitFlight(c);
    InitStored(c);
    InitAnswers(c);
  }

  lemma {:induction false} InitInv(c: Config)
    requires SystemOk(c)
    ensures Inv(c, Init(c))
  {
    hide Commands, DataPaths, Accounts;
    InitCommands(c);
    InitDataPaths(c);
    InitAccounts(c);
  }

  // ----- One event -----

  lemma {:induction false} AdmitGood(c: Config, s: State, z: Stamps)
    requires Good(c, s, z)
    ensures Good(c, AdmitPhase(c, s), z)
  {
    if |s.waiting| > 0 && WillAccept(c, s) { AcceptGood(c, s, s.waiting[0], z); }
  }

  /** The cycle up to the point where new write data goes on the bus. */
  function BeforeWrites(c: Config, s: State): Outcome<State> {
    var s1 :- CommandPhase(c, TickPhase(c, AdmitPhase(c, RanksPhase(c, s))));
    DataPhase(c, s1)
  }

  lemma {:induction false} BeforeWritesGood(c: Config, s: State)
    requires Inv(c, s)
    ensures BeforeWrites(c, s).Ok? && FirstHalf(c, s) == WritePhase(c, BeforeWrites(c, s).value)
    ensures var s' := BeforeWrites(c, s).value;
            && Good(c, s', Stamps(s.clock, s.clock, s.clock - 1, s.clock, s.clock - 1, s.clock, s.clock))
            && s'.ctrl.cmdBus.None? && SameCadence(s, s') && s'.log.issued == s.log.issued
  {
    hide Good;
    var t: int := s.clock;
    RanksGood(c, s, AtBoundary(t));
    var a := RanksPhase(c, s);
    AdmitGood(c, a, Stamps(t - 1, t, t - 1, t - 1, t - 1, t, t));
    var b := AdmitPhase(c, a);
    TickGood(c, b, Stamps(t - 1, t, t - 1, t - 1, t - 1, t, t));
    var d := TickPhase(c, b);
    CommandGood(c, d, Stamps(t, t, t - 1, t - 1, t - 1, t, t));
    var e := CommandPhase(c, d).value;
    DataGood(c, e, Stamps(t, t, t - 1, t - 1, t - 1, t, t));
  }

  lemma {:induction false} FirstHalfGood(c: Config, s: State)
    requires Inv(c, s)
    ensures FirstHalf(c, s).Exit? ==> FirstHalf(c, s).fault.DataBusCollision? && !c.WritesSpaced()
    ensures FirstHalf(c, s).Ok? ==>
              var s' := FirstHalf(c, s).value;
              && Good(c, s', Stamps(s.clock, s.clock, s.clock - 1, s.clock, s.clock, s.clock, s.clock))
              && s'.ctrl.cmdBus.None? && SameCadence(s, s')
  {
    hide Good, FirstHalf, BeforeWrites, Inv;
    BeforeWritesGood(c, s);
    var t: int := s.clock;
    WriteGood(c, BeforeWrites(c, s).value, Stamps(t, t, t - 1, t, t - 1, t, t));
  }

  lemma {:induction false} GoodReady(c: Config, s: State, z: Stamps)
    requires Good(c, s, z)
    ensures c.Valid() && SplitReady(c, s) && PowerReady(c, s)
  {
  }

  lemma {:induction false} CadenceReady(c: Config, s: State, z: Stamps)
    requires Good(c, s, z) && OnCadence(c, s)
    ensures c.Valid() && RefreshReady(c, s)
  {
    TurnInRange(c, |s.log.requests|);
  }

  lemma {:induction false} SecondHalfGood(c: Config, s: State)
    requires Good(c, s, Stamps(s.clock, s.clock, s.clock - 1, s.clock, s.clock, s.clock, s.clock))
    requires s.ctrl.cmdBus.None? && OnCadence(c, s)
    ensures SecondHalf(c, s).Ok? && Inv(c, SecondHalf(c, s).value)
  {
    hide Good, CadenceAhead, Cadence;
    hide RefreshPhase, PopPhase, SplitPhase, PowerPhase, ReturnPhase, ClockPhase;
    var t: int := s.clock;
    var z0 := Stamps(t, t, t - 1, t, t, t, t);
    CadenceReady(c, s, z0);
    RefreshAhead(c, s);
    RefreshGood(c, s, z0);
    var a := RefreshPhase(c, s);
    PopGood(c, a, z0);
    var b := PopPhase(c, a).value;
    var z := Stamps(t, t + 1, t, t, t, t, t + 1);
    GoodReady(c, b, z);
    SplitGood(c, b, z);
    var d := SplitPhase(c, b).value;
    GoodReady(c, d, z);
    PowerGood(c, d, z, c.numRanks);
    var e := PowerPhase(c, d, c.numRanks).value;
    ReturnGood(c, e, z);
    ClockGood(c, ReturnPhase(e), z);
  }

  /** A cycle keeps the invariant. The only exit it can take is a collision of write data,
      and only if the configuration does not space writes to different ranks. */
  lemma {:induction false} CycleSafe(c: Config, s: State)
    requires Inv(c, s)
    ensures match Cycle(c, s)
            case Ok(s') => Inv(c, s')
            case Exit(f) => f.DataBusCollision? && !c.WritesSpaced()
  {
    hide Good, Cadence, FirstHalf, SecondHalf;
    FirstHalfGood(c, s);
    if FirstHalf(c, s).Ok? {
      SecondHalfGood(c, FirstHalf(c, s).value);
    }
  }

  lemma {:induction false} SubmitSafe(c: Config, s: State, t: Transaction)
    requires Inv(c, s)
    ensures Inv(c, Submit(c, s, t))
  {
    hide WellPaired, InStep, AllHeld, Gaps, Past, IssuedInRange, Windows, LastOnBus, Bounded, FlightOk, Stored, AllAnswers, InOrder, Faithful, Conserved, Accounted, StateOk, Cadence;
    if WillAccept(c, s) { AcceptGood(c, s, t, AtBoundary(s.clock)); }
  }

  // ----- Every run -----

  /** Lockstep. In every run, whatever the transactions, no rank refuses a command, no bus
      carries two packets at once, no queue overflows, and power management never fails;
      the one exception is the write data bus of a configuration that does not space writes
      to different ranks. */
  lemma {:induction false} RunSafe(c: Config, events: seq<Event>)
    requires SystemOk(c)
    ensures match Run(c, events)
            case Ok(s) => Inv(c, s)
            case Exit(f) => f.DataBusCollision? && !c.WritesSpaced()
  {
    hide Inv, Cycle, Submit, Init;
    if |events| == 0 {
      InitInv(c);
    } else {
      RunSafe(c, events[..|events| - 1]);
      if Run(c, events[..|events| - 1]).Ok? {
        var s := Run(c, events[..|events| - 1]).value;
        match events[|events| - 1]
        case Request(t) => SubmitSafe(c, s, t);
        case Clock => CycleSafe(c, s);
      }
    }
  }
}
