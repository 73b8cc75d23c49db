/** A configuration that loses refresh requests: they come faster than a refresh takes. */
module RefreshLoss {
  import opened Configuration
  import opened Powers
  import opened AddressMapping
  import opened MemoryModel
  import opened RefreshCadence
  import opened RunTheorems
  import opened CommandProtocol
  import opened CommandTiming
  import opened RefreshAccount

  function Clocks(n: nat): seq<Event> { seq(n, i => Clock) }

  lemma {:induction false} CycleClock(c: Config, s: State)
    requires Cycle(c, s).Ok?
    ensures Cycle(c, s).value.clock == s.clock + 1
  {
    hide FirstHalf, RefreshPhase, PopPhase, SplitPhase, PowerPhase, PopReady, SplitReady, PowerReady, RefreshReady;
    FirstHalfKeeps(c, s);
    var a := FirstHalf(c, s).value;
    RefreshFrame(c, a);
    var b := PopPhase(c, RefreshPhase(c, a)).value;
    PopClock(c, RefreshPhase(c, a));
    SplitFrame(c, b);
    PowerKeeps(c, SplitPhase(c, b).value, c.numRanks);
  }

  lemma {:induction false} PopClock(c: Config, s: State)
    requires PopReady(c, s) && PopPhase(c, s).Ok?
    ensures PopPhase(c, s).value.clock == s.clock
  {
  }

  lemma {:induction false} RunClocks(c: Config, n: nat)
    requires c.Valid() && Run(c, Clocks(n)).Ok?
    ensures Run(c, Clocks(n)).value.clock == n
  {
    hide Cycle, Init;
    if n == 0 {
      assert Clocks(n) == [];
      InitClock(c);
    } else {
      assert Clocks(n)[..n - 1] == Clocks(n - 1) && Clocks(n)[n - 1] == Clock;
      RunClocks(c, n - 1);
      CycleClock(c, Run(c, Clocks(n - 1)).value);
    }
  }

  lemma {:induction false} NoRefreshes(issued: seq<Issue>)
    requires forall n :: 0 <= n < |issued| ==> !IsRefresh(issued[n])
    ensures Refreshes(issued) == 0
  {
    if |issued| > 0 { NoRefreshes(issued[..|issued| - 1]); }
  }

  lemma {:induction false} AtMostOneRefresh(issued: seq<Issue>)
    requires forall i, j :: 0 <= i < j < |issued| ==> !(IsRefresh(issued[i]) && IsRefresh(issued[j]))
    ensures Refreshes(issued) <= 1
  {
    if |issued| > 0 {
      var front := issued[..|issued| - 1];
      if IsRefresh(issued[|issued| - 1]) { NoRefreshes(front); } else { AtMostOneRefresh(front); }
    }
  }

  /** One rank, due every cycle, with a refresh that takes longer than the run. */
  predicate Hurried(c: Config) {
    SystemOk(c) && c.numRanks == 1 && c.refreshStagger == 1 && c.refreshPeriod == 1 && c.tRFC >= 5
  }

  lemma {:induction false} DueEveryCycle(c: Config, time: nat)
    requires Hurried(c) && time >= 1
    ensures time == Due(c, 0, time - 1)
  {
    TimesOne(time - 1);
    TimesOne(1);
  }

  lemma {:induction false} TimesOne(n: nat)
    ensures Times(n, 1) == n
  {
    if n > 0 { TimesOne(n - 1); }
  }

  lemma {:induction false} ThreeRequests(c: Config, events: seq<Event>)
    requires Hurried(c) && Run(c, events).Ok? && Run(c, events).value.clock == 4
    ensures |Run(c, events).value.log.requests| >= 3
  {
    hide Run, GeometryOk, Due;
    var requests := Run(c, events).value.log.requests;
    forall time: nat | 1 <= time <= 3 ensures RefreshRequest(time, 0) in requests {
      DueEveryCycle(c, time);
      RefreshesOnTime(c, events, 0, time);
    }
    assert RefreshRequest(1, 0) in requests && RefreshRequest(2, 0) in requests && RefreshRequest(3, 0) in requests;
    var i :| 0 <= i < |requests| && requests[i] == RefreshRequest(1, 0);
    var j :| 0 <= j < |requests| && requests[j] == RefreshRequest(2, 0);
    var k :| 0 <= k < |requests| && requests[k] == RefreshRequest(3, 0);
    assert i != j && j != k && i != k;
  }

  lemma {:induction false} OneRefresh(c: Config, events: seq<Event>)
    requires Hurried(c) && Run(c, events).Ok? && Run(c, events).value.clock == 4
    ensures Refreshes(Run(c, events).value.log.issued) <= 1
  {
    hide Run, GeometryOk, Lost, Refreshes, Open, ForLatest, RequestBetween;
    RunBalanced(c, events);
    RefreshesInRange(c, events);
    var issued := Run(c, events).value.log.issued;
    forall i, j | 0 <= i < j < |issued| ensures !(IsRefresh(issued[i]) && IsRefresh(issued[j])) {
      CommandsApart(c, events, i, j);
      assert IsRefresh(issued[i]) ==> Closes(issued[i].packet, issued[j].packet.rank, 0);
    }
    AtMostOneRefresh(issued);
  }

  /** Every command of a run of one rank is for that rank. */
  lemma {:induction false} RefreshesInRange(c: Config, events: seq<Event>)
    requires Hurried(c) && Run(c, events).Ok?
    ensures forall n :: 0 <= n < |Run(c, events).value.log.issued| ==> Run(c, events).value.log.issued[n].packet.rank == 0
  {
    hide Run;
    CommandsNameRanks(c, events);
  }

  /** Requests are lost: four cycles of such a configuration make three requests, of which at
      most one is answered and one is waiting. */
  lemma {:induction false} RefreshLost(c: Config)
    requires Hurried(c)
    ensures Run(c, Clocks(4)).Ok?
    ensures var s := Run(c, Clocks(4)).value; Lost(s.log.requests, s.log.issued) > 0
  {
    hide Run, Lost, Refreshes, Open, ForLatest, RequestBetween;
    NoExit(c, Clocks(4));
    RunClocks(c, 4);
    ThreeRequests(c, Clocks(4));
    OneRefresh(c, Clocks(4));
    RequestsAccounted(c, Clocks(4));
  }

  const Overdue := Config(
    1, 1, 1, 1, 8, 1,                        // channels, ranks, banks, rows, columns, bus bytes
    2, 0, 8,                                 // CL, AL, BL
    0, 0, 0, 0, 1,                           // tRAS, tRCD, tRRD, tRC, tRP
    0, 0, 0, 0, 0, 5,                        // tCCD, tRTP, tWTR, tWR, tRTRS, tRFC
    1, 0, 0, 1,                              // tFAW, tCKE, tXP, tCMD
    1, 1, 1, 2, 1,                           // refresh, queue depths, row accesses
    ClosePage, PerRank, RankThenBankRoundRobin, Scheme1, false)

  lemma {:induction false} OverdueValid(c: Config)
    requires c == Overdue
    ensures c.Valid() && c.numRanks == 1 && c.refreshStagger == 1 && c.refreshPeriod == 1 && c.tRFC >= 5
  {
    assert Times(c.numRanks, c.refreshStagger) == 1 by { TimesOne(1); }
  }

  lemma {:induction false} OverdueGeometry(c: Config)
    requires c == Overdue
    ensures GeometryOk(c)
  {
    assert CeilLog2(4) == 2;
    assert CeilLog2(8) == 3;
    assert Times(1, 8) == 8;
  }

  /** There is such a configuration. */
  lemma {:induction false} OverdueHurried(c: Config)
    requires c == Overdue
    ensures Hurried(c)
  {
    OverdueValid(c);
    OverdueGeometry(c);
    hide GeometryOk, Config.Valid;
  }
}
