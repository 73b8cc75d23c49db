/** When ranks sleep and wake, in every run: a sleeping rank gets no command, sleeps for at least
    tCKE cycles, is woken as soon as that is over and it is needed, and is not used for tXP
    cycles after that. */
module PowerTiming {
  import opened Configuration
  import opened Packets
  import opened BankTiming
  import opened Scheduling
  import opened AddressMapping
  import opened MemoryModel
  import opened Pairing
  import opened Lockstep
  import opened Spacing
  import opened SystemInvariant
  import opened Runs
  import opened CommandProtocol
  import opened CommandTiming
  import opened RefreshAccount
  import ReturnOrder

  /** When rank r was put to sleep, if it has not been woken since. */
  function SleptSince(powers: seq<PowerChange>, r: nat): Option<nat> {
    if |powers| == 0 then None
    else
      var e := powers[|powers| - 1];
      if e.rank != r then SleptSince(powers[..|powers| - 1], r) else if e.down then Some(e.time) else None
  }

  // ----- What is promised of a history -----

  /** Ranks sleep and wake in turn, and sleep for at least tCKE cycles. */
  predicate InTurn(c: Config, powers: seq<PowerChange>) {
    forall n :: 0 <= n < |powers| ==> TurnOk(c, powers[..n], powers[n])
  }

  predicate TurnOk(c: Config, powers: seq<PowerChange>, e: PowerChange) {
    var since := SleptSince(powers, e.rank);
    if e.down then since.None? else since.Some? && e.time >= since.value + c.tCKE
  }

  /** Rank r is woken after change n and before a cycle. */
  predicate WokenBy(powers: seq<PowerChange>, n: nat, r: nat, time: nat) {
    exists k :: n < k < |powers| && powers[k].rank == r && !powers[k].down && powers[k].time < time
  }

  /** The command comes late enough after an earlier power change n of its rank. */
  predicate Awaited(c: Config, powers: seq<PowerChange>, n: nat, e: Issue)
    requires n < |powers|
  {
    powers[n].rank == e.packet.rank && powers[n].time < e.time ==>
      if powers[n].down then WokenBy(powers, n, e.packet.rank, e.time)
      else e.packet.kind.Activate? || e.packet.kind.Refresh? ==> e.time >= powers[n].time + c.tXP
  }

  predicate AllAwaited(c: Config, powers: seq<PowerChange>, issued: seq<Issue>) {
    forall n, i :: 0 <= n < |powers| && 0 <= i < |issued| ==> Awaited(c, powers, n, issued[i])
  }

  // ----- What the tables keep -----

  predicate BankRemembers(c: Config, powers: seq<PowerChange>, r: nat, m: BankState) {
    && (m.mode.PowerDown? <==> SleptSince(powers, r).Some?)
    && (m.mode.PowerDown? ==> m.nextPowerUp == SleptSince(powers, r).value + c.tCKE)
    && forall n :: 0 <= n < |powers| && powers[n].rank == r && !powers[n].down ==> m.nextActivate >= powers[n].time + c.tXP
  }

  predicate TableRemembers(c: Config, powers: seq<PowerChange>, table: Table) {
    forall r, b :: 0 <= r < |table| && 0 <= b < |table[r]| ==> BankRemembers(c, powers, r, table[r][b])
  }

  /** Power changes before cycle tp, commands before cycle ti. */
  predicate Powers(c: Config, s: State, tp: nat, ti: nat) {
    && (forall n :: 0 <= n < |s.log.powers| ==> s.log.powers[n].time < tp)
    && (forall i :: 0 <= i < |s.log.issued| ==> s.log.issued[i].time < ti)
    && TableRemembers(c, s.log.powers, s.ctrl.table)
    && InTurn(c, s.log.powers) && AllAwaited(c, s.log.powers, s.log.issued)
  }

  // ----- Commands -----

  lemma {:induction false} WokenLater(powers: seq<PowerChange>, r: nat, n: nat, tp: nat)
    requires SleptSince(powers, r).None? && n < |powers| && powers[n].rank == r && powers[n].down
    requires forall k :: 0 <= k < |powers| ==> powers[k].time < tp
    ensures WokenBy(powers, n, r, tp)
  {
    var k := |powers| - 1;
    if powers[k].rank == r {
      assert n < k && !powers[k].down;
    } else {
      WokenLater(powers[..k], r, n, tp);
      var j :| n < j < k && powers[..k][j].rank == r && !powers[..k][j].down && powers[..k][j].time < tp;
      assert powers[j] == powers[..k][j];
    }
  }

  lemma {:induction false} PopAwaited(c: Config, s: State, p: BusPacket, n: nat)
    requires ReadyEverywhere(c, s, p) && InRange(c, p) && n < |s.log.powers|
    requires TableRemembers(c, s.log.powers, s.ctrl.table)
    requires forall k :: 0 <= k < |s.log.powers| ==> s.log.powers[k].time < s.clock
    ensures Awaited(c, s.log.powers, n, Issue(s.clock, p))
  {
    var powers, m := s.log.powers, s.ctrl.table[p.rank][p.bank];
    assert BankRemembers(c, powers, p.rank, m);
    assert ReadyIn(p, s.clock, m);
    if powers[n].rank == p.rank && powers[n].down { WokenLater(powers, p.rank, n, s.clock); }
  }

  lemma {:induction false} IssueRemembers(c: Config, powers: seq<PowerChange>, p: BusPacket, now: nat, r: nat, b: nat, m: BankState)
    requires BankRemembers(c, powers, r, m) && Comes(c, p, now, r, b, m)
    ensures BankRemembers(c, powers, r, IssueBank(c, p, now, r, b, m))
  {
    hide SleptSince;
    var m' := IssueBank(c, p, now, r, b, m);
    IssueActivateOnly(c, p, now, r, b, m);
    hide IssueBank, Comes;
  }

  /** A command neither wakes a bank nor brings its next ACTIVATE forward. */
  lemma {:induction false} IssueActivateOnly(c: Config, p: BusPacket, now: nat, r: nat, b: nat, m: BankState)
    requires Comes(c, p, now, r, b, m)
    ensures var m' := IssueBank(c, p, now, r, b, m);
            && m'.nextActivate >= m.nextActivate && m'.nextPowerUp == m.nextPowerUp
            && (m'.mode.PowerDown? <==> m.mode.PowerDown?)
  {
  }

  lemma {:induction false} PopTableRemembers(c: Config, s: State, p: BusPacket)
    requires c.Valid() && ReadyEverywhere(c, s, p) && TableRemembers(c, s.log.powers, s.ctrl.table)
    ensures TableRemembers(c, s.log.powers, IssueTable(c, p, s.clock, s.ctrl.table))
  {
    hide BankRemembers, ReadyIn, IssueBank;
    var table := s.ctrl.table;
    var table' := IssueTable(c, p, s.clock, table);
    forall r, b | 0 <= r < |table'| && 0 <= b < |table'[r]| ensures BankRemembers(c, s.log.powers, r, table'[r][b]) {
      assert BankRemembers(c, s.log.powers, r, table[r][b]);
      assert table'[r][b] == IssueBank(c, p, s.clock, r, b, table[r][b]);
      IssueRemembers(c, s.log.powers, p, s.clock, r, b, table[r][b]);
    }
  }

  lemma {:induction false} PopSomePowers(c: Config, s: State, q': QueueState, p: BusPacket)
    requires c.Valid() && ReadyEverywhere(c, s, p) && InRange(c, p) && Powers(c, s, s.clock, s.clock)
    ensures Powers(c, AfterPop(c, s, q', p), s.clock, s.clock + 1)
  {
    hide TableRemembers, InTurn, Awaited, ReadyEverywhere, IssueTable;
    PopTableRemembers(c, s, p);
    var issued := s.log.issued + [Issue(s.clock, p)];
    forall n, i | 0 <= n < |s.log.powers| && 0 <= i < |issued| ensures Awaited(c, s.log.powers, n, issued[i]) {
      if i == |s.log.issued| { PopAwaited(c, s, p, n); } else { assert Awaited(c, s.log.powers, n, s.log.issued[i]); }
    }
  }

  lemma {:induction false} PopPowers(c: Config, s: State, z: Stamps)
    requires Good(c, s, z) && s.ctrl.cmdBus.None? && Powers(c, s, s.clock, s.clock) && z.table == s.clock == z.past
    requires PopReady(c, s) && PopPhase(c, s).Ok?
    ensures Powers(c, PopPhase(c, s).value, s.clock, s.clock + 1)
  {
    hide DataPaths, Orders, Accounts, Decide, IssueTable, WellPaired, InStep, AllHeld, ViewOf, ReadyEverywhere, Past;
    hide TableRemembers, InTurn, AllAwaited, AfterPop;
    GoodPopReady(c, s, z);
    DecisionSound(c, s);
    var q := AgedQueue(s.ctrl.queue);
    var d := DecisionOf(c, s);
    match Chosen(c, q, d.choice)
    case None =>
    case Some(p) =>
      ChosenReadyEverywhere(c, s, z, ViewOf(q, s.ctrl.table, s.clock), q, d.choice, p);
      PopSomePowers(c, s, Commit(c, q, d).queue, p);
  }

  // ----- Power management -----

  lemma {:induction false} NotedSlept(powers: seq<PowerChange>, e: PowerChange, r: nat)
    ensures SleptSince(powers + [e], r) == if e.rank == r then (if e.down then Some(e.time) else None) else SleptSince(powers, r)
  {
    assert (powers + [e])[..|powers|] == powers;
  }

  /** A change at the end of the history concerns no earlier command. */
  lemma {:induction false} NotedAwaited(c: Config, powers: seq<PowerChange>, e: PowerChange, issued: seq<Issue>)
    requires AllAwaited(c, powers, issued) && forall i :: 0 <= i < |issued| ==> issued[i].time <= e.time
    ensures AllAwaited(c, powers + [e], issued)
  {
    var powers' := powers + [e];
    forall n, i | 0 <= n < |powers'| && 0 <= i < |issued| ensures Awaited(c, powers', n, issued[i]) {
      if n < |powers| {
        assert Awaited(c, powers, n, issued[i]);
        var x := issued[i];
        if WokenBy(powers, n, x.packet.rank, x.time) {
          var k :| n < k < |powers| && powers[k].rank == x.packet.rank && !powers[k].down && powers[k].time < x.time;
          assert powers'[k] == powers[k];
        }
      }
    }
  }

  lemma {:induction false} NotedInTurn(c: Config, powers: seq<PowerChange>, e: PowerChange)
    requires InTurn(c, powers) && TurnOk(c, powers, e)
    ensures InTurn(c, powers + [e])
  {
    hide TurnOk;
    var powers' := powers + [e];
    forall n | 0 <= n < |powers'| ensures TurnOk(c, powers'[..n], powers'[n]) {
      if n < |powers| { assert powers'[..n] == powers[..n] && TurnOk(c, powers[..n], powers[n]); } else { assert powers'[..n] == powers; }
    }
  }

  /** What power management of one rank does, from the history of power changes. */
  predicate FallsAsleep(c: Config, s: State, r: nat)
    requires PowerReady(c, s) && r < c.numRanks
  {
    && c.lowPower && QueueEmpty(s.ctrl.queue.queues[r]) && !s.ranks[r].refreshWaiting
    && forall b :: 0 <= b < c.numBanks ==> s.ctrl.table[r][b].mode.Idle?
  }

  predicate WakesUp(c: Config, s: State, r: nat, since: Option<nat>)
    requires PowerReady(c, s) && r < c.numRanks
  {
    && c.lowPower && since.Some? && s.clock >= since.value + c.tCKE
    && !(QueueEmpty(s.ctrl.queue.queues[r]) && !s.ranks[r].refreshWaiting)
  }

  /** Since when the rank sleeps after that. */
  function SleptAfter(c: Config, s: State, r: nat, since: Option<nat>): Option<nat>
    requires PowerReady(c, s) && r < c.numRanks
  {
    if FallsAsleep(c, s, r) then Some(s.clock) else if WakesUp(c, s, r, since) then None else since
  }

  lemma {:induction false} PowerStepPowers(c: Config, s: State, r: nat)
    requires PowerReady(c, s) && r < c.numRanks && PowerOk(s.ctrl.table[r], s.ctrl.powerDown[r], s.ranks[r])
    requires PowerOf(c, s, r).Ok? && Powers(c, s, s.clock + 1, s.clock + 1)
    ensures var s' := AfterPower(s, r, PowerOf(c, s, r).value);
            Powers(c, s', s.clock + 1, s.clock + 1)
            && forall i :: 0 <= i < c.numRanks ==>
                 SleptSince(s'.log.powers, i) == if i == r then SleptAfter(c, s, r, SleptSince(s.log.powers, r))
                                                 else SleptSince(s.log.powers, i)
  {
    hide InTurn, AllAwaited, QueueEmpty, RankPowerDown, RankPowerUp;
    var p := PowerOf(c, s, r).value;
    var powers, e := s.log.powers, PowerChange(s.clock, r, p.down);
    assert BankRemembers(c, powers, r, s.ctrl.table[r][0]);
    if p.down != s.ctrl.powerDown[r] {
      NotedInTurn(c, powers, e);
      NotedAwaited(c, powers, e, s.log.issued);
      forall i ensures SleptSince(powers + [e], i) == if i == r then (if e.down then Some(e.time) else None) else SleptSince(powers, i) {
        NotedSlept(powers, e, i);
      }
      hide SleptSince;
      ChangeRemembers(c, s, r);
    }
  }

  lemma {:induction false} ChangeRemembers(c: Config, s: State, r: nat)
    requires PowerReady(c, s) && r < c.numRanks && PowerOk(s.ctrl.table[r], s.ctrl.powerDown[r], s.ranks[r])
    requires PowerOf(c, s, r).Ok? && Powers(c, s, s.clock + 1, s.clock + 1)
    requires PowerOf(c, s, r).value.down != s.ctrl.powerDown[r]
    ensures var s' := AfterPower(s, r, PowerOf(c, s, r).value);
            TableRemembers(c, s'.log.powers, s'.ctrl.table)
  {
    hide InTurn, AllAwaited, QueueEmpty, RankPowerDown, RankPowerUp;
    var p := PowerOf(c, s, r).value;
    var powers, e := s.log.powers, PowerChange(s.clock, r, p.down);
    var table := s.ctrl.table[r := p.banks];
    forall i, b | 0 <= i < |table| && 0 <= b < |table[i]| ensures BankRemembers(c, powers + [e], i, table[i][b]) {
      assert BankRemembers(c, powers, i, s.ctrl.table[i][b]);
      NotedSlept(powers, e, i);
    }
  }

  lemma {:induction false} PowerPhasePowers(c: Config, s: State, z: Stamps, n: nat)
    requires Good(c, s, z) && PowerReady(c, s) && n <= c.numRanks && z.table == s.clock
    requires Busy(s.ctrl.table, s.ctrl.cmdBus) && Powers(c, s, s.clock + 1, s.clock + 1)
    ensures PowerPhase(c, s, n).Ok?
    ensures var s' := PowerPhase(c, s, n).value;
            && Powers(c, s', s.clock + 1, s.clock + 1) && s'.clock == s.clock
            && s'.ctrl.queue == s.ctrl.queue && |s'.ranks| == |s'.ctrl.table| == c.numRanks
            && (forall i :: n <= i < c.numRanks ==> s'.ranks[i] == s.ranks[i] && s'.ctrl.table[i] == s.ctrl.table[i])
            && forall i :: 0 <= i < c.numRanks ==>
                 SleptSince(s'.log.powers, i)
                 == if i < n then SleptAfter(c, s, i, SleptSince(s.log.powers, i)) else SleptSince(s.log.powers, i)
  {
    hide Good, Busy, PowerRank, Powers, SleptSince, PowerPhase, PowerOf;
    PowerGood(c, s, z, n);
    if n > 0 {
      PowerPhasePowers(c, s, z, n - 1);
      PowerGood(c, s, z, n - 1);
      var s1 := PowerPhase(c, s, n - 1).value;
      PowerStaysReady(c, s, n - 1);
      PowerStepGood(c, s1, z, n - 1);
      PowerUnfold(c, s, n, s1);
      GoodPowerOk(c, s1, z, n - 1);
      PowerStepPowers(c, s1, n - 1);
      assert SleptAfter(c, s1, n - 1, SleptSince(s1.log.powers, n - 1)) == SleptAfter(c, s, n - 1, SleptSince(s.log.powers, n - 1));
    } else {
      PowerNone(c, s);
    }
  }

  lemma {:induction false} GoodPowerOk(c: Config, s: State, z: Stamps, r: nat)
    requires Good(c, s, z) && PowerReady(c, s) && r < c.numRanks
    ensures PowerOk(s.ctrl.table[r], s.ctrl.powerDown[r], s.ranks[r])
  {
    hide DataPaths, Orders, Accounts, WellPaired, AllHeld, PowerOk;
  }

  // ----- A cycle -----

  lemma {:induction false} FirstHalfPowers(c: Config, s: State)
    requires Inv(c, s) && Powers(c, s, s.clock, s.clock) && FirstHalf(c, s).Ok?
    ensures var s' := FirstHalf(c, s).value;
            Powers(c, s', s.clock, s.clock) && s'.log.powers == s.log.powers && s'.clock == s.clock
  {
    hide DataPaths, Orders, Accounts, OnCadence, Commands, AllAwaited, InTurn, TableRemembers;
    TickRemembers(c, s, AtBoundary(s.clock));
    FirstHalfFrame(c, s);
    FirstHalfKeeps(c, s);
    FirstHalfNotes(c, s);
    hide FirstHalf;
  }

  lemma {:induction false} FirstHalfNotes(c: Config, s: State)
    requires FirstHalf(c, s).Ok?
    ensures FirstHalf(c, s).value.log.powers == s.log.powers
  {
    hide RankReceive, RankUpdate, TickTable;
  }

  lemma {:induction false} TickRemembers(c: Config, s: State, z: Stamps)
    requires Commands(c, s, z) && TableRemembers(c, s.log.powers, s.ctrl.table)
    ensures TableRemembers(c, s.log.powers, TickTable(c, s.ctrl.table))
  {
    hide BankRemembers, Synced, TickBank, WellPaired, AllHeld, Gaps;
    var table, powers := s.ctrl.table, s.log.powers;
    var table' := TickTable(c, table);
    forall r, b | 0 <= r < |table'| && 0 <= b < |table'[r]| ensures BankRemembers(c, powers, r, table'[r][b]) {
      var future := Future(c, s.ranks[r].table, s.ctrl.cmdBus, z.arrival, r);
      assert RankInStep(c, z.table, table[r], future);
      assert BankRemembers(c, powers, r, table[r][b]);
      assert table'[r][b] == TickBank(c, table[r][b]);
      TickBankRemembers(c, powers, r, z.table, table[r][b], future[b]);
    }
  }

  lemma {:induction false} TickBankRemembers(c: Config, powers: seq<PowerChange>, r: nat, t: int, m: BankState, k: BankState)
    requires BankRemembers(c, powers, r, m) && Synced(t, m, k)
    ensures BankRemembers(c, powers, r, TickBank(c, m))
  {
    hide SleptSince;
    TickSynced(c, t, m, k);
    assert TickBank(c, m).nextActivate == m.nextActivate && TickBank(c, m).nextPowerUp == m.nextPowerUp;
  }

  /** The cycle up to power management. */
  function BeforePower(c: Config, s: State): Outcome<State> {
    var a :- FirstHalf(c, s);
    if !RefreshReady(c, a) then Exit(OutOfRange) else
    if !PopReady(c, RefreshPhase(c, a)) then Exit(OutOfRange) else
    var b :- PopPhase(c, RefreshPhase(c, a));
    if !SplitReady(c, b) then Exit(OutOfRange) else
    var d :- SplitPhase(c, b);
    if !PowerReady(c, d) then Exit(OutOfRange) else Ok(d)
  }

  /** In a state of the invariant, with all that power management asks for. */
  ghost predicate ReadyForPower(c: Config, s: State, t: nat) {
    var z := Stamps(t, t + 1, t, t, t, t, t + 1);
    Good(c, s, z) && PowerReady(c, s) && Busy(s.ctrl.table, s.ctrl.cmdBus) && s.clock == t && Powers(c, s, t + 1, t + 1)
  }

  lemma {:induction false} RefreshNotes(c: Config, s: State)
    requires RefreshReady(c, s)
    ensures RefreshPhase(c, s).log.powers == s.log.powers
  {
  }

  lemma {:induction false} PopNotes(c: Config, s: State)
    requires PopReady(c, s) && PopPhase(c, s).Ok?
    ensures PopPhase(c, s).value.log.powers == s.log.powers && PopPhase(c, s).value.clock == s.clock
  {
    hide Pop, IssueTable;
  }

  lemma {:induction false} BeforePowerReady(c: Config, s: State)
    requires Inv(c, s) && Powers(c, s, s.clock, s.clock) && Cycle(c, s).Ok?
    ensures BeforePower(c, s).Ok? && ReadyForPower(c, BeforePower(c, s).value, s.clock)
    ensures BeforePower(c, s).value.log.powers == s.log.powers
    ensures var d := BeforePower(c, s).value;
            PowerPhase(c, d, c.numRanks).Ok?
            && Cycle(c, s).value == ClockPhase(ReturnPhase(PowerPhase(c, d, c.numRanks).value))
  {
    hide Good, FirstHalf, AllAwaited, InTurn, TableRemembers, RefreshPhase, PopPhase, SplitPhase, PowerPhase, ReturnPhase, ClockPhase;
    hide RefreshReady, PopReady, SplitReady, PowerReady;
    FirstHalfGood(c, s);
    FirstHalfPowers(c, s);
    var f := FirstHalf(c, s).value;
    var t: int := s.clock;
    var z0 := Stamps(t, t, t - 1, t, t, t, t);
    RefreshGood(c, f, z0);
    RefreshFrame(c, f);
    RefreshNotes(c, f);
    var a := RefreshPhase(c, f);
    PopGood(c, a, z0);
    PopPowers(c, a, z0);
    PopNotes(c, a);
    var b := PopPhase(c, a).value;
    var z := Stamps(t, t + 1, t, t, t, t, t + 1);
    SplitGood(c, b, z);
    SplitFrame(c, b);
  }

  lemma {:induction false} EndNotes(s: State)
    ensures var s' := ClockPhase(ReturnPhase(s));
            && s'.ctrl.table == s.ctrl.table && s'.log.issued == s.log.issued && s'.log.powers == s.log.powers
            && s'.clock == s.clock + 1
  {
  }

  /** In a cycle each rank goes to sleep or wakes exactly as the history of power changes, its
      queues and its refresh flag say. */
  lemma {:induction false} CyclePowers(c: Config, s: State)
    requires Inv(c, s) && Powers(c, s, s.clock, s.clock) && Cycle(c, s).Ok?
    ensures var s' := Cycle(c, s).value; Powers(c, s', s'.clock, s'.clock)
    ensures BeforePower(c, s).Ok? && PowerReady(c, BeforePower(c, s).value) && BeforePower(c, s).value.clock == s.clock
    ensures forall r :: 0 <= r < c.numRanks ==>
              SleptSince(Cycle(c, s).value.log.powers, r)
              == SleptAfter(c, BeforePower(c, s).value, r, SleptSince(s.log.powers, r))
  {
    hide Cycle, BeforePower, Good, Busy, PowerReady, AllAwaited, InTurn, TableRemembers, PowerPhase, ReturnPhase, ClockPhase, SleptSince, SleptAfter;
    BeforePowerReady(c, s);
    var d := BeforePower(c, s).value;
    var t: int := s.clock;
    PowerPhasePowers(c, d, Stamps(t, t + 1, t, t, t, t, t + 1), c.numRanks);
    EndNotes(PowerPhase(c, d, c.numRanks).value);
  }

  // ----- The refresh flag of a rank -----

  /** A REFRESH reaches rank r in this cycle. */
  predicate RefreshArrives(s: State, r: nat) {
    var p := BusDone(s.ctrl.cmdBus);
    p.Some? && p.value.kind.Refresh? && p.value.rank == r
  }

  /** Rank r is due for a refresh, or asleep and due within the time it takes to wake up. */
  predicate RefreshNear(c: Config, s: State, r: nat) {
    && r == s.ctrl.refreshRank && r < |s.ctrl.refreshCountdown| && r < |s.ctrl.powerDown|
    && (s.ctrl.refreshCountdown[r] == 0 || (s.ctrl.powerDown[r] && s.ctrl.refreshCountdown[r] <= c.tXP))
  }

  lemma {:induction false} EarlyFlag(c: Config, s: State, r: nat)
    requires r < |s.ranks|
    ensures var s' := TickPhase(c, AdmitPhase(c, RanksPhase(c, s)));
            && |s'.ranks| == |s.ranks| && s'.ctrl.powerDown == s.ctrl.powerDown && s'.ctrl.cmdBus == s.ctrl.cmdBus
            && s'.ctrl.dataBus == s.ctrl.dataBus && s'.ranks[r].refreshWaiting == s.ranks[r].refreshWaiting
  {
    hide TickTable, Countdown;
  }

  lemma {:induction false} CommandFlag(c: Config, s: State, r: nat)
    requires r < |s.ranks| && CommandPhase(c, s).Ok?
    ensures var s' := CommandPhase(c, s).value;
            && |s'.ranks| == |s.ranks| && s'.ctrl.powerDown == s.ctrl.powerDown && s'.ctrl.dataBus == s.ctrl.dataBus
            && (s'.ranks[r].refreshWaiting <==> s.ranks[r].refreshWaiting && !RefreshArrives(s, r))
  {
    hide RankAllows, RankTable, ReadCell;
  }

  lemma {:induction false} DataFlag(c: Config, s: State, r: nat)
    requires r < |s.ranks| && DataPhase(c, s).Ok? && (s.ctrl.dataBus.Some? ==> s.ctrl.dataBus.value.packet.kind.Data?)
    ensures var s' := DataPhase(c, s).value;
            && |s'.ranks| == |s.ranks| && s'.ctrl.powerDown == s.ctrl.powerDown
            && s'.ranks[r].refreshWaiting == s.ranks[r].refreshWaiting
  {
    hide RankAllows, RankTable, ReadCell;
  }

  lemma {:induction false} FirstHalfFlag(c: Config, s: State, r: nat)
    requires FirstHalf(c, s).Ok? && r < |s.ranks| && (s.ctrl.dataBus.Some? ==> s.ctrl.dataBus.value.packet.kind.Data?)
    ensures var s' := FirstHalf(c, s).value;
            && |s'.ranks| == |s.ranks| && s'.ctrl.powerDown == s.ctrl.powerDown
            && (s'.ranks[r].refreshWaiting <==> s.ranks[r].refreshWaiting && !RefreshArrives(s, r))
  {
    hide TickPhase, AdmitPhase, RanksPhase, CommandPhase, DataPhase;
    EarlyFlag(c, s, r);
    var s1 := TickPhase(c, AdmitPhase(c, RanksPhase(c, s)));
    CommandFlag(c, s1, r);
    DataFlag(c, CommandPhase(c, s1).value, r);
  }

  lemma {:induction false} RefreshFlag(c: Config, s: State, r: nat)
    requires RefreshReady(c, s) && r < c.numRanks
    ensures |RefreshPhase(c, s).ranks| == c.numRanks
    ensures RefreshPhase(c, s).ranks[r].refreshWaiting <==> s.ranks[r].refreshWaiting || RefreshNear(c, s, r)
  {
  }

  lemma {:induction false} PopFrame(c: Config, s: State)
    requires PopReady(c, s) && PopPhase(c, s).Ok?
    ensures PopPhase(c, s).value.ranks == s.ranks
  {
    hide Pop, IssueTable;
  }

  lemma {:induction false} SplitRanks(c: Config, s: State)
    requires SplitReady(c, s) && SplitPhase(c, s).Ok?
    ensures SplitPhase(c, s).value.ranks == s.ranks
  {
    hide Locate, FirstWithRoom, QueueFor;
  }

  /** The flag that keeps a rank awake, or wakes it, is set when the rank is due or nearly so
      while asleep, and stays until its REFRESH arrives. */
  lemma {:induction false} FlagExactly(c: Config, s: State, r: nat)
    requires Inv(c, s) && BeforePower(c, s).Ok? && r < c.numRanks
    ensures |BeforePower(c, s).value.ranks| == |s.ranks| == c.numRanks
    ensures BeforePower(c, s).value.ranks[r].refreshWaiting <==>
              RefreshNear(c, s, r) || (s.ranks[r].refreshWaiting && !RefreshArrives(s, r))
  {
    hide Inv, FirstHalf, RefreshPhase, PopPhase, SplitPhase, PopReady, SplitReady, PowerReady;
    if s.ctrl.dataBus.Some? { ReturnOrder.InvData(c, s); }
    var f := FirstHalf(c, s).value;
    FirstHalfKeepsDue(c, s);
    FirstHalfSize(c, s);
    FirstHalfFlag(c, s, r);
    RefreshFlag(c, f, r);
    PopFrame(c, RefreshPhase(c, f));
    SplitRanks(c, PopPhase(c, RefreshPhase(c, f)).value);
  }

  lemma {:induction false} FirstHalfSize(c: Config, s: State)
    requires FirstHalf(c, s).Ok?
    ensures |FirstHalf(c, s).value.ranks| == |s.ranks|
  {
    hide RankReceive, TickTable, RankUpdate;
  }

  // ----- Every run -----

  lemma {:induction false} InitPowers(c: Config)
    requires c.Valid()
    ensures Powers(c, Init(c), Init(c).clock, Init(c).clock)
  {
  }

  lemma {:induction false} SubmitPowers(c: Config, s: State, t: Transaction)
    requires Powers(c, s, s.clock, s.clock)
    ensures Powers(c, Submit(c, s, t), Submit(c, s, t).clock, Submit(c, s, t).clock)
  {
    hide TableRemembers, AllAwaited, InTurn;
  }

  lemma {:induction false} RunPowers(c: Config, events: seq<Event>)
    requires SystemOk(c) && Run(c, events).Ok?
    ensures var s := Run(c, events).value; Powers(c, s, s.clock, s.clock)
  {
    hide Inv, Cycle, Submit, Init, Powers;
    if |events| == 0 {
      InitPowers(c);
    } else {
      var before := events[..|events| - 1];
      RunSafe(c, before);
      RunPowers(c, before);
      var s := Run(c, before).value;
      match events[|events| - 1]
      case Request(t) => SubmitPowers(c, s, t);
      case Clock => CyclePowers(c, s);
    }
  }

  /** In every run ranks sleep and wake in turn and sleep for at least tCKE cycles. No command is
      popped for a rank that sleeps, and no ACTIVATE or REFRESH less than tXP cycles after the
      rank was woken. */
  lemma {:induction false} SleepsUndisturbed(c: Config, events: seq<Event>)
    requires SystemOk(c) && Run(c, events).Ok?
    ensures var log := Run(c, events).value.log; InTurn(c, log.powers) && AllAwaited(c, log.powers, log.issued)
  {
    hide Run, InTurn, AllAwaited, TableRemembers;
    RunPowers(c, events);
  }

  /** In every cycle of every run a rank goes to sleep if and only if nothing waits for it and all
      its banks are idle, and a sleeping rank is woken if and only if it is needed and has slept
      for tCKE cycles: that is, in the first cycle that permits it. */
  lemma {:induction false} SleepsAndWakesExactly(c: Config, events: seq<Event>, r: nat)
    requires SystemOk(c) && Run(c, events).Ok? && Cycle(c, Run(c, events).value).Ok? && r < c.numRanks
    ensures var s := Run(c, events).value;
            && BeforePower(c, s).Ok? && PowerReady(c, BeforePower(c, s).value) && BeforePower(c, s).value.clock == s.clock
            && SleptSince(Cycle(c, s).value.log.powers, r)
               == SleptAfter(c, BeforePower(c, s).value, r, SleptSince(s.log.powers, r))
  {
    hide Run, Cycle, BeforePower, Powers, SleptSince, SleptAfter, PowerReady, Inv;
    RunSafe(c, events);
    RunPowers(c, events);
    CyclePowers(c, Run(c, events).value);
  }
}
