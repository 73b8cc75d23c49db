/** How often an open row is accessed before it is closed. The scheduler counts the accesses
    whose ACTIVATE it could drop, but not the one the row was opened for. */
module RowAccesses {
  import opened Configuration
  import opened Packets
  import opened BankTiming
  import opened Scheduling
  import opened AddressMapping
  import opened MemoryModel
  import opened Pairing
  import opened Lockstep
  import opened Spacing
  import opened ActivateWindow
  import opened SystemInvariant
  import opened Runs
  import opened CommandProtocol
  import opened RefreshAccount

  /** Column commands for the row that is open in a bank, since it was opened. */
  function Accesses(issued: seq<Issue>, r: nat, b: nat): nat {
    if |issued| == 0 then 0
    else
      var p := issued[|issued| - 1].packet;
      if p.rank != r || (p.bank != b && !p.kind.Refresh?) then Accesses(issued[..|issued| - 1], r, b)
      else if p.kind.IsColumn() && !p.kind.IsAuto() then Accesses(issued[..|issued| - 1], r, b) + 1
      else 0
  }

  lemma {:induction false} AccessesSnoc(issued: seq<Issue>, e: Issue, r: nat, b: nat)
    ensures var p := e.packet;
            Accesses(issued + [e], r, b)
            == if p.rank != r || (p.bank != b && !p.kind.Refresh?) then Accesses(issued, r, b)
               else if p.kind.IsColumn() && !p.kind.IsAuto() then Accesses(issued, r, b) + 1
               else 0
  {
    assert (issued + [e])[..|issued|] == issued;
  }

  /** A counter is the number of accesses to the open row, without the one it was opened for
      once that has been sent. */
  predicate Counted(issued: seq<Issue>, r: nat, b: nat, count: nat) {
    count <= Accesses(issued, r, b) <= count + 1
  }

  predicate AllCounted(c: Config, issued: seq<Issue>, counters: seq<seq<nat>>) {
    Rect(counters, c.numRanks, c.numBanks)
    && forall r, b :: 0 <= r < c.numRanks && 0 <= b < c.numBanks ==> Counted(issued, r, b, counters[r][b])
  }

  /** A row a lone column command waits for has not been accessed. */
  predicate LonesFirst(issued: seq<Issue>, q: seq<BusPacket>) {
    forall i :: 0 <= i < |q| && LoneAt(q, i) ==> Accesses(issued, q[i].rank, q[i].bank) == 0
  }

  predicate AllLonesFirst(queues: seq<seq<seq<BusPacket>>>, issued: seq<Issue>) {
    forall r, s :: 0 <= r < |queues| && 0 <= s < |queues[r]| ==> LonesFirst(issued, queues[r][s])
  }

  /** No access after the limit. */
  predicate Limited(c: Config, issued: seq<Issue>) {
    forall n :: 0 <= n < |issued| && issued[n].packet.kind.IsColumn() ==>
      Accesses(issued[..n], issued[n].packet.rank, issued[n].packet.bank) <= c.totalRowAccesses
  }

  predicate RowsCounted(c: Config, s: State) {
    && AllCounted(c, s.log.issued, s.ctrl.queue.counters)
    && AllLonesFirst(s.ctrl.queue.queues, s.log.issued)
    && Limited(c, s.log.issued)
  }

  // ----- Popping a command -----

  lemma {:induction false} PopCounted(c: Config, s: State, v: View, q: QueueState, ch: Choice, p: BusPacket)
    requires WellPaired(c, s.ctrl.queue.queues, s.ctrl.table, s.ctrl.queue.counters) && Ready(c, s, p)
    requires Choosing(c, s, v, q, ch) && Chosen(c, q, ch) == Some(p) && RowsCounted(c, s)
    ensures AllCounted(c, s.log.issued + [Issue(s.clock, p)], CountersAfter(c, q, ch))
  {
    hide Accesses, RefreshChoice, QueuePaired, Blocks, Limited;
    var e := Issue(s.clock, p);
    var counters' := CountersAfter(c, q, ch);
    if ch.Take? { assert LonesFirst(s.log.issued, q.queues[ch.rank][ch.slot]); }
    forall r, b | 0 <= r < c.numRanks && 0 <= b < c.numBanks
      ensures Counted(s.log.issued + [e], r, b, counters'[r][b])
    {
      AccessesSnoc(s.log.issued, e, r, b);
      assert Counted(s.log.issued, r, b, q.counters[r][b]);
      assert BankPolicy(c, s.ctrl.table[r][b], q.counters[r][b]);
      if p.rank == r && (p.bank == b || p.kind.Refresh?) { assert BankReady(p, s.clock, s.ctrl.table[r][b]); }
    }
  }

  lemma {:induction false} PopLimited(c: Config, s: State, v: View, q: QueueState, ch: Choice, p: BusPacket)
    requires Choosing(c, s, v, q, ch) && Chosen(c, q, ch) == Some(p) && RowsCounted(c, s) && InRange(c, p)
    ensures Limited(c, s.log.issued + [Issue(s.clock, p)])
  {
    hide Accesses, LonesFirst;
    var issued := s.log.issued + [Issue(s.clock, p)];
    forall n | 0 <= n < |issued| && issued[n].packet.kind.IsColumn()
      ensures Accesses(issued[..n], issued[n].packet.rank, issued[n].packet.bank) <= c.totalRowAccesses
    {
      assert issued[..n] == s.log.issued[..n];
      if n == |s.log.issued| {
        assert issued[..n] == s.log.issued;
        assert Counted(s.log.issued, p.rank, p.bank, q.counters[p.rank][p.bank]);
      }
    }
  }

  lemma {:induction false} PopLonesFirst(c: Config, s: State, v: View, q: QueueState, ch: Choice, p: BusPacket, r: nat, t: nat)
    requires WellPaired(c, s.ctrl.queue.queues, s.ctrl.table, s.ctrl.queue.counters)
    requires Choosing(c, s, v, q, ch) && Chosen(c, q, ch) == Some(p) && Ready(c, s, p)
    requires r < c.numRanks && t < c.Slots() && LonesFirst(s.log.issued, q.queues[r][t])
    ensures LonesFirst(s.log.issued + [Issue(s.clock, p)], QueuesAfter(c, q, ch)[r][t])
  {
    hide Accesses, WellPaired, Ready, ViewOk, RefreshChoice, Issuable, LoneOk, Blocks, Usable;
    var e := Issue(s.clock, p);
    var packets := q.queues[r][t];
    var rest := QueuesAfter(c, q, ch)[r][t];
    PairedQueue(c, s, r, t);
    forall k | 0 <= k < |rest| && LoneAt(rest, k) ensures Accesses(s.log.issued + [e], rest[k].rank, rest[k].bank) == 0 {
      AccessesSnoc(s.log.issued, e, rest[k].rank, rest[k].bank);
      if ch.Take? && ch.rank == r && ch.slot == t {
        LoneBefore(packets, ch.index, ch.pair, k);
        if !(!ch.pair && k == ch.index && packets[k].kind.Activate?) {
          var j :| 0 <= j < |packets| && j != ch.index && LoneAt(packets, j) && packets[j] == rest[k];
          PopsOther(c, s, v, q, ch, p, r, t, j);
        }
      } else {
        PopsOther(c, s, v, q, ch, p, r, t, k);
      }
    }
  }

  lemma {:induction false} PopSomeCounted(c: Config, s: State, z: Stamps, v: View, q: QueueState, d: Decision, p: BusPacket)
    requires Commands(c, s, z) && RowsCounted(c, s) && z.table == s.clock && s.ctrl.cmdBus.None?
    requires Choosing(c, s, v, q, d.choice) && Chosen(c, q, d.choice) == Some(p) && PosOk(c, d.scan) && PosOk(c, d.pre)
    ensures RowsCounted(c, AfterPop(c, s, Commit(c, q, d).queue, p))
  {
    PopChosenReady(c, s, z, v, q, d.choice, p);
    hide Accesses, WellPaired, ViewOk, Sound, InStep, Windows, LonesFirst, Limited, AllHeld, Chosen, AllCounted;
    PopCounted(c, s, v, q, d.choice, p);
    PopLimited(c, s, v, q, d.choice, p);
    var queues' := QueuesAfter(c, q, d.choice);
    assert |queues'| == c.numRanks && forall r :: 0 <= r < c.numRanks ==> |queues'[r]| == c.Slots();
    forall r, t | 0 <= r < |queues'| && 0 <= t < |queues'[r]|
      ensures LonesFirst(s.log.issued + [Issue(s.clock, p)], queues'[r][t])
    {
      PopLonesFirst(c, s, v, q, d.choice, p, r, t);
    }
  }

  lemma {:induction false} PopRowsCounted(c: Config, s: State, z: Stamps)
    requires Good(c, s, z) && s.ctrl.cmdBus.None? && RowsCounted(c, s) && z.table == s.clock
    requires PopReady(c, s) && PopPhase(c, s).Ok?
    ensures RowsCounted(c, PopPhase(c, s).value)
  {
    hide Commands, DataPaths, Orders, Accounts, Decide, IssueTable, QueuesOk, WellPaired, ViewOf, AllCounted, AllLonesFirst, Limited;
    GoodPopReady(c, s, z);
    DecisionSound(c, s);
    var q := AgedQueue(s.ctrl.queue);
    var d := DecisionOf(c, s);
    match Chosen(c, q, d.choice)
    case None =>
    case Some(p) =>
      hide RowsCounted;
      PopSomeCounted(c, s, z, ViewOf(q, s.ctrl.table, s.clock), q, d, p);
  }

  // ----- The other phases -----

  lemma {:induction false} AppendLonesFirst(issued: seq<Issue>, q: seq<BusPacket>, act: BusPacket, col: BusPacket)
    requires LonesFirst(issued, q) && act.kind.Activate?
    ensures LonesFirst(issued, q + [act, col])
  {
    var q' := q + [act, col];
    forall i | 0 <= i < |q'| && LoneAt(q', i) ensures Accesses(issued, q'[i].rank, q'[i].bank) == 0 {
      assert i < |q| && LoneAt(q, i);
    }
  }

  lemma {:induction false} SplitRowsCounted(c: Config, s: State)
    requires RowsCounted(c, s) && SplitReady(c, s) && SplitPhase(c, s).Ok?
    ensures RowsCounted(c, SplitPhase(c, s).value)
  {
    hide Accesses, LonesFirst, AllCounted, Limited, Locate, FirstWithRoom;
    var ts := s.ctrl.transactions;
    var queues := s.ctrl.queue.queues;
    var i := FirstWithRoom(c, queues, ts, 0);
    if i < |ts| {
      AppendLonesFirst(s.log.issued, QueueFor(c, queues, ts[i]), ActivatePacket(c, ts[i]), ColumnPacket(c, ts[i]));
    }
  }

  lemma {:induction false} SameCounted(c: Config, s: State, s': State)
    requires RowsCounted(c, s) && s'.log.issued == s.log.issued
    requires s'.ctrl.queue.counters == s.ctrl.queue.counters && s'.ctrl.queue.queues == s.ctrl.queue.queues
    ensures RowsCounted(c, s')
  {
  }

  lemma {:induction false} RefreshCounters(c: Config, s: State)
    requires RefreshReady(c, s)
    ensures RefreshPhase(c, s).ctrl.queue.counters == s.ctrl.queue.counters
  {
  }

  lemma {:induction false} EndQueue(s: State)
    ensures var s' := ClockPhase(ReturnPhase(s)); s'.ctrl.queue == s.ctrl.queue && s'.log.issued == s.log.issued
  {
  }

  lemma {:induction false} SecondHalfCounted(c: Config, s: State)
    requires Good(c, s, Stamps(s.clock, s.clock, s.clock - 1, s.clock, s.clock, s.clock, s.clock))
    requires s.ctrl.cmdBus.None? && RowsCounted(c, s) && SecondHalf(c, s).Ok?
    ensures RowsCounted(c, SecondHalf(c, s).value)
  {
    hide Good, RowsCounted;
    hide RefreshPhase, PopPhase, SplitPhase, PowerPhase, ReturnPhase, ClockPhase, PowerReady, SplitReady, PopReady, RefreshReady;
    var t: int := s.clock;
    var z0 := Stamps(t, t, t - 1, t, t, t, t);
    RefreshGood(c, s, z0);
    RefreshFrame(c, s);
    RefreshCounters(c, s);
    var a := RefreshPhase(c, s);
    SameCounted(c, s, a);
    PopRowsCounted(c, a, z0);
    var b := PopPhase(c, a).value;
    SplitRowsCounted(c, b);
    var d := SplitPhase(c, b).value;
    PowerKeeps(c, d, c.numRanks);
    EndQueue(PowerPhase(c, d, c.numRanks).value);
    SameCounted(c, d, SecondHalf(c, s).value);
  }

  lemma {:induction false} CycleCounted(c: Config, s: State)
    requires Inv(c, s) && RowsCounted(c, s) && Cycle(c, s).Ok?
    ensures RowsCounted(c, Cycle(c, s).value)
  {
    hide Good, FirstHalf, SecondHalf, RowsCounted, OnCadence;
    FirstHalfGood(c, s);
    FirstHalfFrame(c, s);
    SameCounted(c, s, FirstHalf(c, s).value);
    SecondHalfCounted(c, FirstHalf(c, s).value);
  }

  // ----- Every run -----

  lemma {:induction false} InitCounted(c: Config)
    requires c.Valid()
    ensures RowsCounted(c, Init(c))
  {
  }

  lemma {:induction false} RunCounted(c: Config, events: seq<Event>)
    requires SystemOk(c) && Run(c, events).Ok?
    ensures RowsCounted(c, Run(c, events).value)
  {
    hide Inv, Cycle, Init, RowsCounted;
    if |events| == 0 {
      InitCounted(c);
    } else {
      var before := events[..|events| - 1];
      RunSafe(c, before);
      RunCounted(c, before);
      var s := Run(c, before).value;
      match events[|events| - 1]
      case Request(t) => SameCounted(c, s, Submit(c, s, t));
      case Clock => CycleCounted(c, s);
    }
  }

  /** In every run an open row is accessed at most as often as configured, and once more for the
      command it was opened for; and the counters of the scheduler tell how often it was. */
  lemma {:induction false} RowsClosedInTime(c: Config, events: seq<Event>)
    requires SystemOk(c) && Run(c, events).Ok?
    ensures var s := Run(c, events).value;
            && AllCounted(c, s.log.issued, s.ctrl.queue.counters)
            && forall n :: 0 <= n < |s.log.issued| && s.log.issued[n].packet.kind.IsColumn() ==>
                 Accesses(s.log.issued[..n], s.log.issued[n].packet.rank, s.log.issued[n].packet.bank) <= c.totalRowAccesses
  {
    hide Run, Accesses;
    RunCounted(c, events);
  }
}
