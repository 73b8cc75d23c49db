/** What every run of the memory system guarantees, in the terms of its users: the values
    reads return, the order and spacing of commands, the number of callbacks, the cycles of
    refresh requests. */
module RunTheorems {
  import opened Configuration
  import opened Packets
  import opened BankTiming
  import opened Scheduling
  import opened AddressMapping
  import opened MemoryModel
  import opened Pairing
  import opened Spacing
  import opened ActivateWindow
  import opened Conservation
  import opened Ordering
  import opened Refinement
  import opened RefreshCadence
  import opened SystemInvariant
  import opened Runs

  /** Nothing makes the simulator exit if writes to different ranks are spaced. */
  lemma {:induction false} NoExit(c: Config, events: seq<Event>)
    requires SystemOk(c) && c.WritesSpaced()
    ensures Run(c, events).Ok?
  {
    hide Inv, Run;
    RunSafe(c, events);
  }

  // ----- Values -----

  /** A memory of addresses: the value at addr after some transactions, in order. */
  function LastWritten(ts: seq<Transaction>, addr: nat): Word {
    if |ts| == 0 then Tracer
    else if ts[|ts| - 1].isWrite && ts[|ts| - 1].addr == addr then ts[|ts| - 1].data
    else LastWritten(ts[..|ts| - 1], addr)
  }

  /** An address of the memory that belongs to the given channel. */
  predicate OnChannel(c: Config, chan: nat, addr: nat)
    requires GeometryOk(c)
  {
    Addressable(c, addr) && Locate(c, addr).chan == chan
  }

  /** Addresses of one channel share a cell only if they are equal. */
  lemma {:induction false} SameCellSameAddress(c: Config, chan: nat, a: nat, b: nat)
    requires GeometryOk(c) && OnChannel(c, chan, a) && OnChannel(c, chan, b)
    requires var l, m := Locate(c, a), Locate(c, b);
             l.rank == m.rank && l.bank == m.bank && l.row == m.row && l.col == m.col
    ensures a == b
  {
    hide Locate, AddressOf, Addressable;
    AddressOfLocate(c, a);
    AddressOfLocate(c, b);
    assert Locate(c, a) == Locate(c, b);
  }

  /** On one channel the memory of cells is the memory of addresses. */
  lemma {:induction false} ExpectedIsLastWritten(c: Config, chan: nat, ts: seq<Transaction>, t: Transaction)
    requires GeometryOk(c) && OnChannel(c, chan, t.addr)
    requires forall k :: 0 <= k < |ts| ==> OnChannel(c, chan, ts[k].addr)
    ensures var p := ColumnPacket(c, t);
            Expected(c, ts, p.rank, p.bank, CellOf(p)) == LastWritten(ts, t.addr)
  {
    hide Locate, Addressable;
    if |ts| > 0 {
      var last := ts[|ts| - 1];
      var p := ColumnPacket(c, t);
      ExpectedIsLastWritten(c, chan, ts[..|ts| - 1], t);
      if WritesCell(c, last, p.rank, p.bank, CellOf(p)) {
        SameCellSameAddress(c, chan, last.addr, t.addr);
      }
    }
  }

  /** Every answer is an accepted read with the value its cell had, in the order in which the
      controller accepted transactions, just before the read. Holds for all addresses. */
  lemma {:induction false} AnswersAreFaithful(c: Config, events: seq<Event>, i: nat)
    requires SystemOk(c) && Run(c, events).Ok? && i < |Run(c, events).value.log.received|
    ensures AnswerOk(c, Run(c, events).value.log.accepted, Run(c, events).value.log.received[i])
  {
    hide Run, Commands, DataPaths, Accounts, AnswerOk;
    RunSafe(c, events);
  }

  /** The pipeline refines a simple memory: a returned read carries the data of the last write
      to its address that was accepted before it, or the tracer value if there was none. */
  lemma {:induction false} ReadsReturnLastWrite(c: Config, events: seq<Event>, chan: nat, i: nat)
    requires SystemOk(c) && Run(c, events).Ok? && i < |Run(c, events).value.log.received|
    requires forall k :: 0 <= k < |events| && events[k].Request? ==> OnChannel(c, chan, events[k].transaction.addr)
    ensures var accepted := Run(c, events).value.log.accepted;
            var p := Run(c, events).value.log.received[i];
            && p.id < |accepted| && !accepted[p.id].isWrite && accepted[p.id].addr == p.addr
            && p.data == LastWritten(accepted[..p.id], p.addr)
  {
    AnswersAreFaithful(c, events, i);
    AllOnChannel(c, events, chan);
    hide Run, Expected, LastWritten, Locate, Addressable;
    var s := Run(c, events).value;
    var p := s.log.received[i];
    ExpectedIsLastWritten(c, chan, s.log.accepted[..p.id], s.log.accepted[p.id]);
  }

  // ----- What is accepted was requested -----

  predicate AllFrom(c: Config, chan: nat, ts: seq<Transaction>)
    requires GeometryOk(c)
  {
    forall k :: 0 <= k < |ts| ==> OnChannel(c, chan, ts[k].addr)
  }

  lemma {:induction false} FirstHalfAccepts(c: Config, s: State)
    requires FirstHalf(c, s).Ok?
    ensures FirstHalf(c, s).value.log.accepted == AdmitPhase(c, RanksPhase(c, s)).log.accepted
    ensures FirstHalf(c, s).value.waiting == AdmitPhase(c, RanksPhase(c, s)).waiting
  {
    hide RankReceive, RankUpdate, TickTable;
  }

  lemma {:induction false} PowerAccepts(c: Config, s: State, n: nat)
    requires PowerReady(c, s) && n <= c.numRanks && PowerPhase(c, s, n).Ok?
    ensures var s' := PowerPhase(c, s, n).value;
            s'.log == s.log.(powers := s'.log.powers) && s'.waiting == s.waiting
  {
    hide PowerOf;
    if n > 0 { PowerAccepts(c, s, n - 1); }
  }

  lemma {:induction false} PopAccepts(c: Config, s: State)
    requires PopReady(c, s) && PopPhase(c, s).Ok?
    ensures PopPhase(c, s).value.log.accepted == s.log.accepted && PopPhase(c, s).value.waiting == s.waiting
  {
    hide Pop, IssueTable;
  }

  lemma {:induction false} SplitAccepts(c: Config, s: State)
    requires SplitReady(c, s) && SplitPhase(c, s).Ok?
    ensures SplitPhase(c, s).value.log == s.log && SplitPhase(c, s).value.waiting == s.waiting
  {
    hide Locate, FirstWithRoom, QueueFor;
  }

  lemma {:induction false} SecondHalfAccepts(c: Config, s: State)
    requires SecondHalf(c, s).Ok?
    ensures SecondHalf(c, s).value.log.accepted == s.log.accepted && SecondHalf(c, s).value.waiting == s.waiting
  {
    hide PopPhase, SplitPhase, PowerPhase, PopReady, SplitReady, PowerReady, Locate;
    var a := RefreshPhase(c, s);
    PopAccepts(c, a);
    var b := PopPhase(c, a).value;
    SplitAccepts(c, b);
    var d := SplitPhase(c, b).value;
    PowerAccepts(c, d, c.numRanks);
  }

  lemma {:induction false} AllOnChannel(c: Config, events: seq<Event>, chan: nat)
    requires SystemOk(c) && Run(c, events).Ok?
    requires forall k :: 0 <= k < |events| && events[k].Request? ==> OnChannel(c, chan, events[k].transaction.addr)
    ensures AllFrom(c, chan, Run(c, events).value.log.accepted)
    ensures AllFrom(c, chan, Run(c, events).value.waiting)
  {
    hide OnChannel, FirstHalf, SecondHalf, GeometryOk;
    if |events| > 0 {
      AllOnChannel(c, events[..|events| - 1], chan);
      var s := Run(c, events[..|events| - 1]).value;
      match events[|events| - 1]
      case Request(t) =>
      case Clock =>
        FirstHalfAccepts(c, s);
        SecondHalfAccepts(c, FirstHalf(c, s).value);
    }
  }

  // ----- Order and spacing of commands -----

  /** Column commands to one bank (under open page: to one row of it) are popped in the order
      of acceptance, and every popped column command is that of an accepted transaction. */
  lemma {:induction false} CommandsInOrder(c: Config, events: seq<Event>)
    requires SystemOk(c) && Run(c, events).Ok?
    ensures var log := Run(c, events).value.log;
            IssuedInOrder(c, log.issued) && IssuedKnown(c, log.accepted, log.issued)
  {
    hide Run, Commands, DataPaths, Accounts, IssuedInOrder, IssuedKnown;
    RunSafe(c, events);
  }

  /** Column commands to one rank are at least BL/2 cycles apart, a read waits until an earlier
      write to its rank has landed, and spaced writes leave room for a burst. */
  lemma {:induction false} CommandsSpaced(c: Config, events: seq<Event>)
    requires SystemOk(c) && Run(c, events).Ok?
    ensures Gaps(c, Run(c, events).value.log.issued)
  {
    hide Run, Gaps, DataPaths, Accounts, Orders;
    RunSafe(c, events);
  }

  /** Every popped command names an existing rank and bank. */
  lemma {:induction false} CommandsNameRanks(c: Config, events: seq<Event>)
    requires SystemOk(c) && Run(c, events).Ok?
    ensures IssuedInRange(c, Run(c, events).value.log.issued)
  {
    hide Run, IssuedInRange, DataPaths, Accounts, Orders;
    RunSafe(c, events);
  }

  /** Any five successive ACTIVATEs to a rank span at least tFAW cycles. */
  lemma {:induction false} FourActivateWindow(c: Config, events: seq<Event>, r: nat)
    requires SystemOk(c) && Run(c, events).Ok? && r < c.numRanks
    ensures Windowed(c, Activates(Run(c, events).value.log.issued, r))
  {
    hide Run, DataPaths, Accounts, Orders, Activates, Windowed;
    RunSafe(c, events);
    var s := Run(c, events).value;
    assert WindowOk(c, Activates(s.log.issued, r), s.ctrl.queue.faw[r], s.clock - 1);
  }

  /** The queues are pairs and lone column commands; a lone command waits for the open row of
      its bank, which has served no other access and is not closing. */
  lemma {:induction false} QueuesWellPaired(c: Config, events: seq<Event>)
    requires SystemOk(c) && Run(c, events).Ok?
    ensures var ctrl := Run(c, events).value.ctrl;
            WellPaired(c, ctrl.queue.queues, ctrl.table, ctrl.queue.counters)
  {
    hide Run, DataPaths, Accounts, Orders, WellPaired;
    RunSafe(c, events);
  }

  /** When read data is due on a rank's bus, the data sent before has left it. */
  lemma {:induction false} ReadDataKept(c: Config, events: seq<Event>, r: nat)
    requires SystemOk(c) && Run(c, events).Ok? && r < |Run(c, events).value.ranks|
    ensures var k := Run(c, events).value.ranks[r];
            |k.readQueue| > 0 && k.readQueue[0].left == 1 ==> BusTick(k.bus).None?
  {
    hide Run, Accounts, Orders, OnCadence, DataPaths, Gaps, Past;
    RunSafe(c, events);
    var s := Run(c, events).value;
    RanksAnswers(c, s, AtBoundary(s.clock));
  }

  /** The queues hold an ACTIVATE only in front of the column command of its own transaction,
      so an ACTIVATE that is dropped because its row is open goes together with that command. */
  lemma {:induction false} DroppedWithItsColumn(c: Config, events: seq<Event>, r: nat, q: nat, i: nat)
    requires SystemOk(c) && Run(c, events).Ok? && r < c.numRanks && q < c.Slots()
    requires var queues := Run(c, events).value.ctrl.queue.queues;
             |queues| == c.numRanks && |queues[r]| == c.Slots() && i < |queues[r][q]| && queues[r][q][i].kind.Activate?
    ensures var packets := Run(c, events).value.ctrl.queue.queues[r][q];
            i + 1 < |packets| && packets[i + 1].kind.IsColumn() && SameTarget(packets[i], packets[i + 1])
  {
    QueuesWellPaired(c, events);
    hide Run;
    var ctrl := Run(c, events).value.ctrl;
    assert QueuePaired(c, ctrl.queue.queues[r][q], ctrl.table[r], ctrl.queue.counters[r]);
  }

  // ----- Conservation -----

  /** For every address: the pending reads are the reads in the pipeline; every accepted read
      is unsplit, pending or called back for, so callbacks never outnumber accepted reads. */
  lemma {:induction false} ReadsConserved(c: Config, events: seq<Event>, a: nat)
    requires SystemOk(c) && Run(c, events).Ok?
    ensures var s := Run(c, events).value;
            && Addrs(s.ctrl.pendingReads, a) == InPipeline(s.ctrl, s.ranks, a)
            && ReadsOf(s.log.accepted, a)
               == ReadsOf(s.ctrl.transactions, a) + Addrs(s.ctrl.pendingReads, a) + Calls(s.log.callbacks, a)
  {
    hide Run, Commands, DataPaths, Orders, InPipeline;
    RunSafe(c, events);
  }

  // ----- Refresh -----

  /** Up to the current cycle, rank i was requested for refresh at exactly the cycles
      (i + 1) * stagger + k * period; the round-robin index is that of the next rank due, and no
      counter has passed below zero. */
  lemma {:induction false} RefreshesOnTime(c: Config, events: seq<Event>, i: nat, time: nat)
    requires SystemOk(c) && Run(c, events).Ok? && i < c.numRanks && time < Run(c, events).value.clock
    ensures RefreshRequest(time, i) in Run(c, events).value.log.requests <==> exists k: nat :: time == Due(c, i, k)
    ensures var s := Run(c, events).value;
            var n := |s.log.requests|;
            && s.ctrl.refreshRank == Turn(c, n) && s.clock <= NthDue(c, n)
            && CountsDown(c, s.ctrl.refreshCountdown, n, s.clock)
  {
    hide Run, Commands, DataPaths, Orders, Accounts, NthDue, CountsDown, Turn, Due;
    RunSafe(c, events);
    var s := Run(c, events).value;
    RequestedExactlyWhenDue(c, s.log.requests, s.ctrl.refreshRank, s.ctrl.refreshCountdown, s.clock, i, time);
  }
}
