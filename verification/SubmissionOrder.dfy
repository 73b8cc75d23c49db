/** Requests and the order in which the controller accepts them: a request handed over while
    others wait overtakes them if the controller has room. */
module SubmissionOrder {
  import opened Configuration
  import opened Numbers
  import opened Packets
  import opened BankTiming
  import opened Scheduling
  import opened AddressMapping
  import opened MemoryModel
  import opened SystemInvariant
  import opened RunTheorems
  import opened CommandProtocol

  /** A transaction as it was handed over, without its place in the order of acceptance. */
  function Plain(t: Transaction): Transaction { t.(id := 0) }

  function AllPlain(ts: seq<Transaction>): (r: seq<Transaction>)
    ensures |r| == |ts|
  {
    seq(|ts|, i requires 0 <= i < |ts| => Plain(ts[i]))
  }

  /** Requests in the order of acceptance, then those that wait. */
  function InLine(s: State): seq<Transaction> { AllPlain(s.log.accepted) + AllPlain(s.waiting) }

  function Submitted(events: seq<Event>): seq<Transaction> {
    if |events| == 0 then []
    else
      var e := events[|events| - 1];
      Submitted(events[..|events| - 1]) + if e.Request? then [Plain(e.transaction)] else []
  }

  // ----- One request -----

  lemma {:induction false} PlainCat(a: seq<Transaction>, b: seq<Transaction>)
    ensures AllPlain(a + b) == AllPlain(a) + AllPlain(b)
  {
  }

  lemma {:induction false} PlainOne(t: Transaction, id: nat)
    ensures AllPlain([t.(id := id)]) == [Plain(t)]
  {
  }

  /** Something waits that is not just another copy of t. */
  predicate OtherWaits(s: State, t: Transaction) {
    exists k :: 0 <= k < |s.waiting| && Plain(s.waiting[k]) != Plain(t)
  }

  /** The request t would be accepted ahead of one that waits. */
  predicate Overtakes(c: Config, s: State, t: Transaction) { WillAccept(c, s) && OtherWaits(s, t) }

  /** Only copies commute with a sequence. */
  lemma {:induction false} CommutesExactly(x: Transaction, ts: seq<Transaction>)
    ensures [x] + ts == ts + [x] <==> forall k :: 0 <= k < |ts| ==> ts[k] == x
  {
    var left, right := [x] + ts, ts + [x];
    if left == right && |ts| > 0 {
      assert ts[0] == right[0] == left[0];
      var rest := ts[1..];
      assert left[1..] == ts && right[1..] == rest + [x] && ts == [x] + rest;
      CommutesExactly(x, rest);
      assert forall k :: 0 < k < |ts| ==> ts[k] == rest[k - 1];
    }
  }

  /** A request joins the end of the line if and only if it overtakes nothing. */
  lemma {:induction false} SubmitExactly(c: Config, s: State, t: Transaction)
    ensures InLine(Submit(c, s, t)) == InLine(s) + [Plain(t)] <==> !Overtakes(c, s, t)
  {
    var a, w, x := AllPlain(s.log.accepted), AllPlain(s.waiting), Plain(t);
    PlainOne(t, |s.log.accepted|);
    PlainOne(t, t.id);
    if WillAccept(c, s) {
      PlainCat(s.log.accepted, [t.(id := |s.log.accepted|)]);
      assert InLine(Submit(c, s, t)) == (a + [x]) + w == a + ([x] + w);
      assert InLine(s) + [x] == a + (w + [x]);
      CommutesExactly(x, w);
      assert forall k :: 0 <= k < |w| ==> w[k] == Plain(s.waiting[k]);
      assert OtherWaits(s, t) <==> exists k :: 0 <= k < |w| && w[k] != x by {
        if k :| 0 <= k < |w| && w[k] != x { assert Plain(s.waiting[k]) != Plain(t); }
        if k :| 0 <= k < |s.waiting| && Plain(s.waiting[k]) != Plain(t) { assert w[k] != x; }
      }
      SamePrefix(a, [x] + w, w + [x]);
    } else {
      PlainCat(s.waiting, [t]);
      assert t.(id := t.id) == t;
      assert InLine(Submit(c, s, t)) == a + (w + [x]);
    }
  }

  lemma {:induction false} SamePrefix(a: seq<Transaction>, b: seq<Transaction>, d: seq<Transaction>)
    ensures a + b == a + d <==> b == d
  {
    if a + b == a + d { assert b == (a + b)[|a|..] && d == (a + d)[|a|..]; }
  }

  // ----- Runs -----

  lemma {:induction false} AdmitInLine(c: Config, s: State)
    ensures InLine(AdmitPhase(c, RanksPhase(c, s))) == InLine(s)
  {
    if |s.waiting| > 0 {
      var t := s.waiting[0];
      PlainCat(s.log.accepted, [t.(id := |s.log.accepted|)]);
      PlainOne(t, |s.log.accepted|);
      assert s.waiting == [t] + s.waiting[1..];
      PlainCat([t], s.waiting[1..]);
      PlainOne(t, t.id);
      assert t.(id := t.id) == t;
    }
  }

  lemma {:induction false} CycleInLine(c: Config, s: State)
    requires Cycle(c, s).Ok?
    ensures InLine(Cycle(c, s).value) == InLine(s)
  {
    hide FirstHalf, SecondHalf, RanksPhase, AdmitPhase;
    FirstHalfAccepts(c, s);
    SecondHalfAccepts(c, FirstHalf(c, s).value);
    AdmitInLine(c, s);
  }

  /** No request of the run overtakes another. */
  ghost predicate Patient(c: Config, events: seq<Event>)
    requires c.Valid()
  {
    forall k :: 0 <= k < |events| && events[k].Request? && Run(c, events[..k]).Ok? ==>
      !Overtakes(c, Run(c, events[..k]).value, events[k].transaction)
  }

  /** In a run in which no request overtakes, requests are accepted in the order in which they
      were handed over, and none is lost. */
  lemma {:induction false} AcceptedInOrder(c: Config, events: seq<Event>)
    requires c.Valid() && Run(c, events).Ok? && Patient(c, events)
    ensures InLine(Run(c, events).value) == Submitted(events)
  {
    hide Cycle, Submit, InLine, Overtakes;
    if |events| == 0 {
      NothingInLine(c);
    } else {
      var before, e := events[..|events| - 1], events[|events| - 1];
      assert Patient(c, before) by {
        forall k | 0 <= k < |before| && before[k].Request? && Run(c, before[..k]).Ok?
          ensures !Overtakes(c, Run(c, before[..k]).value, before[k].transaction)
        {
          assert before[..k] == events[..k] && before[k] == events[k];
        }
      }
      AcceptedInOrder(c, before);
      var s := Run(c, before).value;
      match e
      case Request(t) => SubmitExactly(c, s, t);
      case Clock => CycleInLine(c, s);
    }
  }

  lemma {:induction false} NothingInLine(c: Config)
    requires c.Valid()
    ensures InLine(Init(c)) == []
  {
  }

  // ----- Requests that wait -----

  /** A cycle accepts the first waiting request if and only if there is room. */
  lemma {:induction false} CycleAdmits(c: Config, s: State)
    requires Cycle(c, s).Ok?
    ensures var s' := Cycle(c, s).value;
            if |s.waiting| > 0 && |s.ctrl.transactions| < c.transQueueDepth
            then s'.waiting == s.waiting[1..]
                 && s'.log.accepted == s.log.accepted + [s.waiting[0].(id := |s.log.accepted|)]
            else s'.waiting == s.waiting && s'.log.accepted == s.log.accepted
  {
    hide FirstHalf, SecondHalf;
    FirstHalfAccepts(c, s);
    SecondHalfAccepts(c, FirstHalf(c, s).value);
  }

  /** n cycles in which nothing is handed over. */
  function Cycles(c: Config, s: State, n: nat): Outcome<State> {
    if n == 0 then Ok(s)
    else
      var s' :- Cycles(c, s, n - 1);
      Cycle(c, s')
  }

  /** How many of them start with room for a transaction. */
  function RoomyCycles(c: Config, s: State, n: nat): nat {
    if n == 0 then 0
    else RoomyCycles(c, s, n - 1)
         + match Cycles(c, s, n - 1) case Ok(s') => (if |s'.ctrl.transactions| < c.transQueueDepth then 1 else 0) case Exit(_) => 0
  }

  /** Each cycle with room accepts one waiting request, in their order, until none is left: the
      k-th is accepted in the k-th such cycle. */
  lemma {:induction false} WaitingDrains(c: Config, s: State, n: nat)
    requires Cycles(c, s, n).Ok?
    ensures var k := Min(RoomyCycles(c, s, n), |s.waiting|);
            && 0 <= k <= |s.waiting| && Cycles(c, s, n).value.waiting == s.waiting[k..]
            && AllPlain(Cycles(c, s, n).value.log.accepted) == AllPlain(s.log.accepted) + AllPlain(s.waiting[..k])
  {
    hide Cycle;
    if n > 0 {
      WaitingDrains(c, s, n - 1);
      var s1 := Cycles(c, s, n - 1).value;
      var k := Min(RoomyCycles(c, s, n - 1), |s.waiting|);
      CycleAdmits(c, s1);
      if |s1.waiting| > 0 && |s1.ctrl.transactions| < c.transQueueDepth {
        PlainCat(s1.log.accepted, [s1.waiting[0].(id := |s1.log.accepted|)]);
        PlainOne(s1.waiting[0], |s1.log.accepted|);
        PlainCat(s.waiting[..k], [s.waiting[k]]);
        PlainOne(s.waiting[k], s.waiting[k].id);
        assert s.waiting[..k] + [s.waiting[k]] == s.waiting[..k + 1];
      }
    } else {
      assert s.waiting[..0] == [];
    }
  }

  // ----- Transactions that become commands -----

  predicate RoomFor(c: Config, s: State, t: Transaction)
    requires SystemOk(c) && QueuesOk(c, s.ctrl.queue.queues)
  {
    var l := Locate(c, t.addr);
    |s.ctrl.queue.queues[l.rank][c.Slot(l.bank)]| + 2 <= c.cmdQueueDepth
  }

  /** The first transaction whose queue has room for its two commands. */
  predicate FirstRoomy(c: Config, s: State, i: nat)
    requires SystemOk(c) && QueuesOk(c, s.ctrl.queue.queues)
  {
    var ts := s.ctrl.transactions;
    i < |ts| && RoomFor(c, s, ts[i]) && forall j :: 0 <= j < i ==> !RoomFor(c, s, ts[j])
  }

  lemma {:induction false} FirstRoomyFound(c: Config, s: State, i: nat)
    requires SystemOk(c) && QueuesOk(c, s.ctrl.queue.queues) && Bounded(c, s.ctrl.queue.queues)
    ensures FirstRoomy(c, s, i) <==>
              i < |s.ctrl.transactions| && i == FirstWithRoom(c, s.ctrl.queue.queues, s.ctrl.transactions, 0)
  {
    hide Locate, GeometryOk;
    var ts := s.ctrl.transactions;
    forall j | 0 <= j < |ts| ensures RoomFor(c, s, ts[j]) <==> HasRoom(c, QueueFor(c, s.ctrl.queue.queues, ts[j]), 2) { }
    hide RoomFor, HasRoom, QueueFor;
  }

  /** Exactly the first transaction with room is split: an ACTIVATE and a column command join the
      end of its queue, and a read becomes pending. */
  lemma {:induction false} SplitsExactly(c: Config, s: State, i: nat)
    requires SystemOk(c) && QueuesOk(c, s.ctrl.queue.queues) && Bounded(c, s.ctrl.queue.queues) && FirstRoomy(c, s, i)
    ensures SplitPhase(c, s).Ok?
    ensures var s', t := SplitPhase(c, s).value, s.ctrl.transactions[i];
            var l := Locate(c, t.addr);
            var slot := c.Slot(l.bank);
            && s'.ctrl.transactions == s.ctrl.transactions[..i] + s.ctrl.transactions[i + 1..]
            && s'.ctrl.pendingReads == s.ctrl.pendingReads + (if t.isWrite then [] else [t])
            && s'.ctrl.queue.queues[l.rank][slot]
               == s.ctrl.queue.queues[l.rank][slot] + [ActivatePacket(c, t), ColumnPacket(c, t)]
            && forall r, b :: 0 <= r < c.numRanks && 0 <= b < c.Slots() && (r != l.rank || b != slot) ==>
                 s'.ctrl.queue.queues[r][b] == s.ctrl.queue.queues[r][b]
  {
    FirstRoomyFound(c, s, i);
    hide Locate, GeometryOk, ActivatePacket, ColumnPacket, FirstWithRoom;
    assert s.ctrl.pendingReads + [] == s.ctrl.pendingReads;
  }

  /** Without room for any nothing changes. */
  lemma {:induction false} SplitsNone(c: Config, s: State)
    requires SystemOk(c) && QueuesOk(c, s.ctrl.queue.queues) && Bounded(c, s.ctrl.queue.queues)
    requires forall i :: 0 <= i < |s.ctrl.transactions| ==> !RoomFor(c, s, s.ctrl.transactions[i])
    ensures SplitPhase(c, s) == Ok(s)
  {
    FirstRoomyFound(c, s, FirstWithRoom(c, s.ctrl.queue.queues, s.ctrl.transactions, 0));
    hide Locate, GeometryOk, RoomFor;
  }

  // ----- A run in which a request overtakes -----

  predicate QueuesEmpty(q: QueueState) {
    forall r, s :: 0 <= r < |q.queues| && 0 <= s < |q.queues[r]| ==> q.queues[r][s] == []
  }

  lemma {:induction false} PopEmpty(c: Config, q: QueueState, table: Table, now: nat)
    requires c.Valid() && StateOk(c, q) && Rect(table, c.numRanks, c.numBanks) && QueuesEmpty(q)
    ensures Pop(c, q, table, now).queue.queues == q.queues
  {
    var aged := q.(faw := AgedAll(q.faw));
    var v := ViewOf(aged, table, now);
    hide Decide;
    DecideOk(c, v, aged);
  }

  /** One transaction, whose queue is empty, is split in a cycle. */
  lemma {:induction false} CycleTakesOne(c: Config, s: State, t: Transaction)
    requires SystemOk(c) && c.cmdQueueDepth >= 2 && Cycle(c, s).Ok? && !WillAccept(c, s)
    requires s.ctrl.transactions == [t] && QueuesEmpty(s.ctrl.queue)
    ensures Cycle(c, s).value.ctrl.transactions == [] && Cycle(c, s).value.waiting == s.waiting
    ensures Cycle(c, s).value.log.accepted == s.log.accepted
  {
    hide FirstHalf, RefreshPhase, PopPhase, SplitPhase, PowerPhase, PopReady, SplitReady, PowerReady, RefreshReady, GeometryOk, Config.Valid, QueuesEmpty;
    FirstHalfFrame(c, s);
    FirstHalfTransactions(c, s);
    FirstHalfAccepts(c, s);
    var a := FirstHalf(c, s).value;
    SecondHalfAccepts(c, a);
    RefreshFrame(c, a);
    RefreshTransactions(c, a);
    var b := RefreshPhase(c, a);
    EmptyStays(a.ctrl.queue, b.ctrl.queue);
    PopTransactions(c, b);
    var d := PopPhase(c, b).value;
    EmptyStays(b.ctrl.queue, d.ctrl.queue);
    SplitTakes(c, d, t);
    PowerTransactions(c, SplitPhase(c, d).value, c.numRanks);
  }

  lemma {:induction false} EmptyStays(q: QueueState, q': QueueState)
    requires QueuesEmpty(q) && q'.queues == q.queues
    ensures QueuesEmpty(q')
  {
  }

  lemma {:induction false} FirstHalfTransactions(c: Config, s: State)
    requires FirstHalf(c, s).Ok? && !WillAccept(c, s)
    ensures FirstHalf(c, s).value.ctrl.transactions == s.ctrl.transactions
    ensures AdmitPhase(c, RanksPhase(c, s)).waiting == s.waiting
    ensures AdmitPhase(c, RanksPhase(c, s)).log.accepted == s.log.accepted
  {
    hide RankReceive, RankUpdate;
  }

  lemma {:induction false} RefreshTransactions(c: Config, s: State)
    requires RefreshReady(c, s)
    ensures RefreshPhase(c, s).ctrl.transactions == s.ctrl.transactions
  {
  }

  lemma {:induction false} PopTransactions(c: Config, s: State)
    requires PopReady(c, s) && PopPhase(c, s).Ok? && QueuesEmpty(s.ctrl.queue)
    ensures PopPhase(c, s).value.ctrl.transactions == s.ctrl.transactions
    ensures PopPhase(c, s).value.ctrl.queue.queues == s.ctrl.queue.queues
  {
    hide Pop;
    PopEmpty(c, s.ctrl.queue, s.ctrl.table, s.clock);
  }

  lemma {:induction false} SplitTakes(c: Config, s: State, t: Transaction)
    requires SplitReady(c, s) && SplitPhase(c, s).Ok? && c.cmdQueueDepth >= 2
    requires s.ctrl.transactions == [t] && QueuesEmpty(s.ctrl.queue)
    ensures SplitPhase(c, s).value.ctrl.transactions == []
  {
    hide Locate;
    var l := Locate(c, t.addr);
    assert QueueFor(c, s.ctrl.queue.queues, t) == [];
    assert FirstWithRoom(c, s.ctrl.queue.queues, [t], 0) == 0;
  }

  lemma {:induction false} PowerTransactions(c: Config, s: State, n: nat)
    requires PowerReady(c, s) && n <= c.numRanks && PowerPhase(c, s, n).Ok?
    ensures PowerPhase(c, s, n).value.ctrl.transactions == s.ctrl.transactions
  {
    hide PowerOf;
    if n > 0 { PowerTransactions(c, s, n - 1); }
  }

  /** With room for one transaction: a is accepted, b waits, and after one cycle x is accepted
      ahead of b. */
  lemma {:induction false} Overtaken(c: Config, a: Transaction, b: Transaction, x: Transaction)
    requires SystemOk(c) && c.WritesSpaced() && c.transQueueDepth == 1 && c.cmdQueueDepth >= 2
    ensures var r := Run(c, [Request(a), Request(b), Clock, Request(x)]);
            r.Ok? && r.value.log.accepted == [a.(id := 0), x.(id := 1)] && r.value.waiting == [b]
  {
    hide Cycle, Init, GeometryOk;
    var e1, e2, e3, e4 := [Request(a)], [Request(a), Request(b)], [Request(a), Request(b), Clock], [Request(a), Request(b), Clock, Request(x)];
    assert e1[..0] == [] && e2[..1] == e1 && e3[..2] == e2 && e4[..3] == e3;
    InitEmpty(c);
    var s0 := Init(c);
    var s1, s2 := Submit(c, s0, a), Submit(c, Submit(c, s0, a), b);
    assert Run(c, []) == Ok(s0);
    assert Run(c, e1) == Ok(s1);
    assert Run(c, e2) == Ok(s2);
    assert s2.ctrl.transactions == [a.(id := 0)] && s2.waiting == [b] && s2.log.accepted == [a.(id := 0)];
    NoExit(c, e3);
    assert Run(c, e3) == Cycle(c, s2);
    CycleTakesOne(c, s2, a.(id := 0));
    assert Run(c, e4) == Ok(Submit(c, Cycle(c, s2).value, x));
  }

  lemma {:induction false} InitEmpty(c: Config)
    requires c.Valid()
    ensures var s := Init(c);
            s.ctrl.transactions == [] && s.waiting == [] && s.log.accepted == [] && QueuesEmpty(s.ctrl.queue)
  {
  }
}
