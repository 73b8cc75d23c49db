/** Every read the controller has split is in exactly one place until the processor is
    called back for it. */
module Conservation {
  import opened Configuration
  import opened Packets
  import opened Scheduling
  import opened AddressMapping
  import opened MemoryModel

  /** One if b holds and addr is the address a that is being counted. */
  function One(b: bool, addr: nat, a: nat): nat { if b && addr == a then 1 else 0 }

  /** Reads of address a in a queue. */
  function ReadAddrs(q: seq<BusPacket>, a: nat): nat {
    if |q| == 0 then 0
    else ReadAddrs(q[..|q| - 1], a) + One(q[|q| - 1].kind.IsRead(), q[|q| - 1].addr, a)
  }

  function TimedAddrs(ts: seq<Timed>, a: nat): nat {
    if |ts| == 0 then 0 else TimedAddrs(ts[..|ts| - 1], a) + One(true, ts[|ts| - 1].packet.addr, a)
  }

  function BusAddrs(bus: Option<Timed>, a: nat): nat {
    if bus.Some? then One(true, bus.value.packet.addr, a) else 0
  }

  function CommandAddrs(bus: Option<Timed>, a: nat): nat {
    if bus.Some? then One(bus.value.packet.kind.IsRead(), bus.value.packet.addr, a) else 0
  }

  function Addrs(ts: seq<Transaction>, a: nat): nat {
    if |ts| == 0 then 0 else Addrs(ts[..|ts| - 1], a) + One(true, ts[|ts| - 1].addr, a)
  }

  /** Reads of address a among some transactions. */
  function ReadsOf(ts: seq<Transaction>, a: nat): nat {
    if |ts| == 0 then 0 else ReadsOf(ts[..|ts| - 1], a) + One(!ts[|ts| - 1].isWrite, ts[|ts| - 1].addr, a)
  }

  function Calls(addrs: seq<nat>, a: nat): nat {
    if |addrs| == 0 then 0 else Calls(addrs[..|addrs| - 1], a) + One(true, addrs[|addrs| - 1], a)
  }

  function Sum(ms: seq<nat>): nat {
    if |ms| == 0 then 0 else Sum(ms[..|ms| - 1]) + ms[|ms| - 1]
  }

  function RankQueueAddrs(qs: seq<seq<BusPacket>>, a: nat): nat {
    Sum(seq(|qs|, s requires 0 <= s < |qs| => ReadAddrs(qs[s], a)))
  }

  function QueueAddrs(queues: seq<seq<seq<BusPacket>>>, a: nat): nat {
    Sum(seq(|queues|, r requires 0 <= r < |queues| => RankQueueAddrs(queues[r], a)))
  }

  function RankAddrs(k: RankState, a: nat): nat { TimedAddrs(k.readQueue, a) + BusAddrs(k.bus, a) }

  function RanksAddrs(ranks: seq<RankState>, a: nat): nat {
    Sum(seq(|ranks|, r requires 0 <= r < |ranks| => RankAddrs(ranks[r], a)))
  }

  /** Reads of address a in the queues, on the command bus, in the ranks and on their way
      back. */
  function InPipeline(ctrl: Controller, ranks: seq<RankState>, a: nat): nat {
    QueueAddrs(ctrl.queue.queues, a) + CommandAddrs(ctrl.cmdBus, a) + RanksAddrs(ranks, a) + Addrs(ctrl.returned, a)
  }

  /** For every address, the pending reads are the reads in the pipeline. */
  ghost predicate Conserved(ctrl: Controller, ranks: seq<RankState>) {
    forall a :: Addrs(ctrl.pendingReads, a) == InPipeline(ctrl, ranks, a)
  }

  /** Every accepted read is still to be split, pending, or answered by one callback. */
  ghost predicate Accounted(ctrl: Controller, log: History) {
    forall a :: ReadsOf(log.accepted, a)
      == ReadsOf(ctrl.transactions, a) + Addrs(ctrl.pendingReads, a) + Calls(log.callbacks, a)
  }

  // ----- Sums -----

  lemma {:induction false} SumUpdate(ms: seq<nat>, i: nat, m: nat)
    requires i < |ms|
    ensures Sum(ms[i := m]) + ms[i] == Sum(ms) + m
  {
    if i == |ms| - 1 {
      assert ms[i := m][..|ms| - 1] == ms[..|ms| - 1];
    } else {
      SumUpdate(ms[..|ms| - 1], i, m);
      assert ms[i := m][..|ms| - 1] == ms[..|ms| - 1][i := m];
    }
  }

  lemma {:induction false} QueueAddrsUpdate(queues: seq<seq<seq<BusPacket>>>, r: nat, s: nat, q: seq<BusPacket>, a: nat)
    requires r < |queues| && s < |queues[r]|
    ensures QueueAddrs(Update2(queues, r, s, q), a) + ReadAddrs(queues[r][s], a)
            == QueueAddrs(queues, a) + ReadAddrs(q, a)
  {
    var qs := queues[r];
    var qs' := qs[s := q];
    var inner := seq(|qs|, j requires 0 <= j < |qs| => ReadAddrs(qs[j], a));
    assert seq(|qs'|, j requires 0 <= j < |qs'| => ReadAddrs(qs'[j], a)) == inner[s := ReadAddrs(q, a)];
    SumUpdate(inner, s, ReadAddrs(q, a));
    var outer := seq(|queues|, j requires 0 <= j < |queues| => RankQueueAddrs(queues[j], a));
    var queues' := Update2(queues, r, s, q);
    assert seq(|queues'|, j requires 0 <= j < |queues'| => RankQueueAddrs(queues'[j], a))
        == outer[r := RankQueueAddrs(qs', a)];
    SumUpdate(outer, r, RankQueueAddrs(qs', a));
  }

  lemma {:induction false} RanksAddrsUpdate(ranks: seq<RankState>, r: nat, k: RankState, a: nat)
    requires r < |ranks|
    ensures RanksAddrs(ranks[r := k], a) + RankAddrs(ranks[r], a) == RanksAddrs(ranks, a) + RankAddrs(k, a)
  {
    var ms := seq(|ranks|, j requires 0 <= j < |ranks| => RankAddrs(ranks[j], a));
    var ranks' := ranks[r := k];
    assert seq(|ranks'|, j requires 0 <= j < |ranks'| => RankAddrs(ranks'[j], a)) == ms[r := RankAddrs(k, a)];
    SumUpdate(ms, r, RankAddrs(k, a));
  }

  lemma {:induction false} FrameRanksAddrs(ranks: seq<RankState>, ranks': seq<RankState>, a: nat)
    requires |ranks'| == |ranks|
    requires forall r :: 0 <= r < |ranks| ==>
               ranks'[r].bus == ranks[r].bus && ranks'[r].readQueue == ranks[r].readQueue
    ensures RanksAddrs(ranks', a) == RanksAddrs(ranks, a)
  {
    assert seq(|ranks'|, j requires 0 <= j < |ranks'| => RankAddrs(ranks'[j], a))
        == seq(|ranks|, j requires 0 <= j < |ranks| => RankAddrs(ranks[j], a));
  }

  // ----- Sequences -----

  lemma {:induction false} ReadAddrsCat(x: seq<BusPacket>, y: seq<BusPacket>, a: nat)
    ensures ReadAddrs(x + y, a) == ReadAddrs(x, a) + ReadAddrs(y, a)
  {
    if |y| == 0 {
      assert x + y == x;
    } else {
      ReadAddrsCat(x, y[..|y| - 1], a);
      assert (x + y)[..|x + y| - 1] == x + y[..|y| - 1];
    }
  }

  lemma {:induction false} ReadAddrsOne(p: BusPacket, a: nat)
    ensures ReadAddrs([p], a) == One(p.kind.IsRead(), p.addr, a)
  {
    assert [p][..0] == [];
  }

  lemma {:induction false} ReadAddrsWithout(q: seq<BusPacket>, i: nat, pair: bool, a: nat)
    requires i < |q| && (pair ==> i > 0 && !q[i - 1].kind.IsRead())
    ensures ReadAddrs(Without(q, i, pair), a) + One(q[i].kind.IsRead(), q[i].addr, a) == ReadAddrs(q, a)
  {
    assert q == q[..i] + ([q[i]] + q[i + 1..]);
    ReadAddrsCat(q[..i], [q[i]] + q[i + 1..], a);
    ReadAddrsCat([q[i]], q[i + 1..], a);
    ReadAddrsOne(q[i], a);
    if pair {
      assert q[..i] == q[..i - 1] + [q[i - 1]];
      ReadAddrsCat(q[..i - 1], [q[i - 1]], a);
      ReadAddrsOne(q[i - 1], a);
      ReadAddrsCat(q[..i - 1], q[i + 1..], a);
    } else {
      ReadAddrsCat(q[..i], q[i + 1..], a);
    }
  }

  lemma {:induction false} AddrsCat(x: seq<Transaction>, y: seq<Transaction>, a: nat)
    ensures Addrs(x + y, a) == Addrs(x, a) + Addrs(y, a) && ReadsOf(x + y, a) == ReadsOf(x, a) + ReadsOf(y, a)
  {
    if |y| == 0 {
      assert x + y == x;
    } else {
      AddrsCat(x, y[..|y| - 1], a);
      assert (x + y)[..|x + y| - 1] == x + y[..|y| - 1];
    }
  }

  lemma {:induction false} AddrsOne(t: Transaction, a: nat)
    ensures Addrs([t], a) == One(true, t.addr, a) && ReadsOf([t], a) == One(!t.isWrite, t.addr, a)
  {
    assert [t][..0] == [];
  }

  lemma {:induction false} AddrsRemove(ts: seq<Transaction>, i: nat, a: nat)
    requires i < |ts|
    ensures Addrs(RemoveAt(ts, i), a) + One(true, ts[i].addr, a) == Addrs(ts, a)
    ensures ReadsOf(RemoveAt(ts, i), a) + One(!ts[i].isWrite, ts[i].addr, a) == ReadsOf(ts, a)
  {
    assert ts == ts[..i] + ([ts[i]] + ts[i + 1..]);
    AddrsCat(ts[..i], [ts[i]] + ts[i + 1..], a);
    AddrsCat([ts[i]], ts[i + 1..], a);
    AddrsOne(ts[i], a);
    AddrsCat(ts[..i], ts[i + 1..], a);
  }

  lemma {:induction false} AddrsMember(ts: seq<Transaction>, a: nat)
    requires Addrs(ts, a) > 0
    ensures exists i :: 0 <= i < |ts| && ts[i].addr == a
  {
    if ts[|ts| - 1].addr != a {
      AddrsMember(ts[..|ts| - 1], a);
      var i :| 0 <= i < |ts| - 1 && ts[..|ts| - 1][i].addr == a;
      assert ts[i].addr == a;
    }
  }

  lemma {:induction false} AddrsHead(ts: seq<Transaction>, a: nat)
    requires |ts| > 0
    ensures Addrs(ts, a) == One(true, ts[0].addr, a) + Addrs(ts[1..], a)
  {
    assert ts == [ts[0]] + ts[1..];
    AddrsCat([ts[0]], ts[1..], a);
    AddrsOne(ts[0], a);
  }

  lemma {:induction false} TimedAddrsHead(ts: seq<Timed>, a: nat)
    requires |ts| > 0
    ensures TimedAddrs(ts, a) == One(true, ts[0].packet.addr, a) + TimedAddrs(ts[1..], a)
  {
    if |ts| > 1 {
      TimedAddrsHead(ts[..|ts| - 1], a);
      assert ts[..|ts| - 1][1..] == ts[1..][..|ts| - 2];
    }
  }

  lemma {:induction false} TimedAddrsCountdown(ts: seq<Timed>, a: nat)
    ensures TimedAddrs(Countdown(ts), a) == TimedAddrs(ts, a)
  {
    if |ts| > 0 {
      TimedAddrsCountdown(ts[..|ts| - 1], a);
      assert Countdown(ts)[..|ts| - 1] == Countdown(ts[..|ts| - 1]);
    }
  }

  lemma {:induction false} TimedAddrsSnoc(ts: seq<Timed>, x: Timed, a: nat)
    ensures TimedAddrs(ts + [x], a) == TimedAddrs(ts, a) + One(true, x.packet.addr, a)
  {
    assert (ts + [x])[..|ts|] == ts;
  }

  lemma {:induction false} CallsSnoc(addrs: seq<nat>, x: nat, a: nat)
    ensures Calls(addrs + [x], a) == Calls(addrs, a) + One(true, x, a)
  {
    assert (addrs + [x])[..|addrs|] == addrs;
  }

  // ----- The phases -----

  function DoneAddrs(k: RankState, a: nat): nat {
    if BusDone(k.bus).Some? then One(true, k.bus.value.packet.addr, a) else 0
  }

  /** A rank hands over what leaves its bus and keeps the rest, provided the bus is free when
      the next answer needs it. */
  lemma {:induction false} RankUpdateAddrs(c: Config, k: RankState, a: nat)
    requires |k.readQueue| > 0 && Dec(k.readQueue[0].left) == 0 ==> BusTick(k.bus).None?
    ensures RankAddrs(RankUpdate(c, k), a) + DoneAddrs(k, a) == RankAddrs(k, a)
  {
    TimedAddrsCountdown(k.readQueue, a);
    if |k.readQueue| > 0 { TimedAddrsHead(Countdown(k.readQueue), a); }
  }

  lemma {:induction false} RanksAddrsSnoc(ranks: seq<RankState>, a: nat)
    requires |ranks| > 0
    ensures RanksAddrs(ranks, a) == RanksAddrs(ranks[..|ranks| - 1], a) + RankAddrs(ranks[|ranks| - 1], a)
  {
    var n := |ranks| - 1;
    var front := ranks[..n];
    var ms := seq(|ranks|, j requires 0 <= j < |ranks| => RankAddrs(ranks[j], a));
    assert ms[..n] == seq(|front|, j requires 0 <= j < |front| => RankAddrs(front[j], a));
  }

  lemma {:induction false} ArrivalsSnoc(ranks: seq<RankState>, a: nat)
    requires |ranks| > 0
    ensures Addrs(Returns(Arrivals(ranks)), a)
            == Addrs(Returns(Arrivals(ranks[..|ranks| - 1])), a) + DoneAddrs(ranks[|ranks| - 1], a)
  {
    var n := |ranks| - 1;
    var last := Handed(ranks[n]);
    assert Returns(Arrivals(ranks)) == Returns(Arrivals(ranks[..n])) + Returns(last);
    AddrsCat(Returns(Arrivals(ranks[..n])), Returns(last), a);
    if BusDone(ranks[n].bus).Some? {
      assert Returns(last) == [ToReturn(last[0])];
      AddrsOne(ToReturn(last[0]), a);
    }
  }

  lemma {:induction false} ArrivalsAddrs(c: Config, ranks: seq<RankState>, ranks': seq<RankState>, a: nat)
    requires |ranks'| == |ranks| && forall r :: 0 <= r < |ranks| ==> ranks'[r] == RankUpdate(c, ranks[r])
    requires forall r :: 0 <= r < |ranks| && |ranks[r].readQueue| > 0 && Dec(ranks[r].readQueue[0].left) == 0 ==>
               BusTick(ranks[r].bus).None?
    ensures RanksAddrs(ranks', a) + Addrs(Returns(Arrivals(ranks)), a) == RanksAddrs(ranks, a)
  {
    if |ranks| > 0 {
      var n := |ranks| - 1;
      ArrivalsAddrs(c, ranks[..n], ranks'[..n], a);
      RankUpdateAddrs(c, ranks[n], a);
      RanksAddrsSnoc(ranks, a);
      RanksAddrsSnoc(ranks', a);
      ArrivalsSnoc(ranks, a);
    }
  }

  /** A command that arrives at its rank moves from the bus into the rank's queue if it is a
      read, and vanishes otherwise. */
  lemma {:induction false} ReceiveAddrs(c: Config, ranks: seq<RankState>, p: BusPacket, now: nat, a: nat)
    requires p.rank < |ranks| && RankReceive(c, ranks[p.rank], p, now).Ok?
    ensures RanksAddrs(ranks[p.rank := RankReceive(c, ranks[p.rank], p, now).value], a)
            == RanksAddrs(ranks, a) + One(p.kind.IsRead(), p.addr, a)
  {
    var k := RankReceive(c, ranks[p.rank], p, now).value;
    RanksAddrsUpdate(ranks, p.rank, k, a);
    if p.kind.IsRead() {
      TimedAddrsSnoc(ranks[p.rank].readQueue, k.readQueue[|k.readQueue| - 1], a);
    }
  }

  lemma {:induction false} PopAddrs(c: Config, q: QueueState, ch: Choice, a: nat)
    requires StateOk(c, q) && ChoiceOk(c, q, ch)
    requires ch.Take? && ch.pair ==> q.queues[ch.rank][ch.slot][ch.index - 1].kind.Activate?
    ensures QueueAddrs(QueuesAfter(c, q, ch), a)
            + (if ch.Nothing? then 0
               else One(Chosen(c, q, ch).value.kind.IsRead(), Chosen(c, q, ch).value.addr, a))
            == QueueAddrs(q.queues, a)
  {
    if ch.Take? {
      var packets := q.queues[ch.rank][ch.slot];
      QueueAddrsUpdate(q.queues, ch.rank, ch.slot, Without(packets, ch.index, ch.pair), a);
      ReadAddrsWithout(packets, ch.index, ch.pair, a);
    }
  }

  lemma {:induction false} SplitAddrs(c: Config, queues: seq<seq<seq<BusPacket>>>, t: Transaction, a: nat)
    requires SystemOk(c) && QueuesOk(c, queues)
    ensures var l := Locate(c, t.addr);
            var q := QueueFor(c, queues, t) + [ActivatePacket(c, t), ColumnPacket(c, t)];
            QueueAddrs(Update2(queues, l.rank, c.Slot(l.bank), q), a)
            == QueueAddrs(queues, a) + One(!t.isWrite, t.addr, a)
  {
    var l := Locate(c, t.addr);
    var act, col := ActivatePacket(c, t), ColumnPacket(c, t);
    var q := QueueFor(c, queues, t) + [act, col];
    QueueAddrsUpdate(queues, l.rank, c.Slot(l.bank), q, a);
    ReadAddrsCat(QueueFor(c, queues, t), [act, col], a);
    assert [act, col] == [act] + [col];
    ReadAddrsCat([act], [col], a);
    ReadAddrsOne(act, a);
    ReadAddrsOne(col, a);
  }

  /** The read at the head of the return queue is always found among the pending ones. */
  lemma {:induction false} ReturnFound(ctrl: Controller, ranks: seq<RankState>)
    requires Conserved(ctrl, ranks) && |ctrl.returned| > 0
    ensures FirstPending(ctrl.pendingReads, ctrl.returned[0].addr, 0) < |ctrl.pendingReads|
  {
    var a := ctrl.returned[0].addr;
    AddrsHead(ctrl.returned, a);
    assert Addrs(ctrl.pendingReads, a) == InPipeline(ctrl, ranks, a);
    AddrsMember(ctrl.pendingReads, a);
  }

  /** The head of the return queue is answered by exactly one callback. */
  lemma {:induction false} ReturnConserved(s: State)
    requires Conserved(s.ctrl, s.ranks) && Accounted(s.ctrl, s.log)
    ensures Conserved(ReturnPhase(s).ctrl, s.ranks) && Accounted(ReturnPhase(s).ctrl, ReturnPhase(s).log)
    ensures |s.ctrl.returned| > 0 ==>
              ReturnPhase(s).log.callbacks == s.log.callbacks + [s.ctrl.returned[0].addr]
  {
    if |s.ctrl.returned| > 0 {
      var addr := s.ctrl.returned[0].addr;
      ReturnFound(s.ctrl, s.ranks);
      var i := FirstPending(s.ctrl.pendingReads, addr, 0);
      forall a
        ensures Addrs(ReturnPhase(s).ctrl.pendingReads, a) == InPipeline(ReturnPhase(s).ctrl, s.ranks, a)
      {
        AddrsRemove(s.ctrl.pendingReads, i, a);
        AddrsHead(s.ctrl.returned, a);
        assert Addrs(s.ctrl.pendingReads, a) == InPipeline(s.ctrl, s.ranks, a);
      }
      forall a
        ensures ReadsOf(s.log.accepted, a) == ReadsOf(s.ctrl.transactions, a)
                + Addrs(ReturnPhase(s).ctrl.pendingReads, a) + Calls(ReturnPhase(s).log.callbacks, a)
      {
        AddrsRemove(s.ctrl.pendingReads, i, a);
        CallsSnoc(s.log.callbacks, addr, a);
      }
    }
  }
}
