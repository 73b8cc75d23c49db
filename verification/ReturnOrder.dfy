/** The read the controller finds for returned data is the read the data belongs to: reads of
    one address go through the pipeline in the order in which they became pending. */
module ReturnOrder {
  import opened Configuration
  import opened Packets
  import opened BankTiming
  import opened Scheduling
  import opened AddressMapping
  import opened MemoryModel
  import opened Pairing
  import opened Lockstep
  import opened Spacing
  import opened WritePath
  import opened ReadPath
  import opened Ordering
  import opened Refinement
  import opened SystemInvariant
  import opened Runs

  /** A read, by its address and its place in the order of acceptance. */
  datatype Ref = Ref(addr: nat, id: nat)

  /** The reads of address a, in order. */
  function Pick(rs: seq<Ref>, a: nat): seq<nat> {
    if |rs| == 0 then []
    else Pick(rs[..|rs| - 1], a) + if rs[|rs| - 1].addr == a then [rs[|rs| - 1].id] else []
  }

  lemma {:induction false} PickCat(x: seq<Ref>, y: seq<Ref>, a: nat)
    ensures Pick(x + y, a) == Pick(x, a) + Pick(y, a)
  {
    if |y| == 0 {
      assert x + y == x;
    } else {
      assert (x + y)[..|x + y| - 1] == x + y[..|y| - 1];
      PickCat(x, y[..|y| - 1], a);
    }
  }

  lemma {:induction false} PickNone(rs: seq<Ref>, a: nat)
    requires forall i :: 0 <= i < |rs| ==> rs[i].addr != a
    ensures Pick(rs, a) == []
  {
    if |rs| > 0 { PickNone(rs[..|rs| - 1], a); }
  }

  /** The first of them. */
  lemma {:induction false} PickFirst(rs: seq<Ref>, a: nat, i: nat)
    requires i < |rs| && rs[i].addr == a && forall j :: 0 <= j < i ==> rs[j].addr != a
    ensures Pick(rs, a) == [rs[i].id] + Pick(rs[i + 1..], a)
  {
    assert rs == (rs[..i] + [rs[i]]) + rs[i + 1..];
    PickCat(rs[..i] + [rs[i]], rs[i + 1..], a);
    PickCat(rs[..i], [rs[i]], a);
    PickNone(rs[..i], a);
    assert Pick([rs[i]], a) == [rs[i].id];
  }

  // ----- Where reads are -----

  function TransRefs(ts: seq<Transaction>): seq<Ref> {
    seq(|ts|, i requires 0 <= i < |ts| => Ref(ts[i].addr, ts[i].id))
  }

  function PacketRefs(ps: seq<BusPacket>): seq<Ref> {
    seq(|ps|, i requires 0 <= i < |ps| => Ref(ps[i].addr, ps[i].id))
  }

  function TimedRefs(ts: seq<Timed>): seq<Ref> {
    seq(|ts|, i requires 0 <= i < |ts| => Ref(ts[i].packet.addr, ts[i].packet.id))
  }

  function BusRefs(bus: Option<Timed>): seq<Ref> {
    if bus.Some? then [Ref(bus.value.packet.addr, bus.value.packet.id)] else []
  }

  function CommandRefs(bus: Option<Timed>): seq<Ref> {
    if bus.Some? && bus.value.packet.kind.IsRead() then BusRefs(bus) else []
  }

  /** The reads in a queue. */
  function QueueRefs(q: seq<BusPacket>): seq<Ref> {
    if |q| == 0 then []
    else QueueRefs(q[..|q| - 1]) + if q[|q| - 1].kind.IsRead() then [Ref(q[|q| - 1].addr, q[|q| - 1].id)] else []
  }

  lemma {:induction false} QueueRefsCat(x: seq<BusPacket>, y: seq<BusPacket>)
    ensures QueueRefs(x + y) == QueueRefs(x) + QueueRefs(y)
  {
    if |y| == 0 {
      assert x + y == x;
    } else {
      assert (x + y)[..|x + y| - 1] == x + y[..|y| - 1];
      QueueRefsCat(x, y[..|y| - 1]);
    }
  }

  /** The reads of address a in a queue. */
  function QueueIds(q: seq<BusPacket>, a: nat): seq<nat> { Pick(QueueRefs(q), a) }

  /** The reads in a rank, those about to leave first. */
  function RankRefs(k: RankState): seq<Ref> { BusRefs(k.bus) + TimedRefs(k.readQueue) }

  predicate Shaped(c: Config, s: State) {
    SystemOk(c) && |s.ranks| == c.numRanks && QueuesOk(c, s.ctrl.queue.queues)
  }

  /** The reads of address a in the pipeline, those that return first in front. */
  function LineIds(c: Config, s: State, a: nat): seq<nat>
    requires Shaped(c, s)
  {
    var l := Locate(c, a);
    Pick(TransRefs(s.ctrl.returned), a) + Pick(RankRefs(s.ranks[l.rank]), a) + Pick(CommandRefs(s.ctrl.cmdBus), a)
    + QueueIds(s.ctrl.queue.queues[l.rank][c.Slot(l.bank)], a)
  }

  /** For every address, the pending reads are the reads in the pipeline, in order. */
  ghost predicate Matched(c: Config, s: State) {
    Shaped(c, s) && forall a :: Pick(TransRefs(s.ctrl.pendingReads), a) == LineIds(c, s, a)
  }

  predicate SameLine(s: State, s': State) {
    && s'.ctrl.returned == s.ctrl.returned && s'.ctrl.pendingReads == s.ctrl.pendingReads
    && s'.ctrl.cmdBus == s.ctrl.cmdBus && s'.ctrl.queue.queues == s.ctrl.queue.queues && SameReads(s.ranks, s'.ranks)
  }

  lemma {:induction false} FrameMatched(c: Config, s: State, s': State)
    requires Matched(c, s) && SameLine(s, s')
    ensures Matched(c, s')
  {
    hide Pick, Locate, QueuesOk, SystemOk;
    assert Shaped(c, s');
    forall a ensures Pick(TransRefs(s'.ctrl.pendingReads), a) == LineIds(c, s', a) {
      assert Pick(TransRefs(s.ctrl.pendingReads), a) == LineIds(c, s, a);
    }
  }

  // ----- The ranks -----

  /** Data on a rank's bus is for an address of that rank. */
  predicate Homed(c: Config, ranks: seq<RankState>)
    requires GeometryOk(c)
  {
    forall k :: 0 <= k < |ranks| && ranks[k].bus.Some? ==> Locate(c, ranks[k].bus.value.packet.addr).rank == k
  }

  lemma {:induction false} PacketRefsCat(x: seq<BusPacket>, y: seq<BusPacket>)
    ensures PacketRefs(x + y) == PacketRefs(x) + PacketRefs(y)
  {
  }

  lemma {:induction false} HandedAway(c: Config, ranks: seq<RankState>, n: nat, a: nat)
    requires GeometryOk(c) && Homed(c, ranks) && n < |ranks| && Locate(c, a).rank != n
    ensures Pick(PacketRefs(Handed(ranks[n])), a) == []
  {
    hide Locate, GeometryOk, Pick;
    PickNone(PacketRefs(Handed(ranks[n])), a);
  }

  /** Of the data that arrives, what concerns an address comes from its rank. */
  lemma {:induction false} HomeArrivals(c: Config, ranks: seq<RankState>, a: nat)
    requires GeometryOk(c) && Homed(c, ranks)
    ensures var r := Locate(c, a).rank;
            Pick(PacketRefs(Arrivals(ranks)), a) == if r < |ranks| then Pick(PacketRefs(Handed(ranks[r])), a) else []
  {
    var n := |ranks| - 1;
    if |ranks| == 0 {
      assert PacketRefs(Arrivals(ranks)) == [];
    } else {
      hide Locate, GeometryOk, Pick, PacketRefs, Handed;
      HomeArrivals(c, ranks[..n], a);
      PacketRefsCat(Arrivals(ranks[..n]), Handed(ranks[n]));
      PickCat(PacketRefs(Arrivals(ranks[..n])), PacketRefs(Handed(ranks[n])), a);
      if Locate(c, a).rank != n { HandedAway(c, ranks, n, a); }
    }
  }

  /** A rank hands over the first of its reads and keeps the others in order. */
  lemma {:induction false} UpdateRefs(c: Config, k: RankState)
    requires |k.readQueue| > 0 && k.readQueue[0].left == 1 ==> BusTick(k.bus).None?
    requires forall i :: 0 <= i < |k.readQueue| ==> k.readQueue[i].left > 0
    ensures RankRefs(k) == PacketRefs(Handed(k)) + RankRefs(RankUpdate(c, k))
  {
    var rs := Countdown(k.readQueue);
    assert TimedRefs(rs) == TimedRefs(k.readQueue);
    if |rs| > 0 && rs[0].left == 0 {
      assert TimedRefs(rs) == [Ref(rs[0].packet.addr, rs[0].packet.id)] + TimedRefs(rs[1..]);
    }
  }

  lemma {:induction false} ReturnsRefs(ts: seq<Transaction>, ps: seq<BusPacket>)
    ensures TransRefs(ts + Returns(ps)) == TransRefs(ts) + PacketRefs(ps)
  {
  }

  lemma {:induction false} RanksMatched(c: Config, s: State)
    requires Matched(c, s) && Homed(c, s.ranks)
    requires forall r :: 0 <= r < |s.ranks| ==>
               && (|s.ranks[r].readQueue| > 0 && s.ranks[r].readQueue[0].left == 1 ==> BusTick(s.ranks[r].bus).None?)
               && forall i :: 0 <= i < |s.ranks[r].readQueue| ==> s.ranks[r].readQueue[i].left > 0
    ensures Matched(c, RanksPhase(c, s))
  {
    hide Pick, Locate, QueuesOk, SystemOk, RankRefs, PacketRefs, TransRefs, QueueIds, RankUpdate, Arrivals, Returns, Homed;
    var s' := RanksPhase(c, s);
    assert Shaped(c, s');
    ShapedGeometry(c, s);
    forall a ensures Pick(TransRefs(s'.ctrl.pendingReads), a) == LineIds(c, s', a) {
      assert Pick(TransRefs(s.ctrl.pendingReads), a) == LineIds(c, s, a);
      var k := s.ranks[Locate(c, a).rank];
      HomeArrivals(c, s.ranks, a);
      ReturnsRefs(s.ctrl.returned, Arrivals(s.ranks));
      PickCat(TransRefs(s.ctrl.returned), PacketRefs(Arrivals(s.ranks)), a);
      UpdateRefs(c, k);
      PickCat(PacketRefs(Handed(k)), RankRefs(RankUpdate(c, k)), a);
    }
  }

  lemma {:induction false} ShapedGeometry(c: Config, s: State)
    requires Shaped(c, s)
    ensures GeometryOk(c)
  {
  }

  // ----- The command bus -----

  lemma {:induction false} TimedRefsSnoc(ts: seq<Timed>, x: Timed)
    ensures TimedRefs(ts + [x]) == TimedRefs(ts) + [Ref(x.packet.addr, x.packet.id)]
  {
  }

  /** A command that arrives joins the reads of its rank, if it is one. */
  lemma {:induction false} ReceiveRefs(c: Config, k: RankState, cmd: Timed, now: nat)
    requires RankReceive(c, k, cmd.packet, now).Ok? && !cmd.packet.kind.Data?
    ensures RankRefs(RankReceive(c, k, cmd.packet, now).value) == RankRefs(k) + CommandRefs(Some(cmd))
  {
    var k' := RankReceive(c, k, cmd.packet, now).value;
    if cmd.packet.kind.IsRead() {
      TimedRefsSnoc(k.readQueue, k'.readQueue[|k.readQueue|]);
    }
  }

  lemma {:induction false} CommandMatched(c: Config, s: State)
    requires Matched(c, s) && CommandPhase(c, s).Ok?
    requires s.ctrl.cmdBus.Some? ==>
               && !s.ctrl.cmdBus.value.packet.kind.Data? && s.ctrl.cmdBus.value.left == 1
               && (s.ctrl.cmdBus.value.packet.kind.IsRead() ==>
                     GeometryOk(c) && Locate(c, s.ctrl.cmdBus.value.packet.addr).rank == s.ctrl.cmdBus.value.packet.rank)
    ensures Matched(c, CommandPhase(c, s).value)
  {
    hide Locate, QueuesOk, SystemOk, RankRefs, TransRefs, QueueIds, RankReceive;
    var s' := CommandPhase(c, s).value;
    assert Shaped(c, s');
    if s.ctrl.cmdBus.Some? {
      var p := s.ctrl.cmdBus.value.packet;
      ReceiveRefs(c, s.ranks[p.rank], s.ctrl.cmdBus.value, s.clock);
      ShapedGeometry(c, s);
      forall a ensures Pick(TransRefs(s'.ctrl.pendingReads), a) == LineIds(c, s', a) {
        assert Pick(TransRefs(s.ctrl.pendingReads), a) == LineIds(c, s, a);
        if Locate(c, a).rank == p.rank {
          PickCat(RankRefs(s.ranks[p.rank]), CommandRefs(s.ctrl.cmdBus), a);
        } else {
          PickNone(CommandRefs(s.ctrl.cmdBus), a);
        }
      }
    } else {
      assert s' == s;
    }
  }

  // ----- Popping and splitting -----

  lemma {:induction false} QueueRefsOne(p: BusPacket)
    ensures QueueRefs([p]) == if p.kind.IsRead() then [Ref(p.addr, p.id)] else []
  {
    assert [p][..0] == [];
  }

  lemma {:induction false} NoReads(q: seq<BusPacket>, a: nat)
    requires forall i :: 0 <= i < |q| && q[i].kind.IsRead() ==> q[i].addr != a
    ensures Pick(QueueRefs(q), a) == []
  {
    if |q| > 0 {
      var front, last := q[..|q| - 1], q[|q| - 1];
      NoReads(front, a);
      QueueRefsCat(front, [last]);
      assert front + [last] == q;
      QueueRefsOne(last);
      PickCat(QueueRefs(front), QueueRefs([last]), a);
    }
  }

  lemma {:induction false} QueueIdsCat(x: seq<BusPacket>, y: seq<BusPacket>, a: nat)
    ensures QueueIds(x + y, a) == QueueIds(x, a) + QueueIds(y, a)
  {
    QueueRefsCat(x, y);
    PickCat(QueueRefs(x), QueueRefs(y), a);
  }

  lemma {:induction false} QueueIdsOne(p: BusPacket, a: nat)
    ensures QueueIds([p], a) == if p.kind.IsRead() && p.addr == a then [p.id] else []
  {
    QueueRefsOne(p);
    PickOne(Ref(p.addr, p.id), a);
    hide QueueRefs;
  }

  lemma {:induction false} PickOne(x: Ref, a: nat)
    ensures Pick([x], a) == if x.addr == a then [x.id] else []
    ensures Pick([], a) == []
  {
    assert [x][..0] == [];
  }

  lemma {:induction false} NoIds(q: seq<BusPacket>, a: nat)
    requires forall i :: 0 <= i < |q| && q[i].kind.IsRead() ==> q[i].addr != a
    ensures QueueIds(q, a) == []
  {
    NoReads(q, a);
  }

  /** Taking a packet out of a queue: if it is a read, it was the first of its address. */
  lemma {:induction false} WithoutRefs(q: seq<BusPacket>, i: nat, pair: bool, a: nat)
    requires i < |q| && (pair ==> i > 0 && q[i - 1].kind.Activate?)
    requires forall j :: 0 <= j < i && q[j].kind.IsRead() && q[i].kind.IsRead() ==> q[j].addr != q[i].addr
    ensures QueueIds(q, a)
         == (if q[i].kind.IsRead() && q[i].addr == a then [q[i].id] else []) + QueueIds(Without(q, i, pair), a)
  {
    hide QueueIds;
    var front, rest := q[..i], q[i + 1..];
    assert q == (front + [q[i]]) + rest;
    QueueIdsCat(front + [q[i]], rest, a);
    QueueIdsCat(front, [q[i]], a);
    QueueIdsOne(q[i], a);
    if q[i].kind.IsRead() && q[i].addr == a { NoIds(front, a); }
    if pair {
      assert front == q[..i - 1] + [q[i - 1]];
      QueueIdsCat(q[..i - 1], [q[i - 1]], a);
      QueueIdsOne(q[i - 1], a);
      QueueIdsCat(q[..i - 1], rest, a);
    } else {
      QueueIdsCat(front, rest, a);
    }
  }

  /** The packets of a queue are for addresses that map to it. */
  lemma {:induction false} KnownHome(c: Config, accepted: seq<Transaction>, p: BusPacket)
    requires GeometryOk(c) && Known(c, accepted, p)
    ensures var l := Locate(c, p.addr);
            p.rank == l.rank && p.bank == l.bank && p.row == l.row
  {
    hide Locate, GeometryOk;
  }

  predicate FirstOfAddress(q: seq<BusPacket>, i: nat)
    requires i < |q|
  {
    forall j :: 0 <= j < i && q[j].kind.IsRead() && q[i].kind.IsRead() ==> q[j].addr != q[i].addr
  }

  /** A sound choice takes the first read of its address. */
  lemma {:induction false} TakesFirst(c: Config, accepted: seq<Transaction>, v: View, q: QueueState, ch: Choice)
    requires GeometryOk(c) && c.Valid() && ViewOk(c, v) && StateOk(c, q) && ChoiceOk(c, q, ch) && Sound(c, v, q, ch) && ch.Take?
    requires QueueInOrder(c, accepted, q.queues[ch.rank][ch.slot])
    ensures FirstOfAddress(q.queues[ch.rank][ch.slot], ch.index)
    ensures ch.pair ==> ch.index > 0 && q.queues[ch.rank][ch.slot][ch.index - 1].kind.Activate?
  {
    hide Locate, GeometryOk, Issuable, Known;
    var packets := q.queues[ch.rank][ch.slot];
    var p := packets[ch.index];
    KnownHome(c, accepted, p);
    forall j | 0 <= j < ch.index && packets[j].kind.IsRead() && p.kind.IsRead() ensures packets[j].addr != p.addr {
      KnownHome(c, accepted, packets[j]);
      assert !Conflict(c, packets[j], p);
    }
  }

  lemma {:induction false} PopIds(c: Config, accepted: seq<Transaction>, v: View, q: QueueState, ch: Choice, p: BusPacket, a: nat)
    requires SystemOk(c) && ViewOk(c, v) && StateOk(c, q) && ChoiceOk(c, q, ch) && Sound(c, v, q, ch)
    requires Chosen(c, q, ch) == Some(p) && QueuesInOrder(c, accepted, q.queues) && QueuesOk(c, QueuesAfter(c, q, ch))
    ensures var l := Locate(c, a);
            QueueIds(q.queues[l.rank][c.Slot(l.bank)], a)
            == (if p.kind.IsRead() && p.addr == a then [p.id] else []) + QueueIds(QueuesAfter(c, q, ch)[l.rank][c.Slot(l.bank)], a)
  {
    hide Locate, GeometryOk, Issuable, Known, QueueIds, ViewOk, RefreshChoice, Blocks, Without;
    var l := Locate(c, a);
    if ch.Take? {
      var packets := q.queues[ch.rank][ch.slot];
      assert QueueInOrder(c, accepted, packets) && PacketOk(c, ch.rank, ch.slot, p);
      KnownHome(c, accepted, p);
      TakesFirst(c, accepted, v, q, ch);
      WithoutRefs(packets, ch.index, ch.pair, a);
      if !(l.rank == ch.rank && c.Slot(l.bank) == ch.slot) {
        assert p.addr != a;
      }
    }
  }

  lemma {:induction false} CommandIds(p: BusPacket, left: nat, a: nat)
    ensures Pick(CommandRefs(Some(Timed(p, left))), a) == if p.kind.IsRead() && p.addr == a then [p.id] else []
    ensures Pick(CommandRefs(None), a) == []
  {
    PickOne(Ref(p.addr, p.id), a);
  }

  lemma {:induction false} PopLine(c: Config, s: State, s': State, p: BusPacket, a: nat)
    requires Shaped(c, s) && Shaped(c, s') && Pick(TransRefs(s.ctrl.pendingReads), a) == LineIds(c, s, a)
    requires s'.ctrl.returned == s.ctrl.returned && s'.ctrl.pendingReads == s.ctrl.pendingReads && s'.ranks == s.ranks
    requires s.ctrl.cmdBus.None? && s'.ctrl.cmdBus == Some(Timed(p, c.tCMD))
    requires var l := Locate(c, a);
             QueueIds(s.ctrl.queue.queues[l.rank][c.Slot(l.bank)], a)
             == (if p.kind.IsRead() && p.addr == a then [p.id] else []) + QueueIds(s'.ctrl.queue.queues[l.rank][c.Slot(l.bank)], a)
    ensures Pick(TransRefs(s'.ctrl.pendingReads), a) == LineIds(c, s', a)
  {
    hide Pick, Locate, QueuesOk, SystemOk, RankRefs, TransRefs, QueueIds, CommandRefs;
    CommandIds(p, c.tCMD, a);
  }

  lemma {:induction false} PopSomeMatched(c: Config, s: State, v: View, q: QueueState, d: Decision, p: BusPacket)
    requires Matched(c, s) && s.ctrl.cmdBus.None? && Choosing(c, s, v, q, d.choice) && Chosen(c, q, d.choice) == Some(p)
    requires PosOk(c, d.scan) && PosOk(c, d.pre) && QueuesInOrder(c, s.log.accepted, s.ctrl.queue.queues)
    ensures Matched(c, AfterPop(c, s, Commit(c, q, d).queue, p))
  {
    QueuesAfterOk(c, q, d.choice);
    hide Pick, Locate, QueuesOk, GeometryOk, TransRefs, LineIds, QueueIds, Sound, Chosen, IssueTable, ViewOk, QueuesInOrder;
    var s' := AfterPop(c, s, Commit(c, q, d).queue, p);
    assert Shaped(c, s');
    forall a ensures Pick(TransRefs(s'.ctrl.pendingReads), a) == LineIds(c, s', a) {
      PopIds(c, s.log.accepted, v, q, d.choice, p, a);
      PopLine(c, s, s', p, a);
    }
  }

  lemma {:induction false} GoodQueues(c: Config, s: State, z: Stamps)
    requires Good(c, s, z)
    ensures GeometryOk(c) && QueuesInOrder(c, s.log.accepted, s.ctrl.queue.queues)
  {
    hide Commands, DataPaths, Accounts, GeometryOk;
  }

  lemma {:induction false} PopMatched(c: Config, s: State, z: Stamps)
    requires Good(c, s, z) && s.ctrl.cmdBus.None? && Matched(c, s) && PopReady(c, s) && PopPhase(c, s).Ok?
    ensures Matched(c, PopPhase(c, s).value)
  {
    hide Commands, DataPaths, Orders, Accounts, Decide, IssueTable, QueuesOk, WellPaired, ViewOf, Matched;
    GoodPopReady(c, s, z);
    GoodQueues(c, s, z);
    DecisionSound(c, s);
    var q := AgedQueue(s.ctrl.queue);
    var d := DecisionOf(c, s);
    match Chosen(c, q, d.choice)
    case None => FrameMatched(c, s, PopPhase(c, s).value);
    case Some(p) => PopSomeMatched(c, s, ViewOf(q, s.ctrl.table, s.clock), q, d, p);
  }

  lemma {:induction false} TransRefsSnoc(ts: seq<Transaction>, t: Transaction)
    ensures TransRefs(ts + [t]) == TransRefs(ts) + [Ref(t.addr, t.id)]
  {
  }

  /** Two commands are enqueued for a transaction. */
  lemma {:induction false} SplitIds(c: Config, q: seq<BusPacket>, t: Transaction, a: nat)
    requires GeometryOk(c)
    ensures QueueIds(q + [ActivatePacket(c, t), ColumnPacket(c, t)], a)
         == QueueIds(q, a) + if !t.isWrite && t.addr == a then [t.id] else []
  {
    hide Locate, GeometryOk, QueueIds;
    var x, y := ActivatePacket(c, t), ColumnPacket(c, t);
    assert q + [x, y] == (q + [x]) + [y];
    QueueIdsCat(q + [x], [y], a);
    QueueIdsCat(q, [x], a);
    QueueIdsOne(x, a);
    QueueIdsOne(y, a);
  }

  lemma {:induction false} PendingIds(ts: seq<Transaction>, t: Transaction, a: nat)
    ensures Pick(TransRefs(ts + [t]), a) == Pick(TransRefs(ts), a) + if t.addr == a then [t.id] else []
  {
    TransRefsSnoc(ts, t);
    PickCat(TransRefs(ts), [Ref(t.addr, t.id)], a);
    PickOne(Ref(t.addr, t.id), a);
  }

  lemma {:induction false} SplitLine(c: Config, s: State, s': State, t: Transaction, a: nat)
    requires Shaped(c, s) && Shaped(c, s') && Pick(TransRefs(s.ctrl.pendingReads), a) == LineIds(c, s, a)
    requires s'.ctrl.returned == s.ctrl.returned && s'.ranks == s.ranks && s'.ctrl.cmdBus == s.ctrl.cmdBus
    requires s'.ctrl.pendingReads == if t.isWrite then s.ctrl.pendingReads else s.ctrl.pendingReads + [t]
    requires var l := Locate(c, t.addr);
             s'.ctrl.queue.queues == Update2(s.ctrl.queue.queues, l.rank, c.Slot(l.bank),
                                             QueueFor(c, s.ctrl.queue.queues, t) + [ActivatePacket(c, t), ColumnPacket(c, t)])
    ensures Pick(TransRefs(s'.ctrl.pendingReads), a) == LineIds(c, s', a)
  {
    hide Pick, Locate, RankRefs, TransRefs, QueueIds, CommandRefs, ActivatePacket, ColumnPacket, GeometryOk;
    SplitIds(c, QueueFor(c, s.ctrl.queue.queues, t), t, a);
    PendingIds(s.ctrl.pendingReads, t, a);
    var old', new' := s.ctrl.queue.queues, s'.ctrl.queue.queues;
    var l, h := Locate(c, t.addr), Locate(c, a);
    if h.rank == l.rank && c.Slot(h.bank) == c.Slot(l.bank) {
      assert QueueIds(new'[h.rank][c.Slot(h.bank)], a)
          == QueueIds(old'[h.rank][c.Slot(h.bank)], a) + if !t.isWrite && t.addr == a then [t.id] else [];
    } else {
      assert new'[h.rank][c.Slot(h.bank)] == old'[h.rank][c.Slot(h.bank)];
    }
  }

  lemma {:induction false} SplitMatched(c: Config, s: State)
    requires Matched(c, s) && SplitReady(c, s) && SplitPhase(c, s).Ok?
    ensures Matched(c, SplitPhase(c, s).value)
  {
    hide Pick, Locate, GeometryOk, TransRefs, LineIds, ActivatePacket, ColumnPacket;
    var ts, queues := s.ctrl.transactions, s.ctrl.queue.queues;
    var i := FirstWithRoom(c, queues, ts, 0);
    var s' := SplitPhase(c, s).value;
    if i == |ts| {
      FrameMatched(c, s, s');
    } else {
      SplitQueuesOk(c, queues, ts[i]);
      hide QueuesOk, FirstWithRoom, QueueFor;
      forall a ensures Pick(TransRefs(s'.ctrl.pendingReads), a) == LineIds(c, s', a) {
        SplitLine(c, s, s', ts[i], a);
      }
    }
  }

  // ----- The return -----

  /** The pending read found for the data at the head of the return queue is the read that the
      data belongs to. */
  lemma {:induction false} FindsOwnRead(c: Config, s: State)
    requires Matched(c, s) && |s.ctrl.returned| > 0
    ensures var i := FirstPending(s.ctrl.pendingReads, s.ctrl.returned[0].addr, 0);
            i < |s.ctrl.pendingReads| && s.ctrl.pendingReads[i].id == s.ctrl.returned[0].id
  {
    var x := s.ctrl.returned[0];
    var pending := TransRefs(s.ctrl.pendingReads);
    var i := FirstPending(s.ctrl.pendingReads, x.addr, 0);
    PickFirst(TransRefs(s.ctrl.returned), x.addr, 0);
    assert Pick(pending, x.addr) == LineIds(c, s, x.addr);
    hide Pick, Locate, QueueIds, RankRefs, CommandRefs;
    assert LineIds(c, s, x.addr)[0] == x.id;
    if i < |pending| { PickFirst(pending, x.addr, i); } else { PickNone(pending, x.addr); }
  }

  lemma {:induction false} PickWithout(rs: seq<Ref>, i: nat, a: nat)
    requires i < |rs| && (rs[i].addr == a ==> forall j :: 0 <= j < i ==> rs[j].addr != a)
    ensures Pick(rs, a) == (if rs[i].addr == a then [rs[i].id] else []) + Pick(rs[..i] + rs[i + 1..], a)
  {
    hide Pick;
    var front, rest := rs[..i], rs[i + 1..];
    assert rs == (front + [rs[i]]) + rest;
    PickCat(front + [rs[i]], rest, a);
    PickCat(front, [rs[i]], a);
    PickOne(rs[i], a);
    PickCat(front, rest, a);
    if rs[i].addr == a { PickNone(front, a); }
  }

  lemma {:induction false} RefsWithout(ts: seq<Transaction>, i: nat)
    requires i < |ts|
    ensures TransRefs(RemoveAt(ts, i)) == TransRefs(ts)[..i] + TransRefs(ts)[i + 1..]
  {
  }

  lemma {:induction false} ReturnLine(c: Config, s: State, s': State, i: nat, a: nat)
    requires Shaped(c, s) && Shaped(c, s') && Pick(TransRefs(s.ctrl.pendingReads), a) == LineIds(c, s, a)
    requires |s.ctrl.returned| > 0 && i < |s.ctrl.pendingReads|
    requires s.ctrl.pendingReads[i].addr == s.ctrl.returned[0].addr && s.ctrl.pendingReads[i].id == s.ctrl.returned[0].id
    requires forall j :: 0 <= j < i ==> s.ctrl.pendingReads[j].addr != s.ctrl.returned[0].addr
    requires s'.ctrl.returned == s.ctrl.returned[1..] && s'.ctrl.pendingReads == RemoveAt(s.ctrl.pendingReads, i)
    requires s'.ranks == s.ranks && s'.ctrl.cmdBus == s.ctrl.cmdBus && s'.ctrl.queue == s.ctrl.queue
    ensures Pick(TransRefs(s'.ctrl.pendingReads), a) == LineIds(c, s', a)
  {
    hide Pick, Locate, QueueIds, RankRefs, CommandRefs, QueuesOk, SystemOk, TransRefs;
    var x := s.ctrl.returned[0];
    ReturnedFront(s.ctrl.returned, a);
    PendingWithout(s.ctrl.pendingReads, i, a);
    var head := if x.addr == a then [x.id] else [];
    assert LineIds(c, s, a) == head + LineIds(c, s', a);
    SameRest(head, Pick(TransRefs(s'.ctrl.pendingReads), a), LineIds(c, s', a));
  }

  lemma {:induction false} ReturnedFront(ts: seq<Transaction>, a: nat)
    requires |ts| > 0
    ensures Pick(TransRefs(ts), a) == (if ts[0].addr == a then [ts[0].id] else []) + Pick(TransRefs(ts[1..]), a)
  {
    var x := Ref(ts[0].addr, ts[0].id);
    assert TransRefs(ts) == [x] + TransRefs(ts[1..]);
    PickCat([x], TransRefs(ts[1..]), a);
    PickOne(x, a);
  }

  lemma {:induction false} PendingWithout(ts: seq<Transaction>, i: nat, a: nat)
    requires i < |ts| && forall j :: 0 <= j < i ==> ts[j].addr != ts[i].addr
    ensures Pick(TransRefs(ts), a) == (if ts[i].addr == a then [ts[i].id] else []) + Pick(TransRefs(RemoveAt(ts, i)), a)
  {
    RefsWithout(ts, i);
    PickWithout(TransRefs(ts), i, a);
  }

  lemma {:induction false} ReturnMatched(c: Config, s: State)
    requires Matched(c, s)
    ensures Matched(c, ReturnPhase(s))
  {
    if |s.ctrl.returned| > 0 {
      FindsOwnRead(c, s);
      hide Pick, TransRefs, LineIds, QueuesOk, SystemOk;
      var i := FirstPending(s.ctrl.pendingReads, s.ctrl.returned[0].addr, 0);
      var s' := ReturnPhase(s);
      assert Shaped(c, s');
      forall a ensures Pick(TransRefs(s'.ctrl.pendingReads), a) == LineIds(c, s', a) {
        ReturnLine(c, s, s', i, a);
      }
    }
  }

  lemma {:induction false} SameRest(h: seq<nat>, x: seq<nat>, y: seq<nat>)
    requires h + x == h + y
    ensures x == y
  {
    assert x == (h + x)[|h|..] && y == (h + y)[|h|..];
  }

  // ----- A cycle -----

  /** Data on the bus of rank r answers a read of that rank. */
  lemma {:induction false} BusHomed(c: Config, accepted: seq<Transaction>, arrived: seq<Issue>, k: RankState, r: nat, t: int)
    requires GeometryOk(c) && IssuedKnown(c, accepted, arrived) && AnswersOk(c, ReadIssues(arrived, r), k.bus, k.readQueue, t)
    requires k.bus.Some? && AnswerOk(c, accepted, k.bus.value.packet)
    ensures Locate(c, k.bus.value.packet.addr).rank == r
  {
    hide Locate, GeometryOk, QueuedAnswers, Expected;
    var rs := ReadIssues(arrived, r);
    var e := rs[|rs| - |k.readQueue| - 1];
    ReadIssuesMembers(arrived, r);
    assert e in rs && e in arrived;
    var n :| 0 <= n < |arrived| && arrived[n] == e;
    assert Known(c, accepted, arrived[n].packet);
  }

  lemma {:induction false} QueueLeft(c: Config, rs: seq<Issue>, k: RankState, t: int)
    requires AnswersOk(c, rs, k.bus, k.readQueue, t)
    ensures forall i :: 0 <= i < |k.readQueue| ==> k.readQueue[i].left > 0
  {
    var q := |rs| - |k.readQueue|;
    forall i | 0 <= i < |k.readQueue| ensures k.readQueue[i].left > 0 {
      assert QueuedAnswer(c, k.readQueue[i], rs[q..][i], t);
    }
  }

  lemma {:induction false} ArrivedKnown(c: Config, accepted: seq<Transaction>, issued: seq<Issue>, cmdBus: Option<Timed>)
    requires GeometryOk(c) && IssuedKnown(c, accepted, issued)
    ensures IssuedKnown(c, accepted, Arrived(issued, cmdBus))
  {
    hide Known, GeometryOk;
  }

  /** What the ranks hold is for their own addresses. */
  lemma {:induction false} InvHomed(c: Config, s: State)
    requires Inv(c, s)
    ensures GeometryOk(c) && Homed(c, s.ranks)
    ensures forall r :: 0 <= r < |s.ranks| ==>
              && (|s.ranks[r].readQueue| > 0 && s.ranks[r].readQueue[0].left == 1 ==> BusTick(s.ranks[r].bus).None?)
              && forall i :: 0 <= i < |s.ranks[r].readQueue| ==> s.ranks[r].readQueue[i].left > 0
  {
    hide OnCadence, Accounts, FlightOk, Stored, Landed, WellPaired, InStep, AllHeld, Locate, GeometryOk, Gaps, Past, AnswersOk, AnswerOk, IssuedKnown, AllOldest, AllBehind, QueuesInOrder, Covered, AnswersFaithful;
    var z := AtBoundary(s.clock);
    RanksAnswers(c, s, z);
    var arrived := Arrived(s.log.issued, s.ctrl.cmdBus);
    ArrivedKnown(c, s.log.accepted, s.log.issued, s.ctrl.cmdBus);
    forall r | 0 <= r < |s.ranks|
      ensures s.ranks[r].bus.Some? ==> Locate(c, s.ranks[r].bus.value.packet.addr).rank == r
      ensures forall i :: 0 <= i < |s.ranks[r].readQueue| ==> s.ranks[r].readQueue[i].left > 0
    {
      var k := s.ranks[r];
      assert AnswersOk(c, ReadIssues(arrived, r), k.bus, k.readQueue, z.rank);
      assert RankFaithful(c, s.log.accepted, k);
      QueueLeft(c, ReadIssues(arrived, r), k, z.rank);
      if k.bus.Some? { BusHomed(c, s.log.accepted, arrived, k, r, z.rank); }
    }
  }

  lemma {:induction false} InvCommand(c: Config, s: State)
    requires Inv(c, s) && s.ctrl.cmdBus.Some?
    ensures var cmd := s.ctrl.cmdBus.value;
            && GeometryOk(c) && !cmd.packet.kind.Data? && cmd.left == 1
            && (cmd.packet.kind.IsRead() ==> Locate(c, cmd.packet.addr).rank == cmd.packet.rank)
  {
    hide OnCadence, Accounts, DataPaths, WellPaired, AllHeld, Locate, GeometryOk, Faithful;
    var e := s.log.issued[|s.log.issued| - 1];
    assert e.packet == s.ctrl.cmdBus.value.packet;
    if e.packet.kind.IsRead() { KnownHome(c, s.log.accepted, e.packet); }
  }

  lemma {:induction false} EarlyFrame(c: Config, s: State)
    ensures SameLine(s, TickPhase(c, AdmitPhase(c, s)))
    ensures TickPhase(c, AdmitPhase(c, s)).clock == s.clock
  {
  }

  lemma {:induction false} DataFrame(c: Config, s: State)
    requires DataPhase(c, s).Ok? && s.ctrl.dataBus.Some? ==> s.ctrl.dataBus.value.packet.kind.Data?
    ensures DataPhase(c, s).Ok? ==> SameLine(s, DataPhase(c, s).value)
  {
  }

  lemma {:induction false} WriteFrame(c: Config, s: State)
    ensures WritePhase(c, s).Ok? ==> SameLine(s, WritePhase(c, s).value)
  {
  }

  lemma {:induction false} InvData(c: Config, s: State)
    requires Inv(c, s) && s.ctrl.dataBus.Some?
    ensures s.ctrl.dataBus.value.packet.kind.Data?
  {
    hide OnCadence, Accounts, Commands, Orders, Stored, AllAnswers;
    var f := Landed(s.log.issued, s.ctrl.dataBus, s.ctrl.writes);
    assert OnDataBus(c, s.ctrl.dataBus, f.flying, s.clock - 1);
  }

  lemma {:induction false} BusesKept(c: Config, s: State)
    ensures var d := TickPhase(c, AdmitPhase(c, RanksPhase(c, s)));
            && d.ctrl.cmdBus == s.ctrl.cmdBus && d.ctrl.dataBus == s.ctrl.dataBus
            && (CommandPhase(c, d).Ok? ==> CommandPhase(c, d).value.ctrl.dataBus == s.ctrl.dataBus)
  {
    hide RankReceive, RankUpdate, TickTable;
  }

  lemma {:induction false} FirstHalfMatched(c: Config, s: State)
    requires Inv(c, s) && Matched(c, s) && FirstHalf(c, s).Ok?
    ensures Matched(c, FirstHalf(c, s).value)
  {
    InvHomed(c, s);
    if s.ctrl.cmdBus.Some? { InvCommand(c, s); }
    if s.ctrl.dataBus.Some? { InvData(c, s); }
    hide Inv, Matched, RanksPhase, AdmitPhase, TickPhase, CommandPhase, DataPhase, WritePhase, Homed, GeometryOk, Locate;
    RanksMatched(c, s);
    var a := RanksPhase(c, s);
    EarlyFrame(c, a);
    var d := TickPhase(c, AdmitPhase(c, a));
    FrameMatched(c, a, d);
    BusesKept(c, s);
    CommandMatched(c, d);
    var e := CommandPhase(c, d).value;
    DataFrame(c, e);
    var f := DataPhase(c, e).value;
    FrameMatched(c, e, f);
    WriteFrame(c, f);
    FrameMatched(c, f, WritePhase(c, f).value);
  }

  lemma {:induction false} RefreshLine(c: Config, s: State)
    requires RefreshReady(c, s)
    ensures SameLine(s, RefreshPhase(c, s))
    ensures RefreshPhase(c, s).clock == s.clock && RefreshPhase(c, s).ctrl.cmdBus == s.ctrl.cmdBus
  {
  }

  lemma {:induction false} PowerLine(c: Config, s: State, n: nat)
    requires PowerReady(c, s) && n <= c.numRanks && PowerPhase(c, s, n).Ok?
    ensures SameLine(s, PowerPhase(c, s, n).value)
  {
    if n > 0 {
      PowerLine(c, s, n - 1);
      var s1 := PowerPhase(c, s, n - 1).value;
      PowerOfLine(c, s1, n - 1);
    }
  }

  lemma {:induction false} PowerOfLine(c: Config, s: State, r: nat)
    requires PowerReady(c, s) && r < c.numRanks && PowerOf(c, s, r).Ok?
    ensures SameLine(s, AfterPower(s, r, PowerOf(c, s, r).value))
  {
    hide Asleep, Awake, QueueEmpty;
  }

  lemma {:induction false} ClockLine(s: State)
    ensures SameLine(s, ClockPhase(s))
  {
  }

  /** The cycle up to the return of read data. */
  function BeforeReturn(c: Config, s: State): Outcome<State> {
    var a :- FirstHalf(c, s);
    if !RefreshReady(c, a) then Exit(OutOfRange) else
    if !PopReady(c, RefreshPhase(c, a)) then Exit(OutOfRange) else
    var b :- PopPhase(c, RefreshPhase(c, a));
    if !SplitReady(c, b) then Exit(OutOfRange) else
    var d :- SplitPhase(c, b);
    if !PowerReady(c, d) then Exit(OutOfRange) else
    PowerPhase(c, d, c.numRanks)
  }

  lemma {:induction false} BeforeReturnMatched(c: Config, s: State)
    requires Inv(c, s) && Matched(c, s) && Cycle(c, s).Ok?
    ensures BeforeReturn(c, s).Ok? && Matched(c, BeforeReturn(c, s).value)
    ensures Cycle(c, s).value == ClockPhase(ReturnPhase(BeforeReturn(c, s).value))
  {
    hide Good, FirstHalf, Matched, RefreshPhase, PopPhase, SplitPhase, PowerPhase, ReturnPhase, ClockPhase;
    hide RefreshReady, PopReady, SplitReady, PowerReady;
    FirstHalfGood(c, s);
    FirstHalfMatched(c, s);
    var f := FirstHalf(c, s).value;
    var t: int := s.clock;
    var z0 := Stamps(t, t, t - 1, t, t, t, t);
    RefreshGood(c, f, z0);
    RefreshLine(c, f);
    var a := RefreshPhase(c, f);
    FrameMatched(c, f, a);
    PopMatched(c, a, z0);
    var b := PopPhase(c, a).value;
    SplitMatched(c, b);
    var d := SplitPhase(c, b).value;
    PowerLine(c, d, c.numRanks);
    FrameMatched(c, d, PowerPhase(c, d, c.numRanks).value);
  }

  lemma {:induction false} CycleMatched(c: Config, s: State)
    requires Inv(c, s) && Matched(c, s) && Cycle(c, s).Ok?
    ensures Matched(c, Cycle(c, s).value)
  {
    hide Inv, Matched, Cycle, BeforeReturn, ReturnPhase, ClockPhase;
    BeforeReturnMatched(c, s);
    var e := BeforeReturn(c, s).value;
    ReturnMatched(c, e);
    ClockLine(ReturnPhase(e));
    FrameMatched(c, ReturnPhase(e), ClockPhase(ReturnPhase(e)));
  }

  // ----- Every run -----

  lemma {:induction false} InitMatched(c: Config)
    requires SystemOk(c)
    ensures Matched(c, Init(c))
  {
    hide Locate, GeometryOk;
    var s := Init(c);
    forall a ensures Pick(TransRefs(s.ctrl.pendingReads), a) == LineIds(c, s, a) {
      assert QueueRefs([]) == [] && Pick([], a) == [];
    }
  }

  lemma {:induction false} RunMatched(c: Config, events: seq<Event>)
    requires SystemOk(c) && Run(c, events).Ok?
    ensures Matched(c, Run(c, events).value)
  {
    hide Inv, Cycle, Init, Matched, GeometryOk;
    if |events| == 0 {
      InitMatched(c);
    } else {
      var before := events[..|events| - 1];
      RunSafe(c, before);
      RunMatched(c, before);
      var s := Run(c, before).value;
      match events[|events| - 1]
      case Request(t) => FrameMatched(c, s, Submit(c, s, t));
      case Clock => CycleMatched(c, s);
    }
  }

  /** In every cycle of every run, the callback is for the very read whose data is at the head
      of the return queue, not just for one of the same address. */
  lemma {:induction false} CallbackForOwnRead(c: Config, events: seq<Event>)
    requires SystemOk(c) && Run(c, events).Ok? && Cycle(c, Run(c, events).value).Ok?
    ensures BeforeReturn(c, Run(c, events).value).Ok?
    ensures var ctrl := BeforeReturn(c, Run(c, events).value).value.ctrl;
            |ctrl.returned| > 0 ==>
              var i := FirstPending(ctrl.pendingReads, ctrl.returned[0].addr, 0);
              i < |ctrl.pendingReads| && ctrl.pendingReads[i].id == ctrl.returned[0].id
  {
    hide Run, Cycle, BeforeReturn, Matched, Inv;
    RunSafe(c, events);
    RunMatched(c, events);
    var s := Run(c, events).value;
    BeforeReturnMatched(c, s);
    var e := BeforeReturn(c, s).value;
    if |e.ctrl.returned| > 0 { FindsOwnRead(c, e); }
  }
}
