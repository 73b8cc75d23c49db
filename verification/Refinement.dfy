/** The pipeline refines a simple memory: a read returns the last write to its cell that the
    controller accepted before the read. */
module Refinement {
  import opened Configuration
  import opened Packets
  import opened Scheduling
  import opened AddressMapping
  import opened MemoryModel
  import opened Spacing
  import opened WritePath
  import opened Ordering

  predicate WritesCell(c: Config, t: Transaction, r: nat, b: nat, cell: Cell)
    requires GeometryOk(c)
  {
    t.isWrite && Hits(ColumnPacket(c, t), r, b, cell)
  }

  /** The simple memory: the value of a cell after some transactions, in order. */
  function Expected(c: Config, ts: seq<Transaction>, r: nat, b: nat, cell: Cell): Word
    requires GeometryOk(c)
  {
    if |ts| == 0 then Tracer
    else if WritesCell(c, ts[|ts| - 1], r, b, cell) then ts[|ts| - 1].data
    else Expected(c, ts[..|ts| - 1], r, b, cell)
  }

  lemma {:induction false} ExpectedAt(c: Config, ts: seq<Transaction>, r: nat, b: nat, cell: Cell, m: nat)
    requires GeometryOk(c) && m < |ts| && WritesCell(c, ts[m], r, b, cell)
    requires forall j :: m < j < |ts| ==> !WritesCell(c, ts[j], r, b, cell)
    ensures Expected(c, ts, r, b, cell) == ts[m].data
  {
    if m < |ts| - 1 { ExpectedAt(c, ts[..|ts| - 1], r, b, cell, m); }
  }

  lemma {:induction false} ExpectedNone(c: Config, ts: seq<Transaction>, r: nat, b: nat, cell: Cell)
    requires GeometryOk(c) && forall j :: 0 <= j < |ts| ==> !WritesCell(c, ts[j], r, b, cell)
    ensures Expected(c, ts, r, b, cell) == Tracer
  {
    if |ts| > 0 { ExpectedNone(c, ts[..|ts| - 1], r, b, cell); }
  }

  lemma {:induction false} LastValueNone(ws: seq<Issue>, r: nat, b: nat, cell: Cell)
    requires forall i :: 0 <= i < |ws| ==> !Hits(ws[i].packet, r, b, cell)
    ensures LastValue(ws, r, b, cell) == Tracer
  {
    if |ws| > 0 { LastValueNone(ws[..|ws| - 1], r, b, cell); }
  }

  /** The last write to a cell. */
  lemma {:induction false} LastHit(ws: seq<Issue>, r: nat, b: nat, cell: Cell) returns (n: nat)
    requires exists i :: 0 <= i < |ws| && Hits(ws[i].packet, r, b, cell)
    ensures n < |ws| && Hits(ws[n].packet, r, b, cell)
    ensures forall i :: n < i < |ws| ==> !Hits(ws[i].packet, r, b, cell)
    ensures LastValue(ws, r, b, cell) == ws[n].packet.data
  {
    n := |ws| - 1;
    if !Hits(ws[n].packet, r, b, cell) {
      var i :| 0 <= i < |ws| && Hits(ws[i].packet, r, b, cell);
      assert ws[..|ws| - 1][i] == ws[i];
      n := LastHit(ws[..|ws| - 1], r, b, cell);
    }
  }

  /** The writes ws to a cell, popped in order of acceptance, are exactly the accepted ones
      among ts. */
  predicate SameWrites(c: Config, ws: seq<Issue>, ts: seq<Transaction>, r: nat, b: nat, cell: Cell)
    requires GeometryOk(c)
  {
    && (forall i :: 0 <= i < |ws| && Hits(ws[i].packet, r, b, cell) ==>
          ws[i].packet.id < |ts| && WritesCell(c, ts[ws[i].packet.id], r, b, cell)
          && ts[ws[i].packet.id].data == ws[i].packet.data)
    && (forall i, j :: 0 <= i < j < |ws| && Hits(ws[i].packet, r, b, cell) && Hits(ws[j].packet, r, b, cell) ==>
          ws[i].packet.id < ws[j].packet.id)
    && (forall k :: 0 <= k < |ts| && WritesCell(c, ts[k], r, b, cell) ==>
          exists i :: 0 <= i < |ws| && Hits(ws[i].packet, r, b, cell) && ws[i].packet.id == k)
  }

  lemma {:induction false} LastIsExpected(c: Config, ws: seq<Issue>, ts: seq<Transaction>, r: nat, b: nat, cell: Cell)
    requires GeometryOk(c) && SameWrites(c, ws, ts, r, b, cell)
    ensures LastValue(ws, r, b, cell) == Expected(c, ts, r, b, cell)
  {
    hide WritesCell, Hits, Expected, LastValue, Locate;
    if exists i :: 0 <= i < |ws| && Hits(ws[i].packet, r, b, cell) {
      var n := LastHit(ws, r, b, cell);
      var m := ws[n].packet.id;
      assert forall i :: 0 <= i < |ws| && Hits(ws[i].packet, r, b, cell) ==> ws[i].packet.id <= m;
      ExpectedAt(c, ts, r, b, cell, m);
    } else {
      LastValueNone(ws, r, b, cell);
      ExpectedNone(c, ts, r, b, cell);
    }
  }

  // ----- From the order of the run -----

  lemma {:induction false} WriteIssuesInOrder(c: Config, issued: seq<Issue>)
    requires IssuedInOrder(c, issued)
    ensures forall e :: e in WriteIssues(issued) ==> e in issued && e.packet.kind.IsWrite()
    ensures IssuedInOrder(c, WriteIssues(issued))
  {
    if |issued| > 0 {
      var front := issued[..|issued| - 1];
      var e := issued[|issued| - 1];
      WriteIssuesInOrder(c, front);
      var ws := WriteIssues(front);
      forall i | 0 <= i < |ws| ensures IdOrder(c, ws[i].packet, e.packet) {
        assert ws[i] in front;
        var n :| 0 <= n < |front| && front[n] == ws[i];
        assert IdOrder(c, issued[n].packet, issued[|issued| - 1].packet);
      }
    }
  }

  lemma {:induction false} WriteIssuesHas(issued: seq<Issue>, n: nat)
    requires n < |issued| && issued[n].packet.kind.IsWrite()
    ensures issued[n] in WriteIssues(issued)
  {
    if n < |issued| - 1 {
      WriteIssuesHas(issued[..|issued| - 1], n);
    }
  }

  lemma {:induction false} KnownWrite(c: Config, accepted: seq<Transaction>, w: BusPacket, r: nat, b: nat, cell: Cell)
    requires GeometryOk(c) && Known(c, accepted, w) && w.kind.IsWrite() && Hits(w, r, b, cell)
    ensures WritesCell(c, accepted[w.id], r, b, cell) && accepted[w.id].data == w.data
  {
    hide Locate;
  }

  /** Writes popped before a read of their cell were accepted before it. */
  lemma {:induction false} IssuedOlder(c: Config, accepted: seq<Transaction>, issued: seq<Issue>, e: Issue, w: Issue)
    requires GeometryOk(c) && IssuedInOrder(c, issued + [e]) && IssuedKnown(c, accepted, issued + [e])
    requires e.packet.kind.IsRead() && w in WriteIssues(issued)
    requires Hits(w.packet, e.packet.rank, e.packet.bank, CellOf(e.packet))
    ensures w.packet.id < e.packet.id && w.packet.kind.IsWrite() && Known(c, accepted, w.packet)
  {
    hide Known, WriteIssues;
    var issued' := issued + [e];
    WriteIssuesMembers(issued);
    var n :| 0 <= n < |issued| && issued[n] == w;
    assert issued'[n] == w && issued'[|issued|] == e;
    assert IdOrder(c, issued'[n].packet, issued'[|issued|].packet);
  }

  /** When a read is popped, the writes popped so far to its cell are those accepted before
      the read. */
  lemma {:induction false} PopSameWrites(c: Config, accepted: seq<Transaction>, ts: seq<Transaction>, queues: Queues,
                                         issued: seq<Issue>, e: Issue)
    requires InOrder(c, accepted, ts, queues, issued + [e]) && e.packet.kind.IsRead()
    ensures e.packet.id < |accepted|
    ensures var p := e.packet;
            SameWrites(c, WriteIssues(issued), accepted[..p.id], p.rank, p.bank, CellOf(p))
  {
    hide WriteIssues, Covered, QueuesInOrder, AllBehind, TransactionsInOrder, Numbered, QueuesOk, WritesCell, Oldest;
    var p := e.packet;
    var issued' := issued + [e];
    assert issued'[|issued|] == e;
    assert Known(c, accepted, p) && Oldest(c, p, queues, ts);
    assert IssuedInOrder(c, issued) by {
      forall i, j | 0 <= i < j < |issued| ensures IdOrder(c, issued[i].packet, issued[j].packet) {
        assert IdOrder(c, issued'[i].packet, issued'[j].packet);
      }
    }
    WriteIssuesInOrder(c, issued);
    var ws := WriteIssues(issued);
    var r, b, cell := p.rank, p.bank, CellOf(p);
    forall i | 0 <= i < |ws| && Hits(ws[i].packet, r, b, cell)
      ensures ws[i].packet.id < p.id && WritesCell(c, accepted[..p.id][ws[i].packet.id], r, b, cell)
      ensures accepted[..p.id][ws[i].packet.id].data == ws[i].packet.data
    {
      IssuedOlder(c, accepted, issued, e, ws[i]);
      KnownWrite(c, accepted, ws[i].packet, r, b, cell);
    }
    forall i, j | 0 <= i < j < |ws| && Hits(ws[i].packet, r, b, cell) && Hits(ws[j].packet, r, b, cell)
      ensures ws[i].packet.id < ws[j].packet.id
    {
      assert IdOrder(c, ws[i].packet, ws[j].packet);
      assert ws[i] in ws && ws[j] in ws;
    }
    forall k | 0 <= k < p.id && WritesCell(c, accepted[..p.id][k], r, b, cell)
      ensures exists i :: 0 <= i < |ws| && Hits(ws[i].packet, r, b, cell) && ws[i].packet.id == k
    {
      IssuedAlready(c, accepted, ts, queues, issued, e, k);
    }
  }

  /** A write to the cell of a popped read, accepted before it, was popped before it. */
  lemma {:induction false} IssuedAlready(c: Config, accepted: seq<Transaction>, ts: seq<Transaction>, queues: Queues,
                                         issued: seq<Issue>, e: Issue, k: nat)
    requires InOrder(c, accepted, ts, queues, issued + [e]) && e.packet.kind.IsRead() && k < e.packet.id < |accepted|
    requires Known(c, accepted, e.packet) && Oldest(c, e.packet, queues, ts)
    requires WritesCell(c, accepted[k], e.packet.rank, e.packet.bank, CellOf(e.packet))
    ensures exists i :: 0 <= i < |WriteIssues(issued)| && WriteIssues(issued)[i].packet.id == k
                        && Hits(WriteIssues(issued)[i].packet, e.packet.rank, e.packet.bank, CellOf(e.packet))
  {
    hide Locate, AllBehind, IssuedInOrder, QueuesOk, AllOldest, Numbered, WriteIssues;
    var issued' := issued + [e];
    NotWaiting(c, accepted, ts, queues, e.packet, k);
    assert InIssued(issued', k);
    var n :| 0 <= n < |issued'| && issued'[n].packet.kind.IsColumn() && issued'[n].packet.id == k;
    assert Known(c, accepted, issued'[n].packet);
    WriteIssuesHas(issued, n);
  }

  /** A clashing transaction older than a popped command no longer waits. */
  lemma {:induction false} NotWaiting(c: Config, accepted: seq<Transaction>, ts: seq<Transaction>, queues: Queues,
                                      p: BusPacket, k: nat)
    requires SystemOk(c) && QueuesInOrder(c, accepted, queues) && TransactionsInOrder(accepted, ts)
    requires Oldest(c, p, queues, ts) && k < |accepted| && k < p.id && Clash(c, p, ColumnPacket(c, accepted[k]))
    ensures !InTransactions(ts, k) && !InQueues(queues, k)
  {
    forall r, s | 0 <= r < |queues| && 0 <= s < |queues[r]| ensures !InQueue(queues[r][s], k) {
      assert QueueInOrder(c, accepted, queues[r][s]) && OlderThanQueue(c, p, queues[r][s]);
      forall i | 0 <= i < |queues[r][s]| ensures !(queues[r][s][i].kind.IsColumn() && queues[r][s][i].id == k) {
        assert queues[r][s][i] in queues[r][s];
        assert Known(c, accepted, queues[r][s][i]);
      }
    }
  }

  // ----- Answers -----

  /** p answers an accepted read with the value the simple memory had when the read was
      accepted. */
  predicate AnswerOk(c: Config, accepted: seq<Transaction>, p: BusPacket)
    requires GeometryOk(c)
  {
    && p.id < |accepted| && !accepted[p.id].isWrite
    && var q := ColumnPacket(c, accepted[p.id]);
       p == q.(kind := Data, data := Expected(c, accepted[..p.id], q.rank, q.bank, CellOf(q)))
  }

  predicate AnswersFaithful(c: Config, accepted: seq<Transaction>, ts: seq<Timed>)
    requires GeometryOk(c)
  {
    forall i :: 0 <= i < |ts| ==> AnswerOk(c, accepted, ts[i].packet)
  }

  predicate RankFaithful(c: Config, accepted: seq<Transaction>, k: RankState)
    requires GeometryOk(c)
  {
    AnswersFaithful(c, accepted, k.readQueue) && (k.bus.Some? ==> AnswerOk(c, accepted, k.bus.value.packet))
  }

  /** The storage already holds what the read on the command bus is to return. */
  predicate CommandFaithful(c: Config, accepted: seq<Transaction>, cmdBus: Option<Timed>, ranks: seq<RankState>)
    requires GeometryOk(c)
  {
    cmdBus.Some? && cmdBus.value.packet.kind.IsRead() ==>
      var p := cmdBus.value.packet;
      && Known(c, accepted, p) && p.rank < |ranks| && p.bank < |ranks[p.rank].storage|
      && ReadCell(ranks[p.rank].storage[p.bank], CellOf(p))
         == Expected(c, accepted[..p.id], p.rank, p.bank, CellOf(p))
  }

  predicate Faithful(c: Config, accepted: seq<Transaction>, cmdBus: Option<Timed>, ranks: seq<RankState>,
                     received: seq<BusPacket>)
    requires GeometryOk(c)
  {
    && CommandFaithful(c, accepted, cmdBus, ranks)
    && (forall r :: 0 <= r < |ranks| ==> RankFaithful(c, accepted, ranks[r]))
    && (forall i :: 0 <= i < |received| ==> AnswerOk(c, accepted, received[i]))
  }

  lemma {:induction false} AcceptFaithful(c: Config, accepted: seq<Transaction>, cmdBus: Option<Timed>,
                                          ranks: seq<RankState>, received: seq<BusPacket>, t: Transaction)
    requires GeometryOk(c) && Faithful(c, accepted, cmdBus, ranks, received)
    ensures Faithful(c, accepted + [t], cmdBus, ranks, received)
  {
    var accepted' := accepted + [t];
    assert forall k :: 0 <= k <= |accepted| ==> accepted'[..k] == accepted[..k];
    forall r | 0 <= r < |ranks| ensures RankFaithful(c, accepted', ranks[r]) {
      assert RankFaithful(c, accepted, ranks[r]);
    }
  }

  lemma {:induction false} ArrivalsFaithful(c: Config, accepted: seq<Transaction>, ranks: seq<RankState>)
    requires GeometryOk(c) && forall r :: 0 <= r < |ranks| ==> RankFaithful(c, accepted, ranks[r])
    ensures forall i :: 0 <= i < |Arrivals(ranks)| ==> AnswerOk(c, accepted, Arrivals(ranks)[i])
  {
    if |ranks| > 0 {
      ArrivalsFaithful(c, accepted, ranks[..|ranks| - 1]);
      assert RankFaithful(c, accepted, ranks[|ranks| - 1]);
    }
  }

  lemma {:induction false} UpdateFaithful(c: Config, accepted: seq<Transaction>, k: RankState)
    requires GeometryOk(c) && RankFaithful(c, accepted, k)
    ensures RankFaithful(c, accepted, RankUpdate(c, k))
  {
    var queue := Countdown(k.readQueue);
    assert forall i :: 0 <= i < |queue| ==> queue[i].packet == k.readQueue[i].packet;
  }

  /** A read that arrives at its rank picks up the expected value. */
  lemma {:induction false} DeliverFaithful(c: Config, accepted: seq<Transaction>, cmdBus: Option<Timed>,
                                           ranks: seq<RankState>, received: seq<BusPacket>, now: nat)
    requires GeometryOk(c) && cmdBus.Some? && Faithful(c, accepted, cmdBus, ranks, received)
    requires var p := cmdBus.value.packet;
             p.rank < |ranks| && !p.kind.Data? && RankReceive(c, ranks[p.rank], p, now).Ok?
    ensures var p := cmdBus.value.packet;
            Faithful(c, accepted, None, ranks[p.rank := RankReceive(c, ranks[p.rank], p, now).value], received)
  {
    var p := cmdBus.value.packet;
    var k := RankReceive(c, ranks[p.rank], p, now).value;
    assert RankFaithful(c, accepted, ranks[p.rank]);
    assert RankFaithful(c, accepted, k);
  }

  lemma {:induction false} FrameFaithful(c: Config, accepted: seq<Transaction>, cmdBus: Option<Timed>,
                                         ranks: seq<RankState>, ranks': seq<RankState>, received: seq<BusPacket>)
    requires GeometryOk(c) && Faithful(c, accepted, cmdBus, ranks, received) && |ranks'| == |ranks|
    requires forall r :: 0 <= r < |ranks| ==>
               ranks'[r].bus == ranks[r].bus && ranks'[r].readQueue == ranks[r].readQueue
               && (cmdBus.Some? ==> ranks'[r].storage == ranks[r].storage)
    ensures Faithful(c, accepted, cmdBus, ranks', received)
  {
    forall r | 0 <= r < |ranks'| ensures RankFaithful(c, accepted, ranks'[r]) {
      assert RankFaithful(c, accepted, ranks[r]);
    }
  }

  /** A read popped now finds its value in the storage of its bank. */
  lemma {:induction false} PopFaithful(c: Config, accepted: seq<Transaction>, ts: seq<Transaction>, queues: Queues,
                                       issued: seq<Issue>, e: Issue, bus: Option<Timed>, writes: seq<Timed>,
                                       ranks: seq<RankState>, received: seq<BusPacket>)
    requires InOrder(c, accepted, ts, queues, issued + [e])
    requires Gaps(c, issued + [e]) && Past(issued, e.time)
    requires FlightOk(c, issued, bus, writes, e.time, e.time)
    requires Stored(c, ranks, Landed(issued, bus, writes).landed)
    requires Faithful(c, accepted, None, ranks, received)
    requires e.packet.rank < c.numRanks && e.packet.bank < c.numBanks
    ensures Faithful(c, accepted, Some(Timed(e.packet, c.tCMD)), ranks, received)
  {
    if e.packet.kind.IsRead() {
      var p := e.packet;
      var issued' := issued + [e];
      assert issued'[|issued|] == e;
      assert Gaps(c, issued) by {
        forall i, j | 0 <= i < j < |issued| ensures Gap(c, issued[i], issued[j]) {
          assert Gap(c, issued'[i], issued'[j]);
        }
      }
      forall n | 0 <= n < |issued| ensures Gap(c, issued[n], Issue(e.time, p)) {
        assert Gap(c, issued'[n], issued'[|issued|]);
      }
      ReadSeesLastWrite(c, issued, bus, writes, ranks, e.time, p);
      PopSameWrites(c, accepted, ts, queues, issued, e);
      LastIsExpected(c, WriteIssues(issued), accepted[..p.id], p.rank, p.bank, CellOf(p));
    }
  }
}
