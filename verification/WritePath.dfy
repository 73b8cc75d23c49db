/** Write data: from the pop of a write command, through the countdown queue and the data
    bus, into the storage of a bank. */
module WritePath {
  import opened Configuration
  import opened Packets
  import opened MemoryModel
  import opened Spacing

  /** The write commands of a run, in order. */
  function WriteIssues(issued: seq<Issue>): seq<Issue> {
    if |issued| == 0 then []
    else
      var e := issued[|issued| - 1];
      WriteIssues(issued[..|issued| - 1]) + if e.packet.kind.IsWrite() then [e] else []
  }

  lemma {:induction false} WriteIssuesAppend(issued: seq<Issue>, e: Issue)
    ensures WriteIssues(issued + [e]) == WriteIssues(issued) + if e.packet.kind.IsWrite() then [e] else []
  {
    assert (issued + [e])[..|issued|] == issued;
  }

  // ----- The value of a cell -----

  predicate Hits(p: BusPacket, r: nat, b: nat, cell: Cell) {
    p.rank == r && p.bank == b && CellOf(p) == cell
  }

  /** What the last of these writes to a cell left there. */
  function LastValue(writes: seq<Issue>, r: nat, b: nat, cell: Cell): Word {
    if |writes| == 0 then Tracer
    else if Hits(writes[|writes| - 1].packet, r, b, cell) then writes[|writes| - 1].packet.data
    else LastValue(writes[..|writes| - 1], r, b, cell)
  }

  lemma {:induction false} LastValueAppend(writes: seq<Issue>, e: Issue, r: nat, b: nat, cell: Cell)
    ensures LastValue(writes + [e], r, b, cell)
            == if Hits(e.packet, r, b, cell) then e.packet.data else LastValue(writes, r, b, cell)
  {
    assert (writes + [e])[..|writes|] == writes;
  }

  ghost predicate BankStored(k: RankState, landed: seq<Issue>, r: nat, b: nat)
    requires b < |k.storage|
  {
    forall cell :: ReadCell(k.storage[b], cell) == LastValue(landed, r, b, cell)
  }

  /** Every bank holds exactly the writes that have landed. */
  ghost predicate Stored(c: Config, ranks: seq<RankState>, landed: seq<Issue>) {
    && |ranks| == c.numRanks
    && (forall r :: 0 <= r < c.numRanks ==> |ranks[r].storage| == c.numBanks)
    && (forall r, b :: 0 <= r < c.numRanks && 0 <= b < c.numBanks ==> BankStored(ranks[r], landed, r, b))
  }

  lemma {:induction false} FrameStored(c: Config, ranks: seq<RankState>, ranks': seq<RankState>, landed: seq<Issue>)
    requires Stored(c, ranks, landed) && |ranks'| == |ranks|
    requires forall r :: 0 <= r < |ranks| ==> ranks'[r].storage == ranks[r].storage
    ensures Stored(c, ranks', landed)
  {
    forall r, b | 0 <= r < c.numRanks && 0 <= b < c.numBanks ensures BankStored(ranks'[r], landed, r, b) {
      assert BankStored(ranks[r], landed, r, b);
    }
  }

  /** A data packet lands. */
  lemma {:induction false} LandStored(c: Config, ranks: seq<RankState>, landed: seq<Issue>, e: Issue, k: RankState)
    requires Stored(c, ranks, landed)
    requires var p := e.packet;
             && p.rank < c.numRanks && p.bank < c.numBanks
             && k.storage == ranks[p.rank].storage[p.bank := ranks[p.rank].storage[p.bank][CellOf(p) := p.data]]
    ensures Stored(c, ranks[e.packet.rank := k], landed + [e])
  {
    var p := e.packet;
    var ranks' := ranks[p.rank := k];
    forall r, b | 0 <= r < c.numRanks && 0 <= b < c.numBanks
      ensures BankStored(ranks'[r], landed + [e], r, b)
    {
      assert BankStored(ranks[r], landed, r, b);
      forall cell ensures ReadCell(ranks'[r].storage[b], cell) == LastValue(landed + [e], r, b, cell) {
        LastValueAppend(landed, e, r, b, cell);
        assert ReadCell(ranks[r].storage[b], cell) == LastValue(landed, r, b, cell);
      }
    }
  }

  // ----- Data in flight -----

  /** The queued data packets are those of the given writes, due WL cycles after the pop. */
  predicate Queued(c: Config, writes: seq<Timed>, es: seq<Issue>, t: int) {
    && |writes| == |es|
    && forall i :: 0 <= i < |es| ==>
         && writes[i].packet == DataPacket(es[i].packet)
         && writes[i].left == es[i].time + c.WL() - t && writes[i].left > 0
  }

  /** The data packet on the bus is that of the given write, there for BL/2 cycles. */
  predicate OnDataBus(c: Config, bus: Option<Timed>, es: seq<Issue>, t: int) {
    if bus.None? then es == []
    else
      && |es| == 1
      && bus.value.packet == DataPacket(es[0].packet)
      && bus.value.left == es[0].time + c.WL() + c.BL / 2 - t && bus.value.left > 0
  }

  /** The writes of a run are those that have landed, then the one on the bus, then those
      queued. tb and tq are the last cycles the bus and the queue were stepped for. */
  datatype Flight = Flight(landed: seq<Issue>, flying: seq<Issue>, queued: seq<Issue>)

  function Landed(issued: seq<Issue>, bus: Option<Timed>, writes: seq<Timed>): Flight {
    var ws := WriteIssues(issued);
    var q := if |ws| >= |writes| then |ws| - |writes| else 0;
    var l := if bus.Some? && q > 0 then q - 1 else q;
    Flight(ws[..l], ws[l..q], ws[q..])
  }

  predicate FlightOk(c: Config, issued: seq<Issue>, bus: Option<Timed>, writes: seq<Timed>, tb: int, tq: int) {
    var f := Landed(issued, bus, writes);
    && OnDataBus(c, bus, f.flying, tb) && Queued(c, writes, f.queued, tq)
    && (forall i :: 0 <= i < |f.landed| ==> f.landed[i].time + c.WL() + c.BL / 2 <= tb)
    && (forall i :: 0 <= i < |f.flying| ==> f.flying[i].time + c.WL() <= tq)
  }

  predicate Ordered(es: seq<Issue>) { forall i, j :: 0 <= i < j < |es| ==> es[i].time < es[j].time }

  /** Any two writes leave room for a burst between them, if ranks are spaced. */
  predicate WritesApart(c: Config, ws: seq<Issue>) {
    c.WritesSpaced() ==> forall i, j :: 0 <= i < j < |ws| ==> ws[j].time >= ws[i].time + c.BL / 2
  }

  lemma {:induction false} WriteIssuesMembers(issued: seq<Issue>)
    ensures forall e :: e in WriteIssues(issued) ==> e in issued && e.packet.kind.IsWrite()
  {
    if |issued| > 0 { WriteIssuesMembers(issued[..|issued| - 1]); }
  }

  lemma {:induction false} OrderedSnoc(c: Config, ws: seq<Issue>, e: Issue)
    requires Ordered(ws) && WritesApart(c, ws)
    requires forall i :: 0 <= i < |ws| ==>
               ws[i].time < e.time && (c.WritesSpaced() ==> e.time >= ws[i].time + c.BL / 2)
    ensures Ordered(ws + [e]) && WritesApart(c, ws + [e])
  {
  }

  lemma {:induction false} WriteIssuesOrdered(c: Config, issued: seq<Issue>, now: nat)
    requires Past(issued, now) && Gaps(c, issued)
    ensures Ordered(WriteIssues(issued)) && WritesApart(c, WriteIssues(issued))
  {
    if |issued| > 0 {
      var front := issued[..|issued| - 1];
      var e := issued[|issued| - 1];
      WriteIssuesOrdered(c, front, now);
      WriteIssuesMembers(front);
      var ws := WriteIssues(front);
      if e.packet.kind.IsWrite() {
        forall i | 0 <= i < |ws|
          ensures ws[i].time < e.time && (c.WritesSpaced() ==> e.time >= ws[i].time + c.BL / 2)
        {
          assert ws[i] in front;
          var n :| 0 <= n < |front| && front[n] == ws[i];
          assert Gap(c, issued[n], issued[|issued| - 1]);
        }
        OrderedSnoc(c, ws, e);
      } else {
        assert ws + [] == ws;
      }
    }
  }

  /** The data bus is stepped: a packet whose time is up lands. */
  lemma {:induction false} BusStep(c: Config, issued: seq<Issue>, bus: Option<Timed>, writes: seq<Timed>, t: int)
    requires FlightOk(c, issued, bus, writes, t, t)
    ensures FlightOk(c, issued, BusTick(bus), writes, t + 1, t)
    ensures BusDone(bus).Some? ==>
              var f := Landed(issued, bus, writes);
              && |f.flying| == 1 && BusDone(bus).value == DataPacket(f.flying[0].packet)
              && Landed(issued, BusTick(bus), writes).landed == f.landed + [f.flying[0]]
    ensures BusDone(bus).None? ==> Landed(issued, BusTick(bus), writes).landed == Landed(issued, bus, writes).landed
  {
  }

  lemma {:induction false} QueuedStep(c: Config, writes: seq<Timed>, es: seq<Issue>, t: int)
    requires Queued(c, writes, es, t) && Ordered(es)
    ensures var ws := Countdown(writes);
            if |ws| > 0 && ws[0].left == 0
            then es[0].time + c.WL() == t + 1 && ws[0].packet == DataPacket(es[0].packet)
                 && Queued(c, ws[1..], es[1..], t + 1)
            else Queued(c, ws, es, t + 1)
  {
    var ws := Countdown(writes);
    forall i | 0 <= i < |ws| ensures ws[i].left == es[i].time + c.WL() - (t + 1) && (i > 0 ==> ws[i].left > 0) {
      assert i > 0 ==> es[0].time < es[i].time;
      assert writes[0].left > 0;
    }
  }

  /** A head whose time is up becomes the packet on the bus. */
  lemma {:induction false} LandedShift(issued: seq<Issue>, writes: seq<Timed>, ws: seq<Timed>, b: Timed)
    requires |WriteIssues(issued)| >= |writes| == |ws| > 0
    ensures var f := Landed(issued, None, writes);
            Landed(issued, Some(b), ws[1..]) == Flight(f.landed, [f.queued[0]], f.queued[1..])
  {
  }

  lemma {:induction false} QueuedOrdered(issued: seq<Issue>, bus: Option<Timed>, writes: seq<Timed>)
    requires Ordered(WriteIssues(issued))
    ensures Ordered(Landed(issued, bus, writes).queued)
  {
  }

  lemma {:induction false} FlyingApart(c: Config, issued: seq<Issue>, bus: Option<Timed>, writes: seq<Timed>)
    requires c.WritesSpaced() && WritesApart(c, WriteIssues(issued))
    ensures var f := Landed(issued, bus, writes);
            |f.flying| == 1 && |f.queued| > 0 ==> f.queued[0].time >= f.flying[0].time + c.BL / 2
  {
    var f := Landed(issued, bus, writes);
    var n := |f.landed|;
    if |f.flying| == 1 && |f.queued| > 0 {
      assert f.flying[0] == WriteIssues(issued)[n] && f.queued[0] == WriteIssues(issued)[n + 1];
    }
  }

  /** With spaced writes the bus is free when the head of the queue needs it. */
  lemma {:induction false} BusFree(c: Config, issued: seq<Issue>, bus: Option<Timed>, writes: seq<Timed>, t: int)
    requires c.WritesSpaced() && WritesApart(c, WriteIssues(issued)) && FlightOk(c, issued, bus, writes, t + 1, t)
    requires |writes| > 0 && Landed(issued, bus, writes).queued[0].time + c.WL() == t + 1
    ensures bus.None?
  {
    FlyingApart(c, issued, bus, writes);
  }

  /** The queue is stepped: a head whose time is up goes on the bus. */
  lemma {:induction false} QueueStep(c: Config, issued: seq<Issue>, bus: Option<Timed>, writes: seq<Timed>, t: int, now: nat)
    requires c.Valid() && FlightOk(c, issued, bus, writes, t + 1, t) && Past(issued, now) && Gaps(c, issued)
    ensures var ws := Countdown(writes);
            if |ws| > 0 && ws[0].left == 0 then
              && (c.WritesSpaced() ==> bus.None?)
              && (bus.None? ==>
                    && FlightOk(c, issued, Some(Timed(ws[0].packet, c.BL / 2)), ws[1..], t + 1, t + 1)
                    && Landed(issued, Some(Timed(ws[0].packet, c.BL / 2)), ws[1..]).landed
                       == Landed(issued, bus, writes).landed)
            else
              && FlightOk(c, issued, bus, ws, t + 1, t + 1)
              && Landed(issued, bus, ws).landed == Landed(issued, bus, writes).landed
  {
    hide Gaps, Past, WriteIssues, Ordered, WritesApart;
    WriteIssuesOrdered(c, issued, now);
    QueuedOrdered(issued, bus, writes);
    var f := Landed(issued, bus, writes);
    var ws := Countdown(writes);
    QueuedStep(c, writes, f.queued, t);
    if |ws| > 0 && ws[0].left == 0 {
      if c.WritesSpaced() { BusFree(c, issued, bus, writes, t); }
      if bus.None? { LandedShift(issued, writes, ws, Timed(ws[0].packet, c.BL / 2)); }
    }
  }

  lemma {:induction false} LandedAfter(issued: seq<Issue>, bus: Option<Timed>, writes: seq<Timed>, e: Issue, w: Timed)
    requires |WriteIssues(issued)| >= |writes| + if bus.Some? then 1 else 0
    ensures var f := Landed(issued, bus, writes);
            if e.packet.kind.IsWrite()
            then Landed(issued + [e], bus, writes + [w]) == f.(queued := f.queued + [e])
            else Landed(issued + [e], bus, writes) == f
  {
    WriteIssuesAppend(issued, e);
    var ws := WriteIssues(issued);
    var q := |ws| - |writes|;
    var l := if bus.Some? then q - 1 else q;
    if e.packet.kind.IsWrite() {
      assert (ws + [e])[..l] == ws[..l] && (ws + [e])[l..q] == ws[l..q] && (ws + [e])[q..] == ws[q..] + [e];
    } else {
      assert ws + [] == ws;
    }
  }

  lemma {:induction false} FlightSize(c: Config, issued: seq<Issue>, bus: Option<Timed>, writes: seq<Timed>, tb: int, tq: int)
    requires FlightOk(c, issued, bus, writes, tb, tq)
    ensures |WriteIssues(issued)| >= |writes| + if bus.Some? then 1 else 0
  {
  }

  lemma {:induction false} QueuedSnoc(c: Config, writes: seq<Timed>, es: seq<Issue>, now: nat, e: Issue)
    requires c.Valid() && Queued(c, writes, es, now) && e.time == now
    ensures Queued(c, writes + [Timed(DataPacket(e.packet), c.WL())], es + [e], now)
  {
  }

  lemma {:induction false} PopFlight(c: Config, issued: seq<Issue>, bus: Option<Timed>, writes: seq<Timed>, now: nat,
                                     p: BusPacket)
    requires c.Valid() && FlightOk(c, issued, bus, writes, now, now)
    ensures var issued' := issued + [Issue(now, p)];
            var writes' := if p.kind.IsWrite() then writes + [Timed(DataPacket(p), c.WL())] else writes;
            && FlightOk(c, issued', bus, writes', now, now)
            && Landed(issued', bus, writes').landed == Landed(issued, bus, writes).landed
  {
    hide Landed, WriteIssues;
    FlightSize(c, issued, bus, writes, now, now);
    LandedAfter(issued, bus, writes, Issue(now, p), Timed(DataPacket(p), c.WL()));
    var f := Landed(issued, bus, writes);
    QueuedSnoc(c, writes, f.queued, now, Issue(now, p));
  }

  lemma {:induction false} FlightParts(issued: seq<Issue>, bus: Option<Timed>, writes: seq<Timed>)
    ensures var f := Landed(issued, bus, writes);
            WriteIssues(issued) == f.landed + f.flying + f.queued && f.landed == WriteIssues(issued)[..|f.landed|]
  {
    hide WriteIssues;
  }

  /** Data that has not landed is still too young to have been written. */
  lemma {:induction false} InFlightAt(c: Config, issued: seq<Issue>, bus: Option<Timed>, writes: seq<Timed>, now: nat, i: nat)
    requires c.Valid() && FlightOk(c, issued, bus, writes, now, now)
    requires |Landed(issued, bus, writes).landed| <= i < |WriteIssues(issued)|
    ensures now < WriteIssues(issued)[i].time + c.WL() + c.BL / 2
  {
    FlightParts(issued, bus, writes);
    var all, f := WriteIssues(issued), Landed(issued, bus, writes);
    hide Landed, WriteIssues;
    var l, q := |f.landed|, |f.landed| + |f.flying|;
    if i < q { assert all[i] == f.flying[i - l]; } else { assert all[i] == f.queued[i - q]; }
  }

  /** When a read of rank r is popped, no data for that rank is in flight, so its storage
      already holds the last write popped for each of its cells. */
  lemma {:induction false} ReadSeesLastWrite(c: Config, issued: seq<Issue>, bus: Option<Timed>, writes: seq<Timed>,
                          ranks: seq<RankState>, now: nat, p: BusPacket)
    requires c.Valid() && FlightOk(c, issued, bus, writes, now, now) && Past(issued, now) && Gaps(c, issued)
    requires Stored(c, ranks, Landed(issued, bus, writes).landed)
    requires p.kind.IsRead() && p.rank < c.numRanks && p.bank < c.numBanks
    requires forall n :: 0 <= n < |issued| ==> Gap(c, issued[n], Issue(now, p))
    ensures ReadCell(ranks[p.rank].storage[p.bank], CellOf(p))
            == LastValue(WriteIssues(issued), p.rank, p.bank, CellOf(p))
  {
    WriteIssuesMembers(issued);
    FlightParts(issued, bus, writes);
    var all := WriteIssues(issued);
    var f := Landed(issued, bus, writes);
    forall i | |f.landed| <= i < |all| ensures all[i].packet.rank != p.rank {
      assert all[i] in issued;
      var n :| 0 <= n < |issued| && issued[n] == all[i];
      assert Gap(c, issued[n], Issue(now, p));
      InFlightAt(c, issued, bus, writes, now, i);
    }
    LastValueSkips(all, |f.landed|, p.rank, p.bank, CellOf(p));
    assert BankStored(ranks[p.rank], f.landed, p.rank, p.bank);
    assert all[..|f.landed|] == f.landed;
  }

  lemma {:induction false} LastValueSkips(all: seq<Issue>, l: nat, r: nat, b: nat, cell: Cell)
    requires l <= |all| && forall i :: l <= i < |all| ==> all[i].packet.rank != r
    ensures LastValue(all, r, b, cell) == LastValue(all[..l], r, b, cell)
  {
    if l < |all| {
      LastValueSkips(all[..|all| - 1], l, r, b, cell);
      assert all[..|all| - 1][..l] == all[..l];
    } else {
      assert all[..l] == all;
    }
  }
}
