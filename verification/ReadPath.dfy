/** Read data: from the arrival of a read command at its rank, through the rank's countdown
    queue and data bus, back to the controller. */
module ReadPath {
  import opened Configuration
  import opened Packets
  import opened BankTiming
  import opened MemoryModel
  import opened Spacing

  /** The read commands of rank r, in order. */
  function ReadIssues(issued: seq<Issue>, r: nat): seq<Issue> {
    if |issued| == 0 then []
    else
      var e := issued[|issued| - 1];
      ReadIssues(issued[..|issued| - 1], r)
      + if e.packet.kind.IsRead() && e.packet.rank == r then [e] else []
  }

  lemma {:induction false} ReadIssuesAppend(issued: seq<Issue>, e: Issue, r: nat)
    ensures ReadIssues(issued + [e], r)
            == ReadIssues(issued, r) + if e.packet.kind.IsRead() && e.packet.rank == r then [e] else []
  {
    assert (issued + [e])[..|issued|] == issued;
  }

  predicate Apart(c: Config, es: seq<Issue>) {
    forall i, j :: 0 <= i < j < |es| ==> es[i].time < es[j].time && es[j].time >= es[i].time + c.BL / 2
  }

  lemma {:induction false} ApartSnoc(c: Config, es: seq<Issue>, e: Issue)
    requires Apart(c, es)
    requires forall i :: 0 <= i < |es| ==> es[i].time < e.time && e.time >= es[i].time + c.BL / 2
    ensures Apart(c, es + [e])
  {
  }

  lemma {:induction false} ReadIssuesMembers(issued: seq<Issue>, r: nat)
    ensures forall e :: e in ReadIssues(issued, r) ==> e in issued && e.packet.kind.IsRead() && e.packet.rank == r
  {
    if |issued| > 0 { ReadIssuesMembers(issued[..|issued| - 1], r); }
  }

  lemma {:induction false} ReadIssuesSpaced(c: Config, issued: seq<Issue>, r: nat, now: nat)
    requires Past(issued, now) && Gaps(c, issued)
    ensures Apart(c, ReadIssues(issued, r))
  {
    if |issued| > 0 {
      var front := issued[..|issued| - 1];
      var e := issued[|issued| - 1];
      ReadIssuesSpaced(c, front, r, now);
      ReadIssuesMembers(front, r);
      var rs := ReadIssues(front, r);
      if e.packet.kind.IsRead() && e.packet.rank == r {
        forall i | 0 <= i < |rs| ensures rs[i].time < e.time && e.time >= rs[i].time + c.BL / 2 {
          assert rs[i] in front;
          var n :| 0 <= n < |front| && front[n] == rs[i];
          assert Gap(c, issued[n], issued[|issued| - 1]);
        }
        ApartSnoc(c, rs, e);
      } else {
        assert rs + [] == rs;
      }
    }
  }

  /** The commands that have left the command bus. */
  function Arrived(issued: seq<Issue>, cmdBus: Option<Timed>): seq<Issue> {
    if cmdBus.Some? && |issued| > 0 then issued[..|issued| - 1] else issued
  }

  /** The command on the bus is the one popped last, one cycle before it arrives. */
  predicate LastOnBus(issued: seq<Issue>, cmdBus: Option<Timed>, at: nat) {
    cmdBus.Some? ==>
      |issued| > 0 && issued[|issued| - 1].packet == cmdBus.value.packet && issued[|issued| - 1].time + 1 == at
  }

  /** A queued answer to read e: due RL cycles after the read arrived. */
  predicate QueuedAnswer(c: Config, a: Timed, e: Issue, t: int) {
    a.left == e.time + 1 + c.RL() - t && a.left > 0 && a.packet.id == e.packet.id
  }

  /** An answer on the rank's data bus, there for BL/2 cycles. */
  predicate BusAnswer(c: Config, a: Timed, e: Issue, t: int) {
    a.left == e.time + 1 + c.RL() + c.BL / 2 - t && a.left > 0 && a.packet.id == e.packet.id
  }

  predicate QueuedAnswers(c: Config, queue: seq<Timed>, es: seq<Issue>, t: int) {
    |queue| == |es| && forall i :: 0 <= i < |es| ==> QueuedAnswer(c, queue[i], es[i], t)
  }

  /** The answers a rank still owes are those of its last arrived reads rs. t is the last
      cycle the rank was updated for. */
  predicate AnswersOk(c: Config, rs: seq<Issue>, bus: Option<Timed>, queue: seq<Timed>, t: int) {
    var q := |rs| - |queue|;
    && q >= (if bus.Some? then 1 else 0)
    && QueuedAnswers(c, queue, rs[q..], t)
    && (bus.Some? ==> BusAnswer(c, bus.value, rs[q - 1], t))
  }

  predicate AllAnswers(c: Config, arrived: seq<Issue>, ranks: seq<RankState>, t: int) {
    forall r :: 0 <= r < |ranks| ==> AnswersOk(c, ReadIssues(arrived, r), ranks[r].bus, ranks[r].readQueue, t)
  }

  lemma {:induction false} StepQueue(c: Config, queue: seq<Timed>, es: seq<Issue>, t: int)
    requires QueuedAnswers(c, queue, es, t) && Apart(c, es)
    ensures var queue' := Countdown(queue);
            if |queue| > 0 && queue[0].left == 1
            then queue'[0].left == 0 && QueuedAnswers(c, queue'[1..], es[1..], t + 1)
            else QueuedAnswers(c, queue', es, t + 1)
  {
    var queue' := Countdown(queue);
    forall i | 0 <= i < |es| ensures (i == 0 && queue'[0].left == 0) || QueuedAnswer(c, queue'[i], es[i], t + 1) {
      assert QueuedAnswer(c, queue[i], es[i], t) && QueuedAnswer(c, queue[0], es[0], t);
      assert i > 0 ==> es[0].time < es[i].time;
    }
  }

  lemma {:induction false} HeadDue(c: Config, rs: seq<Issue>, bus: Option<Timed>, queue: seq<Timed>, t: int)
    requires AnswersOk(c, rs, bus, queue, t) && Apart(c, rs) && |queue| > 0 && queue[0].left == 1
    ensures BusTick(bus).None?
    ensures rs[|rs| - |queue|].time + 1 + c.RL() == t + 1
    ensures queue[0].packet.id == rs[|rs| - |queue|].packet.id
  {
    var q := |rs| - |queue|;
    assert QueuedAnswer(c, queue[0], rs[q..][0], t);
    if bus.Some? { assert rs[q - 1].time + c.BL / 2 <= rs[q].time; }
  }

  lemma {:induction false} SuffixApart(c: Config, rs: seq<Issue>, q: nat)
    requires Apart(c, rs) && q <= |rs|
    ensures Apart(c, rs[q..])
  {
  }

  lemma {:induction false} UpdateDue(c: Config, rs: seq<Issue>, k: RankState, t: int)
    requires c.BL >= 2 && AnswersOk(c, rs, k.bus, k.readQueue, t) && Apart(c, rs)
    requires |k.readQueue| > 0 && k.readQueue[0].left == 1
    ensures AnswersOk(c, rs, RankUpdate(c, k).bus, RankUpdate(c, k).readQueue, t + 1)
  {
    var q := |rs| - |k.readQueue|;
    SuffixApart(c, rs, q);
    StepQueue(c, k.readQueue, rs[q..], t);
    HeadDue(c, rs, k.bus, k.readQueue, t);
    assert rs[q..][1..] == rs[q + 1..];
  }

  lemma {:induction false} UpdateNotDue(c: Config, rs: seq<Issue>, k: RankState, t: int)
    requires AnswersOk(c, rs, k.bus, k.readQueue, t) && Apart(c, rs)
    requires |k.readQueue| > 0 ==> k.readQueue[0].left != 1
    ensures AnswersOk(c, rs, RankUpdate(c, k).bus, RankUpdate(c, k).readQueue, t + 1)
  {
    var q := |rs| - |k.readQueue|;
    SuffixApart(c, rs, q);
    StepQueue(c, k.readQueue, rs[q..], t);
    assert |k.readQueue| > 0 ==> QueuedAnswer(c, k.readQueue[0], rs[q..][0], t);
  }

  /** A rank never overwrites read data that is still on its bus. */
  lemma {:induction false} UpdateAnswers(c: Config, rs: seq<Issue>, k: RankState, t: int)
    requires c.BL >= 2 && AnswersOk(c, rs, k.bus, k.readQueue, t) && Apart(c, rs)
    ensures AnswersOk(c, rs, RankUpdate(c, k).bus, RankUpdate(c, k).readQueue, t + 1)
    ensures |k.readQueue| > 0 && k.readQueue[0].left == 1 ==> BusTick(k.bus).None?
  {
    if |k.readQueue| > 0 && k.readQueue[0].left == 1 {
      HeadDue(c, rs, k.bus, k.readQueue, t);
      UpdateDue(c, rs, k, t);
    } else {
      UpdateNotDue(c, rs, k, t);
    }
  }

  lemma {:induction false} UpdateAllAnswers(c: Config, arrived: seq<Issue>, ranks: seq<RankState>,
                                            ranks': seq<RankState>, t: int, now: nat)
    requires c.Valid() && AllAnswers(c, arrived, ranks, t) && Past(arrived, now) && Gaps(c, arrived)
    requires |ranks'| == |ranks| && forall r :: 0 <= r < |ranks| ==> ranks'[r] == RankUpdate(c, ranks[r])
    ensures AllAnswers(c, arrived, ranks', t + 1)
    ensures forall r :: 0 <= r < |ranks| && |ranks[r].readQueue| > 0 && ranks[r].readQueue[0].left == 1 ==>
              BusTick(ranks[r].bus).None?
  {
    forall r | 0 <= r < |ranks|
      ensures AnswersOk(c, ReadIssues(arrived, r), ranks'[r].bus, ranks'[r].readQueue, t + 1)
      ensures |ranks[r].readQueue| > 0 && ranks[r].readQueue[0].left == 1 ==> BusTick(ranks[r].bus).None?
    {
      assert AnswersOk(c, ReadIssues(arrived, r), ranks[r].bus, ranks[r].readQueue, t);
      ReadIssuesSpaced(c, arrived, r, now);
      UpdateAnswers(c, ReadIssues(arrived, r), ranks[r], t);
    }
  }

  lemma {:induction false} DeliverAnswer(c: Config, rs: seq<Issue>, e: Issue, bus: Option<Timed>, queue: seq<Timed>,
                                         a: Timed, now: nat)
    requires c.Valid() && AnswersOk(c, rs, bus, queue, now) && e.time + 1 == now
    requires a.left == c.RL() && a.packet.id == e.packet.id
    ensures AnswersOk(c, rs + [e], bus, queue + [a], now)
  {
    var q := |rs| - |queue|;
    assert (rs + [e])[q..] == rs[q..] + [e];
  }

  /** A command arrives at its rank. */
  lemma {:induction false} DeliverAnswers(c: Config, issued: seq<Issue>, cmdBus: Option<Timed>, ranks: seq<RankState>,
                                          now: nat)
    requires c.Valid() && cmdBus.Some? && LastOnBus(issued, cmdBus, now)
    requires AllAnswers(c, Arrived(issued, cmdBus), ranks, now)
    requires var p := cmdBus.value.packet;
             p.rank < |ranks| && !p.kind.Data? && RankReceive(c, ranks[p.rank], p, now).Ok?
    ensures var p := cmdBus.value.packet;
            AllAnswers(c, issued, ranks[p.rank := RankReceive(c, ranks[p.rank], p, now).value], now)
  {
    hide AnswersOk, RankTable, RankAllows;
    var p := cmdBus.value.packet;
    var k := RankReceive(c, ranks[p.rank], p, now).value;
    var ranks' := ranks[p.rank := k];
    var front := Arrived(issued, cmdBus);
    var e := issued[|issued| - 1];
    assert issued == front + [e];
    forall r | 0 <= r < |ranks|
      ensures AnswersOk(c, ReadIssues(issued, r), ranks'[r].bus, ranks'[r].readQueue, now)
    {
      ReadIssuesAppend(front, e, r);
      var rs := ReadIssues(front, r);
      assert AnswersOk(c, rs, ranks[r].bus, ranks[r].readQueue, now);
      if p.kind.IsRead() && p.rank == r {
        DeliverAnswer(c, rs, e, ranks[r].bus, ranks[r].readQueue, k.readQueue[|k.readQueue| - 1], now);
      } else {
        assert rs + [] == rs;
      }
    }
  }

  lemma {:induction false} FrameAnswers(c: Config, arrived: seq<Issue>, ranks: seq<RankState>, ranks': seq<RankState>,
                                        t: int)
    requires AllAnswers(c, arrived, ranks, t) && |ranks'| == |ranks|
    requires forall r :: 0 <= r < |ranks| ==>
               ranks'[r].bus == ranks[r].bus && ranks'[r].readQueue == ranks[r].readQueue
    ensures AllAnswers(c, arrived, ranks', t)
  {
    forall r | 0 <= r < |ranks'|
      ensures AnswersOk(c, ReadIssues(arrived, r), ranks'[r].bus, ranks'[r].readQueue, t)
    {
      assert AnswersOk(c, ReadIssues(arrived, r), ranks[r].bus, ranks[r].readQueue, t);
    }
  }
}
