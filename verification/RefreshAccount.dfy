/** What becomes of refresh requests: each is answered by one REFRESH, still waiting, or lost
    because the next one was made first. */
module RefreshAccount {
  import opened Configuration
  import opened Packets
  import opened BankTiming
  import opened Scheduling
  import opened AddressMapping
  import opened MemoryModel
  import opened CommandProtocol
  import opened CommandTiming

  predicate IsRefresh(e: Issue) { e.packet.kind.Refresh? }

  /** e was popped when request k was the latest. */
  predicate For(requests: seq<RefreshRequest>, e: Issue, k: nat)
    requires k < |requests|
  {
    requests[k].time <= e.time && (k + 1 < |requests| ==> e.time < requests[k + 1].time)
  }

  predicate ForLatest(requests: seq<RefreshRequest>, e: Issue) {
    exists k :: 0 <= k < |requests| && For(requests, e, k) && requests[k].rank == e.packet.rank
  }

  /** A request was made after e and not after f. */
  predicate RequestBetween(requests: seq<RefreshRequest>, e: Issue, f: Issue) {
    exists k :: 0 <= k < |requests| && e.time < requests[k].time <= f.time
  }

  /** A REFRESH was popped in a span of time. */
  predicate Answered(issued: seq<Issue>, from: nat, until: nat) {
    exists n :: 0 <= n < |issued| && IsRefresh(issued[n]) && from <= issued[n].time < until
  }

  function Refreshes(issued: seq<Issue>): nat {
    if |issued| == 0 then 0
    else Refreshes(issued[..|issued| - 1]) + if IsRefresh(issued[|issued| - 1]) then 1 else 0
  }

  /** Requests that were followed by the next one before a REFRESH was popped. */
  function Lost(requests: seq<RefreshRequest>, issued: seq<Issue>): nat {
    var n := |requests|;
    if n <= 1 then 0
    else Lost(requests[..n - 1], issued)
         + if Answered(issued, requests[n - 2].time, requests[n - 1].time) then 0 else 1
  }

  // ----- The invariant -----

  /** One if b holds, none if not. */
  function AsCount(b: bool): nat { if b then 1 else 0 }

  /** The latest request is still to be answered. */
  predicate Open(requests: seq<RefreshRequest>, issued: seq<Issue>, now: nat) {
    |requests| > 0 && !Answered(issued, requests[|requests| - 1].time, now)
  }

  /** Requests were made before cycle tr, commands popped before ti, each in order. */
  predicate InTime(requests: seq<RefreshRequest>, issued: seq<Issue>, tr: nat, ti: nat) {
    && (forall k :: 0 <= k < |requests| ==> requests[k].time < tr)
    && (forall i, j :: 0 <= i < j < |requests| ==> requests[i].time < requests[j].time)
    && (forall n :: 0 <= n < |issued| ==> issued[n].time < ti)
  }

  predicate Account(queue: QueueState, requests: seq<RefreshRequest>, issued: seq<Issue>, tr: nat, ti: nat) {
    && InTime(requests, issued, tr, ti)
    && (queue.refreshWaiting <==> Open(requests, issued, ti))
    && (queue.refreshWaiting ==> queue.refreshRank == requests[|requests| - 1].rank)
    && (forall n :: 0 <= n < |issued| && IsRefresh(issued[n]) ==> ForLatest(requests, issued[n]))
    && (forall i, j :: 0 <= i < j < |issued| && IsRefresh(issued[i]) && IsRefresh(issued[j]) ==>
          RequestBetween(requests, issued[i], issued[j]))
    && |requests| == Refreshes(issued) + Lost(requests, issued) + AsCount(queue.refreshWaiting)
  }

  // ----- A request -----

  lemma {:induction false} LaterBound(issued: seq<Issue>, from: nat, ti: nat, until: nat)
    requires ti <= until && forall n :: 0 <= n < |issued| ==> issued[n].time < ti
    ensures Answered(issued, from, until) <==> Answered(issued, from, ti)
  {
  }

  lemma {:induction false} RequestKeeps(requests: seq<RefreshRequest>, issued: seq<Issue>, x: RefreshRequest, n: nat)
    requires n < |issued| && ForLatest(requests, issued[n]) && issued[n].time < x.time
    ensures ForLatest(requests + [x], issued[n])
  {
    var k :| 0 <= k < |requests| && For(requests, issued[n], k) && requests[k].rank == issued[n].packet.rank;
    assert For(requests + [x], issued[n], k) && (requests + [x])[k] == requests[k];
  }

  lemma {:induction false} RequestAccount(queue: QueueState, requests: seq<RefreshRequest>, issued: seq<Issue>, now: nat, r: nat)
    requires Account(queue, requests, issued, now, now)
    ensures Account(queue.(refreshWaiting := true, refreshRank := r), requests + [RefreshRequest(now, r)], issued, now + 1, now)
  {
    hide ForLatest, Refreshes, IsRefresh;
    var x := RefreshRequest(now, r);
    var requests' := requests + [x];
    assert requests'[..|requests|] == requests;
    forall n | 0 <= n < |issued| && IsRefresh(issued[n]) ensures ForLatest(requests', issued[n]) {
      RequestKeeps(requests, issued, x, n);
    }
    forall i, j | 0 <= i < j < |issued| && IsRefresh(issued[i]) && IsRefresh(issued[j])
      ensures RequestBetween(requests', issued[i], issued[j])
    {
      assert RequestBetween(requests, issued[i], issued[j]);
      var k :| 0 <= k < |requests| && issued[i].time < requests[k].time <= issued[j].time;
      assert requests'[k] == requests[k];
    }
    assert Lost(requests', issued) == Lost(requests, issued) + AsCount(queue.refreshWaiting) by {
      if |requests| > 0 { assert requests'[|requests| - 1] == requests[|requests| - 1]; }
    }
  }

  // ----- A pop -----

  lemma {:induction false} AnsweredSnoc(issued: seq<Issue>, e: Issue, from: nat, until: nat)
    ensures Answered(issued + [e], from, until)
            <==> Answered(issued, from, until) || (IsRefresh(e) && from <= e.time < until)
  {
    var issued' := issued + [e];
    assert forall n :: 0 <= n < |issued| ==> issued'[n] == issued[n];
    if Answered(issued, from, until) {
      var n :| 0 <= n < |issued| && IsRefresh(issued[n]) && from <= issued[n].time < until;
      assert issued'[n] == issued[n];
    }
    assert issued'[|issued|] == e;
  }

  /** A command popped after the latest request changes nothing about earlier ones. */
  lemma {:induction false} LostSnoc(requests: seq<RefreshRequest>, issued: seq<Issue>, e: Issue)
    requires forall k :: 0 <= k < |requests| ==> requests[k].time <= e.time
    ensures Lost(requests, issued + [e]) == Lost(requests, issued)
  {
    hide Answered;
    var n := |requests|;
    if n > 1 {
      LostSnoc(requests[..n - 1], issued, e);
      AnsweredSnoc(issued, e, requests[n - 2].time, requests[n - 1].time);
    }
  }

  lemma {:induction false} RefreshesSnoc(issued: seq<Issue>, e: Issue)
    ensures Refreshes(issued + [e]) == Refreshes(issued) + AsCount(IsRefresh(e))
  {
    assert (issued + [e])[..|issued|] == issued;
  }

  /** The REFRESH that a pop sends is for the latest request, which no other has answered. */
  lemma {:induction false} RefreshIsForLatest(requests: seq<RefreshRequest>, issued: seq<Issue>, e: Issue, i: nat)
    requires |requests| > 0 && requests[|requests| - 1].time <= e.time
    requires requests[|requests| - 1].rank == e.packet.rank && Open(requests, issued, e.time)
    ensures ForLatest(requests, e)
    ensures i < |issued| && IsRefresh(issued[i]) && issued[i].time < e.time ==> RequestBetween(requests, issued[i], e)
  {
    var k := |requests| - 1;
    assert For(requests, e, k);
    if i < |issued| && IsRefresh(issued[i]) && issued[i].time < e.time {
      assert issued[i].time < requests[k].time;
    }
  }

  lemma {:induction false} PopAccount(queue: QueueState, queue': QueueState, requests: seq<RefreshRequest>, issued: seq<Issue>,
                                      now: nat, p: BusPacket)
    requires Account(queue, requests, issued, now + 1, now)
    requires p.kind.Refresh? ==> queue.refreshWaiting && p.rank == queue.refreshRank
    requires queue'.refreshWaiting == (queue.refreshWaiting && !p.kind.Refresh?)
    requires queue'.refreshWaiting ==> queue'.refreshRank == queue.refreshRank
    ensures Account(queue', requests, issued + [Issue(now, p)], now + 1, now + 1)
  {
    hide Lost, Refreshes, ForLatest, RequestBetween, Answered;
    var e := Issue(now, p);
    var issued' := issued + [e];
    LostSnoc(requests, issued, e);
    RefreshesSnoc(issued, e);
    if |requests| > 0 {
      var from := requests[|requests| - 1].time;
      AnsweredSnoc(issued, e, from, now + 1);
      LaterBound(issued, from, now, now + 1);
    }
    forall n | 0 <= n < |issued'| && IsRefresh(issued'[n]) ensures ForLatest(requests, issued'[n]) {
      if n == |issued| { RefreshIsForLatest(requests, issued, e, 0); }
    }
    forall i, j | 0 <= i < j < |issued'| && IsRefresh(issued'[i]) && IsRefresh(issued'[j])
      ensures RequestBetween(requests, issued'[i], issued'[j])
    {
      if j == |issued| {
        RefreshIsForLatest(requests, issued, e, i);
      } else {
        assert RequestBetween(requests, issued[i], issued[j]);
      }
    }
  }

  /** A cycle in which nothing is popped. */
  lemma {:induction false} IdleAccount(queue: QueueState, queue': QueueState, requests: seq<RefreshRequest>, issued: seq<Issue>,
                                       tr: nat, ti: nat, tr': nat, ti': nat)
    requires Account(queue, requests, issued, tr, ti) && tr <= tr' && ti <= ti'
    requires queue'.refreshWaiting == queue.refreshWaiting && queue'.refreshRank == queue.refreshRank
    ensures Account(queue', requests, issued, tr', ti')
  {
    hide Lost, Refreshes, ForLatest, RequestBetween, Answered;
    if |requests| > 0 { LaterBound(issued, requests[|requests| - 1].time, ti, ti'); }
  }

  // ----- The phases of a cycle -----

  predicate Balanced(s: State, tr: nat, ti: nat) {
    Account(s.ctrl.queue, s.log.requests, s.log.issued, tr, ti)
  }

  lemma {:induction false} FirstHalfKeeps(c: Config, s: State)
    requires FirstHalf(c, s).Ok?
    ensures FirstHalf(c, s).value.log.requests == s.log.requests && FirstHalf(c, s).value.clock == s.clock
  {
    hide RankReceive, RankUpdate, TickTable;
  }

  lemma {:induction false} RefreshBalanced(c: Config, s: State)
    requires RefreshReady(c, s) && Balanced(s, s.clock, s.clock)
    ensures RefreshPhase(c, s).clock == s.clock && Balanced(RefreshPhase(c, s), s.clock + 1, s.clock)
  {
    hide Account;
    var r := s.ctrl.refreshRank;
    RequestAccount(s.ctrl.queue, s.log.requests, s.log.issued, s.clock, r);
    IdleAccount(s.ctrl.queue, s.ctrl.queue, s.log.requests, s.log.issued, s.clock, s.clock, s.clock + 1, s.clock);
  }

  /** A pop sends a REFRESH only for the rank that waits for one, which then waits no more. */
  lemma {:induction false} PopRefresh(c: Config, q: QueueState, table: Table, now: nat)
    requires c.Valid() && StateOk(c, q) && Rect(table, c.numRanks, c.numBanks)
    ensures var popped := Pop(c, q, table, now);
            var sent := popped.packet.Some? && popped.packet.value.kind.Refresh?;
            && (sent ==> q.refreshWaiting && popped.packet.value.rank == q.refreshRank)
            && popped.queue.refreshWaiting == (q.refreshWaiting && !sent)
            && (!sent ==> popped.queue.refreshRank == q.refreshRank)
  {
    hide Scan, ScanClosable, Issuable, Pickable, FirstPick, FirstMatch, FirstBlocking;
    var aged := q.(faw := AgedAll(q.faw));
    var v := ViewOf(aged, table, now);
    DecideOk(c, v, aged);
    var ch := Decide(c, v, aged).choice;
    assert ch.Take? ==> PacketOk(c, ch.rank, ch.slot, q.queues[ch.rank][ch.slot][ch.index]);
  }

  lemma {:induction false} PopBalanced(c: Config, s: State)
    requires PopReady(c, s) && PopPhase(c, s).Ok? && Balanced(s, s.clock + 1, s.clock)
    ensures PopPhase(c, s).value.clock == s.clock && Balanced(PopPhase(c, s).value, s.clock + 1, s.clock + 1)
  {
    hide Account, Pop, IssueTable;
    var popped := Pop(c, s.ctrl.queue, s.ctrl.table, s.clock);
    PopRefresh(c, s.ctrl.queue, s.ctrl.table, s.clock);
    match popped.packet
    case None =>
      IdleAccount(s.ctrl.queue, popped.queue, s.log.requests, s.log.issued, s.clock + 1, s.clock, s.clock + 1, s.clock + 1);
    case Some(p) =>
      PopAccount(s.ctrl.queue, popped.queue, s.log.requests, s.log.issued, s.clock, p);
  }

  lemma {:induction false} SplitBalanced(c: Config, s: State, tr: nat, ti: nat)
    requires SplitReady(c, s) && SplitPhase(c, s).Ok? && Balanced(s, tr, ti)
    ensures SplitPhase(c, s).value.clock == s.clock && Balanced(SplitPhase(c, s).value, tr, ti)
  {
    hide Locate, FirstWithRoom, QueueFor, Account;
    var q, q' := s.ctrl.queue, SplitPhase(c, s).value.ctrl.queue;
    IdleAccount(q, q', s.log.requests, s.log.issued, tr, ti, tr, ti);
  }

  lemma {:induction false} PowerKeeps(c: Config, s: State, n: nat)
    requires PowerReady(c, s) && n <= c.numRanks && PowerPhase(c, s, n).Ok?
    ensures var s' := PowerPhase(c, s, n).value;
            s'.log == s.log.(powers := s'.log.powers) && s'.ctrl.queue == s.ctrl.queue && s'.clock == s.clock
  {
    hide PowerOf;
    if n > 0 { PowerKeeps(c, s, n - 1); }
  }

  lemma {:induction false} SecondHalfBalanced(c: Config, s: State)
    requires SecondHalf(c, s).Ok? && Balanced(s, s.clock, s.clock)
    ensures SecondHalf(c, s).value.clock == s.clock + 1
    ensures Balanced(SecondHalf(c, s).value, s.clock + 1, s.clock + 1)
  {
    hide RefreshPhase, PopPhase, SplitPhase, PowerPhase, PopReady, SplitReady, PowerReady, RefreshReady, Account;
    RefreshBalanced(c, s);
    var a := RefreshPhase(c, s);
    PopBalanced(c, a);
    var b := PopPhase(c, a).value;
    SplitBalanced(c, b, s.clock + 1, s.clock + 1);
    PowerKeeps(c, SplitPhase(c, b).value, c.numRanks);
  }

  lemma {:induction false} CycleBalanced(c: Config, s: State)
    requires Cycle(c, s).Ok? && Balanced(s, s.clock, s.clock)
    ensures Balanced(Cycle(c, s).value, Cycle(c, s).value.clock, Cycle(c, s).value.clock)
  {
    hide FirstHalf, SecondHalf, Account;
    FirstHalfFrame(c, s);
    FirstHalfKeeps(c, s);
    SecondHalfBalanced(c, FirstHalf(c, s).value);
  }

  // ----- Every run -----

  lemma {:induction false} InitBalanced(c: Config)
    requires c.Valid()
    ensures Balanced(Init(c), 0, 0)
  {
  }

  lemma {:induction false} RunBalanced(c: Config, events: seq<Event>)
    requires c.Valid() && Run(c, events).Ok?
    ensures Balanced(Run(c, events).value, Run(c, events).value.clock, Run(c, events).value.clock)
  {
    hide Cycle, Account, Init;
    if |events| == 0 {
      InitBalanced(c);
      assert Init(c).clock == 0 by { InitClock(c); }
    } else {
      var before := events[..|events| - 1];
      RunBalanced(c, before);
      var s := Run(c, before).value;
      match events[|events| - 1]
      case Request(t) =>
      case Clock => CycleBalanced(c, s);
    }
  }

  lemma {:induction false} InitClock(c: Config)
    requires c.Valid()
    ensures Init(c).clock == 0
  {
  }

  /** In every run each REFRESH is for the rank of the latest request, with a request between
      any two; and the requests made are those answered by a REFRESH, those lost because the
      next one was made first, and at most one that is waiting. */
  lemma {:induction false} RequestsAccounted(c: Config, events: seq<Event>)
    requires c.Valid() && Run(c, events).Ok?
    ensures var s := Run(c, events).value;
            var requests, issued := s.log.requests, s.log.issued;
            && (forall n :: 0 <= n < |issued| && IsRefresh(issued[n]) ==> ForLatest(requests, issued[n]))
            && (forall i, j :: 0 <= i < j < |issued| && IsRefresh(issued[i]) && IsRefresh(issued[j]) ==>
                  RequestBetween(requests, issued[i], issued[j]))
            && |requests| == Refreshes(issued) + Lost(requests, issued) + AsCount(Open(requests, issued, s.clock))
            && (s.ctrl.queue.refreshWaiting <==> Open(requests, issued, s.clock))
  {
    hide Run, Lost, Refreshes, ForLatest, RequestBetween, Answered;
    RunBalanced(c, events);
  }

  // ----- What is lost stays lost -----

  /** s' is a later state of the same run. */
  predicate Later(s: State, s': State) {
    && s.clock <= s'.clock && s.log.requests <= s'.log.requests && s.log.issued <= s'.log.issued
    && forall n :: |s.log.issued| <= n < |s'.log.issued| ==> s'.log.issued[n].time >= s.clock
  }

  lemma {:induction false} SecondHalfLater(c: Config, s: State)
    requires SecondHalf(c, s).Ok?
    ensures Later(s, SecondHalf(c, s).value)
  {
    hide SplitPhase, PowerPhase, PopReady, SplitReady, PowerReady, Pop, IssueTable;
    var a := RefreshPhase(c, s);
    var b := PopPhase(c, a).value;
    SplitFrame(c, b);
    PowerKeeps(c, SplitPhase(c, b).value, c.numRanks);
  }

  lemma {:induction false} HappenLater(c: Config, s: State, e: Event)
    requires Happen(c, s, e).Ok?
    ensures Later(s, Happen(c, s, e).value)
  {
    hide FirstHalf, SecondHalf;
    if e.Clock? {
      FirstHalfFrame(c, s);
      FirstHalfKeeps(c, s);
      SecondHalfLater(c, FirstHalf(c, s).value);
    }
  }

  lemma {:induction false} LaterTrans(s: State, s': State, s'': State)
    requires Later(s, s') && Later(s', s'')
    ensures Later(s, s'')
  {
    forall n | |s.log.issued| <= n < |s''.log.issued| ensures s''.log.issued[n].time >= s.clock {
      assert n < |s'.log.issued| ==> s''.log.issued[n] == s'.log.issued[n];
    }
  }

  lemma {:induction false} RunLater(c: Config, events: seq<Event>, more: seq<Event>)
    requires c.Valid() && Run(c, events + more).Ok?
    ensures Run(c, events).Ok? && Later(Run(c, events).value, Run(c, events + more).value)
  {
    hide Happen;
    if |more| == 0 {
      assert events + more == events;
    } else {
      var front := more[..|more| - 1];
      var all := events + more;
      assert all[..|all| - 1] == events + front && all[|all| - 1] == more[|more| - 1];
      RunLater(c, events, front);
      HappenLater(c, Run(c, events + front).value, more[|more| - 1]);
      LaterTrans(Run(c, events).value, Run(c, events + front).value, Run(c, all).value);
    }
  }

  /** Whether a request was answered is settled when the next one is made: nothing that
      happens later changes it. */
  lemma {:induction false} LossIsFinal(c: Config, events: seq<Event>, more: seq<Event>, k: nat)
    requires c.Valid() && Run(c, events + more).Ok? && Run(c, events).Ok?
    requires k + 1 < |Run(c, events).value.log.requests|
    ensures var s, s' := Run(c, events).value, Run(c, events + more).value;
            && k + 1 < |s'.log.requests|
            && s'.log.requests[k] == s.log.requests[k] && s'.log.requests[k + 1] == s.log.requests[k + 1]
            && (Answered(s'.log.issued, s.log.requests[k].time, s.log.requests[k + 1].time)
                <==> Answered(s.log.issued, s.log.requests[k].time, s.log.requests[k + 1].time))
  {
    hide Run;
    RunLater(c, events, more);
    RunBalanced(c, events);
    var s, s' := Run(c, events).value, Run(c, events + more).value;
    SameAnswered(s.log.issued, s'.log.issued, s.log.requests[k].time, s.log.requests[k + 1].time, s.clock);
  }

  // ----- Which requests are lost -----

  /** A REFRESH was popped for request k. */
  predicate HasRefresh(requests: seq<RefreshRequest>, issued: seq<Issue>, k: nat)
    requires k < |requests|
  {
    exists n :: 0 <= n < |issued| && IsRefresh(issued[n]) && For(requests, issued[n], k)
  }

  lemma {:induction false} HasRefreshSpan(requests: seq<RefreshRequest>, issued: seq<Issue>, k: nat)
    requires k + 1 < |requests|
    ensures HasRefresh(requests, issued, k) <==> Answered(issued, requests[k].time, requests[k + 1].time)
  {
    if HasRefresh(requests, issued, k) {
      var n :| 0 <= n < |issued| && IsRefresh(issued[n]) && For(requests, issued[n], k);
      assert requests[k].time <= issued[n].time < requests[k + 1].time;
    }
    if Answered(issued, requests[k].time, requests[k + 1].time) {
      var n :| 0 <= n < |issued| && IsRefresh(issued[n]) && requests[k].time <= issued[n].time < requests[k + 1].time;
      assert For(requests, issued[n], k);
    }
  }

  lemma {:induction false} FirstHalfKeepsDue(c: Config, s: State)
    requires FirstHalf(c, s).Ok?
    ensures FirstHalf(c, s).value.ctrl.refreshRank == s.ctrl.refreshRank
    ensures FirstHalf(c, s).value.ctrl.refreshCountdown == s.ctrl.refreshCountdown
  {
    hide RankReceive, RankUpdate, TickTable;
  }

  lemma {:induction false} SecondHalfRequests(c: Config, s: State)
    requires SecondHalf(c, s).Ok?
    ensures RefreshReady(c, s) && SecondHalf(c, s).value.log.requests == RefreshPhase(c, s).log.requests
  {
    hide RefreshPhase, SplitPhase, PowerPhase, PopReady, SplitReady, PowerReady, Pop, IssueTable;
    var b := PopPhase(c, RefreshPhase(c, s)).value;
    SplitFrame(c, b);
    PowerKeeps(c, SplitPhase(c, b).value, c.numRanks);
  }

  /** A cycle in which a rank is due makes one request. */
  lemma {:induction false} DueRequests(c: Config, s: State)
    requires Cycle(c, s).Ok? && s.ctrl.refreshRank < |s.ctrl.refreshCountdown|
    requires s.ctrl.refreshCountdown[s.ctrl.refreshRank] == 0
    ensures Cycle(c, s).value.log.requests == s.log.requests + [RefreshRequest(s.clock, s.ctrl.refreshRank)]
  {
    hide FirstHalf, SecondHalf;
    FirstHalfKeeps(c, s);
    FirstHalfKeepsDue(c, s);
    SecondHalfRequests(c, FirstHalf(c, s).value);
  }

  /** The next request is about to be made. */
  predicate NextIsDue(s: State) {
    && |s.log.requests| > 0 && s.ctrl.refreshRank < |s.ctrl.refreshCountdown|
    && s.ctrl.refreshCountdown[s.ctrl.refreshRank] == 0
  }

  /** A request is lost for good exactly if it is still waiting when the next one is made:
      then no REFRESH is ever popped for it, and otherwise one has been. */
  lemma {:induction false} LostExactly(c: Config, events: seq<Event>, more: seq<Event>)
    requires c.Valid() && Run(c, events).Ok? && Run(c, events + ([Clock] + more)).Ok? && NextIsDue(Run(c, events).value)
    ensures var s, s' := Run(c, events).value, Run(c, events + ([Clock] + more)).value;
            var k := |s.log.requests| - 1;
            && k + 1 < |s'.log.requests|
            && (HasRefresh(s'.log.requests, s'.log.issued, k) <==> !s.ctrl.queue.refreshWaiting)
  {
    var s := Run(c, events).value;
    var k := |s.log.requests| - 1;
    assert events + ([Clock] + more) == (events + [Clock]) + more;
    RunLater(c, events + [Clock], more);
    RunLater(c, events, [Clock] + more);
    RunStep(c, events);
    DueRequests(c, s);
    RequestsAccounted(c, events);
    RunBalanced(c, events);
    hide Run, Cycle, HasRefresh, Answered;
    var s' := Run(c, (events + [Clock]) + more).value;
    assert s'.log.requests[k] == s.log.requests[k] && s'.log.requests[k + 1].time == s.clock;
    SameAnswered(s.log.issued, s'.log.issued, s.log.requests[k].time, s.clock, s.clock);
    HasRefreshSpan(s'.log.requests, s'.log.issued, k);
  }

  lemma {:induction false} RunStep(c: Config, events: seq<Event>)
    requires c.Valid() && Run(c, events).Ok?
    ensures Run(c, events + [Clock]) == Cycle(c, Run(c, events).value)
  {
    hide Cycle;
    assert (events + [Clock])[..|events|] == events;
  }

  lemma {:induction false} SameAnswered(issued: seq<Issue>, issued': seq<Issue>, from: nat, until: nat, now: nat)
    requires issued <= issued' && until <= now
    requires forall n :: |issued| <= n < |issued'| ==> issued'[n].time >= now
    ensures Answered(issued', from, until) <==> Answered(issued, from, until)
  {
    if Answered(issued, from, until) {
      var n :| 0 <= n < |issued| && IsRefresh(issued[n]) && from <= issued[n].time < until;
      assert issued'[n] == issued[n];
    }
    if Answered(issued', from, until) {
      var n :| 0 <= n < |issued'| && IsRefresh(issued'[n]) && from <= issued'[n].time < until;
      assert issued'[n] == issued[n];
    }
  }
}
