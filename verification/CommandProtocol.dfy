/** The commands of a run obey the protocol of the memory chips, judged from the history of
    commands alone: rows are opened before they are used and closed before another is
    opened. Under close page every column command follows its own ACTIVATE. */
module CommandProtocol {
  import opened Configuration
  import opened Packets
  import opened BankTiming
  import opened Scheduling
  import opened AddressMapping
  import opened MemoryModel
  import opened Pairing
  import opened Lockstep
  import opened Spacing
  import opened ActivateWindow
  import opened RefreshCadence
  import opened SystemInvariant
  import opened Runs

  /** The ACTIVATE that opened the row open in a bank after some commands, if any. A PRECHARGE,
      an auto-precharge and a REFRESH close it. */
  function Opener(issued: seq<Issue>, r: nat, b: nat): Option<BusPacket> {
    if |issued| == 0 then None
    else
      var p := issued[|issued| - 1].packet;
      if p.rank != r then Opener(issued[..|issued| - 1], r, b)
      else if p.kind.Refresh? then None
      else if p.bank != b then Opener(issued[..|issued| - 1], r, b)
      else if p.kind.Activate? then Some(p)
      else if p.kind.Precharge? || p.kind.IsAuto() then None
      else Opener(issued[..|issued| - 1], r, b)
  }

  /** p may follow the commands issued so far. */
  predicate Legal(c: Config, issued: seq<Issue>, p: BusPacket) {
    var o := Opener(issued, p.rank, p.bank);
    match p.kind
    case Activate => o.None?
    case Precharge => o.Some?
    case Refresh => forall b :: 0 <= b < c.numBanks ==> Opener(issued, p.rank, b).None?
    case Data => false
    case _ => o.Some? && o.value.row == p.row && (c.policy.ClosePage? ==> SameTarget(o.value, p))
  }

  predicate AllLegal(c: Config, issued: seq<Issue>) {
    forall n :: 0 <= n < |issued| ==> Legal(c, issued[..n], issued[n].packet)
  }

  // ----- The invariant -----

  predicate RowAgrees(o: Option<BusPacket>, m: BankState) {
    (o.Some? <==> Usable(m)) && (o.Some? ==> o.value.row == m.openRow)
  }

  /** The controller's table shows a row as open exactly if the history does. */
  predicate RowsAgree(c: Config, table: Table, issued: seq<Issue>) {
    Rect(table, c.numRanks, c.numBanks)
    && forall r, b :: 0 <= r < c.numRanks && 0 <= b < c.numBanks ==> RowAgrees(Opener(issued, r, b), table[r][b])
  }

  predicate OwnOpener(issued: seq<Issue>, p: BusPacket) {
    var o := Opener(issued, p.rank, p.bank);
    o.Some? && SameTarget(o.value, p)
  }

  /** The row a lone column command waits for was opened by its own ACTIVATE. */
  predicate LonesOpened(issued: seq<Issue>, q: seq<BusPacket>) {
    forall i :: 0 <= i < |q| && LoneAt(q, i) ==> OwnOpener(issued, q[i])
  }

  predicate AllLonesOpened(c: Config, queues: seq<seq<seq<BusPacket>>>, issued: seq<Issue>) {
    forall r, s :: 0 <= r < |queues| && 0 <= s < |queues[r]| ==> LonesOpened(issued, queues[r][s])
  }

  predicate Protocol(c: Config, s: State) {
    && RowsAgree(c, s.ctrl.table, s.log.issued)
    && AllLonesOpened(c, s.ctrl.queue.queues, s.log.issued)
    && AllLegal(c, s.log.issued)
  }

  // ----- Steps that issue nothing -----

  predicate SameRow(m: BankState, m': BankState) {
    (Usable(m') <==> Usable(m)) && (Usable(m) ==> m'.openRow == m.openRow)
  }

  predicate SameRows(c: Config, table: Table, table': Table) {
    && Rect(table, c.numRanks, c.numBanks) && Rect(table', c.numRanks, c.numBanks)
    && forall r, b :: 0 <= r < c.numRanks && 0 <= b < c.numBanks ==> SameRow(table[r][b], table'[r][b])
  }

  lemma {:induction false} FrameProtocol(c: Config, s: State, s': State)
    requires Protocol(c, s) && SameRows(c, s.ctrl.table, s'.ctrl.table)
    requires s'.ctrl.queue.queues == s.ctrl.queue.queues && s'.log.issued == s.log.issued
    ensures Protocol(c, s')
  {
    hide Opener, Usable;
    forall r, b | 0 <= r < c.numRanks && 0 <= b < c.numBanks
      ensures RowAgrees(Opener(s.log.issued, r, b), s'.ctrl.table[r][b])
    {
      assert SameRow(s.ctrl.table[r][b], s'.ctrl.table[r][b]);
    }
  }

  lemma {:induction false} TickSameRows(c: Config, s: State, z: Stamps)
    requires Commands(c, s, z)
    ensures SameRows(c, s.ctrl.table, TickTable(c, s.ctrl.table))
  {
    var table := s.ctrl.table;
    forall r, b | 0 <= r < c.numRanks && 0 <= b < c.numBanks
      ensures SameRow(table[r][b], TickTable(c, table)[r][b])
    {
      assert RankInStep(c, z.table, table[r], Future(c, s.ranks[r].table, s.ctrl.cmdBus, z.arrival, r));
      TickSynced(c, z.table, table[r][b], Future(c, s.ranks[r].table, s.ctrl.cmdBus, z.arrival, r)[b]);
    }
  }

  lemma {:induction false} FirstHalfFrame(c: Config, s: State)
    requires FirstHalf(c, s).Ok?
    ensures var s' := FirstHalf(c, s).value;
            && s'.ctrl.table == TickTable(c, s.ctrl.table) && s'.ctrl.queue == s.ctrl.queue
            && s'.log.issued == s.log.issued
  {
    hide RankReceive, RankUpdate, TickTable;
  }

  lemma {:induction false} FirstHalfProtocol(c: Config, s: State)
    requires Inv(c, s) && Protocol(c, s) && FirstHalf(c, s).Ok?
    ensures Protocol(c, FirstHalf(c, s).value)
  {
    hide FirstHalf, DataPaths, Orders, Accounts, OnCadence, Protocol, Commands, SameRows;
    FirstHalfFrame(c, s);
    TickSameRows(c, s, AtBoundary(s.clock));
    FrameProtocol(c, s, FirstHalf(c, s).value);
  }

  // ----- Popping a command -----

  lemma {:induction false} OpenerSnoc(issued: seq<Issue>, e: Issue, r: nat, b: nat)
    ensures var p := e.packet;
            Opener(issued + [e], r, b)
            == if p.rank != r || (p.bank != b && !p.kind.Refresh?) then Opener(issued, r, b)
               else if p.kind.Activate? then Some(p)
               else if p.kind.Precharge? || p.kind.IsAuto() || p.kind.Refresh? then None
               else Opener(issued, r, b)
  {
    assert (issued + [e])[..|issued|] == issued;
  }

  lemma {:induction false} IssueRow(c: Config, p: BusPacket, now: nat, i: nat, j: nat, m: BankState)
    requires c.Valid() && !p.kind.Data?
    requires i == p.rank && (j == p.bank || p.kind.Refresh?) ==> BankReady(p, now, m)
    requires p.kind.Activate? && i == p.rank && j == p.bank ==> m.countdown == 0
    ensures var m' := IssueBank(c, p, now, i, j, m);
            if i != p.rank || (j != p.bank && !p.kind.Refresh?) then SameRow(m, m')
            else if p.kind.Activate? then Usable(m') && m'.openRow == p.row
            else if p.kind.Precharge? || p.kind.IsAuto() || p.kind.Refresh? then !Usable(m')
            else SameRow(m, m')
  {
  }

  lemma {:induction false} PopRows(c: Config, s: State, p: BusPacket)
    requires c.Valid() && RowsAgree(c, s.ctrl.table, s.log.issued) && Ready(c, s, p)
    requires p.kind.Activate? ==> s.ctrl.table[p.rank][p.bank].countdown == 0
    ensures RowsAgree(c, IssueTable(c, p, s.clock, s.ctrl.table), s.log.issued + [Issue(s.clock, p)])
  {
    hide Opener, Usable, IssueBank;
    var issued' := s.log.issued + [Issue(s.clock, p)];
    var table' := IssueTable(c, p, s.clock, s.ctrl.table);
    forall r, b | 0 <= r < c.numRanks && 0 <= b < c.numBanks ensures RowAgrees(Opener(issued', r, b), table'[r][b]) {
      assert RowAgrees(Opener(s.log.issued, r, b), s.ctrl.table[r][b]);
      assert table'[r][b] == IssueBank(c, p, s.clock, r, b, s.ctrl.table[r][b]);
      IssueRow(c, p, s.clock, r, b, s.ctrl.table[r][b]);
      OpenerSnoc(s.log.issued, Issue(s.clock, p), r, b);
    }
  }

  /** A lone command keeps its opener when a command is issued for another bank. */
  lemma {:induction false} KeepsOpener(issued: seq<Issue>, e: Issue, p: BusPacket)
    requires OwnOpener(issued, p)
    requires e.packet.rank == p.rank ==> e.packet.bank != p.bank && !e.packet.kind.Refresh?
    ensures OwnOpener(issued + [e], p)
  {
    OpenerSnoc(issued, e, p.rank, p.bank);
  }

  /** Where a lone command of the rest of a queue comes from. */
  lemma {:induction false} LoneBefore(q: seq<BusPacket>, i: nat, pair: bool, k: nat)
    requires i < |q| && Paired(q) && (pair ==> i > 0 && q[i - 1].kind.Activate? && q[i].kind.IsColumn())
    requires k < |Without(q, i, pair)| && LoneAt(Without(q, i, pair), k)
    ensures || (!pair && k == i && q[i].kind.Activate? && i + 1 < |q| && Without(q, i, pair)[k] == q[i + 1])
            || exists j :: 0 <= j < |q| && j != i && LoneAt(q, j) && q[j] == Without(q, i, pair)[k]
  {
    var q' := Without(q, i, pair);
    var first := if pair then i - 1 else i;
    var j := if k < first then k else k + (|q| - |q'|);
    assert q'[k] == q[j] && (k > 0 && k != first ==> q'[k - 1] == q[j - 1]);
    if k == first && j > 0 && q[j - 1].kind.Activate? {
      assert j - 1 == i;
    } else {
      assert LoneAt(q, j);
    }
  }

  lemma {:induction false} LonesApart(c: Config, q: seq<BusPacket>, banks: seq<BankState>, counts: seq<nat>, i: nat, j: nat)
    requires |banks| == |counts| == c.numBanks && QueuePaired(c, q, banks, counts) && i < |q| && j < |q|
    ensures LoneAt(q, i) && LoneAt(q, j) && i != j ==> q[i].bank != q[j].bank
  {
    if LoneAt(q, i) && LoneAt(q, j) && q[i].bank == q[j].bank { LoneUnique(c, q, banks, counts, i, j); }
  }

  /** No lone command waits for the bank of the popped command, except the popped one. */
  lemma {:induction false} PopsOther(c: Config, s: State, v: View, q: QueueState, ch: Choice, p: BusPacket, r: nat, t: nat, i: nat)
    requires WellPaired(c, s.ctrl.queue.queues, s.ctrl.table, s.ctrl.queue.counters)
    requires Choosing(c, s, v, q, ch) && Chosen(c, q, ch) == Some(p) && Ready(c, s, p)
    requires r < c.numRanks && t < c.Slots() && i < |q.queues[r][t]| && LoneAt(q.queues[r][t], i)
    requires !(ch.Take? && ch.rank == r && ch.slot == t && ch.index == i)
    ensures q.queues[r][t][i].rank == r
    ensures p.rank == r ==> p.bank != q.queues[r][t][i].bank && !p.kind.Refresh?
  {
    hide Without, RefreshChoice, Issuable;
    var packets := q.queues[r][t];
    var l := packets[i];
    assert PacketOk(c, r, t, l);
    assert QueuePaired(c, packets, s.ctrl.table[r], q.counters[r]);
    assert LoneOk(c, packets, i, s.ctrl.table[r], q.counters[r]);
    match ch
    case Take(r2, s2, i2, pair) =>
      assert PacketOk(c, r2, s2, q.queues[r2][s2][i2]);
      if r2 == r && s2 == t { LonesApart(c, packets, s.ctrl.table[r], q.counters[r], i, i2); }
    case SendRefresh(r2) =>
      assert BankReady(p, s.clock, s.ctrl.table[r2][l.bank]) || r2 != r;
    case SendPrecharge(r2, b2) =>
    case Nothing =>
  }

  lemma {:induction false} PopLones(c: Config, s: State, v: View, q: QueueState, ch: Choice, p: BusPacket, r: nat, t: nat)
    requires WellPaired(c, s.ctrl.queue.queues, s.ctrl.table, s.ctrl.queue.counters)
    requires Choosing(c, s, v, q, ch) && Chosen(c, q, ch) == Some(p) && Ready(c, s, p)
    requires r < c.numRanks && t < c.Slots() && LonesOpened(s.log.issued, q.queues[r][t])
    ensures LonesOpened(s.log.issued + [Issue(s.clock, p)], QueuesAfter(c, q, ch)[r][t])
  {
    hide Opener, WellPaired, Ready, ViewOk, RefreshChoice, Issuable, LoneOk, OwnOpener, Blocks, Usable;
    var e := Issue(s.clock, p);
    var packets := q.queues[r][t];
    var rest := QueuesAfter(c, q, ch)[r][t];
    PairedQueue(c, s, r, t);
    forall k | 0 <= k < |rest| && LoneAt(rest, k) ensures OwnOpener(s.log.issued + [e], rest[k]) {
      if ch.Take? && ch.rank == r && ch.slot == t {
        LoneBefore(packets, ch.index, ch.pair, k);
        if !(!ch.pair && k == ch.index && packets[k].kind.Activate?) {
          var j :| 0 <= j < |packets| && j != ch.index && LoneAt(packets, j) && packets[j] == rest[k];
          PopsOther(c, s, v, q, ch, p, r, t, j);
          KeepsOpener(s.log.issued, e, rest[k]);
        } else {
          OpensOwn(s.log.issued, e, rest[k]);
        }
      } else {
        PopsOther(c, s, v, q, ch, p, r, t, k);
        KeepsOpener(s.log.issued, e, rest[k]);
      }
    }
  }

  lemma {:induction false} PairedQueue(c: Config, s: State, r: nat, t: nat)
    requires WellPaired(c, s.ctrl.queue.queues, s.ctrl.table, s.ctrl.queue.counters)
    requires r < c.numRanks && t < c.Slots()
    ensures |s.ctrl.queue.queues| == c.numRanks && |s.ctrl.queue.queues[r]| == c.Slots()
    ensures Paired(s.ctrl.queue.queues[r][t])
  {
    assert QueuePaired(c, s.ctrl.queue.queues[r][t], s.ctrl.table[r], s.ctrl.queue.counters[r]);
  }

  lemma {:induction false} OpensOwn(issued: seq<Issue>, e: Issue, p: BusPacket)
    requires e.packet.kind.Activate? && SameTarget(e.packet, p)
    ensures OwnOpener(issued + [e], p)
  {
    OpenerSnoc(issued, e, p.rank, p.bank);
  }

  lemma {:induction false} PopLegal(c: Config, s: State, v: View, q: QueueState, ch: Choice, p: BusPacket)
    requires Protocol(c, s) && Choosing(c, s, v, q, ch) && Chosen(c, q, ch) == Some(p) && Ready(c, s, p)
    ensures Legal(c, s.log.issued, p)
  {
    hide Opener, RefreshChoice, Issuable, AllLegal, Blocks;
    assert RowAgrees(Opener(s.log.issued, p.rank, p.bank), s.ctrl.table[p.rank][p.bank]);
    if p.kind.Refresh? {
      forall b | 0 <= b < c.numBanks ensures Opener(s.log.issued, p.rank, b).None? {
        assert RowAgrees(Opener(s.log.issued, p.rank, b), s.ctrl.table[p.rank][b]);
        assert BankReady(p, s.clock, s.ctrl.table[p.rank][b]);
      }
    }
    if ch.Take? && c.policy.ClosePage? && p.kind.IsColumn() {
      assert LonesOpened(s.log.issued, q.queues[ch.rank][ch.slot]);
    }
  }

  lemma {:induction false} LegalSnoc(c: Config, issued: seq<Issue>, e: Issue)
    requires AllLegal(c, issued) && Legal(c, issued, e.packet)
    ensures AllLegal(c, issued + [e])
  {
    hide Legal;
    var issued' := issued + [e];
    forall n | 0 <= n < |issued'| ensures Legal(c, issued'[..n], issued'[n].packet) {
      assert issued'[..n] == issued[..n];
    }
  }

  lemma {:induction false} PopSomeProtocol(c: Config, s: State, z: Stamps, v: View, q: QueueState, d: Decision, p: BusPacket)
    requires Commands(c, s, z) && Protocol(c, s) && z.table == s.clock && s.ctrl.cmdBus.None?
    requires Choosing(c, s, v, q, d.choice) && Chosen(c, q, d.choice) == Some(p) && PosOk(c, d.scan) && PosOk(c, d.pre)
    ensures Protocol(c, AfterPop(c, s, Commit(c, q, d).queue, p))
  {
    PopChosenReady(c, s, z, v, q, d.choice, p);
    PopRows(c, s, p);
    PopLegal(c, s, v, q, d.choice, p);
    LegalSnoc(c, s.log.issued, Issue(s.clock, p));
    var queues' := QueuesAfter(c, q, d.choice);
    hide Opener, WellPaired, Ready, ViewOk, Sound, InStep, QueuePaired, Windows, LonesOpened, RowsAgree, AllLegal, AllHeld, Chosen;
    assert |queues'| == c.numRanks && forall r :: 0 <= r < c.numRanks ==> |queues'[r]| == c.Slots();
    forall r, t | 0 <= r < |queues'| && 0 <= t < |queues'[r]|
      ensures LonesOpened(s.log.issued + [Issue(s.clock, p)], queues'[r][t])
    {
      PopLones(c, s, v, q, d.choice, p, r, t);
    }
  }

  lemma {:induction false} PopProtocol(c: Config, s: State, z: Stamps)
    requires Good(c, s, z) && s.ctrl.cmdBus.None? && Protocol(c, s) && z.table == s.clock
    requires PopReady(c, s) && PopPhase(c, s).Ok?
    ensures Protocol(c, PopPhase(c, s).value)
  {
    hide Commands, DataPaths, Orders, Accounts, Decide, IssueTable, QueuesOk, WellPaired, ViewOf, Protocol;
    GoodPopReady(c, s, z);
    DecisionSound(c, s);
    var q := AgedQueue(s.ctrl.queue);
    var d := DecisionOf(c, s);
    match Chosen(c, q, d.choice)
    case None => NothingPopped(c, s, Commit(c, q, d).queue);
    case Some(p) => PopSomeProtocol(c, s, z, ViewOf(q, s.ctrl.table, s.clock), q, d, p);
  }

  lemma {:induction false} NothingPopped(c: Config, s: State, q': QueueState)
    requires Protocol(c, s) && q'.queues == s.ctrl.queue.queues
    ensures Protocol(c, s.(ctrl := s.ctrl.(queue := q')))
  {
  }

  // ----- The other phases -----

  lemma {:induction false} AppendLones(issued: seq<Issue>, q: seq<BusPacket>, act: BusPacket, col: BusPacket)
    requires LonesOpened(issued, q) && act.kind.Activate?
    ensures LonesOpened(issued, q + [act, col])
  {
    var q' := q + [act, col];
    forall i | 0 <= i < |q'| && LoneAt(q', i) ensures OwnOpener(issued, q'[i]) {
      assert i < |q| && LoneAt(q, i);
    }
  }

  lemma {:induction false} SplitProtocol(c: Config, s: State)
    requires Protocol(c, s) && SplitReady(c, s) && SplitPhase(c, s).Ok?
    ensures Protocol(c, SplitPhase(c, s).value)
  {
    hide Opener, LonesOpened, RowsAgree, AllLegal, Locate, FirstWithRoom;
    var ts := s.ctrl.transactions;
    var queues := s.ctrl.queue.queues;
    var i := FirstWithRoom(c, queues, ts, 0);
    if i < |ts| {
      AppendLones(s.log.issued, QueueFor(c, queues, ts[i]), ActivatePacket(c, ts[i]), ColumnPacket(c, ts[i]));
    }
  }

  lemma {:induction false} PowerProtocol(c: Config, s: State, z: Stamps, n: nat)
    requires Good(c, s, z) && PowerReady(c, s) && n <= c.numRanks && z.table == s.clock
    requires Busy(s.ctrl.table, s.ctrl.cmdBus) && Protocol(c, s)
    ensures PowerPhase(c, s, n).Ok? && Protocol(c, PowerPhase(c, s, n).value)
  {
    hide Good, PowerPhase, Busy, PowerRank, PowerReady, Protocol;
    PowerGood(c, s, z, n);
    if n > 0 {
      PowerProtocol(c, s, z, n - 1);
      PowerGood(c, s, z, n - 1);
      var s1 := PowerPhase(c, s, n - 1).value;
      PowerStaysReady(c, s, n - 1);
      PowerStepGood(c, s1, z, n - 1);
      PowerUnfold(c, s, n, s1);
      PowerSameRows(c, s1, z, n - 1);
      FrameProtocol(c, s1, AfterPower(s1, n - 1, PowerOf(c, s1, n - 1).value));
    } else {
      PowerNone(c, s);
    }
  }

  lemma {:induction false} PowerSameRows(c: Config, s: State, z: Stamps, r: nat)
    requires Good(c, s, z) && PowerReady(c, s) && r < c.numRanks && PowerOf(c, s, r).Ok?
    ensures SameRows(c, s.ctrl.table, AfterPower(s, r, PowerOf(c, s, r).value).ctrl.table)
  {
    hide DataPaths, Orders, Accounts, PowerRank, WellPaired, AllHeld, Windows, RankInStep;
    assert PowerOk(s.ctrl.table[r], s.ctrl.powerDown[r], s.ranks[r]);
    PowerRankKeeps(c, s.clock, QueueEmpty(s.ctrl.queue.queues[r]), s.ctrl.table[r], s.ctrl.powerDown[r], s.ranks[r]);
  }

  lemma {:induction false} RefreshFrame(c: Config, s: State)
    requires RefreshReady(c, s)
    ensures var s' := RefreshPhase(c, s);
            s'.ctrl.table == s.ctrl.table && s'.ctrl.queue.queues == s.ctrl.queue.queues && s'.log.issued == s.log.issued
    ensures RefreshPhase(c, s).clock == s.clock && RefreshPhase(c, s).ctrl.cmdBus == s.ctrl.cmdBus
  {
  }

  lemma {:induction false} EndProtocol(c: Config, s: State)
    requires Protocol(c, s)
    ensures Protocol(c, ClockPhase(ReturnPhase(s)))
  {
    hide RowsAgree, AllLonesOpened, AllLegal;
  }

  lemma {:induction false} SecondHalfProtocol(c: Config, s: State)
    requires Good(c, s, Stamps(s.clock, s.clock, s.clock - 1, s.clock, s.clock, s.clock, s.clock))
    requires s.ctrl.cmdBus.None? && OnCadence(c, s) && Protocol(c, s)
    ensures SecondHalf(c, s).Ok? && Protocol(c, SecondHalf(c, s).value)
  {
    hide Good, CadenceAhead, Cadence, Protocol, SameRows;
    hide RefreshPhase, PopPhase, SplitPhase, PowerPhase, ReturnPhase, ClockPhase, PowerReady, SplitReady, PopReady, RefreshReady;
    var t: int := s.clock;
    var z0 := Stamps(t, t, t - 1, t, t, t, t);
    CadenceReady(c, s, z0);
    RefreshGood(c, s, z0);
    RefreshFrame(c, s);
    RefreshProtocol(c, s, z0);
    var a := RefreshPhase(c, s);
    PopGood(c, a, z0);
    PopProtocol(c, a, z0);
    var b := PopPhase(c, a).value;
    var z := Stamps(t, t + 1, t, t, t, t, t + 1);
    GoodReady(c, b, z);
    SplitGood(c, b, z);
    SplitProtocol(c, b);
    var d := SplitPhase(c, b).value;
    GoodReady(c, d, z);
    PowerProtocol(c, d, z, c.numRanks);
    EndProtocol(c, PowerPhase(c, d, c.numRanks).value);
  }

  lemma {:induction false} RefreshProtocol(c: Config, s: State, z: Stamps)
    requires Good(c, s, z) && RefreshReady(c, s) && Protocol(c, s)
    ensures Protocol(c, RefreshPhase(c, s))
  {
    hide DataPaths, Orders, Accounts, AllLonesOpened, AllLegal, AllHeld, Windows, InStep, WellPaired;
    RefreshFrame(c, s);
  }

  lemma {:induction false} InitProtocol(c: Config)
    requires c.Valid()
    ensures Protocol(c, Init(c))
  {
  }

  /** In every run the popped commands form a legal history: an ACTIVATE only for a closed
      bank, a column command only for the open row, and under close page only for the row
      that its own ACTIVATE opened, a PRECHARGE only for an open bank, a REFRESH only for a
      rank with all banks closed. */
  lemma {:induction false} RunProtocol(c: Config, events: seq<Event>)
    requires SystemOk(c) && Run(c, events).Ok?
    ensures Protocol(c, Run(c, events).value)
  {
    hide Inv, Cycle, Submit, Init, Protocol;
    if |events| == 0 {
      InitProtocol(c);
    } else {
      var before := events[..|events| - 1];
      RunSafe(c, before);
      RunProtocol(c, before);
      var s := Run(c, before).value;
      match events[|events| - 1]
      case Request(t) => SubmitProtocol(c, s, t);
      case Clock => CycleProtocol(c, s);
    }
  }

  lemma {:induction false} SubmitProtocol(c: Config, s: State, t: Transaction)
    requires Protocol(c, s)
    ensures Protocol(c, Submit(c, s, t))
  {
    hide RowsAgree, AllLonesOpened, AllLegal;
  }

  lemma {:induction false} CycleProtocol(c: Config, s: State)
    requires Inv(c, s) && Protocol(c, s) && Cycle(c, s).Ok?
    ensures Protocol(c, Cycle(c, s).value)
  {
    hide Good, Cadence, FirstHalf, SecondHalf, Protocol;
    FirstHalfGood(c, s);
    FirstHalfProtocol(c, s);
    SecondHalfProtocol(c, FirstHalf(c, s).value);
  }
}
