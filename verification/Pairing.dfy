/** The shape of the command queues: adjacent ACTIVATE/column pairs, plus at most one lone
    column command per bank, whose row is open. */
module Pairing {
  import opened Configuration
  import opened Packets
  import opened BankTiming
  import opened Scheduling

  predicate SameTarget(p: BusPacket, q: BusPacket) {
    p.addr == q.addr && p.col == q.col && p.row == q.row && p.rank == q.rank && p.bank == q.bank
    && p.id == q.id
  }

  /** Every ACTIVATE is followed by the column command of its own transaction. */
  predicate Paired(q: seq<BusPacket>) {
    forall i :: 0 <= i < |q| && q[i].kind.Activate? ==>
      i + 1 < |q| && q[i + 1].kind.IsColumn() && SameTarget(q[i], q[i + 1])
  }

  /** The column command at i has no ACTIVATE in front of it: it was issued already. */
  predicate LoneAt(q: seq<BusPacket>, i: nat)
    requires i < |q|
  {
    q[i].kind.IsColumn() && (i == 0 || !q[i - 1].kind.Activate?)
  }

  /** Commands of one queue whose order must not change: those to one bank under the close
      page policy, those to one row of one bank under open page. */
  predicate Conflict(c: Config, p: BusPacket, q: BusPacket) {
    p.bank == q.bank && (c.policy.OpenPage? ==> p.row == q.row)
  }

  predicate Unobstructed(c: Config, q: seq<BusPacket>, i: nat)
    requires i < |q|
  {
    forall j :: 0 <= j < i ==> !Conflict(c, q[j], q[i])
  }

  /** A lone column command waits for an open row that no auto-precharge is closing and
      that has served no other access, and nothing that conflicts with it is ahead of it. */
  predicate LoneOk(c: Config, q: seq<BusPacket>, i: nat, banks: seq<BankState>, counts: seq<nat>)
    requires i < |q| && |banks| == |counts| == c.numBanks
  {
    && q[i].bank < c.numBanks
    && Usable(banks[q[i].bank])
    && q[i].row == banks[q[i].bank].openRow
    && counts[q[i].bank] == 0
    && Unobstructed(c, q, i)
  }

  predicate QueuePaired(c: Config, q: seq<BusPacket>, banks: seq<BankState>, counts: seq<nat>)
    requires |banks| == |counts| == c.numBanks
  {
    Paired(q) && forall i :: 0 <= i < |q| && LoneAt(q, i) ==> LoneOk(c, q, i, banks, counts)
  }

  /** The counter of a closed bank is zero, as is every counter under close page; no
      auto-precharge is ever under way under open page. */
  predicate BankPolicy(c: Config, m: BankState, count: nat) {
    && count <= c.totalRowAccesses
    && (!m.mode.RowActive? || c.policy.ClosePage? ==> count == 0)
    && (c.policy.OpenPage? && m.mode.RowActive? ==> m.countdown == 0)
  }

  predicate WellPaired(c: Config, queues: seq<seq<seq<BusPacket>>>, table: Table, counters: seq<seq<nat>>) {
    && QueuesOk(c, queues) && Rect(table, c.numRanks, c.numBanks)
    && Rect(counters, c.numRanks, c.numBanks)
    && (forall r, s :: 0 <= r < c.numRanks && 0 <= s < c.Slots() ==>
          QueuePaired(c, queues[r][s], table[r], counters[r]))
    && (forall r, b :: 0 <= r < c.numRanks && 0 <= b < c.numBanks ==>
          BankPolicy(c, table[r][b], counters[r][b]))
  }

  /** No lone command waits for bank b. */
  predicate NoLone(q: seq<BusPacket>, b: nat) {
    forall i :: 0 <= i < |q| && LoneAt(q, i) ==> q[i].bank != b
  }

  /** A bank has at most one lone command. */
  lemma {:induction false} LoneUnique(c: Config, q: seq<BusPacket>, banks: seq<BankState>, counts: seq<nat>, i: nat, j: nat)
    requires |banks| == |counts| == c.numBanks && QueuePaired(c, q, banks, counts)
    requires i < |q| && j < |q| && LoneAt(q, i) && LoneAt(q, j) && q[i].bank == q[j].bank
    ensures i == j
  {
    assert LoneOk(c, q, i, banks, counts) && LoneOk(c, q, j, banks, counts);
  }

  // ----- What a choice guarantees -----

  /** The facts about a chosen command on which the protocol rests. */
  predicate Sound(c: Config, v: View, q: QueueState, ch: Choice)
    requires c.Valid() && ViewOk(c, v) && StateOk(c, q) && ChoiceOk(c, q, ch)
  {
    match ch
    case Nothing => true
    case Take(r, s, i, pair) =>
      var packets := q.queues[r][s];
      var p := packets[i];
      && PacketOk(c, r, s, p)
      && Issuable(c, v, p)
      && (p.kind.Activate? ==> !pair && Unobstructed(c, packets, i))
      && (p.kind.IsColumn() ==>
            && Usable(v.table[r][p.bank])
            && (forall j :: 0 <= j < i && packets[j].kind.IsColumn() ==> !Conflict(c, packets[j], p))
            && (if pair then packets[i - 1].kind.Activate? && c.policy.OpenPage? && NoLone(packets, p.bank)
                else LoneAt(packets, i)))
    case SendRefresh(r) =>
      q.refreshWaiting && r == q.refreshRank && !v.table[r][0].mode.PowerDown?
      && forall b :: 0 <= b < c.numBanks ==> !Blocks(v.now, v.table[r][b])
    case SendPrecharge(r, b) =>
      && c.policy.OpenPage?
      && v.table[r][b].mode.RowActive? && v.now >= v.table[r][b].nextPrecharge
      && NoLone(q.queues[r][c.Slot(b)], b)
  }

  lemma {:induction false} RefreshSound(c: Config, v: View, q: QueueState)
    requires c.Valid() && ViewOk(c, v) && StateOk(c, q) && v.counters == q.counters
    requires WellPaired(c, q.queues, v.table, q.counters) && q.refreshWaiting
    ensures ChoiceOk(c, q, RefreshChoice(c, v, q.queues, q.refreshRank))
    ensures Sound(c, v, q, RefreshChoice(c, v, q.queues, q.refreshRank))
  {
    var r: nat := q.refreshRank;
    var b := FirstBlocking(v.now, v.table[r], 0);
    if b < c.numBanks && v.table[r][b].mode.RowActive? {
      var m := v.table[r][b];
      var s := c.Slot(b);
      var packets := q.queues[r][s];
      var j := FirstMatch(c, packets, b, m.openRow, 0);
      assert QueuePaired(c, packets, v.table[r], q.counters[r]);
      if j < |packets| {
        assert PacketOk(c, r, s, packets[j]);
        assert packets[j].bank == b;
        assert j > 0 ==> !Matches(c, packets[j - 1], b, m.openRow);
        assert !packets[j].kind.Activate? ==> LoneAt(packets, j);
      }
      if RefreshChoice(c, v, q.queues, r).SendPrecharge? {
        forall i | 0 <= i < |packets| && LoneAt(packets, i) ensures packets[i].bank != b {
          assert PacketOk(c, r, s, packets[i]);
          assert LoneOk(c, packets, i, v.table[r], q.counters[r]);
          assert packets[i].bank == b ==> Matches(c, packets[i], b, m.openRow);
          assert j < i ==> !Conflict(c, packets[j], packets[i]);
        }
      }
    }
  }

  /** The packet the normal phase picks, under close page. */
  lemma {:induction false} ClosePickSound(c: Config, v: View, r: nat, s: nat, packets: seq<BusPacket>, i: nat)
    requires c.Valid() && ViewOk(c, v) && c.policy.ClosePage? && r < c.numRanks
    requires forall j :: 0 <= j < |packets| ==> PacketOk(c, r, s, packets[j]) && InRange(c, packets[j])
    requires QueuePaired(c, packets, v.table[r], v.counters[r])
    requires i == FirstPick(c, v, packets, 0) && i < |packets|
    ensures packets[i].kind.Activate? ==> Unobstructed(c, packets, i)
    ensures packets[i].kind.IsColumn() ==> LoneAt(packets, i)
  {
    var p := packets[i];
    if p.kind.Activate? {
      forall j | 0 <= j < i ensures !Conflict(c, packets[j], p) {
        assert PacketOk(c, r, s, packets[j]);
        assert !Pickable(c, v, packets, j);
        assert j > 0 ==> !Pickable(c, v, packets, j - 1);
        assert LoneAt(packets, j) ==> LoneOk(c, packets, j, v.table[r], v.counters[r]);
      }
    }
  }

  lemma {:induction false} OpenPickSound(c: Config, v: View, r: nat, s: nat, packets: seq<BusPacket>, i: nat)
    requires c.Valid() && ViewOk(c, v) && c.policy.OpenPage? && r < c.numRanks
    requires forall j :: 0 <= j < |packets| ==> PacketOk(c, r, s, packets[j]) && InRange(c, packets[j])
    requires QueuePaired(c, packets, v.table[r], v.counters[r])
    requires i < |packets| && Pickable(c, v, packets, i)
    ensures packets[i].kind.Activate? ==>
              Unobstructed(c, packets, i) && !(i > 0 && packets[i - 1].kind.Activate?)
    ensures forall j :: 0 <= j < i && packets[j].kind.IsColumn() ==> !Conflict(c, packets[j], packets[i])
    ensures packets[i].kind.IsColumn() && i > 0 && packets[i - 1].kind.Activate? ==>
              NoLone(packets, packets[i].bank)
  {
    var p := packets[i];
    forall j | 0 <= j < i && packets[j].kind.IsColumn() ensures !Conflict(c, packets[j], p) {
      assert !DependsOn(c, packets, j, i);
    }
    if p.kind.Activate? {
      forall j | 0 <= j < i ensures !Conflict(c, packets[j], p) {
        assert !DependsOn(c, packets, j, i);
        assert j + 1 < i ==> !DependsOn(c, packets, j + 1, i);
      }
    } else if i > 0 && packets[i - 1].kind.Activate? {
      forall k | 0 <= k < |packets| && LoneAt(packets, k) ensures packets[k].bank != p.bank {
        assert LoneOk(c, packets, k, v.table[r], v.counters[r]);
        assert k < i ==> !Conflict(c, packets[k], p);
        assert i < k ==> !Conflict(c, p, packets[k]);
      }
    }
  }

  lemma {:induction false} ClosableSound(c: Config, v: View, q: QueueState, pos: Position)
    requires c.Valid() && ViewOk(c, v) && StateOk(c, q) && v.counters == q.counters && PosOk(c, pos)
    requires WellPaired(c, q.queues, v.table, q.counters) && Closable(c, v, q, pos)
    ensures NoLone(q.queues[pos.rank][c.Slot(pos.bank)], pos.bank)
  {
    var m := v.table[pos.rank][pos.bank];
    var packets := q.queues[pos.rank][c.Slot(pos.bank)];
    assert QueuePaired(c, packets, v.table[pos.rank], q.counters[pos.rank]);
    forall i | 0 <= i < |packets| && LoneAt(packets, i) ensures packets[i].bank != pos.bank {
      assert LoneOk(c, packets, i, v.table[pos.rank], q.counters[pos.rank]);
      assert packets[i].bank == pos.bank ==> Matches(c, packets[i], pos.bank, m.openRow);
    }
  }

  lemma {:induction false} TakeSound(c: Config, v: View, q: QueueState, pos: Position)
    requires c.Valid() && ViewOk(c, v) && StateOk(c, q) && v.counters == q.counters && PosOk(c, pos)
    requires WellPaired(c, q.queues, v.table, q.counters) && HasPick(c, v, q, pos)
    ensures var s := c.Slot(pos.bank);
            var packets := q.queues[pos.rank][s];
            var i := FirstPick(c, v, packets, 0);
            var pair := c.policy.OpenPage? && i > 0 && packets[i - 1].kind.Activate?;
            ChoiceOk(c, q, Take(pos.rank, s, i, pair)) && Sound(c, v, q, Take(pos.rank, s, i, pair))
  {
    var r, s := pos.rank, c.Slot(pos.bank);
    var packets := q.queues[r][s];
    var i := FirstPick(c, v, packets, 0);
    assert forall j :: 0 <= j < |packets| ==> PacketOk(c, r, s, packets[j]) && InRange(c, packets[j]);
    assert QueuePaired(c, packets, v.table[r], v.counters[r]);
    assert BankPolicy(c, v.table[r][packets[i].bank], q.counters[r][packets[i].bank]);
    if c.policy.ClosePage? {
      ClosePickSound(c, v, r, s, packets, i);
      if packets[i].kind.IsColumn() { assert LoneOk(c, packets, i, v.table[r], v.counters[r]); }
    } else {
      OpenPickSound(c, v, r, s, packets, i);
    }
  }

  /** Whatever the scheduler decides is sound, as long as the queues are paired. */
  lemma {:induction false} DecideSound(c: Config, v: View, q: QueueState)
    requires c.Valid() && ViewOk(c, v) && StateOk(c, q) && v.counters == q.counters
    requires WellPaired(c, q.queues, v.table, q.counters)
    ensures ChoiceOk(c, q, Decide(c, v, q).choice)
    ensures Sound(c, v, q, Decide(c, v, q).choice)
  {
    var start := Position(q.nextRank, q.nextBank);
    if q.refreshWaiting { RefreshSound(c, v, q); }
    if !(q.refreshWaiting && RefreshChoice(c, v, q.queues, q.refreshRank) != Nothing) {
      match Scan(c, v, q, start, Total(c, c.structure.PerRank?))
      case Some(pos) => TakeSound(c, v, q, pos);
      case None =>
        if c.policy.OpenPage? {
          var pre := Position(q.nextRankPRE, q.nextBankPRE);
          match ScanClosable(c, v, q, pre, Rounds(c, false, pre, PrechargeStop(c, pre)))
          case Some(pos) => ClosableSound(c, v, q, pos);
          case None =>
        }
    }
  }

  // ----- Taking a command keeps the queues paired -----

  /** An open row stays open and stays the same. */
  predicate KeepsRow(a: BankState, b: BankState) { Usable(a) ==> Usable(b) && b.openRow == a.openRow }

  predicate KeepsRowsBut(banks: seq<BankState>, banks': seq<BankState>, b: nat) {
    |banks| == |banks'| && forall j :: 0 <= j < |banks| && j != b ==> KeepsRow(banks[j], banks'[j])
  }

  lemma {:induction false} KeepPaired(c: Config, q: seq<BusPacket>, banks: seq<BankState>, banks': seq<BankState>,
                   counts: seq<nat>, counts': seq<nat>)
    requires |banks| == |banks'| == |counts| == |counts'| == c.numBanks
    requires QueuePaired(c, q, banks, counts)
    requires forall i :: 0 <= i < |q| && LoneAt(q, i) && q[i].bank < c.numBanks ==>
               KeepsRow(banks[q[i].bank], banks'[q[i].bank]) && counts'[q[i].bank] == counts[q[i].bank]
    ensures QueuePaired(c, q, banks', counts')
  {
    forall i | 0 <= i < |q| && LoneAt(q, i) ensures LoneOk(c, q, i, banks', counts') {
      assert LoneOk(c, q, i, banks, counts);
    }
  }

  lemma {:induction false} TakeActivate(c: Config, q: seq<BusPacket>, i: nat, banks: seq<BankState>, banks': seq<BankState>,
                     counts: seq<nat>)
    requires |banks| == |counts| == c.numBanks && QueuePaired(c, q, banks, counts)
    requires i < |q| && q[i].kind.Activate? && q[i].bank < c.numBanks && Unobstructed(c, q, i)
    requires !Usable(banks[q[i].bank]) && counts[q[i].bank] == 0
    requires KeepsRowsBut(banks, banks', q[i].bank)
    requires Usable(banks'[q[i].bank]) && banks'[q[i].bank].openRow == q[i].row
    ensures QueuePaired(c, Without(q, i, false), banks', counts)
  {
    var q' := Without(q, i, false);
    forall k | 0 <= k < |q'| && q'[k].kind.Activate?
      ensures k + 1 < |q'| && q'[k + 1].kind.IsColumn() && SameTarget(q'[k], q'[k + 1])
    {
      assert k + 1 != i;
    }
    forall k | 0 <= k < |q'| && LoneAt(q', k) ensures LoneOk(c, q', k, banks', counts) {
      if k < i {
        assert LoneOk(c, q, k, banks, counts);
      } else if k > i {
        assert LoneAt(q, k + 1) && LoneOk(c, q, k + 1, banks, counts);
        assert forall j :: 0 <= j < k ==> q'[j] == q[if j < i then j else j + 1];
      } else {
        assert SameTarget(q[i], q[i + 1]);
        assert forall j :: 0 <= j < i ==> !Conflict(c, q[j], q[i]);
      }
    }
  }

  lemma {:induction false} TakeLone(c: Config, q: seq<BusPacket>, i: nat, banks: seq<BankState>, banks': seq<BankState>,
                 counts: seq<nat>)
    requires |banks| == |counts| == c.numBanks && QueuePaired(c, q, banks, counts)
    requires i < |q| && LoneAt(q, i)
    requires KeepsRowsBut(banks, banks', q[i].bank)
    ensures QueuePaired(c, Without(q, i, false), banks', counts)
  {
    var q' := Without(q, i, false);
    forall k | 0 <= k < |q'| && q'[k].kind.Activate?
      ensures k + 1 < |q'| && q'[k + 1].kind.IsColumn() && SameTarget(q'[k], q'[k + 1])
    {
      assert k + 1 != i;
    }
    forall k | 0 <= k < |q'| && LoneAt(q', k) ensures LoneOk(c, q', k, banks', counts) {
      var k' := if k < i then k else k + 1;
      assert LoneAt(q, k') && LoneOk(c, q, k', banks, counts);
      assert q[k'].bank != q[i].bank by {
        if q[k'].bank == q[i].bank { LoneUnique(c, q, banks, counts, k', i); assert false; }
      }
      assert forall j :: 0 <= j < k ==> q'[j] == q[if j < i then j else j + 1];
    }
  }

  lemma {:induction false} TakePair(c: Config, q: seq<BusPacket>, i: nat, banks: seq<BankState>, banks': seq<BankState>,
                 counts: seq<nat>, counts': seq<nat>)
    requires |banks| == |counts| == |counts'| == c.numBanks && QueuePaired(c, q, banks, counts)
    requires 0 < i < |q| && q[i].kind.IsColumn() && q[i - 1].kind.Activate? && NoLone(q, q[i].bank)
    requires KeepsRowsBut(banks, banks', q[i].bank)
    requires forall b :: 0 <= b < c.numBanks && b != q[i].bank ==> counts'[b] == counts[b]
    ensures QueuePaired(c, Without(q, i, true), banks', counts')
  {
    var q' := Without(q, i, true);
    forall k | 0 <= k < |q'| && q'[k].kind.Activate?
      ensures k + 1 < |q'| && q'[k + 1].kind.IsColumn() && SameTarget(q'[k], q'[k + 1])
    {
      assert k + 2 != i;
    }
    forall k | 0 <= k < |q'| && LoneAt(q', k) ensures LoneOk(c, q', k, banks', counts') {
      var k' := if k < i - 1 then k else k + 2;
      assert LoneAt(q, k') && LoneOk(c, q, k', banks, counts);
      assert forall j :: 0 <= j < k ==> q'[j] == q[if j < i - 1 then j else j + 2];
    }
  }

  // ----- The whole pop -----

  lemma {:induction false} IssueKeepsRows(c: Config, p: BusPacket, now: nat, table: Table, r: nat)
    requires r < |table|
    ensures !(p.kind.Refresh? && r == p.rank) ==>
              KeepsRowsBut(table[r], IssueTable(c, p, now, table)[r], if r == p.rank then p.bank else |table[r]|)
  {
    var t' := IssueTable(c, p, now, table);
    assert |t'[r]| == |table[r]|;
    forall j | 0 <= j < |table[r]| && !(p.kind.Refresh? && r == p.rank) && (r != p.rank || j != p.bank)
      ensures KeepsRow(table[r][j], t'[r][j])
    {
      assert t'[r][j] == IssueBank(c, p, now, r, j, table[r][j]);
    }
  }

  /** The queue of the command that was taken. */
  lemma {:induction false} TakenQueuePaired(c: Config, v: View, q: QueueState, ch: Choice)
    requires c.Valid() && ViewOk(c, v) && StateOk(c, q) && v.counters == q.counters
    requires WellPaired(c, q.queues, v.table, q.counters)
    requires ch.Take? && ChoiceOk(c, q, ch) && Sound(c, v, q, ch)
    requires var p := q.queues[ch.rank][ch.slot][ch.index];
             p.kind.Activate? ==> v.table[p.rank][p.bank].countdown == 0
    ensures var p := q.queues[ch.rank][ch.slot][ch.index];
            QueuePaired(c, QueuesAfter(c, q, ch)[ch.rank][ch.slot], IssueTable(c, p, v.now, v.table)[ch.rank],
                        CountersAfter(c, q, ch)[ch.rank])
  {
    var r, s, i := ch.rank, ch.slot, ch.index;
    var packets := q.queues[r][s];
    var p := packets[i];
    var table' := IssueTable(c, p, v.now, v.table);
    assert QueuePaired(c, packets, v.table[r], q.counters[r]);
    IssueKeepsRows(c, p, v.now, v.table, r);
    assert table'[r][p.bank] == IssueBank(c, p, v.now, r, p.bank, v.table[r][p.bank]);
    assert BankPolicy(c, v.table[r][p.bank], q.counters[r][p.bank]);
    if p.kind.Activate? {
      TakeActivate(c, packets, i, v.table[r], table'[r], q.counters[r]);
    } else if ch.pair {
      TakePair(c, packets, i, v.table[r], table'[r], q.counters[r], CountersAfter(c, q, ch)[r]);
    } else {
      TakeLone(c, packets, i, v.table[r], table'[r], q.counters[r]);
    }
  }

  /** Any other queue. */
  lemma {:induction false} OtherQueuePaired(c: Config, v: View, q: QueueState, ch: Choice, p: BusPacket, r: nat, s: nat)
    requires c.Valid() && ViewOk(c, v) && StateOk(c, q) && v.counters == q.counters
    requires WellPaired(c, q.queues, v.table, q.counters)
    requires ChoiceOk(c, q, ch) && Sound(c, v, q, ch) && Chosen(c, q, ch) == Some(p)
    requires r < c.numRanks && s < c.Slots() && !(ch.Take? && r == ch.rank && s == ch.slot)
    ensures QueuePaired(c, q.queues[r][s], IssueTable(c, p, v.now, v.table)[r], CountersAfter(c, q, ch)[r])
  {
    var packets := q.queues[r][s];
    var table' := IssueTable(c, p, v.now, v.table);
    var counters' := CountersAfter(c, q, ch);
    assert QueuePaired(c, packets, v.table[r], q.counters[r]);
    IssueKeepsRows(c, p, v.now, v.table, r);
    forall i | 0 <= i < |packets| && LoneAt(packets, i) && packets[i].bank < c.numBanks
      ensures KeepsRow(v.table[r][packets[i].bank], table'[r][packets[i].bank])
      ensures counters'[r][packets[i].bank] == q.counters[r][packets[i].bank]
    {
      assert PacketOk(c, r, s, packets[i]);
      assert LoneOk(c, packets, i, v.table[r], q.counters[r]);
      assert ch.SendRefresh? && r == ch.rank ==> !Blocks(v.now, v.table[r][packets[i].bank]);
    }
    KeepPaired(c, packets, v.table[r], table'[r], q.counters[r], counters'[r]);
  }

  lemma {:induction false} PoliciesAfter(c: Config, v: View, q: QueueState, ch: Choice, p: BusPacket)
    requires c.Valid() && ViewOk(c, v) && StateOk(c, q) && v.counters == q.counters
    requires WellPaired(c, q.queues, v.table, q.counters)
    requires ChoiceOk(c, q, ch) && Sound(c, v, q, ch) && Chosen(c, q, ch) == Some(p)
    requires p.kind.Activate? && p.bank < c.numBanks && p.rank < c.numRanks ==>
               v.table[p.rank][p.bank].countdown == 0
    ensures Rect(IssueTable(c, p, v.now, v.table), c.numRanks, c.numBanks)
    ensures Rect(CountersAfter(c, q, ch), c.numRanks, c.numBanks)
    ensures forall r, b :: 0 <= r < c.numRanks && 0 <= b < c.numBanks ==>
              BankPolicy(c, IssueTable(c, p, v.now, v.table)[r][b], CountersAfter(c, q, ch)[r][b])
  {
    var table' := IssueTable(c, p, v.now, v.table);
    var counters' := CountersAfter(c, q, ch);
    forall r, b | 0 <= r < c.numRanks && 0 <= b < c.numBanks
      ensures BankPolicy(c, table'[r][b], counters'[r][b])
    {
      assert table'[r][b] == IssueBank(c, p, v.now, r, b, v.table[r][b]);
      assert BankPolicy(c, v.table[r][b], q.counters[r][b]);
      assert ch.SendRefresh? && r == ch.rank ==> !Blocks(v.now, v.table[r][b]);
    }
  }

  lemma {:induction false} QueuesAfterOk(c: Config, q: QueueState, ch: Choice)
    requires StateOk(c, q) && ChoiceOk(c, q, ch)
    ensures QueuesOk(c, QueuesAfter(c, q, ch))
  {
    if ch.Take? {
      var packets := q.queues[ch.rank][ch.slot];
      var rest := Without(packets, ch.index, ch.pair);
      forall i | 0 <= i < |rest| ensures PacketOk(c, ch.rank, ch.slot, rest[i]) {
        assert rest[i] in packets;
      }
    }
  }

  /** Popping a command and updating the bank table keeps every queue paired. */
  lemma {:induction false} PopPairing(c: Config, v: View, q: QueueState, ch: Choice, p: BusPacket)
    requires c.Valid() && ViewOk(c, v) && StateOk(c, q) && v.counters == q.counters
    requires WellPaired(c, q.queues, v.table, q.counters)
    requires ChoiceOk(c, q, ch) && Sound(c, v, q, ch) && Chosen(c, q, ch) == Some(p)
    requires p.kind.Activate? && p.bank < c.numBanks && p.rank < c.numRanks ==>
               v.table[p.rank][p.bank].countdown == 0
    ensures WellPaired(c, QueuesAfter(c, q, ch), IssueTable(c, p, v.now, v.table), CountersAfter(c, q, ch))
  {
    QueuesAfterOk(c, q, ch);
    PoliciesAfter(c, v, q, ch, p);
    var queues' := QueuesAfter(c, q, ch);
    forall r, s | 0 <= r < c.numRanks && 0 <= s < c.Slots()
      ensures QueuePaired(c, queues'[r][s], IssueTable(c, p, v.now, v.table)[r], CountersAfter(c, q, ch)[r])
    {
      if ch.Take? && r == ch.rank && s == ch.slot {
        TakenQueuePaired(c, v, q, ch);
      } else {
        OtherQueuePaired(c, v, q, ch, p, r, s);
      }
    }
  }

  // ----- The other steps -----

  lemma {:induction false} TickPairing(c: Config, queues: seq<seq<seq<BusPacket>>>, table: Table, counters: seq<seq<nat>>)
    requires WellPaired(c, queues, table, counters)
    ensures WellPaired(c, queues, TickTable(c, table), counters)
  {
    var table' := TickTable(c, table);
    forall r, b | 0 <= r < c.numRanks && 0 <= b < c.numBanks
      ensures BankPolicy(c, table'[r][b], counters[r][b]) && KeepsRow(table[r][b], table'[r][b])
    {
      assert table'[r][b] == TickBank(c, table[r][b]);
      assert BankPolicy(c, table[r][b], counters[r][b]);
    }
    forall r, s | 0 <= r < c.numRanks && 0 <= s < c.Slots()
      ensures QueuePaired(c, queues[r][s], table'[r], counters[r])
    {
      KeepPaired(c, queues[r][s], table[r], table'[r], counters[r], counters[r]);
    }
  }

  lemma {:induction false} EnqueuePaired(c: Config, q: seq<BusPacket>, act: BusPacket, col: BusPacket,
                      banks: seq<BankState>, counts: seq<nat>)
    requires |banks| == |counts| == c.numBanks && QueuePaired(c, q, banks, counts)
    requires act.kind.Activate? && col.kind.IsColumn() && SameTarget(act, col)
    ensures QueuePaired(c, q + [act, col], banks, counts)
  {
    var q' := q + [act, col];
    forall i | 0 <= i < |q'| && LoneAt(q', i) ensures LoneOk(c, q', i, banks, counts) {
      assert i < |q| && LoneAt(q, i) && LoneOk(c, q, i, banks, counts);
      assert forall j :: 0 <= j < i ==> !Conflict(c, q[j], q[i]);
    }
  }
}
