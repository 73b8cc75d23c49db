/** What a pop does while a rank waits for a refresh, in terms of the queue and the bank table:
    when the REFRESH is sent, and how the banks that keep it from being sent are closed. */
module RefreshDrain {
  import opened Configuration
  import opened Packets
  import opened BankTiming
  import opened Scheduling

  /** No bank of the rank is open or too young to be refreshed. */
  predicate AllClear(now: nat, banks: seq<BankState>) {
    forall b :: 0 <= b < |banks| ==> !banks[b].mode.RowActive? && banks[b].nextActivate <= now
  }

  /** A waiting refresh is sent exactly if every bank is closed and ready and the rank is awake.
      It goes to the rank that waits, touches no queue, and nothing waits afterwards. */
  lemma {:induction false} RefreshSentExactly(c: Config, q: QueueState, table: Table, now: nat)
    requires c.Valid() && StateOk(c, q) && Rect(table, c.numRanks, c.numBanks)
    ensures var popped := Pop(c, q, table, now);
            && ((popped.packet.Some? && popped.packet.value.kind.Refresh?) <==>
                  && q.refreshWaiting && AllClear(now, table[q.refreshRank])
                  && !table[q.refreshRank][0].mode.PowerDown?)
            && (popped.packet.Some? && popped.packet.value.kind.Refresh? ==>
                  && popped.packet.value == BusPacket(Refresh, 0, 0, 0, q.refreshRank, 0, 0, 0)
                  && popped.queue.queues == q.queues && !popped.queue.refreshWaiting)
            && (!(popped.packet.Some? && popped.packet.value.kind.Refresh?) ==>
                  popped.queue.refreshWaiting == q.refreshWaiting && popped.queue.refreshRank == q.refreshRank)
  {
    hide Scan, ScanClosable, Closable, HasPick, Pickable;
    var aged := q.(faw := AgedAll(q.faw));
    var v := ViewOf(aged, table, now);
    var d := Decide(c, v, aged);
    DecideOk(c, v, aged);
    if d.choice.Take? { assert PacketOk(c, d.choice.rank, d.choice.slot, q.queues[d.choice.rank][d.choice.slot][d.choice.index]); }
    if q.refreshWaiting {
      var banks := table[q.refreshRank];
      assert FirstBlocking(now, banks, 0) == c.numBanks <==> AllClear(now, banks);
    }
  }

  /** p is for the row that is open in bank b. */
  predicate ForOpenRow(p: BusPacket, b: nat, m: BankState) { p.bank == b && p.row == m.openRow }

  /** j is the first packet of the queue for the row that is open in bank b. */
  predicate FirstForRow(packets: seq<BusPacket>, b: nat, m: BankState, j: nat) {
    j < |packets| && ForOpenRow(packets[j], b, m) && forall i :: 0 <= i < j ==> !ForOpenRow(packets[i], b, m)
  }

  /** Bank b of the rank that waits is open, and no bank before it stands in the way. */
  predicate FirstOpen(c: Config, q: QueueState, table: Table, now: nat, b: nat)
    requires c.Valid() && StateOk(c, q) && Rect(table, c.numRanks, c.numBanks)
  {
    && q.refreshWaiting && b < c.numBanks && table[q.refreshRank][b].mode.RowActive?
    && AllClear(now, table[q.refreshRank][..b])
  }

  /** The bank may carry out the column command p, for its open row, at cycle now. */
  predicate ColumnDue(c: Config, m: BankState, accesses: nat, p: BusPacket, now: nat) {
    p.kind.IsColumn() && accesses < c.totalRowAccesses && now >= if p.kind.IsRead() then m.nextRead else m.nextWrite
  }

  lemma {:induction false} FirstIsBlocking(c: Config, q: QueueState, table: Table, now: nat, b: nat)
    requires c.Valid() && StateOk(c, q) && Rect(table, c.numRanks, c.numBanks) && FirstOpen(c, q, table, now, b)
    ensures FirstBlocking(now, table[q.refreshRank], 0) == b
  {
    var banks := table[q.refreshRank];
    var k := FirstBlocking(now, banks, 0);
    assert Blocks(now, banks[b]);
    assert forall i :: 0 <= i < b ==> banks[..b][i] == banks[i];
  }

  lemma {:induction false} MatchIsFirst(c: Config, q: QueueState, table: Table, b: nat)
    requires c.Valid() && StateOk(c, q) && Rect(table, c.numRanks, c.numBanks) && q.refreshWaiting && b < c.numBanks
    ensures var m := table[q.refreshRank][b];
            var packets := q.queues[q.refreshRank][c.Slot(b)];
            var j := FirstMatch(c, packets, b, m.openRow, 0);
            && (j < |packets| ==> FirstForRow(packets, b, m, j))
            && (j == |packets| ==> forall i :: 0 <= i < |packets| ==> !ForOpenRow(packets[i], b, m))
  {
    var m := table[q.refreshRank][b];
    var packets := q.queues[q.refreshRank][c.Slot(b)];
    forall i | 0 <= i < |packets| ensures Matches(c, packets[i], b, m.openRow) <==> ForOpenRow(packets[i], b, m) {
      assert PacketOk(c, q.refreshRank, c.Slot(b), packets[i]);
    }
  }

  /** The first open bank finishes the accesses its row was opened for: the first packet for
      the row is popped as soon as it is due, if it is a column command. */
  lemma {:induction false} RowFinished(c: Config, q: QueueState, table: Table, now: nat, b: nat, j: nat)
    requires c.Valid() && StateOk(c, q) && Rect(table, c.numRanks, c.numBanks) && FirstOpen(c, q, table, now, b)
    requires FirstForRow(q.queues[q.refreshRank][c.Slot(b)], b, table[q.refreshRank][b], j)
    requires var p := q.queues[q.refreshRank][c.Slot(b)][j];
             ColumnDue(c, table[q.refreshRank][b], q.counters[q.refreshRank][b], p, now)
    ensures var packets := q.queues[q.refreshRank][c.Slot(b)];
            var popped := Pop(c, q, table, now);
            && popped.packet == Some(packets[j]) && popped.queue.counters == q.counters
            && popped.queue.queues == Update2(q.queues, q.refreshRank, c.Slot(b), packets[..j] + packets[j + 1..])
  {
    hide Scan, ScanClosable, Closable, HasPick, Pickable;
    FirstIsBlocking(c, q, table, now, b);
    MatchIsFirst(c, q, table, b);
    var packets := q.queues[q.refreshRank][c.Slot(b)];
    assert PacketOk(c, q.refreshRank, c.Slot(b), packets[j]);
    assert FirstMatch(c, packets, b, table[q.refreshRank][b].openRow, 0) == j;
    DecideOk(c, ViewOf(q.(faw := AgedAll(q.faw)), table, now), q.(faw := AgedAll(q.faw)));
  }

  /** Nothing that waits in the queue continues the open row: no packet is for it, or the first
      one opens it anew. */
  predicate RowDone(packets: seq<BusPacket>, b: nat, m: BankState) {
    forall j :: 0 <= j < |packets| && FirstForRow(packets, b, m, j) ==> packets[j].kind.Activate?
  }

  /** Under open page it is closed once nothing continues its row, as soon as that is due. */
  lemma {:induction false} RowClosed(c: Config, q: QueueState, table: Table, now: nat, b: nat)
    requires c.Valid() && StateOk(c, q) && Rect(table, c.numRanks, c.numBanks) && FirstOpen(c, q, table, now, b)
    requires c.policy.OpenPage? && RowDone(q.queues[q.refreshRank][c.Slot(b)], b, table[q.refreshRank][b])
    requires now >= table[q.refreshRank][b].nextPrecharge
    ensures var popped := Pop(c, q, table, now);
            && popped.packet == Some(BusPacket(Precharge, 0, 0, 0, q.refreshRank, b, 0, 0))
            && popped.queue.queues == q.queues && popped.queue.counters == Update2(q.counters, q.refreshRank, b, 0)
  {
    hide Scan, ScanClosable, Closable, HasPick, Pickable;
    FirstIsBlocking(c, q, table, now, b);
    MatchIsFirst(c, q, table, b);
    DecideOk(c, ViewOf(q.(faw := AgedAll(q.faw)), table, now), q.(faw := AgedAll(q.faw)));
  }

  /** The rank that waits gets no other packet of its queues: no ACTIVATE, and only a column
      command that finishes the row of its first open bank. */
  lemma {:induction false} NothingElse(c: Config, q: QueueState, table: Table, now: nat)
    requires c.Valid() && StateOk(c, q) && Rect(table, c.numRanks, c.numBanks) && q.refreshWaiting
    ensures var p := Pop(c, q, table, now).packet;
            p.Some? && p.value.rank == q.refreshRank && !p.value.kind.Refresh? && !p.value.kind.Precharge? ==>
              && p.value.kind.IsColumn() && FirstOpen(c, q, table, now, p.value.bank)
              && (exists j: nat :: FirstForRow(q.queues[q.refreshRank][c.Slot(p.value.bank)], p.value.bank,
                                          table[q.refreshRank][p.value.bank], j)
                           && q.queues[q.refreshRank][c.Slot(p.value.bank)][j] == p.value)
  {
    hide Scan, ScanClosable, Closable, FirstPick, Pickable, Issuable;
    var aged := q.(faw := AgedAll(q.faw));
    var v := ViewOf(aged, table, now);
    var d := Decide(c, v, aged);
    DecideOk(c, v, aged);
    var p := Pop(c, q, table, now).packet;
    if p.Some? && p.value.rank == q.refreshRank && d.choice.Take? {
      var r := q.refreshRank;
      assert PacketOk(c, d.choice.rank, d.choice.slot, q.queues[d.choice.rank][d.choice.slot][d.choice.index]);
      var b := FirstBlocking(now, table[r], 0);
      assert d.choice.rank == r;
      assert d.choice == RefreshChoice(c, v, aged.queues, r);
      MatchIsFirst(c, q, table, b);
      assert p.value.bank == b;
    }
  }
}
