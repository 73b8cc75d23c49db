/** Which packet a pop takes when it is not busy with a refresh: the first one that may go, in the
    first queue that has one, counted from where the last pop left off. */
module RoundRobin {
  import opened Configuration
  import opened Packets
  import opened BankTiming
  import opened Scheduling

  /** p goes to the row of the bank of packet g. */
  predicate SameRow(p: BusPacket, g: BusPacket) { p.bank == g.bank && p.row == g.row }

  /** Packet i of a queue may go: under open page no earlier column command is for its row; under
      close page it is the head of its queue or, in a queue of a whole rank, no column command
      whose ACTIVATE is still in front of it. */
  predicate MayGo(c: Config, v: View, q: seq<BusPacket>, i: nat)
    requires ViewOk(c, v) && i < |q| && InRange(c, q[i])
  {
    && Issuable(c, v, q[i])
    && (c.policy.OpenPage? ==> forall j :: 0 <= j < i ==> q[j].kind.Activate? || !SameRow(q[j], q[i]))
    && (c.policy.ClosePage? && c.structure.PerRankPerBank? ==> i == 0)
    && (c.policy.ClosePage? && c.structure.PerRank? && i > 0 && q[i - 1].addr == q[i].addr ==> !q[i - 1].kind.Activate?)
  }

  lemma {:induction false} PickableExactly(c: Config, v: View, q: seq<BusPacket>, r: nat, s: nat, i: nat)
    requires ViewOk(c, v) && i < |q| && InRange(c, q[i]) && forall j :: 0 <= j < |q| ==> PacketOk(c, r, s, q[j])
    ensures Pickable(c, v, q, i) <==> MayGo(c, v, q, i)
  {
    hide Issuable;
    if c.policy.OpenPage? {
      forall j | 0 <= j < i ensures DependsOn(c, q, j, i) <==> !q[j].kind.Activate? && SameRow(q[j], q[i]) { }
    }
  }

  function QueueAt(c: Config, q: QueueState, pos: Position): seq<BusPacket>
    requires StateOk(c, q) && PosOk(c, pos)
  {
    q.queues[pos.rank][c.Slot(pos.bank)]
  }

  /** i is the first packet that may go of the queue at pos. */
  predicate FirstToGo(c: Config, v: View, q: QueueState, pos: Position, i: nat)
    requires c.Valid() && ViewOk(c, v) && StateOk(c, q) && PosOk(c, pos)
  {
    var packets := QueueAt(c, q, pos);
    && i < |packets| && MayGo(c, v, packets, i)
    && forall j :: 0 <= j < i ==> !MayGo(c, v, packets, j)
  }

  lemma {:induction false} FirstPickFirst(c: Config, v: View, q: QueueState, pos: Position, i: nat)
    requires c.Valid() && ViewOk(c, v) && StateOk(c, q) && PosOk(c, pos)
    ensures FirstToGo(c, v, q, pos, i) <==> i < |QueueAt(c, q, pos)| && i == FirstPick(c, v, QueueAt(c, q, pos), 0)
  {
    hide MayGo, Pickable;
    var packets := QueueAt(c, q, pos);
    forall j | 0 <= j < |packets| ensures Pickable(c, v, packets, j) <==> MayGo(c, v, packets, j) {
      PickableExactly(c, v, packets, pos.rank, c.Slot(pos.bank), j);
    }
  }

  /** The queue found is the first with a packet that may go. */
  lemma {:induction false} ScanNearest(c: Config, v: View, q: QueueState, pos: Position, n: nat, goal: Position)
    requires c.Valid() && ViewOk(c, v) && StateOk(c, q) && PosOk(c, pos) && PosOk(c, goal)
    requires Scan(c, v, q, pos, n).Some? && HasPick(c, v, q, goal) && n <= Total(c, c.structure.PerRank?)
    ensures Ahead(c, c.structure.PerRank?, pos, Scan(c, v, q, pos, n).value) <= Ahead(c, c.structure.PerRank?, pos, goal)
    ensures Ahead(c, c.structure.PerRank?, pos, Scan(c, v, q, pos, n).value) < n
    decreases n
  {
    hide FirstPick, ViewOk, StateOk;
    var byRank := c.structure.PerRank?;
    var found := Scan(c, v, q, pos, n).value;
    AheadBound(c, byRank, pos, goal);
    AheadBound(c, byRank, pos, found);
    if !HasPick(c, v, q, pos) {
      if SameStop(byRank, pos, goal) { SamePick(c, v, q, pos, goal); }
      if SameStop(byRank, pos, found) { SamePick(c, v, q, pos, found); }
      StepAhead(c, byRank, pos, goal);
      StepAhead(c, byRank, pos, found);
      ScanNearest(c, v, q, StepPos(c, byRank, pos), n - 1, goal);
    }
  }

  lemma {:induction false} SamePick(c: Config, v: View, q: QueueState, a: Position, b: Position)
    requires c.Valid() && ViewOk(c, v) && StateOk(c, q) && PosOk(c, a) && PosOk(c, b)
    requires SameStop(c.structure.PerRank?, a, b)
    ensures HasPick(c, v, q, a) <==> HasPick(c, v, q, b)
  {
  }

  /** A packet that is popped and not part of a refresh: an ACTIVATE or a column command for a
      rank that does not wait for one. */
  predicate Served(q: QueueState, p: Option<BusPacket>) {
    p.Some? && (p.value.kind.Activate? || p.value.kind.IsColumn()) && !HeldForRefresh(q, p.value.rank)
  }

  function StartOf(q: QueueState): Position { Position(q.nextRank, q.nextBank) }

  lemma {:induction false} ServedByScan(c: Config, q: QueueState, table: Table, now: nat)
    requires c.Valid() && StateOk(c, q) && Rect(table, c.numRanks, c.numBanks) && Served(q, Pop(c, q, table, now).packet)
    ensures var aged := q.(faw := AgedAll(q.faw));
            var v := ViewOf(aged, table, now);
            var found := Scan(c, v, aged, StartOf(q), Total(c, c.structure.PerRank?));
            && found.Some? && Decide(c, v, aged).scan == found.value && Decide(c, v, aged).choice.Take?
            && FirstPick(c, v, QueueAt(c, q, found.value), 0) < |QueueAt(c, q, found.value)|
            && Pop(c, q, table, now).packet.value == QueueAt(c, q, found.value)[FirstPick(c, v, QueueAt(c, q, found.value), 0)]
  {
    hide Scan, ScanClosable, Closable, FirstPick, FirstMatch, FirstBlocking, Issuable, Pickable;
    var aged := q.(faw := AgedAll(q.faw));
    var v := ViewOf(aged, table, now);
    DecideOk(c, v, aged);
    var ch := Decide(c, v, aged).choice;
    if ch.Take? { assert PacketOk(c, ch.rank, ch.slot, q.queues[ch.rank][ch.slot][ch.index]); }
  }

  /** The packet is the first of its queue that may go, and no queue that the round robin comes
      to earlier has one, unless its rank waits for a refresh. */
  lemma {:induction false} ServesNearest(c: Config, q: QueueState, table: Table, now: nat, goal: Position, i: nat)
    requires c.Valid() && StateOk(c, q) && Rect(table, c.numRanks, c.numBanks) && Served(q, Pop(c, q, table, now).packet)
    requires PosOk(c, goal) && !HeldForRefresh(q, goal.rank)
    requires var aged := q.(faw := AgedAll(q.faw)); FirstToGo(c, ViewOf(aged, table, now), aged, goal, i)
    ensures var p := Pop(c, q, table, now).packet.value;
            var here := Position(p.rank, p.bank);
            var byRank := c.structure.PerRank?;
            && PosOk(c, here) && Ahead(c, byRank, StartOf(q), here) <= Ahead(c, byRank, StartOf(q), goal)
            && (SameStop(byRank, here, goal) ==> p == QueueAt(c, q, goal)[i])
  {
    var aged := q.(faw := AgedAll(q.faw));
    var v := ViewOf(aged, table, now);
    var byRank := c.structure.PerRank?;
    ServedByScan(c, q, table, now);
    hide Pop, MayGo, FirstPick, Pickable, Decide;
    var found := Scan(c, v, aged, StartOf(q), Total(c, byRank)).value;
    FirstPickFirst(c, v, aged, goal, i);
    ScanNearest(c, v, aged, StartOf(q), Total(c, byRank), goal);
    var p := Pop(c, q, table, now).packet.value;
    assert PacketOk(c, found.rank, c.Slot(found.bank), p);
    assert SameStop(byRank, found, Position(p.rank, p.bank));
  }

  /** After a packet is served, the round robin goes on with the next place, except that with
      posted CAS it stays every other time. */
  lemma {:induction false} GoesOn(c: Config, q: QueueState, table: Table, now: nat)
    requires c.Valid() && StateOk(c, q) && Rect(table, c.numRanks, c.numBanks) && Served(q, Pop(c, q, table, now).packet)
    ensures var popped := Pop(c, q, table, now);
            var p := popped.packet.value;
            var here := Position(p.rank, if c.structure.PerRank? then q.nextBank else p.bank);
            var stays := c.AL > 0 && q.sendAct;
            && popped.queue.sendAct == !stays
            && Number(c, false, StartOf(popped.queue))
               == if stays then Number(c, false, here)
                  else if Number(c, false, here) + 1 < Total(c, false) then Number(c, false, here) + 1 else 0
  {
    var aged := q.(faw := AgedAll(q.faw));
    var v := ViewOf(aged, table, now);
    ServedByScan(c, q, table, now);
    var d := Decide(c, v, aged);
    ScanBank(c, v, aged, StartOf(q), Total(c, c.structure.PerRank?));
    hide Decide, Scan, FirstPick, Number, Issuable;
    var p := Pop(c, q, table, now).packet.value;
    assert PacketOk(c, d.scan.rank, c.Slot(d.scan.bank), p);
    StepNumber(c, false, d.scan);
  }

  /** A scan over ranks keeps the bank. */
  lemma {:induction false} ScanBank(c: Config, v: View, q: QueueState, pos: Position, n: nat)
    requires c.Valid() && ViewOk(c, v) && StateOk(c, q) && PosOk(c, pos)
    ensures c.structure.PerRank? && Scan(c, v, q, pos, n).Some? ==> Scan(c, v, q, pos, n).value.bank == pos.bank
    decreases n
  {
    hide HasPick, StateOk, ViewOk;
    if n > 0 && !HasPick(c, v, q, pos) { ScanBank(c, v, q, StepPos(c, c.structure.PerRank?, pos), n - 1); }
  }

  // ----- Closing a bank -----

  /** A bank may be closed if that is due and either nothing waits for its row or the row has
      been accessed as often as allowed. */
  predicate MayClose(c: Config, v: View, q: QueueState, pos: Position)
    requires c.Valid() && ViewOk(c, v) && StateOk(c, q) && PosOk(c, pos)
  {
    var m, packets := v.table[pos.rank][pos.bank], QueueAt(c, q, pos);
    && m.mode.RowActive? && v.now >= m.nextPrecharge
    && (v.counters[pos.rank][pos.bank] == c.totalRowAccesses
        || forall i :: 0 <= i < |packets| ==> packets[i].bank != pos.bank || packets[i].row != m.openRow)
  }

  lemma {:induction false} ClosableExactly(c: Config, v: View, q: QueueState, pos: Position)
    requires c.Valid() && ViewOk(c, v) && StateOk(c, q) && PosOk(c, pos)
    ensures Closable(c, v, q, pos) <==> MayClose(c, v, q, pos)
  {
    var packets, row := QueueAt(c, q, pos), v.table[pos.rank][pos.bank].openRow;
    forall i | 0 <= i < |packets|
      ensures Matches(c, packets[i], pos.bank, row) <==> packets[i].bank == pos.bank && packets[i].row == row
    {
      assert PacketOk(c, pos.rank, c.Slot(pos.bank), packets[i]);
    }
  }

  lemma {:induction false} ScanClosableNearest(c: Config, v: View, q: QueueState, pos: Position, n: nat, goal: Position)
    requires c.Valid() && ViewOk(c, v) && StateOk(c, q) && PosOk(c, pos) && PosOk(c, goal)
    requires ScanClosable(c, v, q, pos, n).Some? && Closable(c, v, q, goal) && n <= Total(c, false)
    ensures Ahead(c, false, pos, ScanClosable(c, v, q, pos, n).value) <= Ahead(c, false, pos, goal)
    decreases n
  {
    hide Closable, ViewOk, StateOk;
    var found := ScanClosable(c, v, q, pos, n).value;
    AheadBound(c, false, pos, goal);
    AheadBound(c, false, pos, found);
    if !Closable(c, v, q, pos) {
      assert !SameStop(false, pos, goal) && !SameStop(false, pos, found);
      StepAhead(c, false, pos, goal);
      StepAhead(c, false, pos, found);
      ScanClosableNearest(c, v, q, StepPos(c, false, pos), n - 1, goal);
    }
  }

  /** Nothing that waits may go. */
  predicate NothingToGo(c: Config, v: View, q: QueueState)
    requires c.Valid() && ViewOk(c, v) && StateOk(c, q)
  {
    forall r, s, i | 0 <= r < c.numRanks && 0 <= s < c.Slots() && 0 <= i < |q.queues[r][s]| :: !MayGo(c, v, q.queues[r][s], i)
  }

  lemma {:induction false} NothingScanned(c: Config, v: View, q: QueueState)
    requires c.Valid() && ViewOk(c, v) && StateOk(c, q) && NothingToGo(c, v, q)
    ensures Scan(c, v, q, StartOf(q), Total(c, c.structure.PerRank?)).None?
  {
    hide MayGo, Pickable, Scan;
    forall r, s, i | 0 <= r < c.numRanks && 0 <= s < c.Slots() && 0 <= i < |q.queues[r][s]|
      ensures !Pickable(c, v, q.queues[r][s], i)
    {
      PickableExactly(c, v, q.queues[r][s], r, s, i);
    }
    ScanExactly(c, v, q);
  }

  /** Under open page, when nothing may go and no refresh waits, the first bank that may be closed
      is precharged, of those the scan looks at; its accesses are counted anew. */
  lemma {:induction false} ClosesNearest(c: Config, q: QueueState, table: Table, now: nat, goal: Position)
    requires c.Valid() && c.policy.OpenPage? && StateOk(c, q) && Rect(table, c.numRanks, c.numBanks) && !q.refreshWaiting
    requires var aged := q.(faw := AgedAll(q.faw)); NothingToGo(c, ViewOf(aged, table, now), aged)
    requires PosOk(c, goal) && Scanned(c, PreOf(q), goal)
    requires var aged := q.(faw := AgedAll(q.faw)); MayClose(c, ViewOf(aged, table, now), aged, goal)
    ensures var popped := Pop(c, q, table, now);
            && popped.packet.Some?
            && var p := popped.packet.value;
               var here := Position(p.rank, p.bank);
               && p == BusPacket(Precharge, 0, 0, 0, p.rank, p.bank, 0, 0) && PosOk(c, here)
               && (var aged := q.(faw := AgedAll(q.faw)); MayClose(c, ViewOf(aged, table, now), aged, here))
               && Ahead(c, false, PreOf(q), here) <= Ahead(c, false, PreOf(q), goal)
               && popped.queue.counters == Update2(q.counters, p.rank, p.bank, 0) && popped.queue.queues == q.queues
  {
    var aged := q.(faw := AgedAll(q.faw));
    var v := ViewOf(aged, table, now);
    var pre := PreOf(q);
    var n := Rounds(c, false, pre, PrechargeStop(c, pre));
    AheadBound(c, false, pre, PrechargeStop(c, pre));
    NothingScanned(c, v, aged);
    ClosableExactly(c, v, aged, goal);
    hide MayGo, NothingToGo, Scan, MayClose, Closable;
    if ScanClosable(c, v, aged, pre, n).None? { ScanClosableMisses(c, v, aged, pre, n, goal); }
    ScanClosableNearest(c, v, aged, pre, n, goal);
    ClosableExactly(c, v, aged, ScanClosable(c, v, aged, pre, n).value);
    hide ScanClosable, Rounds, Ahead;
  }
}
