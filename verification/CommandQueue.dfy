/** The command queue as the controller uses it: packets are enqueued, and every cycle at
    most one command is popped. */
module CommandQueues {
  import opened Configuration
  import opened Packets
  import opened BankTiming
  import Scheduling
  import opened MemoryModel
  import Pairing

  type QueueState = Scheduling.QueueState

  class CommandQueue {
    const c: Config
    var queues: seq<seq<seq<BusPacket>>>
    var nextRank: nat
    var nextBank: nat
    var nextRankPRE: nat
    var nextBankPRE: nat
    var refreshRank: int
    var refreshWaiting: bool
    var tFAWCountdown: seq<seq<nat>>
    var rowAccessCounters: seq<seq<nat>>
    var sendAct: bool

    function Value(): QueueState
      reads this
    {
      Scheduling.QueueState(queues, nextRank, nextBank, nextRankPRE, nextBankPRE, refreshRank, refreshWaiting,
                            tFAWCountdown, rowAccessCounters, sendAct)
    }

    ghost predicate Valid()
      reads this
    {
      c.Valid() && Scheduling.StateOk(c, Value())
    }

    constructor (c: Config)
      requires c.Valid()
      ensures Valid() && this.c == c && Value() == InitQueue(c)
    {
      this.c := c;
      queues := seq(c.numRanks, i => seq(c.Slots(), s => []));
      nextRank, nextBank, nextRankPRE, nextBankPRE := 0, 0, 0, 0;
      refreshRank, refreshWaiting := 0, false;
      tFAWCountdown := seq(c.numRanks, i => []);
      rowAccessCounters := seq(c.numRanks, i => seq(c.numBanks, j => 0));
      sendAct := true;
    }

    // ----- Queries -----

    method IsIssuable(table: Table, now: nat, p: BusPacket) returns (b: bool)
      requires Valid() && Rect(table, c.numRanks, c.numBanks) && Scheduling.InRange(c, p)
      requires !p.kind.Data?
      ensures b == Scheduling.Issuable(c, Scheduling.ViewOf(Value(), table, now), p)
    {
      var m := table[p.rank][p.bank];
      match p.kind
      case Refresh => b := false;
      case Activate =>
        b := (m.mode.Idle? || m.mode.Refreshing?) && now >= m.nextActivate && |tFAWCountdown[p.rank]| < 4;
      case Write | WriteP =>
        b := m.mode.RowActive? && now >= m.nextWrite && p.row == m.openRow
             && rowAccessCounters[p.rank][p.bank] < c.totalRowAccesses;
      case Read | ReadP =>
        b := m.mode.RowActive? && now >= m.nextRead && p.row == m.openRow
             && rowAccessCounters[p.rank][p.bank] < c.totalRowAccesses;
      case Precharge => b := m.mode.RowActive? && now >= m.nextPrecharge;
    }

    method HasRoomFor(n: nat, rank: nat, bank: nat) returns (b: bool)
      requires Valid() && rank < c.numRanks && bank < c.numBanks
      ensures b == HasRoom(c, queues[rank][c.Slot(bank)], n)
    {
      var size := |queues[rank][c.Slot(bank)]|;
      b := size > c.cmdQueueDepth || c.cmdQueueDepth - size >= n;
    }

    method IsEmpty(rank: nat) returns (b: bool)
      requires Valid() && rank < c.numRanks
      ensures b == QueueEmpty(queues[rank])
    {
      b := true;
      for i := 0 to c.Slots()
        invariant b <==> forall j :: 0 <= j < i ==> queues[rank][j] == []
      {
        if queues[rank][i] != [] { b := false; }
      }
    }

    /** The position after (rank, bank) in the round robin. */
    method NextRankAndBank(rank: nat, bank: nat) returns (r: nat, b: nat)
      requires Valid() && rank < c.numRanks && bank < c.numBanks
      ensures Scheduling.Position(r, b) == Scheduling.NextPosition(c, Scheduling.Position(rank, bank))
      ensures r < c.numRanks && b < c.numBanks
    {
      r, b := rank, bank;
      match c.scheduling
      case RankThenBankRoundRobin =>
        r := r + 1;
        if r == c.numRanks {
          r := 0;
          b := b + 1;
          if b == c.numBanks { b := 0; }
        }
      case BankThenRankRoundRobin =>
        b := b + 1;
        if b == c.numBanks {
          b := 0;
          r := r + 1;
          if r == c.numRanks { r := 0; }
        }
    }

    // ----- Changes -----

    /** Appends a packet; fails if the queue is over its depth then. */
    method Enqueue(p: BusPacket) returns (ok: bool)
      requires Valid() && Scheduling.InRange(c, p) && Scheduling.PacketOk(c, p.rank, c.Slot(p.bank), p)
      modifies this`queues
      ensures Valid()
      ensures Value() == old(Value()).(queues := Scheduling.Update2(old(queues), p.rank, c.Slot(p.bank),
                                                                     old(queues)[p.rank][c.Slot(p.bank)] + [p]))
      ensures ok == (|queues[p.rank][c.Slot(p.bank)]| <= c.cmdQueueDepth)
    {
      var s := c.Slot(p.bank);
      queues := queues[p.rank := queues[p.rank][s := queues[p.rank][s] + [p]]];
      ok := |queues[p.rank][s]| <= c.cmdQueueDepth;
    }

    method NeedRefresh(rank: nat)
      requires Valid() && rank < c.numRanks
      modifies this`refreshWaiting, this`refreshRank
      ensures Valid() && Value() == old(Value()).(refreshWaiting := true, refreshRank := rank)
    {
      refreshWaiting := true;
      refreshRank := rank;
    }

    /** Steps the four-activate windows of all ranks. */
    method AgeWindows()
      requires Valid()
      modifies this`tFAWCountdown
      ensures Valid() && Value() == old(Value()).(faw := Scheduling.AgedAll(old(tFAWCountdown)))
    {
      ghost var was := tFAWCountdown;
      for i := 0 to c.numRanks
        invariant |tFAWCountdown| == |was| == c.numRanks
        invariant forall k :: 0 <= k < i ==> tFAWCountdown[k] == Scheduling.Aged(was[k])
        invariant forall k :: i <= k < c.numRanks ==> tFAWCountdown[k] == was[k]
      {
        var w := tFAWCountdown[i];
        for j := 0 to |w|
          invariant |w| == |was[i]|
          invariant forall k :: 0 <= k < j ==> w[k] == Dec(was[i][k])
          invariant forall k :: j <= k < |w| ==> w[k] == was[i][k]
        {
          w := w[j := Dec(w[j])];
        }
        assert w == seq(|was[i]|, k requires 0 <= k < |was[i]| => Dec(was[i][k]));
        if |w| > 0 && w[0] == 0 { w := w[1..]; }
        tFAWCountdown := tFAWCountdown[i := w];
      }
      assert tFAWCountdown == Scheduling.AgedAll(was);
    }

    // ----- Searches -----

    method FindMatch(q: seq<BusPacket>, bank: nat, row: nat) returns (j: nat)
      ensures j == Scheduling.FirstMatch(c, q, bank, row, 0)
    {
      j := 0;
      while j < |q| && !(q[j].row == row && (c.structure.PerRankPerBank? || q[j].bank == bank))
        invariant j <= |q|
        invariant Scheduling.FirstMatch(c, q, bank, row, 0) == Scheduling.FirstMatch(c, q, bank, row, j)
      {
        j := j + 1;
      }
    }

    /** Whether an earlier column access in q goes to the row of q[i]. */
    method HasDependency(q: seq<BusPacket>, i: nat) returns (found: bool)
      requires i < |q|
      ensures found == !Scheduling.Independent(c, q, i)
    {
      found := false;
      var j := 0;
      while j < i && !found
        invariant j <= i
        invariant found ==> j < i && Scheduling.DependsOn(c, q, j, i)
        invariant !found ==> forall k :: 0 <= k < j ==> !Scheduling.DependsOn(c, q, k, i)
        decreases i - j, !found
      {
        if !q[j].kind.Activate? && q[j].row == q[i].row && (c.structure.PerRankPerBank? || q[j].bank == q[i].bank) {
          found := true;
        } else {
          j := j + 1;
        }
      }
    }

    /** The first packet of q that may be taken. */
    method FindPick(table: Table, now: nat, q: seq<BusPacket>) returns (i: nat)
      requires Valid() && Rect(table, c.numRanks, c.numBanks)
      requires forall j :: 0 <= j < |q| ==> Scheduling.InRange(c, q[j]) && !q[j].kind.Data?
      ensures i == Scheduling.FirstPick(c, Scheduling.ViewOf(Value(), table, now), q, 0)
    {
      ghost var v := Scheduling.ViewOf(Value(), table, now);
      i := 0;
      while i < |q|
        invariant i <= |q|
        invariant Scheduling.FirstPick(c, v, q, 0) == Scheduling.FirstPick(c, v, q, i)
      {
        var ready := IsIssuable(table, now, q[i]);
        if ready {
          if c.policy.OpenPage? {
            var dependent := HasDependency(q, i);
            if !dependent { return; }
          } else if c.structure.PerRank? {
            if !(i > 0 && q[i - 1].kind.Activate? && q[i - 1].addr == q[i].addr) { return; }
          } else if i == 0 {
            return;
          }
        }
        i := i + 1;
      }
    }

    /** What a waiting refresh makes the queue send. */
    method RefreshPhase(table: Table, now: nat) returns (choice: Scheduling.Choice)
      requires Valid() && Rect(table, c.numRanks, c.numBanks) && refreshWaiting
      ensures choice == Scheduling.RefreshChoice(c, Scheduling.ViewOf(Value(), table, now), queues, refreshRank)
    {
      var r: nat := refreshRank;
      var b := 0;
      while b < c.numBanks && !table[r][b].mode.RowActive? && table[r][b].nextActivate <= now
        invariant b <= c.numBanks
        invariant Scheduling.FirstBlocking(now, table[r], 0) == Scheduling.FirstBlocking(now, table[r], b)
      {
        b := b + 1;
      }
      if b == c.numBanks {
        return if table[r][0].mode.PowerDown? then Scheduling.Nothing else Scheduling.SendRefresh(r);
      }
      if !table[r][b].mode.RowActive? { return Scheduling.Nothing; }
      var s := c.Slot(b);
      var q := queues[r][s];
      var j := FindMatch(q, b, table[r][b].openRow);
      if j < |q| && !q[j].kind.Activate? {
        assert Scheduling.PacketOk(c, r, s, q[j]);
        var ready := IsIssuable(table, now, q[j]);
        return if ready then Scheduling.Take(r, s, j, false) else Scheduling.Nothing;
      }
      if c.policy.OpenPage? && now >= table[r][b].nextPrecharge { return Scheduling.SendPrecharge(r, b); }
      return Scheduling.Nothing;
    }

    /** Looks at one queue. */
    method LookAt(table: Table, now: nat, rank: nat, bank: nat) returns (found: bool, i: nat)
      requires Valid() && Rect(table, c.numRanks, c.numBanks) && rank < c.numRanks && bank < c.numBanks
      ensures var v := Scheduling.ViewOf(Value(), table, now);
              found == Scheduling.HasPick(c, v, Value(), Scheduling.Position(rank, bank))
      ensures found ==> i == Scheduling.FirstPick(c, Scheduling.ViewOf(Value(), table, now),
                                                  queues[rank][c.Slot(bank)], 0)
    {
      var s := c.Slot(bank);
      var q := queues[rank][s];
      found, i := false, 0;
      if q != [] && !(rank == refreshRank && refreshWaiting) {
        forall j | 0 <= j < |q| ensures Scheduling.InRange(c, q[j]) && !q[j].kind.Data? {
          assert Scheduling.PacketOk(c, rank, s, q[j]);
        }
        i := FindPick(table, now, q);
        found := i < |q|;
      }
    }

    /** Round robin over the queues, from nextRank and nextBank on. */
    method ScanQueues(table: Table, now: nat) returns (found: bool, rank: nat, bank: nat, i: nat)
      requires Valid() && Rect(table, c.numRanks, c.numBanks)
      ensures var start := Scheduling.Position(nextRank, nextBank);
              var v := Scheduling.ViewOf(Value(), table, now);
              match Scheduling.Scan(c, v, Value(), start, Scheduling.Total(c, c.structure.PerRank?))
              case Some(pos) =>
                && found && Scheduling.Position(rank, bank) == pos
                && i == Scheduling.FirstPick(c, v, queues[rank][c.Slot(bank)], 0)
              case None => !found
    {
      hide Scheduling.FirstPick, Scheduling.HasPick, Scheduling.NextPosition;
      rank, bank := nextRank, nextBank;
      ghost var q0 := Value();
      ghost var byRank := c.structure.PerRank?;
      ghost var v := Scheduling.ViewOf(q0, table, now);
      ghost var start := Scheduling.Position(nextRank, nextBank);
      ghost var left := Scheduling.Total(c, byRank);
      ghost var all := Scheduling.Scan(c, v, q0, start, left);
      while true
        invariant rank < c.numRanks && bank < c.numBanks
        invariant left == Scheduling.Rounds(c, byRank, Scheduling.Position(rank, bank), start)
        invariant all == Scheduling.Scan(c, v, q0, Scheduling.Position(rank, bank), left)
        decreases left
      {
        found, i := LookAt(table, now, rank, bank);
        if found { return; }
        Scheduling.ScanStep(c, v, q0, Scheduling.Position(rank, bank), start);
        if c.structure.PerRank? {
          rank := rank + 1;
          if rank == c.numRanks { rank := 0; }
        } else {
          rank, bank := NextRankAndBank(rank, bank);
        }
        left := left - 1;
        if rank == nextRank && (c.structure.PerRank? || bank == nextBank) { return; }
      }
    }

    /** Whether the bank may be closed: open, past its precharge time, and either unwanted or
        accessed as often as allowed. */
    method MayClose(table: Table, now: nat, rank: nat, bank: nat) returns (b: bool)
      requires Valid() && Rect(table, c.numRanks, c.numBanks) && rank < c.numRanks && bank < c.numBanks
      ensures b == Scheduling.Closable(c, Scheduling.ViewOf(Value(), table, now), Value(),
                                       Scheduling.Position(rank, bank))
    {
      b := false;
      if table[rank][bank].mode.RowActive? {
        var q := queues[rank][c.Slot(bank)];
        var j := FindMatch(q, bank, table[rank][bank].openRow);
        if j == |q| || rowAccessCounters[rank][bank] == c.totalRowAccesses {
          b := now >= table[rank][bank].nextPrecharge;
        }
      }
    }

    /** Round robin over the banks for one to precharge. With one queue per bank the start is
        kept in two variables of type bool, so the scan ends at rank and bank 0 or 1. */
    method ScanBanks(table: Table, now: nat) returns (found: bool, rank: nat, bank: nat)
      requires Valid() && Rect(table, c.numRanks, c.numBanks)
      ensures rank < c.numRanks && bank < c.numBanks
      ensures var pre := Scheduling.Position(nextRankPRE, nextBankPRE);
              var stop := Scheduling.PrechargeStop(c, pre);
              var v := Scheduling.ViewOf(Value(), table, now);
              match Scheduling.ScanClosable(c, v, Value(), pre, Scheduling.Rounds(c, false, pre, stop))
              case Some(pos) => found && Scheduling.Position(rank, bank) == pos
              case None => !found && Scheduling.Position(rank, bank) == stop
    {
      hide Scheduling.FirstMatch, Scheduling.Closable, Scheduling.NextPosition;
      rank, bank := nextRankPRE, nextBankPRE;
      var startingRank := if c.structure.PerRank? || rank == 0 then rank else 1;
      var startingBank := if c.structure.PerRank? || bank == 0 then bank else 1;
      ghost var q0 := Value();
      ghost var v := Scheduling.ViewOf(q0, table, now);
      ghost var pre := Scheduling.Position(nextRankPRE, nextBankPRE);
      ghost var stop := Scheduling.PrechargeStop(c, pre);
      ghost var left := Scheduling.Rounds(c, false, pre, stop);
      ghost var all := Scheduling.ScanClosable(c, v, q0, pre, left);
      while true
        invariant rank < c.numRanks && bank < c.numBanks
        invariant left == Scheduling.Rounds(c, false, Scheduling.Position(rank, bank), stop)
        invariant all == Scheduling.ScanClosable(c, v, q0, Scheduling.Position(rank, bank), left)
        decreases left
      {
        found := MayClose(table, now, rank, bank);
        if found { return; }
        Scheduling.ClosableStep(c, v, q0, Scheduling.Position(rank, bank), stop);
        rank, bank := NextRankAndBank(rank, bank);
        left := left - 1;
        if rank == startingRank && bank == startingBank { return; }
      }
    }

    // ----- Pop -----

    /** The refresh phase and the two scans, in the order the policies give them. */
    method Choose(table: Table, now: nat) returns (choice: Scheduling.Choice)
      requires Valid() && Rect(table, c.numRanks, c.numBanks)
      modifies this`nextRank, this`nextBank, this`nextRankPRE, this`nextBankPRE
      ensures var d := Scheduling.Decide(c, Scheduling.ViewOf(old(Value()), table, now), old(Value()));
              && choice == d.choice
              && Value() == old(Value()).(nextRank := d.scan.rank, nextBank := d.scan.bank,
                                          nextRankPRE := d.pre.rank, nextBankPRE := d.pre.bank)
    {
      hide Scheduling.FirstPick, Scheduling.RefreshChoice, Scheduling.Scan, Scheduling.ScanClosable,
           Scheduling.Rounds, Scheduling.Total, Scheduling.PrechargeStop;
      choice := Scheduling.Nothing;
      if refreshWaiting { choice := RefreshPhase(table, now); }
      if choice == Scheduling.Nothing {
        var found, rank, bank, i := ScanQueues(table, now);
        if found {
          ScanInRange(table, now, rank, bank, i);
          var q := queues[rank][c.Slot(bank)];
          choice := Scheduling.Take(rank, c.Slot(bank), i, c.policy.OpenPage? && i > 0 && q[i - 1].kind.Activate?);
          nextRank, nextBank := rank, bank;
        } else if c.policy.OpenPage? {
          found, rank, bank := ScanBanks(table, now);
          if found { choice := Scheduling.SendPrecharge(rank, bank); }
          nextRankPRE, nextBankPRE := rank, bank;
        }
      }
    }

    lemma ScanInRange(table: Table, now: nat, rank: nat, bank: nat, i: nat)
      requires Valid() && Rect(table, c.numRanks, c.numBanks)
      requires var v := Scheduling.ViewOf(Value(), table, now);
               var start := Scheduling.Position(nextRank, nextBank);
               && Scheduling.Scan(c, v, Value(), start, Scheduling.Total(c, c.structure.PerRank?))
                  == Some(Scheduling.Position(rank, bank))
               && rank < c.numRanks && bank < c.numBanks
               && i == Scheduling.FirstPick(c, v, queues[rank][c.Slot(bank)], 0)
      ensures i < |queues[rank][c.Slot(bank)]|
    {
    }

    /** Takes a packet out of its queue, with the ACTIVATE before it if it is one of a pair. */
    method TakeOut(r: nat, s: nat, i: nat, pair: bool) returns (p: BusPacket)
      requires Valid() && Scheduling.ChoiceOk(c, Value(), Scheduling.Take(r, s, i, pair))
      modifies this`queues, this`rowAccessCounters
      ensures p == old(queues)[r][s][i]
      ensures var choice := Scheduling.Take(r, s, i, pair);
              Value() == old(Value()).(queues := Scheduling.QueuesAfter(c, old(Value()), choice),
                                       counters := Scheduling.CountersAfter(c, old(Value()), choice))
      ensures Scheduling.InRange(c, p) && !p.kind.Data?
    {
      var q := queues[r][s];
      p := q[i];
      assert Scheduling.PacketOk(c, r, s, p);
      if pair {
        rowAccessCounters := rowAccessCounters[r := rowAccessCounters[r][p.bank := rowAccessCounters[r][p.bank] + 1]];
        queues := queues[r := queues[r][s := q[..i - 1] + q[i + 1..]]];
      } else {
        queues := queues[r := queues[r][s := q[..i] + q[i + 1..]]];
      }
    }

    /** Takes the chosen packet out of its queue, or makes the refresh or precharge packet. */
    method CarryOut(choice: Scheduling.Choice) returns (packet: Option<BusPacket>)
      requires Valid() && Scheduling.ChoiceOk(c, Value(), choice)
      modifies this`queues, this`rowAccessCounters, this`refreshRank, this`refreshWaiting
      ensures Valid()
      ensures packet == Scheduling.Chosen(c, old(Value()), choice)
      ensures packet.Some? ==> Scheduling.InRange(c, packet.value) && !packet.value.kind.Data?
      ensures Value() == old(Value()).(
                queues := Scheduling.QueuesAfter(c, old(Value()), choice),
                counters := Scheduling.CountersAfter(c, old(Value()), choice),
                refreshRank := if choice.SendRefresh? then -1 else old(refreshRank),
                refreshWaiting := if choice.SendRefresh? then false else old(refreshWaiting))
    {
      hide Scheduling.QueuesOk, Scheduling.Without;
      Pairing.QueuesAfterOk(c, Value(), choice);
      match choice
      case Nothing => packet := None;
      case Take(r, s, i, pair) =>
        var p := TakeOut(r, s, i, pair);
        packet := Some(p);
      case SendRefresh(r) =>
        packet := Some(BusPacket(Refresh, 0, 0, 0, r, 0, 0, 0));
        refreshRank := -1;
        refreshWaiting := false;
      case SendPrecharge(r, b) =>
        rowAccessCounters := rowAccessCounters[r := rowAccessCounters[r][b := 0]];
        packet := Some(BusPacket(Precharge, 0, 0, 0, r, b, 0, 0));
    }

    /** Moves the round robin on and opens a window for an ACTIVATE. */
    method Finish(p: BusPacket)
      requires Valid() && Scheduling.InRange(c, p)
      modifies this`sendAct, this`nextRank, this`nextBank, this`tFAWCountdown
      ensures Valid()
      ensures var keep := c.AL > 0 && old(sendAct);
              var here := Scheduling.Position(old(nextRank), old(nextBank));
              var pos := if keep then here else Scheduling.NextPosition(c, here);
              Value() == old(Value()).(sendAct := !keep, nextRank := pos.rank, nextBank := pos.bank,
                                       faw := Scheduling.FawAfter(c, old(tFAWCountdown), Some(p)))
    {
      // posted CAS keeps the positions for the column access that follows an ACTIVATE
      if c.AL > 0 && sendAct {
        sendAct := false;
      } else {
        sendAct := true;
        nextRank, nextBank := NextRankAndBank(nextRank, nextBank);
      }
      if p.kind.Activate? {
        tFAWCountdown := tFAWCountdown[p.rank := tFAWCountdown[p.rank] + [c.tFAW]];
      }
    }

    /** Removes and returns the next command, if any can be sent this cycle. */
    method Pop(table: Table, now: nat) returns (packet: Option<BusPacket>)
      requires Valid() && Rect(table, c.numRanks, c.numBanks)
      modifies this
      ensures Valid()
      ensures var popped := Scheduling.Pop(c, old(Value()), table, now);
              Value() == popped.queue && packet == popped.packet
      ensures packet.Some? ==> Scheduling.InRange(c, packet.value) && !packet.value.kind.Data?
    {
      hide Scheduling.Decide, Scheduling.QueuesAfter, Scheduling.CountersAfter, Scheduling.AgedAll,
           Scheduling.QueuesOk, Scheduling.NextPosition, Scheduling.Chosen, Scheduling.ChoiceOk;
      AgeWindows();
      ghost var aged := Value();
      ghost var v := Scheduling.ViewOf(aged, table, now);
      Scheduling.DecideOk(c, v, aged);
      var choice := Choose(table, now);
      ChoiceKept(aged, Value(), choice);
      packet := CarryOut(choice);
      if packet.Some? { Finish(packet.value); }
    }

    /** Moving the round-robin positions does not change what a choice does. */
    lemma {:induction false} ChoiceKept(q: QueueState, q': QueueState, ch: Scheduling.Choice)
      requires Scheduling.StateOk(c, q) && Scheduling.ChoiceOk(c, q, ch) && c.Valid()
      requires q' == q.(nextRank := q'.nextRank, nextBank := q'.nextBank,
                        nextRankPRE := q'.nextRankPRE, nextBankPRE := q'.nextBankPRE)
      requires q'.nextRank < c.numRanks && q'.nextBank < c.numBanks
      requires q'.nextRankPRE < c.numRanks && q'.nextBankPRE < c.numBanks
      ensures Scheduling.StateOk(c, q') && Scheduling.ChoiceOk(c, q', ch)
      ensures Scheduling.Chosen(c, q', ch) == Scheduling.Chosen(c, q, ch)
      ensures Scheduling.QueuesAfter(c, q', ch) == Scheduling.QueuesAfter(c, q, ch)
      ensures Scheduling.CountersAfter(c, q', ch) == Scheduling.CountersAfter(c, q, ch)
    {
    }
  }
}
