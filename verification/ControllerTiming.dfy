/** How long the controller's bank table holds a command back: exactly by the distances that the
    ranks ask for, by those between ranks, and by the time a bank takes to close. */
module ControllerTiming {
  import opened Configuration
  import opened Packets
  import opened BankTiming
  import opened Scheduling
  import opened RankTiming

  /** How long after a column command for another rank a column command has to wait, so that the
      bursts do not meet on the data bus. */
  function RankDistance(c: Config, p: PacketKind, g: PacketKind): int {
    if p.IsRead() then (if g.IsRead() then c.BL / 2 + c.tRTRS else c.BL / 2 + c.tRTRS + 1)
    else if g.IsRead() then c.BL / 2 + c.tRTRS - 1 else c.BL / 2 + c.tRTRS
  }

  /** The packet g is due at cycle u after p is popped at cycle now. m is the entry of the bank
      of g before that. An auto-precharge makes column commands of its bank wait for the next
      ACTIVATE, whatever they had to wait for before. */
  predicate DueAfter(c: Config, p: BusPacket, now: nat, g: BusPacket, m: BankState, u: nat) {
    if p.rank != g.rank then
      && u >= Earliest(g.kind, m)
      && (p.kind.IsColumn() && g.kind.IsColumn() && m.mode.RowActive? ==> u >= now + RankDistance(c, p.kind, g.kind))
    else if p.kind.IsAuto() && p.bank == g.bank && g.kind.IsColumn() then
      u >= m.nextActivate && u >= now + if p.kind.IsRead() then c.AL + c.tRTP + c.tRP else c.CL + c.AL - 1 + c.BL / 2 + c.tWR + c.tRP
    else
      && !TooSoon(c, Done(now, Carry(p)), g, u)
      && ((p.kind.Refresh? && g.kind.Activate?) || u >= Earliest(g.kind, m))
  }

  /** A popped command changes the first cycle for another one by its distance alone. */
  lemma {:induction false} IssuedTimes(c: Config, p: BusPacket, now: nat, g: BusPacket, m: BankState, u: nat)
    requires c.Valid()
    ensures u >= Earliest(g.kind, IssueBank(c, p, now, g.rank, g.bank, m)) <==> DueAfter(c, p, now, g, m, u)
  {
    assert c.CL + c.AL >= 2;
    hide Config.Valid;
    match p.kind {
      case Read | ReadP => IssuedRead(c, p, now, g, m, u);
      case Write | WriteP => IssuedWrite(c, p, now, g, m, u);
      case _ =>
    }
  }

  lemma {:induction false} IssuedRead(c: Config, p: BusPacket, now: nat, g: BusPacket, m: BankState, u: nat)
    requires p.kind.IsRead() && c.CL + c.AL >= 2
    ensures u >= Earliest(g.kind, IssueBank(c, p, now, g.rank, g.bank, m)) <==> DueAfter(c, p, now, g, m, u)
  {
  }

  lemma {:induction false} IssuedWrite(c: Config, p: BusPacket, now: nat, g: BusPacket, m: BankState, u: nat)
    requires p.kind.IsWrite() && c.CL + c.AL >= 2
    ensures u >= Earliest(g.kind, IssueBank(c, p, now, g.rank, g.bank, m)) <==> DueAfter(c, p, now, g, m, u)
  {
  }

  /** The row that is open in the entry lets g through. */
  predicate RowFits(g: BusPacket, m: BankState) {
    match g.kind
    case Activate => m.mode.Idle? || m.mode.Refreshing?
    case Precharge => m.mode.RowActive?
    case Refresh => false
    case Data => false
    case _ => m.mode.RowActive? && g.row == m.openRow
  }

  /** The row after p is popped: opened by an ACTIVATE, closing after a PRECHARGE or a REFRESH.
      An auto-precharge leaves it until its countdown runs out. */
  predicate ModeAfter(p: BusPacket, r: nat, b: nat, m: BankState, m': BankState) {
    if p.rank != r then m'.mode == m.mode && m'.openRow == m.openRow
    else if p.kind.Refresh? then m'.mode.Refreshing?
    else if p.bank == b && p.kind.Activate? then m'.mode.RowActive? && m'.openRow == p.row
    else if p.bank == b && p.kind.Precharge? then m'.mode.Precharging?
    else m'.mode == m.mode && m'.openRow == m.openRow
  }

  /** After p is popped at cycle now, another command may be issued at cycle u if and only if the
      row allows it, it keeps its distance from p and from what came before, and its rank and
      bank have not used up their ACTIVATEs and accesses. */
  lemma {:induction false} IssuableAfter(c: Config, v: View, p: BusPacket, g: BusPacket, u: nat)
    requires c.Valid() && ViewOk(c, v) && InRange(c, g) && !p.kind.Data?
    ensures var m := v.table[g.rank][g.bank];
            var v' := v.(table := IssueTable(c, p, v.now, v.table), now := u);
            var m' := v'.table[g.rank][g.bank];
            && ModeAfter(p, g.rank, g.bank, m, m')
            && (Issuable(c, v', g) <==>
                  && RowFits(g, m') && DueAfter(c, p, v.now, g, m, u)
                  && (g.kind.Activate? ==> |v.faw[g.rank]| < 4)
                  && (g.kind.IsColumn() ==> v.counters[g.rank][g.bank] < c.totalRowAccesses))
  {
    hide DueAfter, Config.Valid;
    var m := v.table[g.rank][g.bank];
    assert IssueTable(c, p, v.now, v.table)[g.rank][g.bank] == IssueBank(c, p, v.now, g.rank, g.bank, m);
    IssuedTimes(c, p, v.now, g, m, u);
    IssuedMode(c, p, v.now, g.rank, g.bank, m);
    hide IssueBank, ModeAfter;
  }

  lemma {:induction false} IssuedMode(c: Config, p: BusPacket, now: nat, r: nat, b: nat, m: BankState)
    requires !p.kind.Data?
    ensures ModeAfter(p, r, b, m, IssueBank(c, p, now, r, b, m))
  {
  }

  // ----- Closing -----

  /** n steps of the state-change countdown. */
  function Ticks(c: Config, m: BankState, n: nat): BankState {
    if n == 0 then m else TickBank(c, Ticks(c, m, n - 1))
  }

  /** A bank that is precharged or refreshed is idle exactly when its countdown has run out. */
  lemma {:induction false} IdleAfter(c: Config, m: BankState, n: nat)
    requires m.countdown > 0 && (m.lastCommand.Precharge? || m.lastCommand.Refresh?) && !m.mode.Idle?
    ensures Ticks(c, m, n).mode.Idle? <==> n >= m.countdown
    ensures n < m.countdown ==> Ticks(c, m, n) == m.(countdown := m.countdown - n)
    ensures n >= m.countdown ==> Ticks(c, m, n) == m.(mode := Idle, countdown := 0)
  {
    if n > 0 { IdleAfter(c, m, n - 1); }
  }

  lemma {:induction false} TicksMore(c: Config, m: BankState, k: nat, n: nat)
    ensures Ticks(c, m, k + n) == Ticks(c, Ticks(c, m, k), n)
  {
    if n > 0 { TicksMore(c, m, k, n - 1); }
  }

  lemma {:induction false} StillOpen(c: Config, m: BankState, n: nat)
    requires m.countdown > 0 && m.lastCommand.IsAuto() && n < m.countdown
    ensures Ticks(c, m, n) == m.(countdown := m.countdown - n)
  {
    if n > 0 { StillOpen(c, m, n - 1); }
  }

  /** A bank with an auto-precharge stays open until its countdown has run out, and is idle tRP
      cycles after that. */
  lemma {:induction false} AutoIdleAfter(c: Config, m: BankState, n: nat)
    requires m.countdown > 0 && m.lastCommand.IsAuto() && m.mode.RowActive? && c.tRP > 0
    ensures Ticks(c, m, n).mode == if n < m.countdown then RowActive else if n < m.countdown + c.tRP then Precharging else Idle
  {
    if n < m.countdown {
      StillOpen(c, m, n);
    } else {
      StillOpen(c, m, m.countdown - 1);
      assert Ticks(c, m, m.countdown) == TickBank(c, Ticks(c, m, m.countdown - 1));
      TicksMore(c, m, m.countdown, n - m.countdown);
      IdleAfter(c, Ticks(c, m, m.countdown), n - m.countdown);
    }
  }

  /** How long a popped command keeps its bank from being idle, in steps of the countdown. */
  lemma {:induction false} ClosesIn(c: Config, p: BusPacket, now: nat, r: nat, b: nat, m: BankState, n: nat)
    requires p.rank == r && (p.bank == b || p.kind.Refresh?) && c.tRP > 0 && c.tRFC > 0
    requires p.kind.Precharge? || p.kind.Refresh? || (p.kind.IsAuto() && m.mode.RowActive? && c.ReadToPre() > 0 && c.WriteToPre() > 0)
    ensures Ticks(c, IssueBank(c, p, now, r, b, m), n).mode.Idle? <==>
              n >= match p.kind
                   case Precharge => c.tRP
                   case Refresh => c.tRFC
                   case ReadP => c.ReadToPre() + c.tRP
                   case _ => c.WriteToPre() + c.tRP
  {
    var m' := IssueBank(c, p, now, r, b, m);
    if p.kind.IsAuto() { AutoIdleAfter(c, m', n); } else { IdleAfter(c, m', n); }
  }
}
