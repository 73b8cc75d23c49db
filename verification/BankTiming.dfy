/** The two bank state tables: the controller's, updated when a command is popped, and the
    rank's, updated when the command arrives one bus cycle later. */
module BankTiming {
  import opened Configuration
  import opened Packets

  type Table = seq<seq<BankState>>

  // ----- The controller's table -----

  /** One cycle of the state-change countdown. */
  function TickBank(c: Config, m: BankState): BankState {
    if m.countdown == 0 then m
    else if m.countdown > 1 then m.(countdown := m.countdown - 1)
    else match m.lastCommand
      case WriteP | ReadP =>
        m.(mode := Precharging, lastCommand := Precharge, countdown := c.tRP)
      case Refresh | Precharge => m.(mode := Idle, countdown := 0)
      case _ => m.(countdown := 0)
  }

  function RaiseColumns(m: BankState, read: int, write: int): BankState {
    m.(nextRead := Max(read, m.nextRead), nextWrite := Max(write, m.nextWrite))
  }

  /** The entry of bank j of rank i after the controller pops p at cycle now. */
  function IssueBank(c: Config, p: BusPacket, now: nat, i: nat, j: nat, m: BankState): BankState {
    match p.kind
    case Read | ReadP =>
      if i != p.rank then
        if m.mode.RowActive? then
          RaiseColumns(m, now + c.BL / 2 + c.tRTRS, now + c.ReadToWrite())
        else m
      else if j != p.bank then RaiseColumns(m, now + c.ColumnGap(), now + c.ReadToWrite())
      else if p.kind.ReadP? then
        var act := Max(now + c.ReadAutoPre(), m.nextActivate);
        m.(nextActivate := act, nextRead := act, nextWrite := act, lastCommand := ReadP,
           countdown := c.ReadToPre())
      else
        RaiseColumns(m, now + c.ColumnGap(), now + c.ReadToWrite())
          .(nextPrecharge := Max(now + c.ReadToPre(), m.nextPrecharge), lastCommand := Read)
    case Write | WriteP =>
      if i != p.rank then
        if m.mode.RowActive? then
          RaiseColumns(m, now + c.WriteToReadRank(), now + c.BL / 2 + c.tRTRS)
        else m
      else if j != p.bank then RaiseColumns(m, now + c.WriteToReadBank(), now + c.ColumnGap())
      else if p.kind.WriteP? then
        var act := Max(now + c.WriteAutoPre(), m.nextActivate);
        m.(nextActivate := act, nextRead := act, nextWrite := act, lastCommand := WriteP,
           countdown := c.WriteToPre())
      else
        RaiseColumns(m, now + c.WriteToReadBank(), now + c.ColumnGap())
          .(nextPrecharge := Max(now + c.WriteToPre(), m.nextPrecharge), lastCommand := Write)
    case Activate =>
      if i != p.rank then m
      else if j != p.bank then m.(nextActivate := Max(now + c.tRRD, m.nextActivate))
      else m.(mode := RowActive, lastCommand := Activate, openRow := p.row,
              nextActivate := Max(now + c.tRC, m.nextActivate),
              nextPrecharge := Max(now + c.tRAS, m.nextPrecharge),
              nextRead := Max(now + (c.tRCD - c.AL), m.nextRead),
              nextWrite := Max(now + (c.tRCD - c.AL), m.nextWrite))
    case Precharge =>
      if i != p.rank || j != p.bank then m
      else m.(mode := Precharging, lastCommand := Precharge, countdown := c.tRP,
              nextActivate := Max(now + c.tRP, m.nextActivate))
    case Refresh =>
      if i != p.rank then m
      else m.(nextActivate := now + c.tRFC, mode := Refreshing, lastCommand := Refresh,
              countdown := c.tRFC)
    case Data => m
  }

  function TickTable(c: Config, t: Table): Table {
    seq(|t|, i requires 0 <= i < |t| =>
      seq(|t[i]|, j requires 0 <= j < |t[i]| => TickBank(c, t[i][j])))
  }

  /** The controller's table after it pops p at cycle now. */
  function IssueTable(c: Config, p: BusPacket, now: nat, t: Table): Table {
    seq(|t|, i requires 0 <= i < |t| =>
      seq(|t[i]|, j requires 0 <= j < |t[i]| => IssueBank(c, p, now, i, j, t[i][j])))
  }

  // ----- The rank's table -----

  /** The check a rank makes before it carries out a command. */
  predicate RankAllows(p: BusPacket, now: nat, table: seq<BankState>) {
    match p.kind
    case Read | ReadP =>
      p.bank < |table| && table[p.bank].mode.RowActive? && now >= table[p.bank].nextRead
      && p.row == table[p.bank].openRow
    case Write | WriteP =>
      p.bank < |table| && table[p.bank].mode.RowActive? && now >= table[p.bank].nextWrite
      && p.row == table[p.bank].openRow
    case Activate =>
      p.bank < |table| && table[p.bank].mode.Idle? && now >= table[p.bank].nextActivate
    case Precharge =>
      p.bank < |table| && table[p.bank].mode.RowActive? && now >= table[p.bank].nextPrecharge
    case Refresh => forall j :: 0 <= j < |table| ==> table[j].mode.Idle?
    case Data => true
  }

  /** The entry of bank j after the rank carries out p at cycle now. */
  function RankBank(c: Config, p: BusPacket, now: nat, j: nat, k: BankState): BankState {
    match p.kind
    case Read | ReadP =>
      var raised := RaiseColumns(k, now + c.ColumnGap(), now + c.ReadToWrite());
      if j != p.bank then raised
      else if p.kind.Read? then raised.(nextPrecharge := Max(k.nextPrecharge, now + c.ReadToPre()))
      else raised.(mode := Idle, nextActivate := Max(k.nextActivate, now + c.ReadAutoPre()))
    case Write | WriteP =>
      var raised := RaiseColumns(k, now + c.WriteToReadBank(), now + c.ColumnGap());
      if j != p.bank then raised
      else if p.kind.Write? then raised.(nextPrecharge := Max(k.nextPrecharge, now + c.WriteToPre()))
      else raised.(mode := Idle, nextActivate := Max(k.nextActivate, now + c.WriteAutoPre()))
    case Activate =>
      if j != p.bank then k.(nextActivate := Max(k.nextActivate, now + c.tRRD))
      else k.(mode := RowActive, nextActivate := now + c.tRC, openRow := p.row,
              nextWrite := now + (c.tRCD - c.AL), nextRead := now + (c.tRCD - c.AL),
              nextPrecharge := now + c.tRAS)
    case Precharge =>
      if j != p.bank then k
      else k.(mode := Idle, nextActivate := Max(k.nextActivate, now + c.tRP))
    case Refresh => k.(nextActivate := now + c.tRFC)
    case Data => k
  }

  function RankTable(c: Config, p: BusPacket, now: nat, table: seq<BankState>): seq<BankState> {
    seq(|table|, j requires 0 <= j < |table| => RankBank(c, p, now, j, table[j]))
  }

  // ----- Lockstep of one bank -----

  /** A row is open in the controller's table and no auto-precharge is under way. */
  predicate Usable(m: BankState) { m.mode.RowActive? && m.countdown == 0 }

  /** The controller's entry m over-approximates the rank's entry k, one bus cycle later.
      t is the last cycle for which m's countdown has been stepped. */
  predicate Synced(t: int, m: BankState, k: BankState) {
    && k.nextActivate <= m.nextActivate + 1
    && (m.mode.RowActive? && m.countdown > 0 ==> k.mode.Idle? && m.lastCommand.IsAuto())
    && (Usable(m) ==>
          && k.mode.RowActive? && k.openRow == m.openRow
          && k.nextRead <= m.nextRead + 1 && k.nextWrite <= m.nextWrite + 1
          && k.nextPrecharge <= m.nextPrecharge + 1)
    && (m.mode.Idle? ==> k.mode.Idle? && m.countdown == 0)
    && (m.mode.Precharging? ==> k.mode.Idle? && m.lastCommand.Precharge?)
    && (m.mode.Refreshing? ==>
          && k.mode.Idle? && m.lastCommand.Refresh?
          && (m.countdown > 0 ==> m.nextActivate >= t + m.countdown))
    && (m.mode.PowerDown? ==>
          k.mode.PowerDown? && k.nextPowerUp == m.nextPowerUp && m.countdown == 0)
  }

  lemma {:induction false} TickSynced(c: Config, t: int, m: BankState, k: BankState)
    requires Synced(t, m, k)
    ensures Synced(t + 1, TickBank(c, m), k)
    ensures Usable(TickBank(c, m)) <==> Usable(m)
    ensures TickBank(c, m).mode.RowActive? ==> m.mode.RowActive?
    ensures TickBank(c, m).mode.PowerDown? <==> m.mode.PowerDown?
  {
  }

  /** What the scheduler guarantees of the bank a command is popped for. */
  predicate BankReady(p: BusPacket, now: nat, m: BankState) {
    match p.kind
    case Read | ReadP => Usable(m) && now >= m.nextRead && p.row == m.openRow
    case Write | WriteP => Usable(m) && now >= m.nextWrite && p.row == m.openRow
    case Activate => (m.mode.Idle? || m.mode.Refreshing?) && now >= m.nextActivate
    case Precharge => Usable(m) && now >= m.nextPrecharge
    case Refresh => !m.mode.RowActive? && !m.mode.PowerDown?
    case Data => false
  }

  /** Issuing a command keeps every bank of the system in lockstep with its rank. */
  lemma {:induction false} IssueSynced(c: Config, p: BusPacket, now: nat, i: nat, j: nat, m: BankState, k: BankState)
    requires c.Valid()
    requires Synced(now, m, k)
    requires i == p.rank && (j == p.bank || p.kind.Refresh?) ==> BankReady(p, now, m)
    ensures Synced(now, IssueBank(c, p, now, i, j, m),
                   if i == p.rank then RankBank(c, p, now + 1, j, k) else k)
  {
  }

  /** A command the controller pops at cycle now is allowed by the rank at now + 1. */
  lemma {:induction false} ReadyAllowed(p: BusPacket, now: nat, ms: seq<BankState>, ks: seq<BankState>)
    requires |ms| == |ks| && p.bank < |ms|
    requires forall j :: 0 <= j < |ms| ==> Synced(now, ms[j], ks[j])
    requires if p.kind.Refresh? then forall j :: 0 <= j < |ms| ==> BankReady(p, now, ms[j])
             else BankReady(p, now, ms[p.bank])
    ensures RankAllows(p, now + 1, ks)
  {
    if p.kind.Refresh? {
      forall j | 0 <= j < |ks| ensures ks[j].mode.Idle? { assert BankReady(p, now, ms[j]); }
    } else {
      assert Synced(now, ms[p.bank], ks[p.bank]);
    }
  }
}
