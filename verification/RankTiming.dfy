/** What a rank refuses, judged from what it has carried out so far: the rows that are open and
    the distances that earlier packets ask for. The bank table of the rank does not occur in
    these conditions; that it amounts to them, for every history, is what is proved. */
module RankTiming {
  import opened Configuration
  import opened Packets
  import opened BankTiming
  import opened MemoryModel

  /** What a rank is asked to do: carry out a packet from the bus, go to sleep, or wake up. */
  datatype Task = Carry(packet: BusPacket) | Sleep | Wake

  datatype Done = Done(time: nat, task: Task)

  function Perform(c: Config, k: RankState, d: Done): Outcome<RankState> {
    match d.task
    case Carry(p) => RankReceive(c, k, p, d.time)
    case Sleep => RankPowerDown(c, k, d.time)
    case Wake => RankPowerUp(c, k, d.time)
  }

  /** A new rank after a history of tasks. */
  function After(c: Config, h: seq<Done>): Outcome<RankState> {
    if |h| == 0 then Ok(InitRank(c))
    else
      var k :- After(c, h[..|h| - 1]);
      Perform(c, k, h[|h| - 1])
  }

  // ----- Rows, from the history -----

  datatype Row = Closed | Open(row: nat) | Resting

  /** An ACTIVATE opens a row, a PRECHARGE and an auto-precharge close it. */
  function RowAfter(h: seq<Done>, b: nat): Row {
    if |h| == 0 then Closed
    else
      match h[|h| - 1].task
      case Sleep => Resting
      case Wake => Closed
      case Carry(p) =>
        if p.bank == b && p.kind.Activate? then Open(p.row)
        else if p.bank == b && (p.kind.Precharge? || p.kind.IsAuto()) then Closed
        else RowAfter(h[..|h| - 1], b)
  }

  /** The rows allow the packet g. */
  predicate RowsAllow(c: Config, h: seq<Done>, g: BusPacket) {
    match g.kind
    case Activate => RowAfter(h, g.bank) == Closed
    case Precharge => RowAfter(h, g.bank).Open?
    case Refresh => forall b :: 0 <= b < c.numBanks ==> RowAfter(h, b) == Closed
    case Data => true
    case _ => RowAfter(h, g.bank) == Open(g.row)
  }

  /** When the rank went to sleep, if it has not been woken since. */
  function AsleepSince(h: seq<Done>): Option<nat> {
    if |h| == 0 then None
    else
      match h[|h| - 1].task
      case Sleep => Some(h[|h| - 1].time)
      case Wake => None
      case Carry(_) => AsleepSince(h[..|h| - 1])
  }

  // ----- Distances -----

  /** How long after a task a packet of kind g has to wait, to the same bank or to another, in
      terms of the parameters of the chips. Write data goes out CL + AL - 1 cycles after its
      command, one cycle sooner than read data comes in. */
  function Distance(c: Config, task: Task, g: PacketKind, same: bool): Option<int> {
    match task
    case Sleep => None
    case Wake => if g.Activate? then Some(c.tXP) else None
    case Carry(p) =>
      match p.kind
      case Read | ReadP =>
        if g.IsRead() then Some(Max(c.tCCD, c.BL / 2))
        else if g.IsWrite() then Some(c.BL / 2 + c.tRTRS + 1)
        else if same && p.kind.Read? && g.Precharge? then Some(c.AL + c.BL / 2 + Max(c.tRTP, 2) - 2)
        else if same && p.kind.ReadP? && g.Activate? then Some(c.AL + c.tRTP + c.tRP)
        else None
      case Write | WriteP =>
        if g.IsWrite() then Some(Max(c.tCCD, c.BL / 2))
        else if g.IsRead() then Some(c.CL + c.AL - 1 + c.BL / 2 + c.tWTR)
        else if same && p.kind.Write? && g.Precharge? then Some(c.CL + c.AL - 1 + c.BL / 2 + c.tWR)
        else if same && p.kind.WriteP? && g.Activate? then Some(c.CL + c.AL - 1 + c.BL / 2 + c.tWR + c.tRP)
        else None
      case Activate =>
        if g.Activate? then Some(if same then c.tRC else c.tRRD)
        else if same && g.IsColumn() then Some(c.tRCD - c.AL)
        else if same && g.Precharge? then Some(c.tRAS)
        else None
      case Precharge => if same && g.Activate? then Some(c.tRP) else None
      case Refresh => if g.Activate? then Some(c.tRFC) else None
      case Data => None
  }

  predicate SameBank(task: Task, g: BusPacket) { task.Carry? && task.packet.bank == g.bank }

  /** The packet g at cycle u comes too soon after a task. */
  predicate TooSoon(c: Config, d: Done, g: BusPacket, u: nat) {
    var x := Distance(c, d.task, g.kind, SameBank(d.task, g));
    x.Some? && u < d.time + x.value
  }

  /** The rank forgets what g had to wait for before the task: an ACTIVATE sets the times of its
      bank anew, a REFRESH and a wake-up those of the next ACTIVATE. */
  predicate Renews(task: Task, g: BusPacket) {
    match task
    case Sleep => false
    case Wake => g.kind.Activate?
    case Carry(p) =>
      if p.kind.Refresh? then g.kind.Activate?
      else p.kind.Activate? && p.bank == g.bank && (g.kind.Activate? || g.kind.Precharge? || g.kind.IsColumn())
  }

  predicate Forgotten(h: seq<Done>, i: nat, g: BusPacket) {
    exists j :: i < j < |h| && Renews(h[j].task, g)
  }

  /** The packet g at cycle u keeps its distance from every task that is not forgotten. */
  predicate KeepsDistance(c: Config, h: seq<Done>, g: BusPacket, u: nat) {
    forall i :: 0 <= i < |h| && !Forgotten(h, i, g) ==> !TooSoon(c, h[i], g, u)
  }

  lemma {:induction false} ForgottenSnoc(h: seq<Done>, i: nat, g: BusPacket)
    requires i < |h| - 1
    ensures Forgotten(h, i, g) <==> Renews(h[|h| - 1].task, g) || Forgotten(h[..|h| - 1], i, g)
  {
    hide Renews;
    var front := h[..|h| - 1];
    if Forgotten(front, i, g) {
      var j :| i < j < |front| && Renews(front[j].task, g);
      assert h[j] == front[j];
    } else if Forgotten(h, i, g) {
      var j :| i < j < |h| && Renews(h[j].task, g);
      if j < |front| { assert Renews(front[j].task, g); }
    }
  }

  lemma {:induction false} KeepsSnoc(c: Config, h: seq<Done>, g: BusPacket, u: nat)
    requires |h| > 0
    ensures var n := |h| - 1;
            KeepsDistance(c, h, g, u) <==>
              !TooSoon(c, h[n], g, u) && (Renews(h[n].task, g) || KeepsDistance(c, h[..n], g, u))
  {
    hide TooSoon, Renews;
    var n := |h| - 1;
    var front := h[..n];
    assert !Forgotten(h, n, g);
    forall i | 0 <= i < n ensures Forgotten(h, i, g) <==> Renews(h[n].task, g) || Forgotten(front, i, g) {
      ForgottenSnoc(h, i, g);
    }
    hide Forgotten;
    assert forall i :: 0 <= i < n ==> front[i] == h[i];
  }

  // ----- The table agrees with the history -----

  /** The first cycle at which the entry of a bank lets a packet of kind g through. */
  function Earliest(g: PacketKind, m: BankState): int {
    match g
    case Read | ReadP => m.nextRead
    case Write | WriteP => m.nextWrite
    case Activate => m.nextActivate
    case Precharge => m.nextPrecharge
    case _ => 0
  }

  predicate ShowsRow(m: BankState, row: Row) {
    match row
    case Closed => m.mode.Idle?
    case Open(r) => m.mode.RowActive? && m.openRow == r
    case Resting => m.mode.PowerDown?
  }

  predicate Shows(c: Config, h: seq<Done>, k: RankState) {
    && |k.table| == c.numBanks
    && (k.poweredDown <==> AsleepSince(h).Some?)
    && forall b :: 0 <= b < |k.table| ==>
         && ShowsRow(k.table[b], RowAfter(h, b)) && (k.table[b].mode.PowerDown? <==> k.poweredDown)
         && (k.poweredDown ==> k.table[b].nextPowerUp == AsleepSince(h).value + c.tCKE)
  }

  lemma {:induction false} AfterShows(c: Config, h: seq<Done>)
    requires c.Valid() && After(c, h).Ok?
    ensures Shows(c, h, After(c, h).value)
  {
    hide RankBank;
    if |h| > 0 {
      var k := After(c, h[..|h| - 1]).value;
      AfterShows(c, h[..|h| - 1]);
      match h[|h| - 1].task
      case Sleep =>
      case Wake =>
      case Carry(p) => CarryShows(c, h, k, p);
    }
  }

  lemma {:induction false} CarryShows(c: Config, h: seq<Done>, k: RankState, p: BusPacket)
    requires c.Valid() && |h| > 0 && h[|h| - 1].task == Carry(p) && Shows(c, h[..|h| - 1], k)
    requires RankReceive(c, k, p, h[|h| - 1].time).Ok?
    ensures Shows(c, h, RankReceive(c, k, p, h[|h| - 1].time).value)
  {
  }

  lemma {:induction false} CarryTimes(c: Config, p: BusPacket, now: nat, m: BankState, g: BusPacket, u: nat)
    requires c.Valid()
    ensures u >= Earliest(g.kind, RankBank(c, p, now, g.bank, m)) <==>
              !TooSoon(c, Done(now, Carry(p)), g, u) && (Renews(Carry(p), g) || u >= Earliest(g.kind, m))
  {
    assert c.CL + c.AL >= 2;
    hide Config.Valid;
    match p.kind {
      case Read | ReadP => ColumnTimes(c, p, now, m, g, u);
      case Write | WriteP => ColumnTimes(c, p, now, m, g, u);
      case _ =>
    }
  }

  lemma {:induction false} ColumnTimes(c: Config, p: BusPacket, now: nat, m: BankState, g: BusPacket, u: nat)
    requires p.kind.IsColumn() && c.CL + c.AL >= 2
    ensures u >= Earliest(g.kind, RankBank(c, p, now, g.bank, m)) <==>
              !TooSoon(c, Done(now, Carry(p)), g, u) && u >= Earliest(g.kind, m)
  {
  }

  /** One task changes the first cycle for g by its distance alone. */
  lemma {:induction false} PerformTimes(c: Config, k: RankState, d: Done, g: BusPacket, u: nat)
    requires c.Valid() && Perform(c, k, d).Ok? && g.bank < |k.table|
    ensures |Perform(c, k, d).value.table| == |k.table|
    ensures u >= Earliest(g.kind, Perform(c, k, d).value.table[g.bank]) <==>
              !TooSoon(c, d, g, u) && (Renews(d.task, g) || u >= Earliest(g.kind, k.table[g.bank]))
  {
    hide RankBank, RankAllows, Config.Valid;
    match d.task
    case Sleep =>
    case Wake =>
    case Carry(p) =>
      hide TooSoon, Renews, Earliest;
      assert d == Done(d.time, Carry(p));
      CarryTimes(c, p, d.time, k.table[g.bank], g, u);
  }

  lemma {:induction false} AfterTimes(c: Config, h: seq<Done>, g: BusPacket, u: nat)
    requires c.Valid() && After(c, h).Ok? && g.bank < c.numBanks
    ensures |After(c, h).value.table| == c.numBanks
    ensures u >= Earliest(g.kind, After(c, h).value.table[g.bank]) <==> KeepsDistance(c, h, g, u)
  {
    AfterShows(c, h);
    if |h| > 0 {
      hide Earliest, Perform, TooSoon, Renews, Shows, KeepsDistance;
      AfterTimes(c, h[..|h| - 1], g, u);
      PerformTimes(c, After(c, h[..|h| - 1]).value, h[|h| - 1], g, u);
      KeepsSnoc(c, h, g, u);
    }
  }

  // ----- What a rank refuses -----

  /** A command is carried out exactly if the rows allow it and it keeps its distance from
      everything that is not forgotten; otherwise it is refused. */
  lemma {:induction false} CarriedOutExactly(c: Config, h: seq<Done>, g: BusPacket, u: nat)
    requires c.Valid() && After(c, h).Ok? && !g.kind.Data? && g.bank < c.numBanks
    ensures var r := RankReceive(c, After(c, h).value, g, u);
            && (r.Ok? <==> RowsAllow(c, h, g) && (g.kind.Refresh? || KeepsDistance(c, h, g, u)))
            && (r.Exit? ==> r.fault.CommandRefused?)
  {
    hide KeepsDistance, After;
    AfterShows(c, h);
    AfterTimes(c, h, g, u);
  }

  /** A rank may go to sleep exactly if all rows are closed. */
  lemma {:induction false} SleepsExactly(c: Config, h: seq<Done>, u: nat)
    requires c.Valid() && After(c, h).Ok?
    ensures RankPowerDown(c, After(c, h).value, u).Ok? <==> forall b :: 0 <= b < c.numBanks ==> RowAfter(h, b) == Closed
  {
    hide After;
    AfterShows(c, h);
    var k := After(c, h).value;
    forall b | 0 <= b < |k.table| ensures RowAfter(h, b) == Closed <==> k.table[b].mode.Idle? {
      assert ShowsRow(k.table[b], RowAfter(h, b));
    }
    if RankPowerDown(c, k, u).Ok? {
      forall b | 0 <= b < c.numBanks ensures RowAfter(h, b) == Closed { assert k.table[b].mode.Idle?; }
    } else {
      var b :| 0 <= b < |k.table| && !k.table[b].mode.Idle?;
      assert RowAfter(h, b) != Closed;
    }
  }

  /** It may be woken exactly if it has been asleep for tCKE cycles. */
  lemma {:induction false} WakesExactly(c: Config, h: seq<Done>, u: nat)
    requires c.Valid() && After(c, h).Ok?
    ensures RankPowerUp(c, After(c, h).value, u).Ok? <==> AsleepSince(h).Some? && u >= AsleepSince(h).value + c.tCKE
  {
    hide After;
    AfterShows(c, h);
    var k := After(c, h).value;
    if k.poweredDown && u < AsleepSince(h).value + c.tCKE { assert k.table[0].nextPowerUp > u; }
  }
}
