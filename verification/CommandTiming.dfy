/** Distances between the commands of a run that concern one bank: how long a row stays open,
    how long before it is used, and how long a closed bank rests. Power management, which
    sets activation times outright, does not break them. */
module CommandTiming {
  import opened Numbers
  import opened Configuration
  import opened Packets
  import opened BankTiming
  import opened Scheduling
  import opened AddressMapping
  import opened MemoryModel
  import opened Pairing
  import opened Lockstep
  import opened Spacing
  import opened SystemInvariant
  import opened Runs
  import opened CommandProtocol

  predicate At(p: BusPacket, r: nat, b: nat) { p.rank == r && p.bank == b }

  /** p closes bank b of rank r: by itself, by auto-precharge, or by a refresh of the rank. */
  predicate Closes(p: BusPacket, r: nat, b: nat) {
    p.rank == r && (p.kind.Refresh? || (p.bank == b && (p.kind.Precharge? || p.kind.IsAuto())))
  }

  /** How long a bank rests after such a command. */
  function RestTime(c: Config, kind: PacketKind): int {
    match kind
    case Precharge => c.tRP
    case ReadP => Min(c.ReadAutoPre(), c.ReadToPre() + c.tRP)
    case WriteP => c.WriteAutoPre()
    case Refresh => c.tRFC
    case _ => 0
  }

  /** How long after a column command a read or a write of its rank may follow. */
  function ReadGap(c: Config, kind: PacketKind): int { if kind.IsRead() then c.ColumnGap() else c.WriteToReadBank() }

  function WriteGap(c: Config, kind: PacketKind): int { if kind.IsRead() then c.ReadToWrite() else c.ColumnGap() }

  /** A bank closed by auto-precharge cannot be used again before these times have passed. An
      auto-precharge replaces the read and write times of its bank by its activation time, so
      without this the table may forget them. */
  predicate AutoSlow(c: Config) {
    || c.policy.OpenPage?
    || Min(RestTime(c, ReadP), RestTime(c, WriteP)) + (c.tRCD - c.AL)
       >= Max(c.ColumnGap(), Max(c.ReadToWrite(), c.WriteToReadBank()))
  }

  /** Whether f, popped later than e, comes late enough. */
  predicate Apart(c: Config, e: Issue, f: Issue) {
    var p, g := e.packet, f.packet;
    && (g.kind.IsColumn() && p.kind.Activate? && At(p, g.rank, g.bank) ==> f.time >= e.time + (c.tRCD - c.AL))
    && (g.kind.Precharge? && p.kind.Activate? && At(p, g.rank, g.bank) ==> f.time >= e.time + c.tRAS)
    && (g.kind.Precharge? && p.kind.Read? && At(p, g.rank, g.bank) ==> f.time >= e.time + c.ReadToPre())
    && (g.kind.Precharge? && p.kind.Write? && At(p, g.rank, g.bank) ==> f.time >= e.time + c.WriteToPre())
    && (g.kind.Activate? && Closes(p, g.rank, g.bank) ==> f.time >= e.time + RestTime(c, p.kind))
    && (AutoSlow(c) && p.kind.IsColumn() && g.kind.IsColumn() && p.rank == g.rank ==>
          f.time >= e.time + if g.kind.IsRead() then ReadGap(c, p.kind) else WriteGap(c, p.kind))
    && (!c.lowPower && p.kind.Activate? && g.kind.Activate? && p.rank == g.rank ==>
          f.time >= e.time + if p.bank == g.bank then c.tRC else c.tRRD)
    && (g.kind.Refresh? ==>
          forall b :: 0 <= b < c.numBanks && Closes(p, g.rank, b) ==> f.time >= e.time + RestTime(c, p.kind))
  }

  predicate AllApart(c: Config, issued: seq<Issue>) {
    forall i, j :: 0 <= i < j < |issued| ==> Apart(c, issued[i], issued[j])
  }

  // ----- What the table keeps of an earlier command -----

  /** A row just opened is not used before it is due. t is the last cycle the countdown of m
      was stepped for. */
  predicate ColumnKept(t: int, due: int, m: BankState) {
    t >= due || !Usable(m) || (m.nextRead >= due && m.nextWrite >= due)
  }

  /** A bank that was closed is neither idle nor ready before it is due. */
  predicate Resting(c: Config, t: int, due: int, m: BankState) {
    || t >= due
    || (&& m.nextActivate >= due && m.countdown > 0
        && (|| (m.mode.RowActive? && t + m.countdown + c.tRP >= due)
            || ((m.mode.Precharging? || m.mode.Refreshing?) && t + m.countdown >= due)))
  }

  /** A read or write time that was raised still holds, or the bank has been closed since and
      rests for as long. */
  predicate Late(c: Config, t: int, due: int, next: int, m: BankState) {
    t >= due || next >= due || (!Usable(m) && Resting(c, t, due - (c.tRCD - c.AL), m))
  }

  /** What an open row keeps of its ACTIVATE and its accesses. */
  predicate RowKept(c: Config, t: int, e: Issue, r: nat, b: nat, m: BankState) {
    var p := e.packet;
    && (p.kind.Activate? && At(p, r, b) ==>
          ColumnKept(t, e.time + (c.tRCD - c.AL), m) && m.nextPrecharge >= e.time + c.tRAS)
    && (p.kind.Read? && At(p, r, b) ==> m.nextPrecharge >= e.time + c.ReadToPre())
    && (p.kind.Write? && At(p, r, b) ==> m.nextPrecharge >= e.time + c.WriteToPre())
  }

  predicate RestKept(c: Config, t: int, e: Issue, r: nat, b: nat, m: BankState) {
    Closes(e.packet, r, b) ==> Resting(c, t, e.time + RestTime(c, e.packet.kind), m)
  }

  /** What every bank keeps of a column command to its rank. */
  predicate GapKept(c: Config, t: int, e: Issue, r: nat, m: BankState) {
    AutoSlow(c) && e.packet.kind.IsColumn() && e.packet.rank == r ==>
      && Late(c, t, e.time + ReadGap(c, e.packet.kind), m.nextRead, m)
      && Late(c, t, e.time + WriteGap(c, e.packet.kind), m.nextWrite, m)
  }

  /** And of an ACTIVATE, where power management does not set activation times. */
  predicate ActivateKept(c: Config, e: Issue, r: nat, b: nat, m: BankState) {
    !c.lowPower && e.packet.kind.Activate? && e.packet.rank == r ==>
      m.nextActivate >= e.time + if e.packet.bank == b then c.tRC else c.tRRD
  }

  predicate Kept(c: Config, t: int, e: Issue, r: nat, b: nat, m: BankState) {
    RowKept(c, t, e, r, b, m) && RestKept(c, t, e, r, b, m) && GapKept(c, t, e, r, m) && ActivateKept(c, e, r, b, m)
  }

  predicate RankKept(c: Config, t: int, e: Issue, r: nat, banks: seq<BankState>) {
    forall b :: 0 <= b < |banks| ==> Kept(c, t, e, r, b, banks[b])
  }

  predicate AllKept(c: Config, table: Table, issued: seq<Issue>, t: int) {
    forall n, r :: 0 <= n < |issued| && 0 <= r < |table| ==> RankKept(c, t, issued[n], r, table[r])
  }

  // ----- One bank -----

  lemma {:induction false} TickKept(c: Config, t: int, e: Issue, r: nat, b: nat, m: BankState, k: BankState)
    requires Kept(c, t, e, r, b, m) && Synced(t, m, k)
    ensures Kept(c, t + 1, e, r, b, TickBank(c, m))
  {
  }

  /** A command is ready in a bank it concerns, and a refresh finds the bank rested. */
  predicate ReadyIn(p: BusPacket, now: nat, m: BankState) {
    BankReady(p, now, m) && (p.kind.Refresh? ==> now >= m.nextActivate) && (p.kind.Activate? ==> m.countdown == 0)
  }

  predicate Concerns(p: BusPacket, r: nat, b: nat) { p.rank == r && (p.bank == b || p.kind.Refresh?) }

  /** What is asked of a command p popped in cycle now, as a bank sees it. */
  predicate Comes(c: Config, p: BusPacket, now: nat, r: nat, b: nat, m: BankState) {
    && c.Valid() && !p.kind.Data? && (p.kind.IsAuto() ==> c.policy.ClosePage?)
    && (Concerns(p, r, b) ==> ReadyIn(p, now, m))
  }

  lemma {:induction false} IssueResting(c: Config, p: BusPacket, now: nat, r: nat, b: nat, m: BankState, due: int)
    requires Comes(c, p, now, r, b, m) && Resting(c, now, due, m)
    ensures Resting(c, now, due, IssueBank(c, p, now, r, b, m))
    ensures Concerns(p, r, b) && (p.kind.Activate? || p.kind.Refresh?) ==> now >= due
  {
  }

  /** A bank that an auto-precharge closes rests. */
  lemma {:induction false} AutoResting(c: Config, p: BusPacket, now: nat, m: BankState)
    requires Comes(c, p, now, p.rank, p.bank, m) && p.kind.IsAuto()
    ensures Resting(c, now, now + RestTime(c, p.kind), IssueBank(c, p, now, p.rank, p.bank, m))
    ensures !Usable(IssueBank(c, p, now, p.rank, p.bank, m))
  {
  }

  lemma {:induction false} IssueRowKept(c: Config, e: Issue, p: BusPacket, now: nat, r: nat, b: nat, m: BankState)
    requires Comes(c, p, now, r, b, m) && RowKept(c, now, e, r, b, m) && e.time <= now
    ensures RowKept(c, now, e, r, b, IssueBank(c, p, now, r, b, m))
  {
  }

  lemma {:induction false} IssueActivateKept(c: Config, e: Issue, p: BusPacket, now: nat, r: nat, b: nat, m: BankState)
    requires Comes(c, p, now, r, b, m) && ActivateKept(c, e, r, b, m)
    ensures ActivateKept(c, e, r, b, IssueBank(c, p, now, r, b, m))
  {
  }

  /** A read and a write time after a command that is not an auto-precharge of the bank. */
  lemma {:induction false} IssueRaises(c: Config, p: BusPacket, now: nat, r: nat, b: nat, m: BankState)
    requires Comes(c, p, now, r, b, m) && !(p.kind.IsAuto() && At(p, r, b))
    ensures var m' := IssueBank(c, p, now, r, b, m);
            && m'.nextRead >= m.nextRead && m'.nextWrite >= m.nextWrite
            && (Usable(m') && !Usable(m) ==> m'.nextRead >= now + (c.tRCD - c.AL) && m'.nextWrite >= now + (c.tRCD - c.AL)
                                             && p.kind.Activate? && Concerns(p, r, b))
  {
  }

  lemma {:induction false} IssueLate(c: Config, e: Issue, p: BusPacket, now: nat, r: nat, b: nat, m: BankState, gap: int, read: bool)
    requires Comes(c, p, now, r, b, m) && AutoSlow(c) && e.time <= now
    requires gap <= Max(c.ColumnGap(), Max(c.ReadToWrite(), c.WriteToReadBank()))
    requires Late(c, now, e.time + gap, if read then m.nextRead else m.nextWrite, m)
    ensures var m' := IssueBank(c, p, now, r, b, m);
            Late(c, now, e.time + gap, if read then m'.nextRead else m'.nextWrite, m')
  {
    var due := e.time + gap;
    var m' := IssueBank(c, p, now, r, b, m);
    if p.kind.IsAuto() && At(p, r, b) {
      AutoResting(c, p, now, m);
      assert Resting(c, now, due - (c.tRCD - c.AL), m');
    } else {
      IssueRaises(c, p, now, r, b, m);
      if Resting(c, now, due - (c.tRCD - c.AL), m) { IssueResting(c, p, now, r, b, m, due - (c.tRCD - c.AL)); }
    }
  }

  /** A pop keeps what a bank remembers of earlier commands. */
  lemma {:induction false} IssueKept(c: Config, e: Issue, p: BusPacket, now: nat, r: nat, b: nat, m: BankState)
    requires Comes(c, p, now, r, b, m) && Kept(c, now, e, r, b, m) && e.time <= now
    ensures Kept(c, now, e, r, b, IssueBank(c, p, now, r, b, m))
  {
    hide IssueBank, RowKept, ActivateKept, Late, Resting, Comes, RestTime, AutoSlow;
    IssueRowKept(c, e, p, now, r, b, m);
    IssueActivateKept(c, e, p, now, r, b, m);
    if Closes(e.packet, r, b) { IssueResting(c, p, now, r, b, m, e.time + RestTime(c, e.packet.kind)); }
    if AutoSlow(c) && e.packet.kind.IsColumn() && e.packet.rank == r {
      IssueLate(c, e, p, now, r, b, m, ReadGap(c, e.packet.kind), true);
      IssueLate(c, e, p, now, r, b, m, WriteGap(c, e.packet.kind), false);
    }
  }

  lemma {:induction false} NewGapKept(c: Config, p: BusPacket, now: nat, r: nat, b: nat, m: BankState)
    requires Comes(c, p, now, r, b, m)
    ensures GapKept(c, now, Issue(now, p), r, IssueBank(c, p, now, r, b, m))
  {
    var m' := IssueBank(c, p, now, r, b, m);
    if p.kind.IsAuto() && At(p, r, b) {
      AutoResting(c, p, now, m);
      hide IssueBank;
      assert AutoSlow(c) ==> Late(c, now, now + ReadGap(c, p.kind), m'.nextRead, m');
    }
  }

  /** The command just popped is remembered. */
  lemma {:induction false} NewKept(c: Config, p: BusPacket, now: nat, r: nat, b: nat, m: BankState)
    requires Comes(c, p, now, r, b, m)
    ensures Kept(c, now, Issue(now, p), r, b, IssueBank(c, p, now, r, b, m))
  {
    NewGapKept(c, p, now, r, b, m);
    hide GapKept;
  }

  /** A command ready in a bank comes late enough for what the bank keeps. */
  lemma {:induction false} ReadyLate(c: Config, e: Issue, p: BusPacket, now: nat, r: nat, b: nat, m: BankState)
    requires Kept(c, now, e, r, b, m) && Concerns(p, r, b) && ReadyIn(p, now, m)
    ensures p.kind.IsColumn() && e.packet.kind.Activate? && At(e.packet, r, b) ==> now >= e.time + (c.tRCD - c.AL)
    ensures p.kind.Precharge? && e.packet.kind.Activate? && At(e.packet, r, b) ==> now >= e.time + c.tRAS
    ensures p.kind.Precharge? && e.packet.kind.Read? && At(e.packet, r, b) ==> now >= e.time + c.ReadToPre()
    ensures p.kind.Precharge? && e.packet.kind.Write? && At(e.packet, r, b) ==> now >= e.time + c.WriteToPre()
    ensures (p.kind.Activate? || p.kind.Refresh?) && Closes(e.packet, r, b) ==> now >= e.time + RestTime(c, e.packet.kind)
    ensures AutoSlow(c) && p.kind.IsColumn() && e.packet.kind.IsColumn() && e.packet.rank == r ==>
              now >= e.time + if p.kind.IsRead() then ReadGap(c, e.packet.kind) else WriteGap(c, e.packet.kind)
    ensures !c.lowPower && p.kind.Activate? && e.packet.kind.Activate? && e.packet.rank == r ==>
              now >= e.time + if e.packet.bank == b then c.tRC else c.tRRD
  {
  }

  /** Power management neither shortens a rest nor opens a row. */
  lemma {:induction false} PowerKept(c: Config, t: int, e: Issue, r: nat, now: nat, empty: bool, banks: seq<BankState>,
                                     down: bool, k: RankState)
    requires RankKept(c, t, e, r, banks) && |banks| > 0 && PowerOk(banks, down, k)
    requires PowerRank(c, now, empty, banks, down, k).Ok?
    ensures RankKept(c, t, e, r, PowerRank(c, now, empty, banks, down, k).value.banks)
  {
    var banks' := PowerRank(c, now, empty, banks, down, k).value.banks;
    forall b | 0 <= b < |banks'| ensures Kept(c, t, e, r, b, banks'[b]) {
      assert Kept(c, t, e, r, b, banks[b]);
    }
  }

  // ----- The whole table -----

  predicate Timely(c: Config, s: State, t: int) {
    AllKept(c, s.ctrl.table, s.log.issued, t) && AllApart(c, s.log.issued)
  }

  lemma {:induction false} FirstHalfTimely(c: Config, s: State)
    requires Inv(c, s) && Timely(c, s, s.clock - 1) && FirstHalf(c, s).Ok?
    ensures Timely(c, FirstHalf(c, s).value, s.clock)
  {
    hide FirstHalf, DataPaths, Orders, Accounts, OnCadence, Commands, AllApart, AllKept;
    FirstHalfFrame(c, s);
    TickAllKept(c, s, AtBoundary(s.clock));
  }

  lemma {:induction false} TickAllKept(c: Config, s: State, z: Stamps)
    requires Commands(c, s, z) && AllKept(c, s.ctrl.table, s.log.issued, z.table)
    ensures AllKept(c, TickTable(c, s.ctrl.table), s.log.issued, z.table + 1)
  {
    hide Kept, Synced, TickBank, WellPaired, AllHeld, Gaps;
    var table, issued := s.ctrl.table, s.log.issued;
    var table' := TickTable(c, table);
    forall n, r | 0 <= n < |issued| && 0 <= r < |table'| ensures RankKept(c, z.table + 1, issued[n], r, table'[r]) {
      assert RankKept(c, z.table, issued[n], r, table[r]);
      var future := Future(c, s.ranks[r].table, s.ctrl.cmdBus, z.arrival, r);
      assert RankInStep(c, z.table, table[r], future);
      forall b | 0 <= b < |table'[r]| ensures Kept(c, z.table + 1, issued[n], r, b, table'[r][b]) {
        assert table'[r][b] == TickBank(c, table[r][b]);
        TickKept(c, z.table, issued[n], r, b, table[r][b], future[b]);
      }
    }
  }

  /** Readiness of a popped command in every bank it concerns. */
  predicate ReadyEverywhere(c: Config, s: State, p: BusPacket) {
    && Rect(s.ctrl.table, c.numRanks, c.numBanks) && !p.kind.Data? && (p.kind.IsAuto() ==> c.policy.ClosePage?)
    && forall r, b :: 0 <= r < c.numRanks && 0 <= b < c.numBanks && Concerns(p, r, b) ==>
         ReadyIn(p, s.clock, s.ctrl.table[r][b])
  }

  lemma {:induction false} ChosenReadyEverywhere(c: Config, s: State, z: Stamps, v: View, q: QueueState, ch: Choice, p: BusPacket)
    requires Commands(c, s, z) && z.table == s.clock && s.ctrl.cmdBus.None?
    requires Choosing(c, s, v, q, ch) && Chosen(c, q, ch) == Some(p)
    ensures ReadyEverywhere(c, s, p) && InRange(c, p)
  {
    PopChosenReady(c, s, z, v, q, ch, p);
    hide WellPaired, InStep, AllHeld, Gaps, Issuable, BankReady;
    assert p.kind.Refresh? ==> ch.SendRefresh? || ch.Take?;
    assert ch.Take? ==> PacketOk(c, ch.rank, ch.slot, q.queues[ch.rank][ch.slot][ch.index]);
    if p.kind.Refresh? {
      forall b | 0 <= b < c.numBanks ensures ReadyIn(p, s.clock, s.ctrl.table[p.rank][b]) {
        assert !Blocks(v.now, v.table[p.rank][b]);
      }
    }
  }

  lemma {:induction false} PopAllKept(c: Config, s: State, p: BusPacket)
    requires c.Valid() && ReadyEverywhere(c, s, p) && Past(s.log.issued, s.clock)
    requires AllKept(c, s.ctrl.table, s.log.issued, s.clock)
    ensures AllKept(c, IssueTable(c, p, s.clock, s.ctrl.table), s.log.issued + [Issue(s.clock, p)], s.clock)
  {
    hide Kept, ReadyIn, IssueBank;
    var table, issued := s.ctrl.table, s.log.issued + [Issue(s.clock, p)];
    var table' := IssueTable(c, p, s.clock, table);
    forall n, r | 0 <= n < |issued| && 0 <= r < |table'| ensures RankKept(c, s.clock, issued[n], r, table'[r]) {
      assert n < |s.log.issued| ==> RankKept(c, s.clock, s.log.issued[n], r, table[r]);
      forall b | 0 <= b < |table'[r]| ensures Kept(c, s.clock, issued[n], r, b, table'[r][b]) {
        assert table'[r][b] == IssueBank(c, p, s.clock, r, b, table[r][b]);
        if n < |s.log.issued| {
          IssueKept(c, issued[n], p, s.clock, r, b, table[r][b]);
        } else {
          NewKept(c, p, s.clock, r, b, table[r][b]);
        }
      }
    }
  }

  lemma {:induction false} PopAllApart(c: Config, s: State, p: BusPacket)
    requires ReadyEverywhere(c, s, p) && InRange(c, p)
    requires AllKept(c, s.ctrl.table, s.log.issued, s.clock) && AllApart(c, s.log.issued)
    ensures AllApart(c, s.log.issued + [Issue(s.clock, p)])
  {
    hide Kept, ReadyIn, RestTime, Closes;
    var issued := s.log.issued + [Issue(s.clock, p)];
    forall i, j | 0 <= i < j < |issued| ensures Apart(c, issued[i], issued[j]) {
      if j == |s.log.issued| {
        assert RankKept(c, s.clock, s.log.issued[i], p.rank, s.ctrl.table[p.rank]);
        ReadyLate(c, issued[i], p, s.clock, p.rank, p.bank, s.ctrl.table[p.rank][p.bank]);
        if p.kind.Refresh? {
          forall b | 0 <= b < c.numBanks && Closes(issued[i].packet, p.rank, b)
            ensures s.clock >= issued[i].time + RestTime(c, issued[i].packet.kind)
          {
            ReadyLate(c, issued[i], p, s.clock, p.rank, b, s.ctrl.table[p.rank][b]);
          }
        }
      } else {
        assert Apart(c, s.log.issued[i], s.log.issued[j]);
      }
    }
  }

  lemma {:induction false} PopTimely(c: Config, s: State, z: Stamps)
    requires Good(c, s, z) && s.ctrl.cmdBus.None? && Timely(c, s, s.clock) && z.table == s.clock == z.past
    requires PopReady(c, s) && PopPhase(c, s).Ok?
    ensures Timely(c, PopPhase(c, s).value, s.clock)
  {
    hide DataPaths, Orders, Accounts, Decide, IssueTable, WellPaired, InStep, AllHeld, ViewOf, AllKept, AllApart, ReadyEverywhere, Past;
    GoodPopReady(c, s, z);
    DecisionSound(c, s);
    var q := AgedQueue(s.ctrl.queue);
    var d := DecisionOf(c, s);
    match Chosen(c, q, d.choice)
    case None =>
    case Some(p) =>
      ChosenReadyEverywhere(c, s, z, ViewOf(q, s.ctrl.table, s.clock), q, d.choice, p);
      PopAllKept(c, s, p);
      PopAllApart(c, s, p);
  }

  lemma {:induction false} PowerTimely(c: Config, s: State, z: Stamps, n: nat)
    requires Good(c, s, z) && PowerReady(c, s) && n <= c.numRanks && z.table == s.clock
    requires Busy(s.ctrl.table, s.ctrl.cmdBus) && Timely(c, s, s.clock)
    ensures PowerPhase(c, s, n).Ok? && Timely(c, PowerPhase(c, s, n).value, s.clock)
  {
    hide Good, PowerPhase, Busy, PowerRank, PowerReady, Timely;
    PowerGood(c, s, z, n);
    if n > 0 {
      PowerTimely(c, s, z, n - 1);
      PowerGood(c, s, z, n - 1);
      var s1 := PowerPhase(c, s, n - 1).value;
      PowerStaysReady(c, s, n - 1);
      PowerStepGood(c, s1, z, n - 1);
      PowerUnfold(c, s, n, s1);
      PowerStepTimely(c, s1, z, n - 1);
    } else {
      PowerNone(c, s);
    }
  }

  lemma {:induction false} PowerStepTimely(c: Config, s: State, z: Stamps, r: nat)
    requires Good(c, s, z) && PowerReady(c, s) && r < c.numRanks && PowerOf(c, s, r).Ok? && Timely(c, s, s.clock)
    ensures Timely(c, AfterPower(s, r, PowerOf(c, s, r).value), s.clock)
  {
    hide DataPaths, Orders, Accounts, PowerRank, WellPaired, AllHeld, RankInStep, RankKept, AllApart, PowerOk;
    assert PowerOk(s.ctrl.table[r], s.ctrl.powerDown[r], s.ranks[r]);
    var table' := s.ctrl.table[r := PowerOf(c, s, r).value.banks];
    forall n, i | 0 <= n < |s.log.issued| && 0 <= i < |table'|
      ensures RankKept(c, s.clock, s.log.issued[n], i, table'[i])
    {
      assert RankKept(c, s.clock, s.log.issued[n], i, s.ctrl.table[i]);
      if i == r {
        PowerKept(c, s.clock, s.log.issued[n], r, s.clock, QueueEmpty(s.ctrl.queue.queues[r]), s.ctrl.table[r],
                  s.ctrl.powerDown[r], s.ranks[r]);
      }
    }
  }

  lemma {:induction false} SplitFrame(c: Config, s: State)
    requires SplitReady(c, s) && SplitPhase(c, s).Ok?
    ensures SplitPhase(c, s).value.ctrl.table == s.ctrl.table && SplitPhase(c, s).value.log == s.log
    ensures SplitPhase(c, s).value.clock == s.clock
  {
    hide Locate, FirstWithRoom, QueueFor;
  }

  lemma {:induction false} EndFrame(s: State)
    ensures ClockPhase(ReturnPhase(s)).ctrl.table == s.ctrl.table
    ensures ClockPhase(ReturnPhase(s)).log.issued == s.log.issued && ClockPhase(ReturnPhase(s)).clock == s.clock + 1
  {
  }

  lemma {:induction false} SecondHalfTimely(c: Config, s: State)
    requires Good(c, s, Stamps(s.clock, s.clock, s.clock - 1, s.clock, s.clock, s.clock, s.clock))
    requires s.ctrl.cmdBus.None? && OnCadence(c, s) && Timely(c, s, s.clock)
    ensures SecondHalf(c, s).Ok?
    ensures SecondHalf(c, s).value.clock == s.clock + 1 && Timely(c, SecondHalf(c, s).value, s.clock)
  {
    hide Good, OnCadence, AllKept, AllApart;
    hide RefreshPhase, PopPhase, SplitPhase, PowerPhase, ReturnPhase, ClockPhase, PowerReady, SplitReady, PopReady, RefreshReady;
    var t: int := s.clock;
    var z0 := Stamps(t, t, t - 1, t, t, t, t);
    CadenceReady(c, s, z0);
    RefreshGood(c, s, z0);
    RefreshFrame(c, s);
    var a := RefreshPhase(c, s);
    PopGood(c, a, z0);
    PopTimely(c, a, z0);
    var b := PopPhase(c, a).value;
    var z := Stamps(t, t + 1, t, t, t, t, t + 1);
    GoodReady(c, b, z);
    SplitGood(c, b, z);
    SplitFrame(c, b);
    var d := SplitPhase(c, b).value;
    GoodReady(c, d, z);
    PowerGood(c, d, z, c.numRanks);
    PowerTimely(c, d, z, c.numRanks);
    EndFrame(PowerPhase(c, d, c.numRanks).value);
  }

  lemma {:induction false} CycleTimely(c: Config, s: State)
    requires Inv(c, s) && Timely(c, s, s.clock - 1) && Cycle(c, s).Ok?
    ensures Cycle(c, s).value.clock == s.clock + 1 && Timely(c, Cycle(c, s).value, s.clock)
  {
    hide Good, FirstHalf, SecondHalf, Timely;
    FirstHalfGood(c, s);
    FirstHalfTimely(c, s);
    SecondHalfTimely(c, FirstHalf(c, s).value);
  }

  lemma {:induction false} SubmitTimely(c: Config, s: State, t: Transaction)
    requires Timely(c, s, s.clock - 1)
    ensures Submit(c, s, t).clock == s.clock && Timely(c, Submit(c, s, t), s.clock - 1)
  {
    hide AllKept, AllApart;
  }

  lemma {:induction false} InitTimely(c: Config)
    requires c.Valid()
    ensures Timely(c, Init(c), Init(c).clock - 1)
  {
  }

  lemma {:induction false} RunTimely(c: Config, events: seq<Event>)
    requires SystemOk(c) && Run(c, events).Ok?
    ensures Timely(c, Run(c, events).value, Run(c, events).value.clock - 1)
  {
    hide Inv, Cycle, Submit, Init, Timely;
    if |events| == 0 {
      InitTimely(c);
    } else {
      var before := events[..|events| - 1];
      RunSafe(c, before);
      RunTimely(c, before);
      var s := Run(c, before).value;
      match events[|events| - 1]
      case Request(t) => SubmitTimely(c, s, t);
      case Clock => CycleTimely(c, s);
    }
  }

  /** In every run: a row is used at least tRCD - AL cycles after its ACTIVATE and closed at
      least tRAS after it and ReadToPre or WriteToPre after its last access; a bank is not
      activated or refreshed before tRP after a PRECHARGE, the auto-precharge time after an
      access with one, and tRFC after a REFRESH. */
  lemma {:induction false} CommandsApart(c: Config, events: seq<Event>, i: nat, j: nat)
    requires SystemOk(c) && Run(c, events).Ok? && i < j < |Run(c, events).value.log.issued|
    ensures Apart(c, Run(c, events).value.log.issued[i], Run(c, events).value.log.issued[j])
  {
    hide Run, AllKept, Apart;
    RunTimely(c, events);
  }
}
