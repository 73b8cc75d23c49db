/** What the command queue decides each cycle, as a function of its own state, the
    controller's bank table and the clock. */
module Scheduling {
  import opened Configuration
  import opened Packets
  import opened BankTiming
  import opened Numbers

  datatype QueueState = QueueState(
    queues: seq<seq<seq<BusPacket>>>,
    nextRank: nat, nextBank: nat, nextRankPRE: nat, nextBankPRE: nat,
    refreshRank: int, refreshWaiting: bool,
    faw: seq<seq<nat>>, counters: seq<seq<nat>>, sendAct: bool)

  /** The part of the world the scheduler's tests look at. */
  datatype View = View(table: Table, counters: seq<seq<nat>>, faw: seq<seq<nat>>, now: nat)

  datatype Position = Position(rank: nat, bank: nat)

  datatype Choice =
    | Nothing
    | Take(rank: nat, slot: nat, index: nat, pair: bool)  // pair: drop the ACTIVATE before it too
    | SendRefresh(rank: nat)
    | SendPrecharge(rank: nat, bank: nat)

  // ----- Shapes -----

  predicate InRange(c: Config, p: BusPacket) { p.rank < c.numRanks && p.bank < c.numBanks }

  predicate PosOk(c: Config, pos: Position) { pos.rank < c.numRanks && pos.bank < c.numBanks }

  predicate ViewOk(c: Config, v: View) {
    && Rect(v.table, c.numRanks, c.numBanks)
    && Rect(v.counters, c.numRanks, c.numBanks)
    && |v.faw| == c.numRanks
  }

  predicate QueuesOk(c: Config, queues: seq<seq<seq<BusPacket>>>) {
    && Rect(queues, c.numRanks, c.Slots())
    && forall r, s, i :: 0 <= r < c.numRanks && 0 <= s < c.Slots() && 0 <= i < |queues[r][s]| ==>
         PacketOk(c, r, s, queues[r][s][i])
  }

  /** The packets an enqueue under this configuration puts in slot s of rank r. */
  predicate PacketOk(c: Config, r: nat, s: nat, p: BusPacket) {
    && p.rank == r && p.bank < c.numBanks && s == c.Slot(p.bank)
    && (p.kind.Activate? || (p.kind.IsColumn() && (p.kind.IsAuto() <==> c.policy.ClosePage?)))
  }

  predicate StateOk(c: Config, q: QueueState) {
    && QueuesOk(c, q.queues)
    && q.nextRank < c.numRanks && q.nextBank < c.numBanks
    && q.nextRankPRE < c.numRanks && q.nextBankPRE < c.numBanks
    && (q.refreshWaiting ==> 0 <= q.refreshRank < c.numRanks)
    && |q.faw| == c.numRanks
    && Rect(q.counters, c.numRanks, c.numBanks)
  }

  // ----- Tests on single packets -----

  predicate Issuable(c: Config, v: View, p: BusPacket)
    requires ViewOk(c, v) && InRange(c, p)
  {
    var m := v.table[p.rank][p.bank];
    match p.kind
    case Activate =>
      && (m.mode.Idle? || m.mode.Refreshing?) && v.now >= m.nextActivate
      && |v.faw[p.rank]| < 4
    case Write | WriteP =>
      && m.mode.RowActive? && v.now >= m.nextWrite && p.row == m.openRow
      && v.counters[p.rank][p.bank] < c.totalRowAccesses
    case Read | ReadP =>
      && m.mode.RowActive? && v.now >= m.nextRead && p.row == m.openRow
      && v.counters[p.rank][p.bank] < c.totalRowAccesses
    case Precharge => m.mode.RowActive? && v.now >= m.nextPrecharge
    case Refresh => false
    case Data => false
  }

  /** p goes to the given row of the given bank. A queue kept for one bank is searched by
      row alone. */
  predicate Matches(c: Config, p: BusPacket, bank: nat, row: nat) {
    p.row == row && (c.structure.PerRank? ==> p.bank == bank)
  }

  /** An earlier column access to the same row. */
  predicate DependsOn(c: Config, q: seq<BusPacket>, j: nat, i: nat)
    requires j < |q| && i < |q|
  {
    !q[j].kind.Activate? && Matches(c, q[j], q[i].bank, q[i].row)
  }

  predicate Independent(c: Config, q: seq<BusPacket>, i: nat)
    requires i < |q|
  {
    forall j :: 0 <= j < i ==> !DependsOn(c, q, j, i)
  }

  /** Position i of queue q may be taken this cycle. */
  predicate Pickable(c: Config, v: View, q: seq<BusPacket>, i: nat)
    requires ViewOk(c, v) && i < |q| && InRange(c, q[i])
  {
    && Issuable(c, v, q[i])
    && match c.policy
       case OpenPage => Independent(c, q, i)
       case ClosePage =>
         if c.structure.PerRank?
         then !(i > 0 && q[i - 1].kind.Activate? && q[i - 1].addr == q[i].addr)
         else i == 0
  }

  // ----- Searches -----

  /** The first packet from position i on that goes to the given row, or |q|. */
  function FirstMatch(c: Config, q: seq<BusPacket>, bank: nat, row: nat, i: nat): (k: nat)
    requires i <= |q|
    ensures i <= k <= |q|
    ensures k < |q| ==> Matches(c, q[k], bank, row)
    ensures forall j :: i <= j < k ==> !Matches(c, q[j], bank, row)
    decreases |q| - i
  {
    if i == |q| || Matches(c, q[i], bank, row) then i else FirstMatch(c, q, bank, row, i + 1)
  }

  /** The first position from i on that may be taken, or |q|. */
  function FirstPick(c: Config, v: View, q: seq<BusPacket>, i: nat): (k: nat)
    requires ViewOk(c, v) && i <= |q|
    requires forall j :: 0 <= j < |q| ==> InRange(c, q[j])
    ensures i <= k <= |q|
    ensures k < |q| ==> Pickable(c, v, q, k)
    ensures forall j :: i <= j < k ==> !Pickable(c, v, q, j)
    decreases |q| - i
  {
    if i == |q| || Pickable(c, v, q, i) then i else FirstPick(c, v, q, i + 1)
  }

  predicate Blocks(now: nat, m: BankState) { m.mode.RowActive? || m.nextActivate > now }

  /** The first bank from b on that keeps a refresh from being sent. */
  function FirstBlocking(now: nat, banks: seq<BankState>, b: nat): (k: nat)
    requires b <= |banks|
    ensures b <= k <= |banks|
    ensures k < |banks| ==> Blocks(now, banks[k])
    ensures forall j :: b <= j < k ==> !Blocks(now, banks[j])
    decreases |banks| - b
  {
    if b == |banks| || Blocks(now, banks[b]) then b else FirstBlocking(now, banks, b + 1)
  }

  // ----- The refresh phase -----

  /** With a refresh waiting: send it if every bank is closed and ready; otherwise let the
      first open bank finish the access its row was opened for or, under the open page
      policy, close it. */
  function RefreshChoice(c: Config, v: View, queues: seq<seq<seq<BusPacket>>>, r: nat): Choice
    requires c.Valid() && ViewOk(c, v) && QueuesOk(c, queues) && r < c.numRanks
  {
    var b := FirstBlocking(v.now, v.table[r], 0);
    if b == c.numBanks then
      if v.table[r][0].mode.PowerDown? then Nothing else SendRefresh(r)
    else
      var m := v.table[r][b];
      if !m.mode.RowActive? then Nothing
      else
        var q := queues[r][c.Slot(b)];
        var j := FirstMatch(c, q, b, m.openRow, 0);
        if j < |q| && !q[j].kind.Activate? then
          if Issuable(c, v, q[j]) then Take(r, c.Slot(b), j, false) else Nothing
        else if c.policy.OpenPage? && v.now >= m.nextPrecharge then SendPrecharge(r, b)
        else Nothing
  }

  // ----- Round robin -----

  function NextPosition(c: Config, pos: Position): (n: Position)
    requires c.Valid() && PosOk(c, pos)
    ensures PosOk(c, n)
  {
    match c.scheduling
    case RankThenBankRoundRobin =>
      if pos.rank + 1 < c.numRanks then pos.(rank := pos.rank + 1)
      else Position(0, if pos.bank + 1 < c.numBanks then pos.bank + 1 else 0)
    case BankThenRankRoundRobin =>
      if pos.bank + 1 < c.numBanks then pos.(bank := pos.bank + 1)
      else Position(if pos.rank + 1 < c.numRanks then pos.rank + 1 else 0, 0)
  }

  /** One step of a scan: over ranks alone (byRank) or over all positions. */
  function StepPos(c: Config, byRank: bool, pos: Position): (n: Position)
    requires c.Valid() && PosOk(c, pos)
    ensures PosOk(c, n)
  {
    if byRank then pos.(rank := if pos.rank + 1 < c.numRanks then pos.rank + 1 else 0)
    else NextPosition(c, pos)
  }

  /** A scan visits positions in the order of their numbers. */
  function Number(c: Config, byRank: bool, pos: Position): nat {
    if byRank then pos.rank
    else match c.scheduling
      case RankThenBankRoundRobin => pos.bank * c.numRanks + pos.rank
      case BankThenRankRoundRobin => pos.rank * c.numBanks + pos.bank
  }

  function Total(c: Config, byRank: bool): nat {
    if byRank then c.numRanks else c.numRanks * c.numBanks
  }

  /** Two positions a scan cannot tell apart. */
  predicate SameStop(byRank: bool, a: Position, b: Position) {
    a.rank == b.rank && (byRank || a.bank == b.bank)
  }

  lemma {:induction false} NumberBound(c: Config, byRank: bool, pos: Position)
    requires c.Valid() && PosOk(c, pos)
    ensures Number(c, byRank, pos) < Total(c, byRank)
  {
    if !byRank {
      match c.scheduling
      case RankThenBankRoundRobin =>
        assert pos.bank * c.numRanks <= (c.numBanks - 1) * c.numRanks;
        assert (c.numBanks - 1) * c.numRanks == c.numRanks * c.numBanks - c.numRanks;
      case BankThenRankRoundRobin =>
        assert pos.rank * c.numBanks <= (c.numRanks - 1) * c.numBanks;
        assert (c.numRanks - 1) * c.numBanks == c.numRanks * c.numBanks - c.numBanks;
    }
  }

  lemma {:induction false} NumberApart(c: Config, byRank: bool, a: Position, b: Position)
    requires c.Valid() && PosOk(c, a) && PosOk(c, b)
    requires Number(c, byRank, a) == Number(c, byRank, b)
    ensures SameStop(byRank, a, b)
  {
    if !byRank {
      match c.scheduling
      case RankThenBankRoundRobin => LastDigit(c.numRanks, a.rank, a.bank, b.rank, b.bank);
      case BankThenRankRoundRobin => LastDigit(c.numBanks, a.bank, a.rank, b.bank, b.rank);
    }
  }

  lemma {:induction false} StepNumber(c: Config, byRank: bool, pos: Position)
    requires c.Valid() && PosOk(c, pos)
    ensures Number(c, byRank, StepPos(c, byRank, pos))
            == if Number(c, byRank, pos) + 1 < Total(c, byRank) then Number(c, byRank, pos) + 1 else 0
  {
    NumberBound(c, byRank, pos);
    if !byRank {
      match c.scheduling
      case RankThenBankRoundRobin =>
        assert (pos.bank + 1) * c.numRanks == pos.bank * c.numRanks + c.numRanks;
        if pos.bank + 1 < c.numBanks {
          NumberBound(c, byRank, Position(0, pos.bank + 1));
        } else {
          assert pos.bank * c.numRanks + c.numRanks == c.numRanks * c.numBanks;
        }
      case BankThenRankRoundRobin =>
        assert (pos.rank + 1) * c.numBanks == pos.rank * c.numBanks + c.numBanks;
        if pos.rank + 1 < c.numRanks {
          NumberBound(c, byRank, Position(pos.rank + 1, 0));
        } else {
          assert pos.rank * c.numBanks + c.numBanks == c.numRanks * c.numBanks;
        }
    }
  }

  /** Steps from pos to goal, zero if they are the same stop. */
  function Ahead(c: Config, byRank: bool, pos: Position, goal: Position): (n: int)
  {
    var here, there := Number(c, byRank, pos), Number(c, byRank, goal);
    if here <= there then there - here else there + Total(c, byRank) - here
  }

  lemma {:induction false} AheadBound(c: Config, byRank: bool, pos: Position, goal: Position)
    requires c.Valid() && PosOk(c, pos) && PosOk(c, goal)
    ensures 0 <= Ahead(c, byRank, pos, goal) < Total(c, byRank)
    ensures Ahead(c, byRank, pos, goal) == 0 <==> SameStop(byRank, pos, goal)
  {
    NumberBound(c, byRank, pos);
    NumberBound(c, byRank, goal);
    if Ahead(c, byRank, pos, goal) == 0 { NumberApart(c, byRank, pos, goal); }
  }

  lemma {:induction false} StepAhead(c: Config, byRank: bool, pos: Position, goal: Position)
    requires c.Valid() && PosOk(c, pos) && PosOk(c, goal)
    ensures Ahead(c, byRank, StepPos(c, byRank, pos), goal)
            == if SameStop(byRank, pos, goal) then Total(c, byRank) - 1 else Ahead(c, byRank, pos, goal) - 1
  {
    NumberBound(c, byRank, pos);
    NumberBound(c, byRank, goal);
    AheadBound(c, byRank, pos, goal);
    StepNumber(c, byRank, pos);
  }

  /** Iterations of a do-while scan that starts at pos and ends on reaching stop. */
  function Rounds(c: Config, byRank: bool, pos: Position, stop: Position): (n: nat)
    requires c.Valid() && PosOk(c, pos) && PosOk(c, stop)
    ensures n >= 1
  {
    AheadBound(c, byRank, pos, stop);
    if SameStop(byRank, pos, stop) then Total(c, byRank) else Ahead(c, byRank, pos, stop)
  }

  // ----- The normal phase -----

  predicate HeldForRefresh(q: QueueState, rank: nat) { q.refreshWaiting && q.refreshRank == rank }

  /** The queue at pos holds a packet that may be taken. */
  predicate HasPick(c: Config, v: View, q: QueueState, pos: Position)
    requires c.Valid() && ViewOk(c, v) && StateOk(c, q) && PosOk(c, pos)
  {
    var packets := q.queues[pos.rank][c.Slot(pos.bank)];
    !HeldForRefresh(q, pos.rank) && FirstPick(c, v, packets, 0) < |packets|
  }

  /** The first queue with such a packet, looking at n queues from pos on. */
  function Scan(c: Config, v: View, q: QueueState, pos: Position, n: nat): (r: Option<Position>)
    requires c.Valid() && ViewOk(c, v) && StateOk(c, q) && PosOk(c, pos)
    ensures r.Some? ==> PosOk(c, r.value) && HasPick(c, v, q, r.value)
    decreases n
  {
    if n == 0 then None
    else if HasPick(c, v, q, pos) then Some(pos)
    else Scan(c, v, q, StepPos(c, c.structure.PerRank?, pos), n - 1)
  }

  /** The bank at pos is open, may be precharged, and either nothing waits for its row or
      its row has been accessed as often as allowed. */
  predicate Closable(c: Config, v: View, q: QueueState, pos: Position)
    requires c.Valid() && ViewOk(c, v) && StateOk(c, q) && PosOk(c, pos)
  {
    var m := v.table[pos.rank][pos.bank];
    var packets := q.queues[pos.rank][c.Slot(pos.bank)];
    && m.mode.RowActive?
    && (FirstMatch(c, packets, pos.bank, m.openRow, 0) == |packets|
        || v.counters[pos.rank][pos.bank] == c.totalRowAccesses)
    && v.now >= m.nextPrecharge
  }

  function ScanClosable(c: Config, v: View, q: QueueState, pos: Position, n: nat): (r: Option<Position>)
    requires c.Valid() && ViewOk(c, v) && StateOk(c, q) && PosOk(c, pos)
    ensures r.Some? ==> PosOk(c, r.value) && Closable(c, v, q, r.value)
    decreases n
  {
    if n == 0 then None
    else if Closable(c, v, q, pos) then Some(pos)
    else ScanClosable(c, v, q, StepPos(c, false, pos), n - 1)
  }

  /** Where the precharge scan ends. With one queue per bank the start is kept in two
      variables of type bool, so the scan ends at rank and bank 0 or 1. */
  function PrechargeStop(c: Config, pos: Position): (stop: Position)
    requires PosOk(c, pos)
    ensures PosOk(c, stop)
  {
    if c.structure.PerRank? then pos
    else Position(if pos.rank == 0 then 0 else 1, if pos.bank == 0 then 0 else 1)
  }

  /** One iteration of a do-while scan that does not find anything. */
  lemma {:induction false} ScanStep(c: Config, v: View, q: QueueState, pos: Position, stop: Position)
    requires c.Valid() && ViewOk(c, v) && StateOk(c, q) && PosOk(c, pos) && PosOk(c, stop)
    requires !HasPick(c, v, q, pos)
    ensures var byRank := c.structure.PerRank?;
            var next := StepPos(c, byRank, pos);
            && Rounds(c, byRank, pos, stop) - 1 == (if SameStop(byRank, next, stop) then 0 else Rounds(c, byRank, next, stop))
            && Scan(c, v, q, pos, Rounds(c, byRank, pos, stop))
               == Scan(c, v, q, next, Rounds(c, byRank, pos, stop) - 1)
  {
    hide FirstPick, StateOk, ViewOk, HasPick;
    var byRank := c.structure.PerRank?;
    StepAhead(c, byRank, pos, stop);
    AheadBound(c, byRank, pos, stop);
    AheadBound(c, byRank, StepPos(c, byRank, pos), stop);
  }

  lemma {:induction false} ClosableStep(c: Config, v: View, q: QueueState, pos: Position, stop: Position)
    requires c.Valid() && ViewOk(c, v) && StateOk(c, q) && PosOk(c, pos) && PosOk(c, stop)
    requires !Closable(c, v, q, pos)
    ensures var next := StepPos(c, false, pos);
            && Rounds(c, false, pos, stop) - 1 == (if SameStop(false, next, stop) then 0 else Rounds(c, false, next, stop))
            && ScanClosable(c, v, q, pos, Rounds(c, false, pos, stop))
               == ScanClosable(c, v, q, next, Rounds(c, false, pos, stop) - 1)
  {
    hide FirstMatch, StateOk, ViewOk, Closable;
    StepAhead(c, false, pos, stop);
    AheadBound(c, false, pos, stop);
    AheadBound(c, false, StepPos(c, false, pos), stop);
  }

  // ----- The decision and its effect -----

  /** A choice, with the round-robin positions as the scans leave them. */
  datatype Decision = Decision(choice: Choice, scan: Position, pre: Position)

  function Decide(c: Config, v: View, q: QueueState): (d: Decision)
    requires c.Valid() && ViewOk(c, v) && StateOk(c, q)
    ensures PosOk(c, d.scan) && PosOk(c, d.pre)
  {
    var start, pre := Position(q.nextRank, q.nextBank), Position(q.nextRankPRE, q.nextBankPRE);
    var early := if q.refreshWaiting then RefreshChoice(c, v, q.queues, q.refreshRank) else Nothing;
    if early != Nothing then Decision(early, start, pre)
    else match Scan(c, v, q, start, Total(c, c.structure.PerRank?))
      case Some(pos) =>
        var packets := q.queues[pos.rank][c.Slot(pos.bank)];
        var i := FirstPick(c, v, packets, 0);
        Decision(Take(pos.rank, c.Slot(pos.bank), i,
                      c.policy.OpenPage? && i > 0 && packets[i - 1].kind.Activate?), pos, pre)
      case None =>
        if c.policy.ClosePage? then Decision(Nothing, start, pre)
        else
          var stop := PrechargeStop(c, pre);
          match ScanClosable(c, v, q, pre, Rounds(c, false, pre, stop))
          case Some(pos) => Decision(SendPrecharge(pos.rank, pos.bank), start, pos)
          case None => Decision(Nothing, start, stop)
  }

  predicate ChoiceOk(c: Config, q: QueueState, ch: Choice)
    requires StateOk(c, q)
  {
    match ch
    case Nothing => true
    case Take(r, s, i, pair) =>
      r < c.numRanks && s < c.Slots() && i < |q.queues[r][s]| && (pair ==> i > 0)
    case SendRefresh(r) => r < c.numRanks
    case SendPrecharge(r, b) => r < c.numRanks && b < c.numBanks
  }

  lemma {:induction false} DecideOk(c: Config, v: View, q: QueueState)
    requires c.Valid() && ViewOk(c, v) && StateOk(c, q)
    ensures ChoiceOk(c, q, Decide(c, v, q).choice)
  {
  }

  function Update2<T>(t: seq<seq<T>>, r: nat, b: nat, x: T): seq<seq<T>>
    requires r < |t| && b < |t[r]|
  {
    t[r := t[r][b := x]]
  }

  function Without(q: seq<BusPacket>, i: nat, pair: bool): seq<BusPacket>
    requires i < |q| && (pair ==> i > 0)
  {
    (if pair then q[..i - 1] else q[..i]) + q[i + 1..]
  }

  function Chosen(c: Config, q: QueueState, ch: Choice): (p: Option<BusPacket>)
    requires StateOk(c, q) && ChoiceOk(c, q, ch)
    ensures p.None? <==> ch.Nothing?
  {
    match ch
    case Nothing => None
    case Take(r, s, i, pair) => Some(q.queues[r][s][i])
    case SendRefresh(r) => Some(BusPacket(Refresh, 0, 0, 0, r, 0, 0, 0))
    case SendPrecharge(r, b) => Some(BusPacket(Precharge, 0, 0, 0, r, b, 0, 0))
  }

  /** The queues after a choice. */
  function QueuesAfter(c: Config, q: QueueState, ch: Choice): seq<seq<seq<BusPacket>>>
    requires StateOk(c, q) && ChoiceOk(c, q, ch)
  {
    match ch
    case Take(r, s, i, pair) => Update2(q.queues, r, s, Without(q.queues[r][s], i, pair))
    case _ => q.queues
  }

  /** The row-access counters after a choice. */
  function CountersAfter(c: Config, q: QueueState, ch: Choice): seq<seq<nat>>
    requires StateOk(c, q) && ChoiceOk(c, q, ch)
  {
    match ch
    case Take(r, s, i, pair) =>
      var b := q.queues[r][s][i].bank;
      if pair then assert PacketOk(c, r, s, q.queues[r][s][i]);
                   Update2(q.counters, r, b, q.counters[r][b] + 1)
      else q.counters
    case SendPrecharge(r, b) => Update2(q.counters, r, b, 0)
    case _ => q.counters
  }

  /** One cycle of the four-activate windows: every counter steps down, and a head that
      reaches zero leaves. */
  function Aged(w: seq<nat>): seq<nat> {
    var d := seq(|w|, j requires 0 <= j < |w| => Dec(w[j]));
    if |d| > 0 && d[0] == 0 then d[1..] else d
  }

  function AgedAll(faw: seq<seq<nat>>): seq<seq<nat>> {
    seq(|faw|, i requires 0 <= i < |faw| => Aged(faw[i]))
  }

  function FawAfter(c: Config, faw: seq<seq<nat>>, p: Option<BusPacket>): seq<seq<nat>>
  {
    if p.Some? && p.value.kind.Activate? && p.value.rank < |faw|
    then faw[p.value.rank := faw[p.value.rank] + [c.tFAW]] else faw
  }

  datatype Popped = Popped(queue: QueueState, packet: Option<BusPacket>)

  /** The queue state after the choice is carried out: the positions move on unless posted
      CAS keeps them for the column command of an ACTIVATE just sent. */
  function Commit(c: Config, q: QueueState, d: Decision): Popped
    requires c.Valid() && StateOk(c, q) && ChoiceOk(c, q, d.choice)
    requires PosOk(c, d.scan) && PosOk(c, d.pre)
  {
    var p := Chosen(c, q, d.choice);
    var keep := c.AL > 0 && q.sendAct;
    var pos := if p.None? || keep then d.scan else NextPosition(c, d.scan);
    var sent := d.choice.SendRefresh?;
    Popped(QueueState(QueuesAfter(c, q, d.choice),
                      pos.rank, pos.bank, d.pre.rank, d.pre.bank,
                      if sent then -1 else q.refreshRank, if sent then false else q.refreshWaiting,
                      FawAfter(c, q.faw, p), CountersAfter(c, q, d.choice),
                      if p.None? then q.sendAct else !keep),
           p)
  }

  function ViewOf(q: QueueState, table: Table, now: nat): View {
    View(table, q.counters, q.faw, now)
  }

  /** One call of pop. */
  function Pop(c: Config, q: QueueState, table: Table, now: nat): Popped
    requires c.Valid() && StateOk(c, q) && Rect(table, c.numRanks, c.numBanks)
  {
    var aged := q.(faw := AgedAll(q.faw));
    var v := ViewOf(aged, table, now);
    DecideOk(c, v, aged);
    Commit(c, aged, Decide(c, v, aged))
  }

  // ----- Scans are exhaustive -----

  lemma {:induction false} ScanMisses(c: Config, v: View, q: QueueState, pos: Position, n: nat, goal: Position)
    requires c.Valid() && ViewOk(c, v) && StateOk(c, q) && PosOk(c, pos) && PosOk(c, goal)
    requires Scan(c, v, q, pos, n).None? && Ahead(c, c.structure.PerRank?, pos, goal) < n
    ensures !HasPick(c, v, q, goal)
    decreases n
  {
    var byRank := c.structure.PerRank?;
    AheadBound(c, byRank, pos, goal);
    if !SameStop(byRank, pos, goal) {
      StepAhead(c, byRank, pos, goal);
      ScanMisses(c, v, q, StepPos(c, byRank, pos), n - 1, goal);
    }
  }

  lemma {:induction false} ScanClosableMisses(c: Config, v: View, q: QueueState, pos: Position, n: nat, goal: Position)
    requires c.Valid() && ViewOk(c, v) && StateOk(c, q) && PosOk(c, pos) && PosOk(c, goal)
    requires ScanClosable(c, v, q, pos, n).None? && Ahead(c, false, pos, goal) < n
    ensures !Closable(c, v, q, goal)
    decreases n
  {
    AheadBound(c, false, pos, goal);
    if !SameStop(false, pos, goal) {
      StepAhead(c, false, pos, goal);
      ScanClosableMisses(c, v, q, StepPos(c, false, pos), n - 1, goal);
    }
  }

  /** A bank the scan finds lies within its rounds. */
  lemma {:induction false} ScanClosableWithin(c: Config, v: View, q: QueueState, pos: Position, n: nat)
    requires c.Valid() && ViewOk(c, v) && StateOk(c, q) && PosOk(c, pos)
    requires n <= Total(c, false) && ScanClosable(c, v, q, pos, n).Some?
    ensures Ahead(c, false, pos, ScanClosable(c, v, q, pos, n).value) < n
    decreases n
  {
    var goal := ScanClosable(c, v, q, pos, n).value;
    AheadBound(c, false, pos, goal);
    if !Closable(c, v, q, pos) {
      StepAhead(c, false, pos, goal);
      ScanClosableWithin(c, v, q, StepPos(c, false, pos), n - 1);
    }
  }

  // ----- The range of the precharge scan -----

  function PreOf(q: QueueState): Position { Position(q.nextRankPRE, q.nextBankPRE) }

  /** The scan for a bank to precharge that starts at pre looks at pos. */
  predicate Scanned(c: Config, pre: Position, pos: Position)
    requires c.Valid() && PosOk(c, pre) && PosOk(c, pos)
  {
    Ahead(c, false, pre, pos) < Rounds(c, false, pre, PrechargeStop(c, pre))
  }

  /** The start is one that the variables of type bool can hold. */
  predicate StartKept(c: Config, pre: Position) { c.structure.PerRank? || (pre.rank <= 1 && pre.bank <= 1) }

  /** The scan looks at every bank if and only if its start is kept. */
  lemma {:induction false} ScannedAllExactly(c: Config, pre: Position)
    requires c.Valid() && PosOk(c, pre)
    ensures (forall pos :: PosOk(c, pos) ==> Scanned(c, pre, pos)) <==> StartKept(c, pre)
  {
    var stop := PrechargeStop(c, pre);
    AheadBound(c, false, pre, stop);
    if StartKept(c, pre) {
      forall pos | PosOk(c, pos) ensures Scanned(c, pre, pos) { AheadBound(c, false, pre, pos); }
    } else {
      assert !Scanned(c, pre, stop);
    }
  }

  /** A scan that finds nothing leaves a start that is kept, which is where it ended. */
  lemma {:induction false} IdleLeavesStart(c: Config, q: QueueState, table: Table, now: nat)
    requires c.Valid() && c.policy.OpenPage? && StateOk(c, q) && Rect(table, c.numRanks, c.numBanks)
    requires Pop(c, q, table, now).packet.None?
    ensures PreOf(Pop(c, q, table, now).queue) == PrechargeStop(c, PreOf(q))
    ensures StartKept(c, PreOf(Pop(c, q, table, now).queue))
  {
    hide Scan, ScanClosable, RefreshChoice, Rounds;
    var aged := q.(faw := AgedAll(q.faw));
    DecideOk(c, ViewOf(aged, table, now), aged);
  }

  // ----- Idle cycles -----

  /** No packet of any queue that is not held for a refresh may be taken. */
  predicate NothingPickable(c: Config, v: View, q: QueueState)
    requires c.Valid() && ViewOk(c, v) && StateOk(c, q)
  {
    forall r, s, i | 0 <= r < c.numRanks && 0 <= s < c.Slots() && 0 <= i < |q.queues[r][s]| ::
      HeldForRefresh(q, r) || !Pickable(c, v, q.queues[r][s], i)
  }

  /** No bank the precharge scan looks at may be closed. */
  ghost predicate NothingClosable(c: Config, v: View, q: QueueState)
    requires c.Valid() && ViewOk(c, v) && StateOk(c, q)
  {
    forall pos :: PosOk(c, pos) && Scanned(c, PreOf(q), pos) ==> !Closable(c, v, q, pos)
  }

  lemma {:induction false} ScanExactly(c: Config, v: View, q: QueueState)
    requires c.Valid() && ViewOk(c, v) && StateOk(c, q)
    ensures Scan(c, v, q, Position(q.nextRank, q.nextBank), Total(c, c.structure.PerRank?)).None?
            <==> NothingPickable(c, v, q)
  {
    var byRank := c.structure.PerRank?;
    var start := Position(q.nextRank, q.nextBank);
    var found := Scan(c, v, q, start, Total(c, byRank));
    if found.None? {
      forall r, s, i | 0 <= r < c.numRanks && 0 <= s < c.Slots() && 0 <= i < |q.queues[r][s]|
                       && !HeldForRefresh(q, r)
        ensures !Pickable(c, v, q.queues[r][s], i)
      {
        var goal := Position(r, s);
        assert c.Slot(goal.bank) == s;
        AheadBound(c, byRank, start, goal);
        ScanMisses(c, v, q, start, Total(c, byRank), goal);
        assert FirstPick(c, v, q.queues[r][s], 0) == |q.queues[r][s]|;
      }
    } else {
      var pos := found.value;
      var packets := q.queues[pos.rank][c.Slot(pos.bank)];
      assert HasPick(c, v, q, pos);
      assert Pickable(c, v, packets, FirstPick(c, v, packets, 0));
    }
  }

  lemma {:induction false} ScanClosableExactly(c: Config, v: View, q: QueueState)
    requires c.Valid() && ViewOk(c, v) && StateOk(c, q)
    ensures var pre := PreOf(q);
            ScanClosable(c, v, q, pre, Rounds(c, false, pre, PrechargeStop(c, pre))).None? <==> NothingClosable(c, v, q)
  {
    hide Closable;
    var pre := PreOf(q);
    var stop := PrechargeStop(c, pre);
    var n := Rounds(c, false, pre, stop);
    AheadBound(c, false, pre, stop);
    if ScanClosable(c, v, q, pre, n).None? {
      forall pos | PosOk(c, pos) && Scanned(c, pre, pos) ensures !Closable(c, v, q, pos) {
        ScanClosableMisses(c, v, q, pre, n, pos);
      }
    } else {
      ScanClosableWithin(c, v, q, pre, n);
      assert Scanned(c, pre, ScanClosable(c, v, q, pre, n).value);
    }
  }

  /** A cycle is idle if and only if nothing could be sent: no refresh-phase command, no packet
      in any queue not held for a refresh, and, under open page, no bank that the precharge
      scan looks at. */
  lemma {:induction false} IdleExactly(c: Config, q: QueueState, table: Table, now: nat)
    requires c.Valid() && StateOk(c, q) && Rect(table, c.numRanks, c.numBanks)
    ensures var aged := q.(faw := AgedAll(q.faw));
            var v := ViewOf(aged, table, now);
            Pop(c, q, table, now).packet.None? <==>
              && (q.refreshWaiting ==> RefreshChoice(c, v, q.queues, q.refreshRank).Nothing?)
              && NothingPickable(c, v, aged)
              && (c.policy.OpenPage? ==> NothingClosable(c, v, aged))
  {
    hide Scan, ScanClosable, RefreshChoice, NothingPickable, NothingClosable;
    var aged := q.(faw := AgedAll(q.faw));
    var v := ViewOf(aged, table, now);
    DecideOk(c, v, aged);
    ScanExactly(c, v, aged);
    ScanClosableExactly(c, v, aged);
  }

  /** So an idle cycle whose precharge scan keeps its start means that no bank at all may be
      closed. */
  lemma {:induction false} IdleMeansNothingEligible(c: Config, q: QueueState, table: Table, now: nat)
    requires c.Valid() && StateOk(c, q) && Rect(table, c.numRanks, c.numBanks)
    requires Pop(c, q, table, now).packet.None?
    ensures var aged := q.(faw := AgedAll(q.faw));
            var v := ViewOf(aged, table, now);
            && (q.refreshWaiting ==> RefreshChoice(c, v, q.queues, q.refreshRank).Nothing?)
            && NothingPickable(c, v, aged)
            && (c.policy.OpenPage? ==> NothingClosable(c, v, aged))
            && (c.policy.OpenPage? && StartKept(c, PreOf(q)) ==>
                  forall pos :: PosOk(c, pos) ==> !Closable(c, v, aged, pos))
  {
    hide NothingPickable, Closable, Pop, RefreshChoice;
    IdleExactly(c, q, table, now);
    ScannedAllExactly(c, PreOf(q));
  }

  /** The second of two idle cycles in a row under open page looks at every bank, whatever
      was enqueued or changed in the bank table between them. */
  lemma {:induction false} SecondIdleLooksEverywhere(c: Config, q: QueueState, table: Table, now: nat,
                                                     q': QueueState, table': Table, now': nat)
    requires c.Valid() && c.policy.OpenPage? && StateOk(c, q) && Rect(table, c.numRanks, c.numBanks)
    requires Pop(c, q, table, now).packet.None? && PreOf(q') == PreOf(Pop(c, q, table, now).queue)
    requires StateOk(c, q') && Rect(table', c.numRanks, c.numBanks) && Pop(c, q', table', now').packet.None?
    ensures var aged := q'.(faw := AgedAll(q'.faw));
            forall pos :: PosOk(c, pos) ==> !Closable(c, ViewOf(aged, table', now'), aged, pos)
  {
    hide NothingPickable, NothingClosable, Closable, Pop, RefreshChoice;
    IdleLeavesStart(c, q, table, now);
    IdleMeansNothingEligible(c, q', table', now');
  }

  // ----- A bank the scan misses -----

  /** Empty queues, with the precharge scan about to start at pre. */
  function EmptyAt(c: Config, pre: Position): QueueState {
    QueueState(seq(c.numRanks, r => seq(c.Slots(), s => [])), 0, 0, pre.rank, pre.bank, 0, false,
               seq(c.numRanks, r => []), seq(c.numRanks, r => seq(c.numBanks, b => 0)), true)
  }

  /** One bank open and ready to be closed, all others idle. */
  function OneOpen(c: Config, open: Position): Table {
    seq(c.numRanks, r => seq(c.numBanks, b =>
      if r == open.rank && b == open.bank then FreshBank.(mode := RowActive) else FreshBank))
  }

  /** Whenever the start is not kept, a bank can be missed: the one the scan ends at. */
  lemma {:induction false} MissesBank(c: Config, pre: Position, now: nat)
    requires c.Valid() && c.policy.OpenPage? && PosOk(c, pre) && !StartKept(c, pre)
    ensures var q := EmptyAt(c, pre);
            var table := OneOpen(c, PrechargeStop(c, pre));
            && StateOk(c, q) && PreOf(q) == pre && Rect(table, c.numRanks, c.numBanks)
            && Pop(c, q, table, now).packet.None?
            && Closable(c, ViewOf(q.(faw := AgedAll(q.faw)), table, now), q.(faw := AgedAll(q.faw)), PrechargeStop(c, pre))
  {
    var q := EmptyAt(c, pre);
    var stop := PrechargeStop(c, pre);
    var table := OneOpen(c, stop);
    assert StateOk(c, q);
    var aged := q.(faw := AgedAll(q.faw));
    var v := ViewOf(aged, table, now);
    assert Closable(c, v, aged, stop);
    forall pos | PosOk(c, pos) && Scanned(c, pre, pos) ensures !Closable(c, v, aged, pos) {
      AheadBound(c, false, pre, stop);
      assert !Scanned(c, pre, stop);
    }
    IdleExactly(c, q, table, now);
  }
}
