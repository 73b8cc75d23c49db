/** One channel of the memory system as a state machine. A cycle runs the ranks, then the
    controller, then the clocks; every exit of the simulator is a Fault. */
module MemoryModel {
  import opened Configuration
  import opened Packets
  import opened BankTiming
  import opened Scheduling
  import opened AddressMapping

  datatype Fault =
    | CommandRefused      // a rank received a command when not allowed
    | CommandBusCollision
    | DataBusCollision
    | QueueOverflow
    | PowerDownRefused
    | PowerUpRefused
    | BadColumn
    | OutOfRange          // an index outside a vector

  datatype Outcome<+T> = Ok(value: T) | Exit(fault: Fault)
  {
    predicate IsFailure() { Exit? }
    function PropagateFailure<U>(): Outcome<U> requires Exit? { Exit(fault) }
    function Extract(): T requires Ok? { value }
  }

  // ----- State -----

  datatype Cell = Cell(row: nat, col: nat)

  datatype RankState = RankState(
    table: seq<BankState>, storage: seq<map<Cell, Word>>, poweredDown: bool, refreshWaiting: bool,
    readQueue: seq<Timed>, bus: Option<Timed>)

  datatype Controller = Controller(
    table: Table, queue: QueueState, transactions: seq<Transaction>,
    pendingReads: seq<Transaction>, returned: seq<Transaction>,
    refreshCountdown: seq<nat>, refreshRank: nat, powerDown: seq<bool>,
    cmdBus: Option<Timed>, dataBus: Option<Timed>, writes: seq<Timed>)

  /** A command popped at a cycle. */
  datatype Issue = Issue(time: nat, packet: BusPacket)

  datatype RefreshRequest = RefreshRequest(time: nat, rank: nat)

  /** A rank was put to sleep (down) or woken at a cycle. */
  datatype PowerChange = PowerChange(time: nat, rank: nat, down: bool)

  /** What has happened so far: transactions in the order the controller accepted them,
      commands in the order it popped them, refresh requests, read data it received from
      the ranks, the addresses it called the processor back for, and the ranks it put to
      sleep and woke. */
  datatype History = History(
    accepted: seq<Transaction>, issued: seq<Issue>, requests: seq<RefreshRequest>,
    received: seq<BusPacket>, callbacks: seq<nat>, powers: seq<PowerChange>)

  datatype State = State(
    clock: nat, ctrl: Controller, ranks: seq<RankState>, waiting: seq<Transaction>, log: History)

  predicate SystemOk(c: Config) { c.Valid() && GeometryOk(c) }

  function InitRank(c: Config): RankState {
    RankState(seq(c.numBanks, j => FreshBank), seq(c.numBanks, j => map[]), false, false, [], None)
  }

  function InitQueue(c: Config): QueueState {
    QueueState(seq(c.numRanks, i => seq(c.Slots(), s => [])), 0, 0, 0, 0, 0, false,
               seq(c.numRanks, i => []), seq(c.numRanks, i => seq(c.numBanks, j => 0)), true)
  }

  function InitController(c: Config): Controller
    requires c.Valid()
  {
    Controller(seq(c.numRanks, i => seq(c.numBanks, j => FreshBank)), InitQueue(c), [], [], [],
               seq(c.numRanks, i requires 0 <= i < c.numRanks => Times(i + 1, c.refreshStagger)), 0,
               seq(c.numRanks, i => false), None, None, [])
  }

  function Init(c: Config): State
    requires c.Valid()
  {
    State(0, InitController(c), seq(c.numRanks, i => InitRank(c)), [], History([], [], [], [], [], []))
  }

  // ----- The ranks -----

  function Countdown(ts: seq<Timed>): seq<Timed> {
    seq(|ts|, i requires 0 <= i < |ts| => Timed(ts[i].packet, Dec(ts[i].left)))
  }

  /** A packet on a bus after one more cycle: gone when its time is up. */
  function BusTick(bus: Option<Timed>): Option<Timed> {
    if bus.Some? && Dec(bus.value.left) != 0 then Some(Timed(bus.value.packet, Dec(bus.value.left))) else None
  }

  function BusDone(bus: Option<Timed>): Option<BusPacket> {
    if bus.Some? && Dec(bus.value.left) == 0 then Some(bus.value.packet) else None
  }

  function RankUpdate(c: Config, k: RankState): RankState {
    var rs := Countdown(k.readQueue);
    if |rs| > 0 && rs[0].left == 0
    then k.(bus := Some(Timed(rs[0].packet, c.BL / 2)), readQueue := rs[1..])
    else k.(bus := BusTick(k.bus), readQueue := rs)
  }

  function ReadCell(bank: map<Cell, Word>, cell: Cell): Word {
    if cell in bank then bank[cell] else Tracer
  }

  function CellOf(p: BusPacket): Cell { Cell(p.row, p.col) }

  /** The rank carries out a packet that arrives on its bus. */
  function RankReceive(c: Config, k: RankState, p: BusPacket, now: nat): Outcome<RankState> {
    if !RankAllows(p, now, k.table) then Exit(CommandRefused)
    else
      var k' := k.(table := RankTable(c, p, now, k.table));
      match p.kind
      case Read | ReadP =>
        var d := if p.bank < |k.storage| then ReadCell(k.storage[p.bank], CellOf(p)) else Tracer;
        Ok(k'.(readQueue := k.readQueue + [Timed(p.(kind := Data, data := d), c.RL())]))
      case Refresh => Ok(k'.(refreshWaiting := false))
      case Data =>
        if p.col >= c.numCols then Exit(BadColumn)
        else if p.bank < |k.storage|
        then Ok(k'.(storage := k.storage[p.bank := k.storage[p.bank][CellOf(p) := p.data]]))
        else Ok(k')
      case _ => Ok(k')
  }

  function Asleep(c: Config, banks: seq<BankState>, now: nat): (r: seq<BankState>)
    ensures |r| == |banks|
  {
    seq(|banks|, j requires 0 <= j < |banks| => banks[j].(mode := PowerDown, nextPowerUp := now + c.tCKE))
  }

  function Awake(c: Config, banks: seq<BankState>, now: nat): (r: seq<BankState>)
    ensures |r| == |banks|
  {
    seq(|banks|, j requires 0 <= j < |banks| => banks[j].(mode := Idle, nextActivate := now + c.tXP))
  }

  function RankPowerDown(c: Config, k: RankState, now: nat): Outcome<RankState> {
    if exists j :: 0 <= j < |k.table| && !k.table[j].mode.Idle? then Exit(PowerDownRefused)
    else Ok(k.(table := Asleep(c, k.table, now), poweredDown := true))
  }

  function RankPowerUp(c: Config, k: RankState, now: nat): Outcome<RankState> {
    if !k.poweredDown || exists j :: 0 <= j < |k.table| && k.table[j].nextPowerUp > now
    then Exit(PowerUpRefused)
    else Ok(k.(table := Awake(c, k.table, now), poweredDown := false))
  }

  // ----- Transactions -----

  function ToReturn(p: BusPacket): Transaction { Transaction(false, p.addr, p.data, p.id) }

  /** The packet a rank hands over in a cycle, if any. */
  function Handed(k: RankState): seq<BusPacket> {
    match BusDone(k.bus) case Some(p) => [p] case None => []
  }

  /** Data packets the ranks put on the controller's doorstep this cycle, in rank order. */
  function Arrivals(ranks: seq<RankState>): seq<BusPacket> {
    if |ranks| == 0 then [] else Arrivals(ranks[..|ranks| - 1]) + Handed(ranks[|ranks| - 1])
  }

  lemma {:induction false} NoArrivals(ranks: seq<RankState>)
    requires forall r :: 0 <= r < |ranks| ==> ranks[r].bus.None?
    ensures Arrivals(ranks) == [] && Returns([]) == []
  {
    if |ranks| > 0 { NoArrivals(ranks[..|ranks| - 1]); }
  }

  function Returns(ps: seq<BusPacket>): seq<Transaction> {
    seq(|ps|, i requires 0 <= i < |ps| => ToReturn(ps[i]))
  }

  predicate WillAccept(c: Config, s: State) { |s.ctrl.transactions| < c.transQueueDepth }

  /** The controller accepts a transaction: it gets the next place in the order. */
  function Accept(s: State, t: Transaction): State {
    var t' := t.(id := |s.log.accepted|);
    s.(ctrl := s.ctrl.(transactions := s.ctrl.transactions + [t']),
       log := s.log.(accepted := s.log.accepted + [t']))
  }

  /** A request from the processor, between cycles. */
  function Submit(c: Config, s: State, t: Transaction): State {
    if WillAccept(c, s) then Accept(s, t) else s.(waiting := s.waiting + [t])
  }

  // ----- The phases of a cycle -----

  function RanksPhase(c: Config, s: State): State {
    var arrived := Arrivals(s.ranks);
    s.(ranks := seq(|s.ranks|, i requires 0 <= i < |s.ranks| => RankUpdate(c, s.ranks[i])),
       ctrl := s.ctrl.(returned := s.ctrl.returned + Returns(arrived)),
       log := s.log.(received := s.log.received + arrived))
  }

  function AdmitPhase(c: Config, s: State): State {
    if |s.waiting| > 0 && WillAccept(c, s) then Accept(s, s.waiting[0]).(waiting := s.waiting[1..]) else s
  }

  function TickPhase(c: Config, s: State): State {
    s.(ctrl := s.ctrl.(table := TickTable(c, s.ctrl.table)))
  }

  function CommandPhase(c: Config, s: State): Outcome<State> {
    match BusDone(s.ctrl.cmdBus)
    case None => Ok(s.(ctrl := s.ctrl.(cmdBus := BusTick(s.ctrl.cmdBus))))
    case Some(p) =>
      if p.rank >= |s.ranks| then Exit(OutOfRange)
      else
        var k :- RankReceive(c, s.ranks[p.rank], p, s.clock);
        Ok(s.(ranks := s.ranks[p.rank := k], ctrl := s.ctrl.(cmdBus := None)))
  }

  function DataPhase(c: Config, s: State): Outcome<State> {
    match BusDone(s.ctrl.dataBus)
    case None => Ok(s.(ctrl := s.ctrl.(dataBus := BusTick(s.ctrl.dataBus))))
    case Some(p) =>
      if p.rank >= |s.ranks| then Exit(OutOfRange)
      else
        var k :- RankReceive(c, s.ranks[p.rank], p, s.clock);
        Ok(s.(ranks := s.ranks[p.rank := k], ctrl := s.ctrl.(dataBus := None)))
  }

  function WritePhase(c: Config, s: State): Outcome<State> {
    var ws := Countdown(s.ctrl.writes);
    if |ws| > 0 && ws[0].left == 0 then
      if s.ctrl.dataBus.Some? then Exit(DataBusCollision)
      else Ok(s.(ctrl := s.ctrl.(dataBus := Some(Timed(ws[0].packet, c.BL / 2)), writes := ws[1..])))
    else Ok(s.(ctrl := s.ctrl.(writes := ws)))
  }

  /** Rank r waits for a refresh. */
  function Awaiting(s: State, r: nat): State
    requires r < |s.ranks|
  {
    s.(ranks := s.ranks[r := s.ranks[r].(refreshWaiting := true)])
  }

  /** Rank r, which is due, is queued for a refresh. */
  function Requested(c: Config, s: State, r: nat): State
    requires r < |s.ranks| && r < |s.ctrl.refreshCountdown|
  {
    s.(ctrl := s.ctrl.(queue := s.ctrl.queue.(refreshWaiting := true, refreshRank := r),
                       refreshCountdown := s.ctrl.refreshCountdown[r := c.refreshPeriod],
                       refreshRank := if r + 1 == c.numRanks then 0 else r + 1),
       ranks := s.ranks[r := s.ranks[r].(refreshWaiting := true)],
       log := s.log.(requests := s.log.requests + [RefreshRequest(s.clock, r)]))
  }

  /** A rank that is due is queued for a refresh; a sleeping rank is woken in time for one. */
  function RefreshPhase(c: Config, s: State): State
    requires RefreshReady(c, s)
  {
    var r := s.ctrl.refreshRank;
    if s.ctrl.refreshCountdown[r] == 0 then Requested(c, s, r)
    else if s.ctrl.powerDown[r] && s.ctrl.refreshCountdown[r] <= c.tXP then Awaiting(s, r)
    else s
  }

  predicate RefreshReady(c: Config, s: State) {
    && |s.ranks| == |s.ctrl.powerDown| == |s.ctrl.refreshCountdown| == c.numRanks
    && s.ctrl.refreshRank < c.numRanks
  }

  predicate PopReady(c: Config, s: State) {
    c.Valid() && StateOk(c, s.ctrl.queue) && Rect(s.ctrl.table, c.numRanks, c.numBanks)
  }

  function DataPacket(p: BusPacket): BusPacket { p.(kind := Data) }

  /** The state after the scheduler's command goes on the bus and into the bank table. */
  function AfterPop(c: Config, s: State, q': QueueState, p: BusPacket): State {
    s.(ctrl := s.ctrl.(
         queue := q',
         table := IssueTable(c, p, s.clock, s.ctrl.table),
         cmdBus := Some(Timed(p, c.tCMD)),
         writes := if p.kind.IsWrite() then s.ctrl.writes + [Timed(DataPacket(p), c.WL())] else s.ctrl.writes),
       log := s.log.(issued := s.log.issued + [Issue(s.clock, p)]))
  }

  function PopPhase(c: Config, s: State): Outcome<State>
    requires PopReady(c, s)
  {
    var popped := Pop(c, s.ctrl.queue, s.ctrl.table, s.clock);
    match popped.packet
    case None => Ok(s.(ctrl := s.ctrl.(queue := popped.queue)))
    case Some(p) =>
      if s.ctrl.cmdBus.Some? then Exit(CommandBusCollision)
      else Ok(AfterPop(c, s, popped.queue, p))
  }

  /** Room test on an unsigned difference. */
  predicate HasRoom(c: Config, q: seq<BusPacket>, n: nat) {
    |q| > c.cmdQueueDepth || c.cmdQueueDepth - |q| >= n
  }

  function QueueFor(c: Config, queues: seq<seq<seq<BusPacket>>>, t: Transaction): seq<BusPacket>
    requires SystemOk(c) && QueuesOk(c, queues)
  {
    var l := Locate(c, t.addr);
    queues[l.rank][c.Slot(l.bank)]
  }

  /** The first transaction from position i on whose queue has room for two commands. */
  function FirstWithRoom(c: Config, queues: seq<seq<seq<BusPacket>>>, ts: seq<Transaction>, i: nat): (k: nat)
    requires SystemOk(c) && QueuesOk(c, queues) && i <= |ts|
    ensures i <= k <= |ts|
    ensures k < |ts| ==> HasRoom(c, QueueFor(c, queues, ts[k]), 2)
    ensures forall j :: i <= j < k ==> !HasRoom(c, QueueFor(c, queues, ts[j]), 2)
    decreases |ts| - i
  {
    if i == |ts| || HasRoom(c, QueueFor(c, queues, ts[i]), 2) then i
    else FirstWithRoom(c, queues, ts, i + 1)
  }

  function ColumnKind(c: Config, isWrite: bool): PacketKind {
    if c.policy.ClosePage? then (if isWrite then WriteP else ReadP) else (if isWrite then Write else Read)
  }

  function ColumnPacket(c: Config, t: Transaction): BusPacket
    requires GeometryOk(c)
  {
    var l := Locate(c, t.addr);
    BusPacket(ColumnKind(c, t.isWrite), t.addr, l.col, l.row, l.rank, l.bank, t.data, t.id)
  }

  function ActivatePacket(c: Config, t: Transaction): BusPacket
    requires GeometryOk(c)
  {
    var l := Locate(c, t.addr);
    BusPacket(Activate, t.addr, l.col, l.row, l.rank, l.bank, 0, t.id)
  }

  predicate SplitReady(c: Config, s: State) { SystemOk(c) && QueuesOk(c, s.ctrl.queue.queues) }

  function RemoveAt<T>(s: seq<T>, i: nat): seq<T>
    requires i < |s|
  {
    s[..i] + s[i + 1..]
  }

  /** At most one transaction is turned into an ACTIVATE and a column command. */
  function SplitPhase(c: Config, s: State): Outcome<State>
    requires SplitReady(c, s)
  {
    var ts := s.ctrl.transactions;
    var queues := s.ctrl.queue.queues;
    var i := FirstWithRoom(c, queues, ts, 0);
    if i == |ts| then Ok(s)
    else
      var t := ts[i];
      var l := Locate(c, t.addr);
      var q := QueueFor(c, queues, t) + [ActivatePacket(c, t), ColumnPacket(c, t)];
      if |q| > c.cmdQueueDepth then Exit(QueueOverflow)
      else Ok(s.(ctrl := s.ctrl.(
                   queue := s.ctrl.queue.(queues := Update2(queues, l.rank, c.Slot(l.bank), q)),
                   transactions := RemoveAt(ts, i),
                   pendingReads := if t.isWrite then s.ctrl.pendingReads else s.ctrl.pendingReads + [t])))
  }

  predicate QueueEmpty(queues: seq<seq<BusPacket>>) { forall j :: 0 <= j < |queues| ==> queues[j] == [] }

  datatype Powered = Powered(banks: seq<BankState>, down: bool, rank: RankState)

  /** Power management of one rank. */
  function PowerRank(c: Config, now: nat, empty: bool, banks: seq<BankState>, down: bool, k: RankState)
    : (r: Outcome<Powered>)
    requires |banks| > 0
    ensures r.Ok? ==> |r.value.banks| == |banks|
  {
    if !c.lowPower then Ok(Powered(banks, down, k))
    else if empty && !k.refreshWaiting then
      if forall j :: 0 <= j < |banks| ==> banks[j].mode.Idle? then
        var k' :- RankPowerDown(c, k, now);
        Ok(Powered(Asleep(c, banks, now), true, k'))
      else Ok(Powered(banks, down, k))
    else if now >= banks[0].nextPowerUp && down then
      var k' :- RankPowerUp(c, k, now);
      Ok(Powered(Awake(c, banks, now), false, k'))
    else Ok(Powered(banks, down, k))
  }

  predicate PowerReady(c: Config, s: State) {
    && c.Valid() && Rect(s.ctrl.table, c.numRanks, c.numBanks)
    && |s.ranks| == |s.ctrl.powerDown| == |s.ctrl.queue.queues| == c.numRanks
  }

  function PowerOf(c: Config, s: State, r: nat): Outcome<Powered>
    requires PowerReady(c, s) && r < c.numRanks
  {
    PowerRank(c, s.clock, QueueEmpty(s.ctrl.queue.queues[r]), s.ctrl.table[r], s.ctrl.powerDown[r], s.ranks[r])
  }

  /** The history after rank r, asleep or not, is put in the state down. */
  function Noted(log: History, now: nat, r: nat, was: bool, down: bool): History {
    if was == down then log else log.(powers := log.powers + [PowerChange(now, r, down)])
  }

  /** The state after power management of rank r. */
  function AfterPower(s: State, r: nat, p: Powered): State
    requires r < |s.ctrl.table| && r < |s.ctrl.powerDown| && r < |s.ranks|
  {
    s.(ctrl := s.ctrl.(table := s.ctrl.table[r := p.banks], powerDown := s.ctrl.powerDown[r := p.down]),
       ranks := s.ranks[r := p.rank],
       log := Noted(s.log, s.clock, r, s.ctrl.powerDown[r], p.down))
  }

  /** Power management of ranks 0 to n - 1. */
  function PowerPhase(c: Config, s: State, n: nat): Outcome<State>
    requires PowerReady(c, s) && n <= c.numRanks
    ensures PowerPhase(c, s, n).Ok? ==> PowerReady(c, PowerPhase(c, s, n).value)
  {
    if n == 0 then Ok(s)
    else
      var s' :- PowerPhase(c, s, n - 1);
      var p :- PowerOf(c, s', n - 1);
      Ok(AfterPower(s', n - 1, p))
  }

  /** The first pending read of the given address, or |ts|. */
  function FirstPending(ts: seq<Transaction>, addr: nat, i: nat): (k: nat)
    requires i <= |ts|
    ensures i <= k <= |ts|
    ensures k < |ts| ==> ts[k].addr == addr
    ensures forall j :: i <= j < k ==> ts[j].addr != addr
    decreases |ts| - i
  {
    if i == |ts| || ts[i].addr == addr then i else FirstPending(ts, addr, i + 1)
  }

  function ReturnPhase(s: State): State {
    if |s.ctrl.returned| == 0 then s
    else
      var addr := s.ctrl.returned[0].addr;
      var i := FirstPending(s.ctrl.pendingReads, addr, 0);
      var s' := s.(ctrl := s.ctrl.(returned := s.ctrl.returned[1..]));
      if i == |s.ctrl.pendingReads| then s'
      else s'.(ctrl := s'.ctrl.(pendingReads := RemoveAt(s.ctrl.pendingReads, i)),
               log := s.log.(callbacks := s.log.callbacks + [addr]))
  }

  function AllDecremented(ns: seq<nat>): seq<nat> {
    seq(|ns|, i requires 0 <= i < |ns| => Dec(ns[i]))
  }

  function ClockPhase(s: State): State {
    s.(clock := s.clock + 1, ctrl := s.ctrl.(refreshCountdown := AllDecremented(s.ctrl.refreshCountdown)))
  }

  // ----- A cycle and a run -----

  /** The first half of a cycle: answers come back, countdowns and buses step. */
  function FirstHalf(c: Config, s: State): Outcome<State> {
    var s1 := TickPhase(c, AdmitPhase(c, RanksPhase(c, s)));
    var s2 :- CommandPhase(c, s1);
    var s3 :- DataPhase(c, s2);
    WritePhase(c, s3)
  }

  /** The second half: refresh requests, one command, one transaction, power, one callback. */
  function SecondHalf(c: Config, s: State): Outcome<State> {
    if !RefreshReady(c, s) then Exit(OutOfRange) else
    var s1 := RefreshPhase(c, s);
    if !PopReady(c, s1) then Exit(OutOfRange) else
    var s2 :- PopPhase(c, s1);
    if !SplitReady(c, s2) then Exit(OutOfRange) else
    var s3 :- SplitPhase(c, s2);
    if !PowerReady(c, s3) then Exit(OutOfRange) else
    var s4 :- PowerPhase(c, s3, c.numRanks);
    Ok(ClockPhase(ReturnPhase(s4)))
  }

  function Cycle(c: Config, s: State): Outcome<State> {
    var s' :- FirstHalf(c, s);
    SecondHalf(c, s')
  }

  /** What the outside does: hand over a transaction, or run a cycle. */
  datatype Event = Request(transaction: Transaction) | Clock

  function Happen(c: Config, s: State, e: Event): Outcome<State> {
    match e
    case Request(t) => Ok(Submit(c, s, t))
    case Clock => Cycle(c, s)
  }

  /** The state after any sequence of events. */
  function Run(c: Config, events: seq<Event>): Outcome<State>
    requires c.Valid()
  {
    if |events| == 0 then Ok(Init(c))
    else
      var s :- Run(c, events[..|events| - 1]);
      Happen(c, s, events[|events| - 1])
  }
}
