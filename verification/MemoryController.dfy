/** The memory controller: it keeps a bank table of its own, pops at most one command a cycle
    and moves commands, write data and read data. */
module MemoryControllers {
  import opened Configuration
  import opened Packets
  import opened BankTiming
  import Scheduling
  import opened AddressMapping
  import opened MemoryModel
  import opened CommandQueues
  import opened Ranks

  function RankStates(ranks: seq<Rank>): (ks: seq<RankState>)
    reads ranks
    ensures |ks| == |ranks|
  {
    seq(|ranks|, i requires 0 <= i < |ranks| reads ranks => ranks[i].Value())
  }

  predicate RankOk(k: Rank, c: Config, now: nat)
    reads k
  {
    k.Valid() && k.c == c && k.currentClockCycle == now
  }

  predicate RanksOk(c: Config, ranks: seq<Rank>, now: nat)
    reads ranks
  {
    && |ranks| == c.numRanks
    && (forall i :: 0 <= i < |ranks| ==> RankOk(ranks[i], c, now))
    && (forall i, j :: 0 <= i < j < |ranks| ==> ranks[i] != ranks[j])
  }

  // ----- A call to one rank leaves the others alone -----

  method SendTo(ranks: seq<Rank>, r: nat, p: BusPacket, c: Config, now: nat) returns (fault: Option<Fault>)
    requires RanksOk(c, ranks, now) && r < |ranks| && Deliverable(c, p)
    modifies ranks
    ensures match RankReceive(c, old(RankStates(ranks))[r], p, now)
            case Ok(k) => fault.None? && RanksOk(c, ranks, now) && RankStates(ranks) == old(RankStates(ranks))[r := k]
            case Exit(f) => fault == Some(f)
  {
    hide RankReceive, AllContents;
    assert RankOk(ranks[r], c, now);
    fault := ranks[r].ReceiveFromBus(p);
    assert forall i :: 0 <= i < |ranks| && i != r ==> old(RankOk(ranks[i], c, now)) && RankOk(ranks[i], c, now);
  }

  method AwaitRefresh(ranks: seq<Rank>, r: nat, ghost c: Config, ghost now: nat)
    requires RanksOk(c, ranks, now) && r < |ranks|
    modifies ranks
    ensures RanksOk(c, ranks, now)
    ensures RankStates(ranks) == old(RankStates(ranks))[r := old(RankStates(ranks))[r].(refreshWaiting := true)]
  {
    hide AllContents;
    assert RankOk(ranks[r], c, now);
    ranks[r].refreshWaiting := true;
    assert forall i :: 0 <= i < |ranks| && i != r ==> old(RankOk(ranks[i], c, now)) && RankOk(ranks[i], c, now);
  }

  method PowerDownRank(ranks: seq<Rank>, r: nat, ghost c: Config, ghost now: nat) returns (fault: Option<Fault>)
    requires RanksOk(c, ranks, now) && r < |ranks|
    modifies ranks
    ensures match RankPowerDown(c, old(RankStates(ranks))[r], now)
            case Ok(k) => fault.None? && RanksOk(c, ranks, now) && RankStates(ranks) == old(RankStates(ranks))[r := k]
            case Exit(f) => fault == Some(f)
  {
    hide RankPowerDown, AllContents;
    assert RankOk(ranks[r], c, now);
    fault := ranks[r].PowerDown();
    assert forall i :: 0 <= i < |ranks| && i != r ==> old(RankOk(ranks[i], c, now)) && RankOk(ranks[i], c, now);
  }

  method PowerUpRank(ranks: seq<Rank>, r: nat, ghost c: Config, ghost now: nat) returns (fault: Option<Fault>)
    requires RanksOk(c, ranks, now) && r < |ranks|
    modifies ranks
    ensures match RankPowerUp(c, old(RankStates(ranks))[r], now)
            case Ok(k) => fault.None? && RanksOk(c, ranks, now) && RankStates(ranks) == old(RankStates(ranks))[r := k]
            case Exit(f) => fault == Some(f)
  {
    hide RankPowerUp, AllContents;
    assert RankOk(ranks[r], c, now);
    fault := ranks[r].PowerUp();
    assert forall i :: 0 <= i < |ranks| && i != r ==> old(RankOk(ranks[i], c, now)) && RankOk(ranks[i], c, now);
  }

  /** What a rank needs of a packet to index its vectors with it. */
  predicate Deliverable(c: Config, p: BusPacket) {
    Scheduling.InRange(c, p) && (p.kind.IsRead() ==> p.col < c.numCols)
  }

  method AllIdle(banks: seq<BankState>) returns (b: bool)
    ensures b == forall j :: 0 <= j < |banks| ==> banks[j].mode.Idle?
  {
    for j := 0 to |banks|
      invariant forall k :: 0 <= k < j ==> banks[k].mode.Idle?
    {
      if !banks[j].mode.Idle? { return false; }
    }
    return true;
  }

  class MemoryController {
    const c: Config
    const commandQueue: CommandQueue
    const ranks: seq<Rank>
    var bankStates: Table
    var transactionQueue: seq<Transaction>
    var pendingReadTransactions: seq<Transaction>
    var returnTransaction: seq<Transaction>
    var refreshCountdown: seq<nat>
    var refreshRank: nat
    var powerDown: seq<bool>
    var outgoingCmd: Option<Timed>
    var outgoingData: Option<Timed>
    var writeData: seq<Timed>
    var currentClockCycle: nat
    var numAccepted: nat
    ghost var log: History

    ghost function Ctrl(): Controller
      reads this, commandQueue
    {
      Controller(bankStates, commandQueue.Value(), transactionQueue, pendingReadTransactions, returnTransaction,
                 refreshCountdown, refreshRank, powerDown, outgoingCmd, outgoingData, writeData)
    }

    /** The state of the system, with the requests that wait outside the controller. */
    ghost function Value(waiting: seq<Transaction>): State
      reads this, commandQueue, ranks
    {
      State(currentClockCycle, Ctrl(), RankStates(ranks), waiting, log)
    }

    ghost predicate Valid()
      reads this, commandQueue, ranks
    {
      && SystemOk(c) && commandQueue.Valid() && commandQueue.c == c
      && |ranks| == |powerDown| == |refreshCountdown| == c.numRanks && refreshRank < c.numRanks
      && Rect(bankStates, c.numRanks, c.numBanks) && numAccepted == |log.accepted|
      && RanksOk(c, ranks, currentClockCycle)
    }

    constructor (c: Config, ranks: seq<Rank>)
      requires SystemOk(c) && RanksOk(c, ranks, 0)
      requires forall i :: 0 <= i < |ranks| ==> ranks[i].Value() == InitRank(c)
      ensures Valid() && this.c == c && this.ranks == ranks && Value([]) == Init(c) && fresh(commandQueue)
      ensures currentClockCycle == 0
    {
      this.c := c;
      this.ranks := ranks;
      commandQueue := new CommandQueue(c);
      bankStates := seq(c.numRanks, i => seq(c.numBanks, j => FreshBank));
      transactionQueue, pendingReadTransactions, returnTransaction := [], [], [];
      refreshCountdown := seq(c.numRanks, i requires 0 <= i < c.numRanks => Times(i + 1, c.refreshStagger));
      refreshRank := 0;
      powerDown := seq(c.numRanks, i => false);
      outgoingCmd, outgoingData, writeData, currentClockCycle, numAccepted := None, None, [], 0, 0;
      log := History([], [], [], [], [], []);
      new;
      assert RankStates(ranks) == seq(c.numRanks, i => InitRank(c));
    }

    // ----- Transactions -----

    predicate WillAcceptTransaction()
      reads this
    {
      |transactionQueue| < c.transQueueDepth
    }

    method AddTransaction(t: Transaction, ghost waiting: seq<Transaction>) returns (ok: bool)
      requires Valid()
      modifies this`transactionQueue, this`log, this`numAccepted
      ensures Valid() && ok == old(WillAcceptTransaction())
      ensures Value(waiting) == if ok then Accept(old(Value(waiting)), t) else old(Value(waiting))
    {
      ok := WillAcceptTransaction();
      if ok {
        var t' := t.(id := numAccepted);
        transactionQueue := transactionQueue + [t'];
        numAccepted := numAccepted + 1;
        log := log.(accepted := log.accepted + [t']);
      }
    }

    /** Read data arrives from a rank. */
    method ReceiveFromBus(p: BusPacket)
      requires Valid()
      modifies this`returnTransaction, this`log
      ensures Valid()
      ensures returnTransaction == old(returnTransaction) + [ToReturn(p)]
      ensures log == old(log).(received := old(log).received + [p])
    {
      returnTransaction := returnTransaction + [Transaction(false, p.addr, p.data, p.id)];
      log := log.(received := log.received + [p]);
    }

    // ----- The phases of update -----

    /** Steps the state-change countdown of every bank. */
    method UpdateBankStates(ghost waiting: seq<Transaction>)
      requires Valid()
      modifies this`bankStates
      ensures Valid() && Value(waiting) == TickPhase(c, old(Value(waiting)))
    {
      hide Scheduling.StateOk, GeometryOk, RanksOk, RankStates;
      ghost var was := bankStates;
      for i := 0 to c.numRanks
        invariant Rect(bankStates, c.numRanks, c.numBanks)
        invariant forall k, j :: 0 <= k < i && 0 <= j < c.numBanks ==> bankStates[k][j] == TickBank(c, was[k][j])
        invariant forall k :: i <= k < c.numRanks ==> bankStates[k] == was[k]
      {
        var row := bankStates[i];
        for j := 0 to c.numBanks
          invariant |row| == c.numBanks
          invariant forall k :: 0 <= k < j ==> row[k] == TickBank(c, was[i][k])
          invariant forall k :: j <= k < c.numBanks ==> row[k] == was[i][k]
        {
          var m := row[j];
          if m.countdown > 0 {
            m := m.(countdown := m.countdown - 1);
            if m.countdown == 0 {
              match m.lastCommand
              case WriteP | ReadP =>
                m := m.(mode := Precharging, lastCommand := Precharge, countdown := c.tRP);
              case Refresh | Precharge => m := m.(mode := Idle);
              case _ =>
            }
          }
          row := row[j := m];
        }
        bankStates := bankStates[i := row];
      }
      forall i | 0 <= i < c.numRanks ensures bankStates[i] == TickTable(c, was)[i] {
        assert TickTable(c, was)[i] == seq(|was[i]|, j requires 0 <= j < |was[i]| => TickBank(c, was[i][j]));
      }
      assert bankStates == TickTable(c, was);
    }

    /** The command on the bus reaches its rank when its time is up. */
    method DeliverCommand(ghost waiting: seq<Transaction>) returns (fault: Option<Fault>)
      requires Valid()
      requires outgoingCmd.Some? ==> Deliverable(c, outgoingCmd.value.packet)
      modifies this`outgoingCmd, ranks
      ensures match CommandPhase(c, old(Value(waiting)))
              case Ok(s) => fault.None? && Valid() && Value(waiting) == s
              case Exit(f) => fault == Some(f)
    {
      hide Scheduling.StateOk, GeometryOk, RankStates, RankReceive;
      fault := None;
      if outgoingCmd.Some? {
        var left := Dec(outgoingCmd.value.left);
        if left == 0 {
          var p := outgoingCmd.value.packet;
          fault := SendTo(ranks, p.rank, p, c, currentClockCycle);
          if fault.Some? { return; }
          outgoingCmd := None;
        } else {
          outgoingCmd := Some(Timed(outgoingCmd.value.packet, left));
        }
      }
    }

    /** The write data on the bus reaches its rank when its time is up. */
    method DeliverData(ghost waiting: seq<Transaction>) returns (fault: Option<Fault>)
      requires Valid()
      requires outgoingData.Some? ==> Deliverable(c, outgoingData.value.packet)
      modifies this`outgoingData, ranks
      ensures match DataPhase(c, old(Value(waiting)))
              case Ok(s) => fault.None? && Valid() && Value(waiting) == s
              case Exit(f) => fault == Some(f)
    {
      hide Scheduling.StateOk, GeometryOk, RankStates, RankReceive;
      fault := None;
      if outgoingData.Some? {
        var left := Dec(outgoingData.value.left);
        if left == 0 {
          var p := outgoingData.value.packet;
          fault := SendTo(ranks, p.rank, p, c, currentClockCycle);
          if fault.Some? { return; }
          outgoingData := None;
        } else {
          outgoingData := Some(Timed(outgoingData.value.packet, left));
        }
      }
    }

    /** Write data whose wait is over goes on the data bus. */
    method SendWriteData(ghost waiting: seq<Transaction>) returns (fault: Option<Fault>)
      requires Valid()
      modifies this`outgoingData, this`writeData
      ensures match WritePhase(c, old(Value(waiting)))
              case Ok(s) => fault.None? && Valid() && Value(waiting) == s
              case Exit(f) => fault == Some(f)
    {
      hide Scheduling.StateOk, GeometryOk, RanksOk, RankStates;
      ghost var was := writeData;
      for i := 0 to |writeData|
        invariant |writeData| == |was| && outgoingData == old(outgoingData)
        invariant forall j :: 0 <= j < i ==> writeData[j] == Timed(was[j].packet, Dec(was[j].left))
        invariant forall j :: i <= j < |was| ==> writeData[j] == was[j]
      {
        writeData := writeData[i := writeData[i].(left := Dec(writeData[i].left))];
      }
      assert writeData == Countdown(was);
      fault := None;
      if |writeData| > 0 && writeData[0].left == 0 {
        if outgoingData.Some? { return Some(DataBusCollision); }
        outgoingData := Some(Timed(writeData[0].packet, c.BL / 2));
        writeData := writeData[1..];
      }
    }

    /** Marks rank r as waiting for a refresh. */
    method AwaitRank(r: nat, ghost waiting: seq<Transaction>)
      requires Valid() && r < c.numRanks
      modifies ranks
      ensures Valid() && Value(waiting) == Awaiting(old(Value(waiting)), r)
    {
      hide Scheduling.StateOk, GeometryOk, RanksOk, RankStates;
      AwaitRefresh(ranks, r, c, currentClockCycle);
    }

    /** Queues rank r, which is due, for a refresh and moves on to the next rank. */
    method QueueRefresh(r: nat, ghost waiting: seq<Transaction>)
      requires Valid() && r == refreshRank
      modifies this`refreshCountdown, this`refreshRank, this`log, commandQueue, ranks
      ensures Valid() && Value(waiting) == Requested(c, old(Value(waiting)), r)
      ensures log.callbacks == old(log.callbacks)
    {
      hide Scheduling.StateOk, SystemOk, Rect, RanksOk, RankStates, Config.Valid;
      commandQueue.NeedRefresh(r);
      AwaitRefresh(ranks, r, c, currentClockCycle);
      log := log.(requests := log.requests + [RefreshRequest(currentClockCycle, r)]);
      refreshCountdown := refreshCountdown[r := c.refreshPeriod];
      refreshRank := refreshRank + 1;
      if refreshRank == c.numRanks { refreshRank := 0; }
    }

    /** Requests a refresh for the rank that is due, or wakes it in time for one. */
    method RequestRefresh(ghost waiting: seq<Transaction>)
      requires Valid()
      modifies this`refreshCountdown, this`refreshRank, this`log, commandQueue, ranks
      ensures Valid() && RefreshReady(c, old(Value(waiting)))
      ensures Value(waiting) == RefreshPhase(c, old(Value(waiting))) && log.callbacks == old(log.callbacks)
    {
      hide Scheduling.StateOk, GeometryOk, RanksOk, RankStates, Requested, Awaiting;
      var r := refreshRank;
      if refreshCountdown[r] == 0 {
        QueueRefresh(r, waiting);
      } else if powerDown[r] && refreshCountdown[r] <= c.tXP {
        AwaitRank(r, waiting);
      }
    }

    /** Raises the column times of all banks after a column command to a rank: those of the
        other ranks only where a row is open. */
    method RaiseColumnTimes(rank: nat, otherRead: int, otherWrite: int, read: int, write: int)
      requires Rect(bankStates, c.numRanks, c.numBanks)
      modifies this`bankStates
      ensures Rect(bankStates, c.numRanks, c.numBanks)
      ensures forall i, j :: 0 <= i < c.numRanks && 0 <= j < c.numBanks ==>
                bankStates[i][j] == var m := old(bankStates)[i][j];
                                    if i == rank then RaiseColumns(m, read, write)
                                    else if m.mode.RowActive? then RaiseColumns(m, otherRead, otherWrite) else m
    {
      ghost var was := bankStates;
      for i := 0 to c.numRanks
        invariant Rect(bankStates, c.numRanks, c.numBanks)
        invariant forall k, j :: 0 <= k < i && 0 <= j < c.numBanks ==>
                    bankStates[k][j] == var m := was[k][j];
                                        if k == rank then RaiseColumns(m, read, write)
                                        else if m.mode.RowActive? then RaiseColumns(m, otherRead, otherWrite) else m
        invariant forall k :: i <= k < c.numRanks ==> bankStates[k] == was[k]
      {
        var row := bankStates[i];
        for j := 0 to c.numBanks
          invariant |row| == c.numBanks
          invariant forall k :: 0 <= k < j ==>
                      row[k] == var m := was[i][k];
                                if i == rank then RaiseColumns(m, read, write)
                                else if m.mode.RowActive? then RaiseColumns(m, otherRead, otherWrite) else m
          invariant forall k :: j <= k < c.numBanks ==> row[k] == was[i][k]
        {
          var m := row[j];
          if i == rank {
            row := row[j := RaiseColumns(m, read, write)];
          } else if m.mode.RowActive? {
            row := row[j := RaiseColumns(m, otherRead, otherWrite)];
          }
        }
        bankStates := bankStates[i := row];
      }
    }

    method SetBank(r: nat, b: nat, m: BankState)
      requires Rect(bankStates, c.numRanks, c.numBanks) && r < c.numRanks && b < c.numBanks
      modifies this`bankStates
      ensures Rect(bankStates, c.numRanks, c.numBanks)
      ensures forall i, j :: 0 <= i < c.numRanks && 0 <= j < c.numBanks ==>
                bankStates[i][j] == if i == r && j == b then m else old(bankStates)[i][j]
    {
      bankStates := bankStates[r := bankStates[r][b := m]];
    }

    method UpdateForRead(p: BusPacket)
      requires Rect(bankStates, c.numRanks, c.numBanks) && Scheduling.InRange(c, p) && p.kind.IsRead()
      modifies this`bankStates
      ensures Rect(bankStates, c.numRanks, c.numBanks)
      ensures forall i, j :: 0 <= i < c.numRanks && 0 <= j < c.numBanks ==>
                bankStates[i][j] == IssueBank(c, p, currentClockCycle, i, j, old(bankStates)[i][j])
    {
      var now := currentClockCycle;
      var own := bankStates[p.rank][p.bank];
      if p.kind.ReadP? {
        SetBank(p.rank, p.bank, own.(nextActivate := Max(now + c.ReadAutoPre(), own.nextActivate),
                                     lastCommand := ReadP, countdown := c.ReadToPre()));
      } else {
        SetBank(p.rank, p.bank, own.(nextPrecharge := Max(now + c.ReadToPre(), own.nextPrecharge),
                                     lastCommand := Read));
      }
      RaiseColumnTimes(p.rank, now + c.BL / 2 + c.tRTRS, now + c.ReadToWrite(),
                       now + c.ColumnGap(), now + c.ReadToWrite());
      if p.kind.ReadP? {
        own := bankStates[p.rank][p.bank];
        SetBank(p.rank, p.bank, own.(nextRead := own.nextActivate, nextWrite := own.nextActivate));
      }
    }

    method UpdateForWrite(p: BusPacket)
      requires Rect(bankStates, c.numRanks, c.numBanks) && Scheduling.InRange(c, p) && p.kind.IsWrite()
      modifies this`bankStates
      ensures Rect(bankStates, c.numRanks, c.numBanks)
      ensures forall i, j :: 0 <= i < c.numRanks && 0 <= j < c.numBanks ==>
                bankStates[i][j] == IssueBank(c, p, currentClockCycle, i, j, old(bankStates)[i][j])
    {
      var now := currentClockCycle;
      var own := bankStates[p.rank][p.bank];
      if p.kind.WriteP? {
        SetBank(p.rank, p.bank, own.(nextActivate := Max(now + c.WriteAutoPre(), own.nextActivate),
                                     lastCommand := WriteP, countdown := c.WriteToPre()));
      } else {
        SetBank(p.rank, p.bank, own.(nextPrecharge := Max(now + c.WriteToPre(), own.nextPrecharge),
                                     lastCommand := Write));
      }
      RaiseColumnTimes(p.rank, now + c.WriteToReadRank(), now + c.BL / 2 + c.tRTRS,
                       now + c.WriteToReadBank(), now + c.ColumnGap());
      if p.kind.WriteP? {
        own := bankStates[p.rank][p.bank];
        SetBank(p.rank, p.bank, own.(nextRead := own.nextActivate, nextWrite := own.nextActivate));
      }
    }

    method UpdateForActivate(p: BusPacket)
      requires Rect(bankStates, c.numRanks, c.numBanks) && Scheduling.InRange(c, p) && p.kind.Activate?
      modifies this`bankStates
      ensures Rect(bankStates, c.numRanks, c.numBanks)
      ensures forall i, j :: 0 <= i < c.numRanks && 0 <= j < c.numBanks ==>
                bankStates[i][j] == IssueBank(c, p, currentClockCycle, i, j, old(bankStates)[i][j])
    {
      var now := currentClockCycle;
      ghost var was := bankStates;
      var own := bankStates[p.rank][p.bank];
      SetBank(p.rank, p.bank, own.(mode := RowActive, lastCommand := Activate, openRow := p.row,
                                   nextActivate := Max(now + c.tRC, own.nextActivate),
                                   nextPrecharge := Max(now + c.tRAS, own.nextPrecharge),
                                   nextRead := Max(now + (c.tRCD - c.AL), own.nextRead),
                                   nextWrite := Max(now + (c.tRCD - c.AL), own.nextWrite)));
      var row := bankStates[p.rank];
      for i := 0 to c.numBanks
        invariant |row| == c.numBanks
        invariant forall j :: 0 <= j < i ==> row[j] == IssueBank(c, p, now, p.rank, j, was[p.rank][j])
        invariant forall j :: i <= j < c.numBanks ==> row[j] == bankStates[p.rank][j]
      {
        if i != p.bank {
          row := row[i := row[i].(nextActivate := Max(now + c.tRRD, row[i].nextActivate))];
        }
      }
      bankStates := bankStates[p.rank := row];
    }

    method UpdateForRefresh(p: BusPacket)
      requires Rect(bankStates, c.numRanks, c.numBanks) && Scheduling.InRange(c, p) && p.kind.Refresh?
      modifies this`bankStates
      ensures Rect(bankStates, c.numRanks, c.numBanks)
      ensures forall i, j :: 0 <= i < c.numRanks && 0 <= j < c.numBanks ==>
                bankStates[i][j] == IssueBank(c, p, currentClockCycle, i, j, old(bankStates)[i][j])
    {
      var now := currentClockCycle;
      var row := bankStates[p.rank];
      for i := 0 to c.numBanks
        invariant |row| == c.numBanks
        invariant forall j :: 0 <= j < i ==> row[j] == IssueBank(c, p, now, p.rank, j, bankStates[p.rank][j])
        invariant forall j :: i <= j < c.numBanks ==> row[j] == bankStates[p.rank][j]
      {
        row := row[i := row[i].(nextActivate := now + c.tRFC, mode := Refreshing, lastCommand := Refresh,
                                countdown := c.tRFC)];
      }
      bankStates := bankStates[p.rank := row];
    }

    /** The bank table after a command is popped. */
    method UpdateTable(p: BusPacket)
      requires Rect(bankStates, c.numRanks, c.numBanks) && Scheduling.InRange(c, p) && !p.kind.Data?
      modifies this`bankStates
      ensures bankStates == IssueTable(c, p, currentClockCycle, old(bankStates))
      ensures Rect(bankStates, c.numRanks, c.numBanks)
    {
      ghost var was := bankStates;
      var now := currentClockCycle;
      match p.kind {
        case Read | ReadP => UpdateForRead(p);
        case Write | WriteP => UpdateForWrite(p);
        case Activate => UpdateForActivate(p);
        case Precharge =>
          var own := bankStates[p.rank][p.bank];
          SetBank(p.rank, p.bank, own.(mode := Precharging, lastCommand := Precharge, countdown := c.tRP,
                                       nextActivate := Max(now + c.tRP, own.nextActivate)));
        case Refresh => UpdateForRefresh(p);
      }
      hide IssueBank;
      TableEqual(bankStates, p, now, was);
    }

    lemma {:induction false} TableEqual(t: Table, p: BusPacket, now: nat, was: Table)
      requires Rect(t, c.numRanks, c.numBanks) && Rect(was, c.numRanks, c.numBanks)
      requires forall i, j :: 0 <= i < c.numRanks && 0 <= j < c.numBanks ==>
                 t[i][j] == IssueBank(c, p, now, i, j, was[i][j])
      ensures t == IssueTable(c, p, now, was)
    {
      hide IssueBank;
      forall i | 0 <= i < c.numRanks ensures t[i] == IssueTable(c, p, now, was)[i] {
        assert IssueTable(c, p, now, was)[i]
            == seq(|was[i]|, j requires 0 <= j < |was[i]| => IssueBank(c, p, now, i, j, was[i][j]));
      }
    }

    /** Queues the data of a popped write, updates the table and puts the command on the bus. */
    method PutOnBus(p: BusPacket, ghost waiting: seq<Transaction>) returns (fault: Option<Fault>)
      requires Valid() && Scheduling.InRange(c, p) && !p.kind.Data?
      modifies this`bankStates, this`outgoingCmd, this`writeData, this`log
      ensures if old(outgoingCmd).Some? then fault == Some(CommandBusCollision)
              else fault.None? && Valid()
                   && Value(waiting) == AfterPop(c, old(Value(waiting)), old(commandQueue.Value()), p)
      ensures log.callbacks == old(log.callbacks)
    {
      hide Scheduling.StateOk, SystemOk, Config.Valid, IssueTable, RanksOk, RankStates;
      fault := None;
      if p.kind.IsWrite() {
        writeData := writeData + [Timed(p.(kind := Data), c.WL())];
      }
      UpdateTable(p);
      if outgoingCmd.Some? { return Some(CommandBusCollision); }
      outgoingCmd := Some(Timed(p, c.tCMD));
      log := log.(issued := log.issued + [Issue(currentClockCycle, p)]);
    }

    /** Pops a command, updates the table for it and puts it on the bus. */
    method IssueCommand(ghost waiting: seq<Transaction>) returns (fault: Option<Fault>)
      requires Valid()
      modifies this`bankStates, this`outgoingCmd, this`writeData, this`log, commandQueue
      ensures PopReady(c, old(Value(waiting))) && log.callbacks == old(log.callbacks)
      ensures match PopPhase(c, old(Value(waiting)))
              case Ok(s) => fault.None? && Valid() && Value(waiting) == s
              case Exit(f) => fault == Some(f)
    {
      hide Scheduling.StateOk, Scheduling.Pop, GeometryOk, Config.Valid, Rect, RanksOk, RankStates;
      fault := None;
      var popped := commandQueue.Pop(bankStates, currentClockCycle);
      if popped.Some? { fault := PutOnBus(popped.value, waiting); }
    }

    /** The first transaction whose queue has room for its two commands, or the length of the queue. */
    method FindTransaction() returns (i: nat)
      requires Valid()
      ensures Scheduling.QueuesOk(c, commandQueue.queues)
      ensures i == FirstWithRoom(c, commandQueue.queues, transactionQueue, 0)
    {
      i := 0;
      while i < |transactionQueue|
        invariant i <= |transactionQueue|
        invariant FirstWithRoom(c, commandQueue.queues, transactionQueue, 0)
               == FirstWithRoom(c, commandQueue.queues, transactionQueue, i)
      {
        var _, rank, bank, _, _ := MapAddress(c, transactionQueue[i].addr);
        var room := commandQueue.HasRoomFor(2, rank, bank);
        if room { return; }
        i := i + 1;
      }
    }

    /** Enqueues an ACTIVATE and a column command. */
    method EnqueuePair(t: Transaction) returns (ok: bool)
      requires Valid()
      modifies commandQueue
      ensures Scheduling.QueuesOk(c, old(commandQueue.queues))
      ensures var q := QueueFor(c, old(commandQueue.queues), t) + [ActivatePacket(c, t), ColumnPacket(c, t)];
              var l := Locate(c, t.addr);
              && ok == (|q| <= c.cmdQueueDepth)
              && (ok ==> && commandQueue.Valid()
                         && commandQueue.Value() == old(commandQueue.Value()).(
                              queues := Scheduling.Update2(old(commandQueue.queues), l.rank, c.Slot(l.bank), q)))
    {
      hide GeometryOk, RanksOk, RankStates;
      var _, rank, bank, row, col := MapAddress(c, t.addr);
      ghost var was := commandQueue.queues;
      ghost var q := was[rank][c.Slot(bank)];
      ok := commandQueue.Enqueue(BusPacket(Activate, t.addr, col, row, rank, bank, 0, t.id));
      if !ok { return; }
      ok := commandQueue.Enqueue(BusPacket(ColumnKind(c, t.isWrite), t.addr, col, row, rank, bank, t.data, t.id));
      Update2Twice(was, rank, c.Slot(bank), q + [ActivatePacket(c, t)], q + [ActivatePacket(c, t)] + [ColumnPacket(c, t)]);
      assert q + [ActivatePacket(c, t)] + [ColumnPacket(c, t)] == q + [ActivatePacket(c, t), ColumnPacket(c, t)];
    }

    /** Turns the first transaction whose queue has room into commands. */
    method SplitTransaction(ghost waiting: seq<Transaction>) returns (fault: Option<Fault>)
      requires Valid()
      modifies this`transactionQueue, this`pendingReadTransactions, commandQueue
      ensures SplitReady(c, old(Value(waiting)))
      ensures match SplitPhase(c, old(Value(waiting)))
              case Ok(s) => fault.None? && Valid() && Value(waiting) == s
              case Exit(f) => fault == Some(f)
    {
      hide GeometryOk, Config.Valid, Rect, RanksOk, RankStates, FirstWithRoom, QueueFor, ActivatePacket, ColumnPacket, Scheduling.Update2;
      fault := None;
      var i := FindTransaction();
      if i < |transactionQueue| {
        var t := transactionQueue[i];
        if !t.isWrite { pendingReadTransactions := pendingReadTransactions + [t]; }
        transactionQueue := RemoveAt(transactionQueue, i);
        var ok := EnqueuePair(t);
        if !ok { return Some(QueueOverflow); }
      }
    }

    method SleepBanks(i: nat)
      requires Rect(bankStates, c.numRanks, c.numBanks) && i < c.numRanks
      modifies this`bankStates
      ensures bankStates == old(bankStates)[i := Asleep(c, old(bankStates)[i], currentClockCycle)]
    {
      var row := bankStates[i];
      for j := 0 to c.numBanks
        invariant |row| == c.numBanks
        invariant forall k :: 0 <= k < j ==>
                    row[k] == bankStates[i][k].(mode := BankMode.PowerDown, nextPowerUp := currentClockCycle + c.tCKE)
        invariant forall k :: j <= k < c.numBanks ==> row[k] == bankStates[i][k]
      {
        row := row[j := row[j].(mode := BankMode.PowerDown, nextPowerUp := currentClockCycle + c.tCKE)];
      }
      assert row == Asleep(c, bankStates[i], currentClockCycle);
      bankStates := bankStates[i := row];
    }

    method WakeBanks(i: nat)
      requires Rect(bankStates, c.numRanks, c.numBanks) && i < c.numRanks
      modifies this`bankStates
      ensures bankStates == old(bankStates)[i := Awake(c, old(bankStates)[i], currentClockCycle)]
    {
      var row := bankStates[i];
      for j := 0 to c.numBanks
        invariant |row| == c.numBanks
        invariant forall k :: 0 <= k < j ==>
                    row[k] == bankStates[i][k].(mode := Idle, nextActivate := currentClockCycle + c.tXP)
        invariant forall k :: j <= k < c.numBanks ==> row[k] == bankStates[i][k]
      {
        row := row[j := row[j].(mode := Idle, nextActivate := currentClockCycle + c.tXP)];
      }
      assert row == Awake(c, bankStates[i], currentClockCycle);
      bankStates := bankStates[i := row];
    }

    /** Puts a rank and its row of the table to sleep. */
    method Sleep(i: nat, ghost waiting: seq<Transaction>) returns (fault: Option<Fault>)
      requires Valid() && i < c.numRanks
      modifies this`bankStates, this`powerDown, this`log, ranks
      ensures log.callbacks == old(log.callbacks)
      ensures match RankPowerDown(c, old(RankStates(ranks))[i], currentClockCycle)
              case Ok(k) =>
                && fault.None? && Valid()
                && Value(waiting) == AfterPower(old(Value(waiting)), i,
                                                Powered(Asleep(c, old(bankStates)[i], currentClockCycle), true, k))
              case Exit(f) => fault == Some(f)
    {
      hide Scheduling.StateOk, GeometryOk, RanksOk, RankStates, RankPowerDown, Asleep;
      log := Noted(log, currentClockCycle, i, powerDown[i], true);
      powerDown := powerDown[i := true];
      fault := PowerDownRank(ranks, i, c, currentClockCycle);
      if fault.Some? { return; }
      SleepBanks(i);
    }

    /** Wakes a rank and its row of the table. */
    method Wake(i: nat, ghost waiting: seq<Transaction>) returns (fault: Option<Fault>)
      requires Valid() && i < c.numRanks
      modifies this`bankStates, this`powerDown, this`log, ranks
      ensures log.callbacks == old(log.callbacks)
      ensures match RankPowerUp(c, old(RankStates(ranks))[i], currentClockCycle)
              case Ok(k) =>
                && fault.None? && Valid()
                && Value(waiting) == AfterPower(old(Value(waiting)), i,
                                                Powered(Awake(c, old(bankStates)[i], currentClockCycle), false, k))
              case Exit(f) => fault == Some(f)
    {
      hide Scheduling.StateOk, GeometryOk, RanksOk, RankStates, RankPowerUp, Awake;
      log := Noted(log, currentClockCycle, i, powerDown[i], false);
      powerDown := powerDown[i := false];
      fault := PowerUpRank(ranks, i, c, currentClockCycle);
      if fault.Some? { return; }
      WakeBanks(i);
    }

    /** Puts an idle rank to sleep, or wakes one that is needed. */
    method ManageRank(i: nat, ghost waiting: seq<Transaction>) returns (fault: Option<Fault>)
      requires Valid() && i < c.numRanks
      modifies this`bankStates, this`powerDown, this`log, ranks
      ensures log.callbacks == old(log.callbacks)
      ensures PowerReady(c, old(Value(waiting)))
      ensures match PowerOf(c, old(Value(waiting)), i)
              case Ok(p) => fault.None? && Valid() && Value(waiting) == AfterPower(old(Value(waiting)), i, p)
              case Exit(f) => fault == Some(f)
    {
      fault := None;
      assert |commandQueue.queues| == c.numRanks;
      RankStateAt(ranks, i);
      hide Scheduling.StateOk, GeometryOk, RanksOk, RankStates;
      assert PowerReady(c, Value(waiting));
      PowerCases(c, Value(waiting), i);
      hide PowerReady, PowerOf, AfterPower, QueueEmpty, RankPowerDown, RankPowerUp, Asleep, Awake;
      if c.lowPower {
        var empty := commandQueue.IsEmpty(i);
        if empty && !ranks[i].refreshWaiting {
          var allIdle := AllIdle(bankStates[i]);
          if allIdle { fault := Sleep(i, waiting); }
        } else if currentClockCycle >= bankStates[i][0].nextPowerUp && powerDown[i] {
          fault := Wake(i, waiting);
        }
      }
    }

    /** Power management of every rank. */
    method ManagePower(ghost waiting: seq<Transaction>) returns (fault: Option<Fault>)
      requires Valid()
      modifies this`bankStates, this`powerDown, this`log, ranks
      ensures log.callbacks == old(log.callbacks)
      ensures PowerReady(c, old(Value(waiting)))
      ensures match PowerPhase(c, old(Value(waiting)), c.numRanks)
              case Ok(s) => fault.None? && Valid() && Value(waiting) == s
              case Exit(f) => fault == Some(f)
    {
      fault := None;
      ghost var was := Value(waiting);
      assert |commandQueue.queues| == c.numRanks;
      hide PowerOf, AfterPower, PowerPhase, Scheduling.StateOk, GeometryOk, Config.Valid, RanksOk, RankStates, CommandQueue.Value;
      assert PowerReady(c, was);
      PowerStart(c, was);
      hide PowerReady;
      var i := 0;
      while i < c.numRanks
        invariant 0 <= i <= c.numRanks && Valid() && fault.None?
        invariant PowerReady(c, was) && PowerPhase(c, was, i) == Ok(Value(waiting))
        invariant log.callbacks == old(log.callbacks)
      {
        ghost var s := Value(waiting);
        fault := ManageRank(i, waiting);
        PowerNext(c, was, i, s);
        if fault.Some? {
          FaultStays(c, was, i + 1, c.numRanks);
          return;
        }
        i := i + 1;
      }
    }

    /** The read data at the head of the return queue goes to the processor. */
    method ReturnReadData(ghost waiting: seq<Transaction>) returns (callback: Option<nat>)
      requires Valid()
      modifies this`pendingReadTransactions, this`returnTransaction, this`log
      ensures Valid() && Value(waiting) == ReturnPhase(old(Value(waiting)))
      ensures log.callbacks == old(log.callbacks) + if callback.Some? then [callback.value] else []
    {
      hide Scheduling.StateOk, GeometryOk, RanksOk, RankStates;
      callback := None;
      if |returnTransaction| > 0 {
        var addr := returnTransaction[0].addr;
        var i := 0;
        while i < |pendingReadTransactions| && pendingReadTransactions[i].addr != addr
          invariant i <= |pendingReadTransactions|
          invariant FirstPending(pendingReadTransactions, addr, 0) == FirstPending(pendingReadTransactions, addr, i)
        {
          i := i + 1;
        }
        if i < |pendingReadTransactions| {
          callback := Some(pendingReadTransactions[i].addr);
          pendingReadTransactions := RemoveAt(pendingReadTransactions, i);
          log := log.(callbacks := log.callbacks + [addr]);
        }
        returnTransaction := returnTransaction[1..];
      }
    }

    method DecrementRefresh()
      requires Valid()
      modifies this`refreshCountdown
      ensures Valid()
      ensures refreshCountdown == AllDecremented(old(refreshCountdown))
    {
      ghost var was := refreshCountdown;
      for i := 0 to c.numRanks
        invariant |refreshCountdown| == c.numRanks
        invariant forall j :: 0 <= j < i ==> refreshCountdown[j] == Dec(was[j])
        invariant forall j :: i <= j < c.numRanks ==> refreshCountdown[j] == was[j]
      {
        refreshCountdown := refreshCountdown[i := Dec(refreshCountdown[i])];
      }
    }

    /** One update of the controller; the clocks step afterwards. */
    method Update(ghost waiting: seq<Transaction>) returns (fault: Option<Fault>, callback: Option<nat>)
      requires Valid()
      requires outgoingCmd.Some? ==> Deliverable(c, outgoingCmd.value.packet)
      requires outgoingData.Some? ==> Deliverable(c, outgoingData.value.packet)
      modifies this, commandQueue, ranks
      ensures match ControllerUpdate(c, old(Value(waiting)))
              case Ok(s) => fault.None? && Valid() && Value(waiting).(clock := currentClockCycle + 1) == s
              case Exit(f) => fault == Some(f)
      ensures currentClockCycle == old(currentClockCycle)
      ensures fault.None? ==>
                log.callbacks == old(log.callbacks) + if callback.Some? then [callback.value] else []
    {
      hide Buses, SecondHalf, Scheduling.StateOk, SystemOk, Rect, Config.Valid, RanksOk, RankStates;
      callback := None;
      fault := StepBuses(waiting);
      if fault.Some? { return; }
      fault, callback := Schedule(waiting);
    }

    /** Countdowns and buses: the first half of an update. */
    method StepBuses(ghost waiting: seq<Transaction>) returns (fault: Option<Fault>)
      requires Valid()
      requires outgoingCmd.Some? ==> Deliverable(c, outgoingCmd.value.packet)
      requires outgoingData.Some? ==> Deliverable(c, outgoingData.value.packet)
      modifies this`bankStates, this`outgoingCmd, this`outgoingData, this`writeData, ranks
      ensures match Buses(c, old(Value(waiting)))
              case Ok(s) => fault.None? && Valid() && Value(waiting) == s
              case Exit(f) => fault == Some(f)
    {
      hide CommandPhase, DataPhase, WritePhase, TickPhase, Scheduling.StateOk, GeometryOk, RanksOk, RankStates;
      UpdateBankStates(waiting);
      fault := DeliverCommand(waiting);
      if fault.Some? { return; }
      fault := DeliverData(waiting);
      if fault.Some? { return; }
      fault := SendWriteData(waiting);
    }

    /** One answer and the refresh counters end a cycle. */
    method Conclude(ghost waiting: seq<Transaction>) returns (callback: Option<nat>)
      requires Valid()
      modifies this`pendingReadTransactions, this`returnTransaction, this`log, this`refreshCountdown
      ensures Valid() && Value(waiting).(clock := currentClockCycle + 1) == ClockPhase(ReturnPhase(old(Value(waiting))))
      ensures log.callbacks == old(log.callbacks) + if callback.Some? then [callback.value] else []
    {
      hide ReturnPhase, SystemOk, Rect, RanksOk, RankStates;
      callback := ReturnReadData(waiting);
      DecrementRefresh();
    }

    /** Refresh, the next command, the next transaction, power and callbacks: the second half. */
    method Schedule(ghost waiting: seq<Transaction>) returns (fault: Option<Fault>, callback: Option<nat>)
      requires Valid()
      modifies this, commandQueue, ranks
      ensures match SecondHalf(c, old(Value(waiting)))
              case Ok(s) => fault.None? && Valid() && Value(waiting).(clock := currentClockCycle + 1) == s
              case Exit(f) => fault == Some(f)
      ensures currentClockCycle == old(currentClockCycle)
      ensures fault.None? ==>
                log.callbacks == old(log.callbacks) + if callback.Some? then [callback.value] else []
    {
      hide RefreshPhase, PopPhase, SplitPhase, PowerPhase, ReturnPhase;
      hide MemoryController.Valid, RankStates, RefreshReady, PopReady, SplitReady, PowerReady, ClockPhase;
      hide MemoryController.Ctrl;
      callback := None;
      RequestRefresh(waiting);
      fault := IssueCommand(waiting);
      if fault.Some? { return; }
      fault := SplitTransaction(waiting);
      if fault.Some? { return; }
      fault := ManagePower(waiting);
      if fault.Some? { return; }
      callback := Conclude(waiting);
    }

    method Step()
      modifies this`currentClockCycle
      ensures currentClockCycle == old(currentClockCycle) + 1
    {
      currentClockCycle := currentClockCycle + 1;
    }
  }

  lemma {:induction false} Update2Twice<T>(t: seq<seq<T>>, i: nat, j: nat, x: T, y: T)
    requires i < |t| && j < |t[i]|
    ensures var u := Scheduling.Update2(t, i, j, x);
            && i < |u| && j < |u[i]| && u[i][j] == x
            && Scheduling.Update2(u, i, j, y) == Scheduling.Update2(t, i, j, y)
  {
    assert t[i][j := x][j := y] == t[i][j := y];
  }

  lemma {:induction false} RankStateAt(ranks: seq<Rank>, i: nat)
    requires i < |ranks|
    ensures RankStates(ranks)[i].refreshWaiting == ranks[i].refreshWaiting
  {
  }

  /** The three things power management can do with a rank. */
  lemma {:induction false} PowerCases(c: Config, s: State, r: nat)
    requires PowerReady(c, s) && r < c.numRanks
    ensures var banks, k := s.ctrl.table[r], s.ranks[r];
            var idle := QueueEmpty(s.ctrl.queue.queues[r]) && !k.refreshWaiting;
            if c.lowPower && idle && (forall j :: 0 <= j < |banks| ==> banks[j].mode.Idle?) then
              PowerOf(c, s, r) == match RankPowerDown(c, k, s.clock)
                                  case Ok(k') => Ok(Powered(Asleep(c, banks, s.clock), true, k'))
                                  case Exit(f) => Exit(f)
            else if c.lowPower && !idle && s.clock >= banks[0].nextPowerUp && s.ctrl.powerDown[r] then
              PowerOf(c, s, r) == match RankPowerUp(c, k, s.clock)
                                  case Ok(k') => Ok(Powered(Awake(c, banks, s.clock), false, k'))
                                  case Exit(f) => Exit(f)
            else PowerOf(c, s, r).Ok? && AfterPower(s, r, PowerOf(c, s, r).value) == s
  {
    hide RankPowerDown, RankPowerUp, QueueEmpty, Asleep, Awake;
    assert s.ctrl.table[r := s.ctrl.table[r]] == s.ctrl.table && s.ranks[r := s.ranks[r]] == s.ranks;
    assert s.ctrl.powerDown[r := s.ctrl.powerDown[r]] == s.ctrl.powerDown;
  }

  lemma {:induction false} PowerStart(c: Config, s: State)
    requires PowerReady(c, s)
    ensures PowerPhase(c, s, 0) == Ok(s)
  {
  }

  lemma {:induction false} PowerNext(c: Config, s: State, n: nat, s1: State)
    requires PowerReady(c, s) && n < c.numRanks && PowerPhase(c, s, n) == Ok(s1)
    ensures PowerReady(c, s1)
    ensures PowerPhase(c, s, n + 1) == match PowerOf(c, s1, n)
                                       case Ok(p) => Ok(AfterPower(s1, n, p))
                                       case Exit(f) => Exit(f)
  {
    hide PowerOf, AfterPower;
  }

  /** Power management stops at the first rank that fails. */
  lemma {:induction false} FaultStays(c: Config, s: State, m: nat, n: nat)
    requires PowerReady(c, s) && m <= n <= c.numRanks && PowerPhase(c, s, m).Exit?
    ensures PowerPhase(c, s, n) == PowerPhase(c, s, m)
  {
    hide PowerOf, AfterPower;
    if m < n { FaultStays(c, s, m, n - 1); }
  }

  /** What the controller does in a cycle. */
  function ControllerUpdate(c: Config, s: State): Outcome<State> {
    var s' :- Buses(c, s);
    SecondHalf(c, s')
  }

  function Buses(c: Config, s: State): Outcome<State> {
    var s2 :- CommandPhase(c, TickPhase(c, s));
    var s3 :- DataPhase(c, s2);
    WritePhase(c, s3)
  }
}
