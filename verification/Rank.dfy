/** A rank: it checks every command against its own bank table before carrying it out, and
    sends read data back after the read latency. */
module Ranks {
  import opened Configuration
  import opened Packets
  import opened BankTiming
  import opened MemoryModel
  import opened Banks

  function AllContents(banks: seq<RowLists>): seq<map<Cell, Word>> {
    seq(|banks|, j requires 0 <= j < |banks| => Contents(banks[j]))
  }

  class Rank {
    const c: Config
    var bankStates: seq<BankState>
    var banks: seq<RowLists>
    var isPowerDown: bool
    var refreshWaiting: bool
    var readReturn: seq<Timed>
    var outgoingData: Option<Timed>
    var currentClockCycle: nat

    function Value(): RankState
      reads this
    {
      RankState(bankStates, AllContents(banks), isPowerDown, refreshWaiting, readReturn, outgoingData)
    }

    predicate Valid()
      reads this
    {
      && c.Valid() && |bankStates| == |banks| == c.numBanks
      && forall j :: 0 <= j < c.numBanks ==> |banks[j]| == c.numCols
    }

    constructor (c: Config)
      requires c.Valid()
      ensures Valid() && this.c == c && Value() == InitRank(c) && currentClockCycle == 0
    {
      this.c := c;
      bankStates := seq(c.numBanks, j => FreshBank);
      banks := seq(c.numBanks, j => seq(c.numCols, k => []));
      isPowerDown, refreshWaiting, readReturn, outgoingData, currentClockCycle := false, false, [], None, 0;
      new;
      forall j | 0 <= j < c.numBanks ensures Contents(banks[j]) == map[] {
        assert Cells(banks[j]) == {};
      }
      assert AllContents(banks) == seq(c.numBanks, j => map[]);
    }

    /** Raises the next read and write times of every bank. */
    method RaiseAll(read: int, write: int)
      modifies this`bankStates
      ensures |bankStates| == old(|bankStates|)
      ensures forall j :: 0 <= j < |bankStates| ==> bankStates[j] == RaiseColumns(old(bankStates)[j], read, write)
    {
      ghost var was := bankStates;
      for i := 0 to |bankStates|
        invariant |bankStates| == |was|
        invariant forall j :: 0 <= j < i ==> bankStates[j] == RaiseColumns(was[j], read, write)
        invariant forall j :: i <= j < |was| ==> bankStates[j] == was[j]
      {
        var b := bankStates[i];
        bankStates := bankStates[i := b.(nextRead := Max(read, b.nextRead), nextWrite := Max(write, b.nextWrite))];
      }
    }

    /** The table part of a command that the rank allows. */
    method UpdateTable(p: BusPacket)
      requires Valid() && p.bank < c.numBanks && !p.kind.Data?
      modifies this`bankStates
      ensures bankStates == RankTable(c, p, currentClockCycle, old(bankStates))
    {
      ghost var was := bankStates;
      var now := currentClockCycle;
      var own := bankStates[p.bank];
      match p.kind
      case Read =>
        bankStates := bankStates[p.bank := own.(nextPrecharge := Max(own.nextPrecharge, now + c.ReadToPre()))];
        RaiseAll(now + c.ColumnGap(), now + c.ReadToWrite());
      case ReadP =>
        bankStates := bankStates[p.bank := own.(mode := Idle,
                                                nextActivate := Max(own.nextActivate, now + c.ReadAutoPre()))];
        RaiseAll(now + c.ColumnGap(), now + c.ReadToWrite());
      case Write =>
        bankStates := bankStates[p.bank := own.(nextPrecharge := Max(own.nextPrecharge, now + c.WriteToPre()))];
        RaiseAll(now + c.WriteToReadBank(), now + c.ColumnGap());
      case WriteP =>
        bankStates := bankStates[p.bank := own.(mode := Idle,
                                                nextActivate := Max(own.nextActivate, now + c.WriteAutoPre()))];
        RaiseAll(now + c.WriteToReadBank(), now + c.ColumnGap());
      case Activate =>
        bankStates := bankStates[p.bank := own.(mode := RowActive, nextActivate := now + c.tRC, openRow := p.row,
                                                nextWrite := now + (c.tRCD - c.AL), nextRead := now + (c.tRCD - c.AL),
                                                nextPrecharge := now + c.tRAS)];
        for i := 0 to c.numBanks
          invariant |bankStates| == c.numBanks
          invariant forall j :: 0 <= j < i ==> bankStates[j] == RankBank(c, p, now, j, was[j])
          invariant forall j :: i <= j < c.numBanks && j != p.bank ==> bankStates[j] == was[j]
          invariant bankStates[p.bank] == RankBank(c, p, now, p.bank, was[p.bank])
        {
          if i != p.bank {
            var b := bankStates[i];
            bankStates := bankStates[i := b.(nextActivate := Max(b.nextActivate, now + c.tRRD))];
          }
        }
      case Precharge =>
        bankStates := bankStates[p.bank := own.(mode := Idle, nextActivate := Max(own.nextActivate, now + c.tRP))];
      case Refresh =>
        for i := 0 to c.numBanks
          invariant |bankStates| == c.numBanks
          invariant forall j :: 0 <= j < i ==> bankStates[j] == was[j].(nextActivate := now + c.tRFC)
          invariant forall j :: i <= j < c.numBanks ==> bankStates[j] == was[j]
        {
          bankStates := bankStates[i := bankStates[i].(nextActivate := now + c.tRFC)];
        }
    }

    /** The check the rank makes on a command. */
    method Allowed(p: BusPacket) returns (b: bool)
      requires Valid() && p.bank < c.numBanks
      ensures b == RankAllows(p, currentClockCycle, bankStates)
    {
      var own := bankStates[p.bank];
      match p.kind
      case Read | ReadP =>
        b := own.mode.RowActive? && currentClockCycle >= own.nextRead && p.row == own.openRow;
      case Write | WriteP =>
        b := own.mode.RowActive? && currentClockCycle >= own.nextWrite && p.row == own.openRow;
      case Activate => b := own.mode.Idle? && currentClockCycle >= own.nextActivate;
      case Precharge => b := own.mode.RowActive? && currentClockCycle >= own.nextPrecharge;
      case Refresh =>
        b := true;
        for i := 0 to c.numBanks
          invariant b <==> forall j :: 0 <= j < i ==> bankStates[j].mode.Idle?
        {
          if !bankStates[i].mode.Idle? { b := false; }
        }
      case Data => b := true;
    }

    /** A packet arrives on a bus. */
    method ReceiveFromBus(p: BusPacket) returns (fault: Option<Fault>)
      requires Valid() && p.bank < c.numBanks && (p.kind.IsRead() ==> p.col < c.numCols)
      modifies this
      ensures currentClockCycle == old(currentClockCycle)
      ensures match RankReceive(c, old(Value()), p, currentClockCycle)
              case Ok(k) => fault.None? && Valid() && Value() == k
              case Exit(f) => fault == Some(f)
    {
      var allowed := Allowed(p);
      if !allowed { return Some(CommandRefused); }
      fault := None;
      if p.kind.Data? {
        assert RankTable(c, p, currentClockCycle, bankStates) == bankStates;
        var ok, rows := WriteBank(c, banks[p.bank], p);
        if !ok { return Some(BadColumn); }
        ghost var was := AllContents(banks);
        banks := banks[p.bank := rows];
        assert AllContents(banks) == was[p.bank := Contents(rows)];
      } else {
        UpdateTable(p);
        if p.kind.IsRead() {
          var d := ReadBank(banks[p.bank], p);
          readReturn := readReturn + [Timed(p.(kind := Data, data := d), c.RL())];
        } else if p.kind.Refresh? {
          refreshWaiting := false;
        }
      }
    }

    /** One cycle of the data bus and of the answers still to be sent. Returns the packet that
        leaves the bus for the controller, if any. */
    method Update() returns (done: Option<BusPacket>)
      requires Valid()
      modifies this`outgoingData, this`readReturn
      ensures Valid() && Value() == RankUpdate(c, old(Value())) && done == BusDone(old(outgoingData))
    {
      done := None;
      if outgoingData.Some? {
        var left := Dec(outgoingData.value.left);
        if left == 0 {
          done := Some(outgoingData.value.packet);
          outgoingData := None;
        } else {
          outgoingData := Some(Timed(outgoingData.value.packet, left));
        }
      }
      ghost var was := readReturn;
      for i := 0 to |readReturn|
        invariant |readReturn| == |was|
        invariant forall j :: 0 <= j < i ==> readReturn[j] == Timed(was[j].packet, Dec(was[j].left))
        invariant forall j :: i <= j < |was| ==> readReturn[j] == was[j]
        invariant outgoingData == BusTick(old(outgoingData))
      {
        readReturn := readReturn[i := readReturn[i].(left := Dec(readReturn[i].left))];
      }
      assert readReturn == Countdown(was);
      if |readReturn| > 0 && readReturn[0].left == 0 {
        outgoingData := Some(Timed(readReturn[0].packet, c.BL / 2));
        readReturn := readReturn[1..];
      }
    }

    method PowerDown() returns (fault: Option<Fault>)
      requires Valid()
      modifies this`bankStates, this`isPowerDown
      ensures match RankPowerDown(c, old(Value()), currentClockCycle)
              case Ok(k) => fault.None? && Valid() && Value() == k
              case Exit(f) => fault == Some(f)
    {
      ghost var was := bankStates;
      for i := 0 to c.numBanks
        invariant |bankStates| == c.numBanks
        invariant forall j :: 0 <= j < i ==> was[j].mode.Idle?
        invariant forall j :: 0 <= j < i ==>
                    bankStates[j] == was[j].(nextPowerUp := currentClockCycle + c.tCKE, mode := BankMode.PowerDown)
        invariant forall j :: i <= j < c.numBanks ==> bankStates[j] == was[j]
      {
        if !bankStates[i].mode.Idle? { return Some(PowerDownRefused); }
        bankStates := bankStates[i := bankStates[i].(nextPowerUp := currentClockCycle + c.tCKE,
                                                     mode := BankMode.PowerDown)];
      }
      isPowerDown := true;
      fault := None;
    }

    method PowerUp() returns (fault: Option<Fault>)
      requires Valid()
      modifies this`bankStates, this`isPowerDown
      ensures match RankPowerUp(c, old(Value()), currentClockCycle)
              case Ok(k) => fault.None? && Valid() && Value() == k
              case Exit(f) => fault == Some(f)
    {
      if !isPowerDown { return Some(PowerUpRefused); }
      isPowerDown := false;
      ghost var was := bankStates;
      for i := 0 to c.numBanks
        invariant |bankStates| == c.numBanks && !isPowerDown
        invariant forall j :: 0 <= j < i ==> was[j].nextPowerUp <= currentClockCycle
        invariant forall j :: 0 <= j < i ==>
                    bankStates[j] == was[j].(nextActivate := currentClockCycle + c.tXP, mode := Idle)
        invariant forall j :: i <= j < c.numBanks ==> bankStates[j] == was[j]
      {
        if bankStates[i].nextPowerUp > currentClockCycle { return Some(PowerUpRefused); }
        bankStates := bankStates[i := bankStates[i].(nextActivate := currentClockCycle + c.tXP, mode := Idle)];
      }
      fault := None;
    }

    method Step()
      modifies this`currentClockCycle
      ensures currentClockCycle == old(currentClockCycle) + 1
    {
      currentClockCycle := currentClockCycle + 1;
    }
  }
}
