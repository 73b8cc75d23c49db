/** The controller's table and the tables of the ranks never disagree: every command the
    controller sends is one the rank allows when it arrives. */
module Lockstep {
  import opened Configuration
  import opened Packets
  import opened BankTiming
  import opened Scheduling
  import opened Pairing
  import opened MemoryModel

  /** A rank's table once the command on the bus, due at cycle at, has arrived. */
  function Future(c: Config, table: seq<BankState>, cmdBus: Option<Timed>, at: nat, r: nat): seq<BankState> {
    if cmdBus.Some? && cmdBus.value.packet.rank == r
    then RankTable(c, cmdBus.value.packet, at, table) else table
  }

  predicate OnTheBus(c: Config, ranks: seq<RankState>, cmdBus: Option<Timed>, at: nat) {
    cmdBus.Some? ==>
      var p := cmdBus.value.packet;
      && cmdBus.value.left == 1
      && InRange(c, p) && p.rank < |ranks| && !p.kind.Data?
      && RankAllows(p, at, ranks[p.rank].table)
  }

  predicate PowerOk(banks: seq<BankState>, down: bool, k: RankState) {
    && down == k.poweredDown
    && forall b :: 0 <= b < |banks| ==>
         && (banks[b].mode.PowerDown? <==> down)
         && (down ==> banks[b].nextPowerUp == banks[0].nextPowerUp)
  }

  predicate RankInStep(c: Config, t: int, banks: seq<BankState>, table: seq<BankState>) {
    |banks| == |table| == c.numBanks
    && forall b :: 0 <= b < c.numBanks ==> Synced(t, banks[b], table[b])
  }

  /** Lockstep of all tables. t is the last cycle the controller's countdowns were stepped
      for, at the cycle in which the command on the bus arrives. */
  predicate InStep(c: Config, table: Table, ranks: seq<RankState>, down: seq<bool>,
                   cmdBus: Option<Timed>, t: int, at: nat) {
    && |table| == |ranks| == |down| == c.numRanks
    && OnTheBus(c, ranks, cmdBus, at)
    && (forall r :: 0 <= r < c.numRanks ==> RankInStep(c, t, table[r], Future(c, ranks[r].table, cmdBus, at, r)))
    && (forall r :: 0 <= r < c.numRanks ==> PowerOk(table[r], down[r], ranks[r]))
  }

  lemma {:induction false} TickInStep(c: Config, table: Table, ranks: seq<RankState>, down: seq<bool>,
                   cmdBus: Option<Timed>, t: int, at: nat)
    requires InStep(c, table, ranks, down, cmdBus, t, at)
    ensures InStep(c, TickTable(c, table), ranks, down, cmdBus, t + 1, at)
  {
    var table' := TickTable(c, table);
    forall r | 0 <= r < c.numRanks
      ensures RankInStep(c, t + 1, table'[r], Future(c, ranks[r].table, cmdBus, at, r))
      ensures PowerOk(table'[r], down[r], ranks[r])
    {
      var future := Future(c, ranks[r].table, cmdBus, at, r);
      assert RankInStep(c, t, table[r], future);
      assert PowerOk(table[r], down[r], ranks[r]);
      forall b | 0 <= b < c.numBanks
        ensures Synced(t + 1, table'[r][b], future[b])
        ensures table'[r][b].mode.PowerDown? <==> table[r][b].mode.PowerDown?
        ensures table'[r][b].nextPowerUp == table[r][b].nextPowerUp
      {
        assert table'[r][b] == TickBank(c, table[r][b]);
        TickSynced(c, t, table[r][b], future[b]);
      }
    }
  }

  /** The command on the bus is carried out without an exit. */
  lemma {:induction false} DeliverInStep(c: Config, table: Table, ranks: seq<RankState>, down: seq<bool>,
                      cmdBus: Option<Timed>, t: int, at: nat)
    requires InStep(c, table, ranks, down, cmdBus, t, at) && cmdBus.Some?
    ensures var p := cmdBus.value.packet;
            && RankReceive(c, ranks[p.rank], p, at).Ok?
            && InStep(c, table, ranks[p.rank := RankReceive(c, ranks[p.rank], p, at).value], down, None, t, at)
  {
    var p := cmdBus.value.packet;
    var k := RankReceive(c, ranks[p.rank], p, at).value;
    var ranks' := ranks[p.rank := k];
    assert k.table == RankTable(c, p, at, ranks[p.rank].table);
    forall r | 0 <= r < c.numRanks
      ensures RankInStep(c, t, table[r], Future(c, ranks'[r].table, None, at, r))
      ensures PowerOk(table[r], down[r], ranks'[r])
    {
      assert RankInStep(c, t, table[r], Future(c, ranks[r].table, cmdBus, at, r));
      assert PowerOk(table[r], down[r], ranks[r]);
    }
  }

  /** The table of a rank and its power flag are all that lockstep looks at. */
  lemma {:induction false} FrameInStep(c: Config, table: Table, ranks: seq<RankState>, ranks': seq<RankState>, down: seq<bool>,
                    cmdBus: Option<Timed>, t: int, at: nat)
    requires InStep(c, table, ranks, down, cmdBus, t, at)
    requires |ranks'| == |ranks|
    requires forall r :: 0 <= r < |ranks| ==>
               ranks'[r].table == ranks[r].table && ranks'[r].poweredDown == ranks[r].poweredDown
    ensures InStep(c, table, ranks', down, cmdBus, t, at)
  {
    forall r | 0 <= r < c.numRanks
      ensures RankInStep(c, t, table[r], Future(c, ranks'[r].table, cmdBus, at, r))
      ensures PowerOk(table[r], down[r], ranks'[r])
    {
      assert RankInStep(c, t, table[r], Future(c, ranks[r].table, cmdBus, at, r));
      assert PowerOk(table[r], down[r], ranks[r]);
    }
  }

  /** A sound choice is ready in the bank it is for. */
  lemma {:induction false} ChosenReady(c: Config, v: View, q: QueueState, ch: Choice, p: BusPacket, ranks: seq<RankState>,
                    down: seq<bool>, at: nat)
    requires c.Valid() && ViewOk(c, v) && StateOk(c, q) && v.counters == q.counters
    requires WellPaired(c, q.queues, v.table, q.counters)
    requires ChoiceOk(c, q, ch) && Sound(c, v, q, ch) && Chosen(c, q, ch) == Some(p)
    requires InStep(c, v.table, ranks, down, None, v.now, at)
    ensures InRange(c, p) && !p.kind.Data? && !down[p.rank]
    ensures if p.kind.Refresh? then forall b :: 0 <= b < c.numBanks ==> BankReady(p, v.now, v.table[p.rank][b])
            else BankReady(p, v.now, v.table[p.rank][p.bank])
    ensures p.kind.Activate? ==> v.table[p.rank][p.bank].countdown == 0
  {
    assert RankInStep(c, v.now, v.table[p.rank], ranks[p.rank].table);
    assert PowerOk(v.table[p.rank], down[p.rank], ranks[p.rank]);
    assert Synced(v.now, v.table[p.rank][p.bank], ranks[p.rank].table[p.bank]);
    assert BankPolicy(c, v.table[p.rank][p.bank], q.counters[p.rank][p.bank]);
    assert p.kind.Refresh? ==> forall b :: 0 <= b < c.numBanks ==> !Blocks(v.now, v.table[p.rank][b]);
  }

  /** Popping a ready command keeps every table in step, with the command on the bus. */
  lemma {:induction false} PopInStep(c: Config, table: Table, ranks: seq<RankState>, down: seq<bool>, p: BusPacket, now: nat, at: nat)
    requires c.Valid() && InStep(c, table, ranks, down, None, now, at)
    requires InRange(c, p) && !p.kind.Data? && !down[p.rank]
    requires if p.kind.Refresh? then forall b :: 0 <= b < c.numBanks ==> BankReady(p, now, table[p.rank][b])
             else BankReady(p, now, table[p.rank][p.bank])
    ensures InStep(c, IssueTable(c, p, now, table), ranks, down, Some(Timed(p, c.tCMD)), now, now + 1)
  {
    var table' := IssueTable(c, p, now, table);
    var bus := Some(Timed(p, c.tCMD));
    assert RankInStep(c, now, table[p.rank], ranks[p.rank].table);
    ReadyAllowed(p, now, table[p.rank], ranks[p.rank].table);
    forall r | 0 <= r < c.numRanks
      ensures RankInStep(c, now, table'[r], Future(c, ranks[r].table, bus, now + 1, r))
      ensures PowerOk(table'[r], down[r], ranks[r])
    {
      assert RankInStep(c, now, table[r], Future(c, ranks[r].table, None, at, r));
      assert PowerOk(table[r], down[r], ranks[r]);
      var future := Future(c, ranks[r].table, bus, now + 1, r);
      forall b | 0 <= b < c.numBanks
        ensures Synced(now, table'[r][b], future[b])
        ensures table'[r][b].mode.PowerDown? <==> table[r][b].mode.PowerDown?
        ensures table'[r][b].nextPowerUp == table[r][b].nextPowerUp
      {
        assert table'[r][b] == IssueBank(c, p, now, r, b, table[r][b]);
        IssueSynced(c, p, now, r, b, table[r][b], ranks[r].table[b]);
      }
    }
  }

  // ----- Power management -----

  /** The bank a command was just popped for is not idle. */
  predicate Busy(table: Table, cmdBus: Option<Timed>) {
    cmdBus.Some? ==>
      var p := cmdBus.value.packet;
      p.rank < |table| && p.bank < |table[p.rank]| && !table[p.rank][p.bank].mode.Idle?
      && !table[p.rank][p.bank].mode.PowerDown?
  }

  lemma {:induction false} IssuedBusy(c: Config, table: Table, p: BusPacket, now: nat)
    requires Rect(table, c.numRanks, c.numBanks) && InRange(c, p)
    requires BankReady(p, now, table[p.rank][p.bank])
    ensures Busy(IssueTable(c, p, now, table), Some(Timed(p, c.tCMD)))
  {
    assert IssueTable(c, p, now, table)[p.rank][p.bank]
        == IssueBank(c, p, now, p.rank, p.bank, table[p.rank][p.bank]);
  }

  /** Power management of one rank neither fails nor breaks the lockstep. */
  lemma {:induction false} PowerRankInStep(c: Config, now: nat, empty: bool, banks: seq<BankState>, down: bool, k: RankState)
    requires c.Valid() && RankInStep(c, now, banks, k.table) && PowerOk(banks, down, k)
    ensures PowerRank(c, now, empty, banks, down, k).Ok?
    ensures var p := PowerRank(c, now, empty, banks, down, k).value;
            RankInStep(c, now, p.banks, p.rank.table) && PowerOk(p.banks, p.down, p.rank)
  {
    assert Synced(now, banks[0], k.table[0]);
    forall b | 0 <= b < c.numBanks ensures Synced(now, banks[b], k.table[b]) { }
    var r := PowerRank(c, now, empty, banks, down, k);
    if r.Ok? {
      forall b | 0 <= b < c.numBanks ensures Synced(now, r.value.banks[b], r.value.rank.table[b]) {
        assert Synced(now, banks[b], k.table[b]);
      }
    }
  }

  /** A rank that a command is on its way to is left alone. */
  lemma {:induction false} BusyRankUntouched(c: Config, now: nat, empty: bool, banks: seq<BankState>, down: bool, k: RankState, b: nat)
    requires c.Valid() && |banks| == c.numBanks && b < c.numBanks && PowerOk(banks, down, k)
    requires !banks[b].mode.Idle? && !banks[b].mode.PowerDown?
    ensures PowerRank(c, now, empty, banks, down, k) == Ok(Powered(banks, down, k))
  {
  }
}
