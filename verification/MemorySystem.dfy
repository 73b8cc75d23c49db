/** One channel of the memory system: a controller and its ranks, run cycle by cycle. */
module MemorySystems {
  import opened Configuration
  import opened Packets
  import Scheduling
  import opened AddressMapping
  import opened MemoryModel
  import opened Ranks
  import opened MemoryControllers
  import opened WritePath
  import opened Ordering
  import opened SystemInvariant
  import opened Runs

  lemma {:induction false} CommandDeliverable(c: Config, s: State, z: Stamps)
    requires SystemOk(c) && Commands(c, s, z) && Orders(c, s) && s.ctrl.cmdBus.Some?
    ensures Deliverable(c, s.ctrl.cmdBus.value.packet)
  {
    hide Locate, WidthsOf;
    var e := s.log.issued[|s.log.issued| - 1];
    assert e.packet == s.ctrl.cmdBus.value.packet;
    assert e.packet.kind.IsRead() ==> Known(c, s.log.accepted, e.packet);
  }

  lemma {:induction false} DataDeliverable(c: Config, s: State, z: Stamps)
    requires Commands(c, s, z) && DataPaths(c, s, z) && s.ctrl.dataBus.Some?
    ensures Deliverable(c, s.ctrl.dataBus.value.packet)
  {
    WriteIssuesMembers(s.log.issued);
    var f := Landed(s.log.issued, s.ctrl.dataBus, s.ctrl.writes);
    assert OnDataBus(c, s.ctrl.dataBus, f.flying, z.bus);
    assert f.flying[0] in WriteIssues(s.log.issued);
  }

  /** In every reachable state the packets on the buses name existing ranks, banks and columns. */
  lemma {:induction false} BusesDeliverable(c: Config, s: State)
    requires Inv(c, s)
    ensures s.ctrl.cmdBus.Some? ==> Deliverable(c, s.ctrl.cmdBus.value.packet)
    ensures s.ctrl.dataBus.Some? ==> Deliverable(c, s.ctrl.dataBus.value.packet)
  {
    hide Commands, DataPaths, Orders, Accounts, OnCadence;
    if s.ctrl.cmdBus.Some? { CommandDeliverable(c, s, AtBoundary(s.clock)); }
    if s.ctrl.dataBus.Some? { DataDeliverable(c, s, AtBoundary(s.clock)); }
  }

  lemma {:induction false} ReturnsAppend(ps: seq<BusPacket>, qs: seq<BusPacket>)
    ensures Returns(ps + qs) == Returns(ps) + Returns(qs)
  {
  }

  lemma {:induction false} ArrivalsPrefix(ks: seq<RankState>, i: nat)
    requires i < |ks|
    ensures Arrivals(ks[..i + 1]) == Arrivals(ks[..i]) + Handed(ks[i])
  {
    assert ks[..i + 1][..i] == ks[..i];
  }

  lemma {:induction false} CycleByController(c: Config, s: State)
    ensures Cycle(c, s) == ControllerUpdate(c, AdmitPhase(c, RanksPhase(c, s)))
  {
    hide RanksPhase, AdmitPhase, TickPhase, CommandPhase, DataPhase, WritePhase, SecondHalf;
  }

  method NewRanks(c: Config) returns (ks: seq<Rank>)
    requires c.Valid()
    ensures RanksOk(c, ks, 0) && forall i :: 0 <= i < |ks| ==> fresh(ks[i]) && ks[i].Value() == InitRank(c)
  {
    hide AllContents, InitRank;
    ks := [];
    while |ks| < c.numRanks
      invariant |ks| <= c.numRanks
      invariant forall i :: 0 <= i < |ks| ==> fresh(ks[i]) && RankOk(ks[i], c, 0) && ks[i].Value() == InitRank(c)
      invariant forall i, j :: 0 <= i < j < |ks| ==> ks[i] != ks[j]
    {
      var k := new Rank(c);
      ks := ks + [k];
    }
  }

  method StepRanks(ranks: seq<Rank>, c: Config, ghost now: nat)
    requires RanksOk(c, ranks, now)
    modifies ranks
    ensures RanksOk(c, ranks, now + 1) && RankStates(ranks) == old(RankStates(ranks))
  {
    hide AllContents;
    for i := 0 to |ranks|
      invariant forall k :: 0 <= k < i ==> RankOk(ranks[k], c, now + 1)
      invariant forall k :: i <= k < |ranks| ==> RankOk(ranks[k], c, now)
      invariant forall k :: 0 <= k < |ranks| ==> ranks[k].Value() == old(ranks[k].Value())
    {
      ranks[i].Step();
    }
  }

  class MemorySystem {
    const c: Config
    const ranks: seq<Rank>
    const memoryController: MemoryController
    var pendingTransactions: seq<Transaction>
    var currentClockCycle: nat

    ghost function Value(): State
      reads this, memoryController, memoryController.commandQueue, memoryController.ranks
    {
      memoryController.Value(pendingTransactions)
    }

    /** The state is one a run can reach. */
    ghost predicate Valid()
      reads this, memoryController, memoryController.commandQueue, memoryController.ranks
    {
      && memoryController.Valid() && memoryController.c == c && memoryController.ranks == ranks
      && memoryController.currentClockCycle == currentClockCycle
      && Inv(c, Value())
    }

    constructor (c: Config)
      requires SystemOk(c)
      ensures Valid() && this.c == c && Value() == Init(c)
    {
      hide Inv, Init, InitRank, RanksOk, RankStates, Scheduling.StateOk, GeometryOk;
      this.c := c;
      var ks := NewRanks(c);
      ranks := ks;
      memoryController := new MemoryController(c, ks);
      pendingTransactions := [];
      currentClockCycle := 0;
      new;
      InitInv(c);
    }

    /** A request from the processor: it goes to the controller, or waits if that is full. */
    method AddTransaction(t: Transaction)
      requires Valid()
      modifies this`pendingTransactions, memoryController
      ensures Valid() && Value() == Submit(c, old(Value()), t)
    {
      hide MemoryController.Valid, Inv, Accept, Scheduling.StateOk, GeometryOk, RanksOk, RankStates;
      SubmitSafe(c, Value(), t);
      if memoryController.WillAcceptTransaction() {
        var _ := memoryController.AddTransaction(t, pendingTransactions);
      } else {
        pendingTransactions := pendingTransactions + [t];
      }
    }

    /** Updates one rank; read data that leaves it goes to the controller. */
    method UpdateRank(i: nat)
      requires memoryController.Valid() && memoryController.c == c && memoryController.ranks == ranks
      requires i < c.numRanks
      modifies memoryController`returnTransaction, memoryController`log, ranks
      ensures memoryController.Valid()
      ensures var was := old(RankStates(ranks));
              var log := old(memoryController.log);
              && RankStates(ranks) == was[i := RankUpdate(c, was[i])]
              && memoryController.returnTransaction == old(memoryController.returnTransaction) + Returns(Handed(was[i]))
              && memoryController.log == log.(received := log.received + Handed(was[i]))
    {
      hide Scheduling.StateOk, GeometryOk, RankUpdate, AllContents;
      ghost var now := memoryController.currentClockCycle;
      assert RankOk(ranks[i], c, now);
      var done := ranks[i].Update();
      assert forall k :: 0 <= k < |ranks| && k != i ==> old(RankOk(ranks[k], c, now)) && RankOk(ranks[k], c, now);
      assert RanksOk(c, ranks, now);
      if done.Some? { memoryController.ReceiveFromBus(done.value); }
    }

    /** Updates every rank. */
    method UpdateRanks()
      requires memoryController.Valid() && memoryController.c == c && memoryController.ranks == ranks
      modifies memoryController`returnTransaction, memoryController`log, ranks
      ensures memoryController.Valid()
      ensures Value() == RanksPhase(c, old(Value()))
      ensures memoryController.log.callbacks == old(memoryController.log.callbacks)
    {
      hide Scheduling.StateOk, GeometryOk, RankUpdate, RankStates, RanksOk, Handed, Returns, Arrivals;
      ghost var was := RankStates(ranks);
      ghost var log := memoryController.log;
      ghost var returned := memoryController.returnTransaction;
      NoArrivals(was[..0]);
      var i := 0;
      while i < c.numRanks
        invariant 0 <= i <= c.numRanks && memoryController.Valid()
        invariant |RankStates(ranks)| == |was| == c.numRanks
        invariant forall k :: 0 <= k < i ==> RankStates(ranks)[k] == RankUpdate(c, was[k])
        invariant RankStates(ranks)[i..] == was[i..]
        invariant memoryController.returnTransaction == returned + Returns(Arrivals(was[..i]))
        invariant memoryController.log == log.(received := log.received + Arrivals(was[..i]))
      {
        assert RankStates(ranks)[i..][0] == was[i..][0];
        ghost var before := RankStates(ranks);
        UpdateRank(i);
        assert RankStates(ranks)[i + 1..] == before[i..][1..];
        ArrivalsPrefix(was, i);
        ReturnsAppend(Arrivals(was[..i]), Handed(was[i]));
        i := i + 1;
      }
      assert was[..i] == was;
      assert RankStates(ranks) == RanksPhase(c, old(Value())).ranks;
    }

    method StepClocks()
      requires memoryController.Valid() && memoryController.c == c && memoryController.ranks == ranks
      modifies memoryController`currentClockCycle, this`currentClockCycle, ranks
      ensures memoryController.Valid()
      ensures currentClockCycle == old(currentClockCycle) + 1
      ensures Value() == old(Value()).(clock := old(Value()).clock + 1)
    {
      hide Scheduling.StateOk, GeometryOk, RanksOk, RankStates;
      StepRanks(ranks, c, memoryController.currentClockCycle);
      memoryController.Step();
      currentClockCycle := currentClockCycle + 1;
    }

    /** The controller takes a waiting request if it has room. */
    method Admit()
      requires memoryController.Valid() && memoryController.c == c
      modifies this`pendingTransactions, memoryController`transactionQueue, memoryController`log, memoryController`numAccepted
      ensures memoryController.Valid()
      ensures Value() == AdmitPhase(c, old(Value())) && memoryController.log.callbacks == old(memoryController.log.callbacks)
    {
      hide Scheduling.StateOk, GeometryOk, RanksOk, RankStates;
      if |pendingTransactions| > 0 && memoryController.WillAcceptTransaction() {
        var _ := memoryController.AddTransaction(pendingTransactions[0], pendingTransactions);
        pendingTransactions := pendingTransactions[1..];
      }
    }

    /** The part of a cycle before the controller's. */
    method Prepare()
      requires memoryController.Valid() && memoryController.c == c && memoryController.ranks == ranks
      modifies this`pendingTransactions, memoryController`transactionQueue, memoryController`log
      modifies memoryController`numAccepted, memoryController`returnTransaction, ranks
      ensures memoryController.Valid()
      ensures Value() == AdmitPhase(c, RanksPhase(c, old(Value())))
      ensures memoryController.log.callbacks == old(memoryController.log.callbacks)
    {
      hide RanksPhase, AdmitPhase, RanksOk, RankStates, Scheduling.StateOk, GeometryOk;
      UpdateRanks();
      Admit();
    }

    /** Updates the controller and steps all clocks. */
    method UpdateController() returns (fault: Option<Fault>, callback: Option<nat>)
      requires memoryController.Valid() && memoryController.c == c && memoryController.ranks == ranks
      requires memoryController.currentClockCycle == currentClockCycle
      requires memoryController.outgoingCmd.Some? ==> Deliverable(c, memoryController.outgoingCmd.value.packet)
      requires memoryController.outgoingData.Some? ==> Deliverable(c, memoryController.outgoingData.value.packet)
      modifies this, memoryController, memoryController.commandQueue, ranks
      ensures match ControllerUpdate(c, old(Value()))
              case Ok(s) => fault.None? && memoryController.Valid() && Value() == s
              case Exit(f) => fault == Some(f)
      ensures fault.None? ==>
                && memoryController.currentClockCycle == currentClockCycle
                && memoryController.log.callbacks
                   == old(memoryController.log.callbacks) + if callback.Some? then [callback.value] else []
    {
      hide ControllerUpdate, Scheduling.StateOk, GeometryOk, RanksOk, RankStates;
      fault, callback := memoryController.Update(pendingTransactions);
      if fault.None? { StepClocks(); }
    }

    /** One cycle. The only way it can fail is a collision of write data, and only in a
        configuration that does not space writes to different ranks. */
    method Update() returns (fault: Option<Fault>, callback: Option<nat>)
      requires Valid()
      modifies this, memoryController, memoryController.commandQueue, ranks
      ensures match Cycle(c, old(Value()))
              case Ok(s) => fault.None? && Valid() && Value() == s
              case Exit(f) => fault == Some(f)
      ensures fault.Some? ==> fault == Some(DataBusCollision) && !c.WritesSpaced()
      ensures fault.None? ==>
                Value().log.callbacks
                == old(Value().log.callbacks) + if callback.Some? then [callback.value] else []
    {
      hide Inv, Cycle, ControllerUpdate, Scheduling.StateOk, GeometryOk, RanksOk, RankStates, RanksPhase, AdmitPhase;
      hide MemoryController.Valid;
      BusesDeliverable(c, Value());
      CycleSafe(c, Value());
      CycleByController(c, Value());
      Prepare();
      fault, callback := UpdateController();
    }
  }
}
