/** Collisions of write data: exactly when a cycle ends in one. */
module Collisions {
  import opened Configuration
  import opened Packets
  import opened MemoryModel
  import opened Pairing
  import opened Lockstep
  import opened Spacing
  import opened ActivateWindow
  import opened ReadPath
  import opened WritePath
  import opened Refinement
  import opened SystemInvariant
  import opened Runs

  /** Two writes were popped less than a burst apart, and the data of the later one is due. */
  ghost predicate Collides(c: Config, issued: seq<Issue>, now: nat) {
    exists e, f :: e in issued && f in issued && e.packet.kind.IsWrite() && f.packet.kind.IsWrite()
                   && e.time < f.time < e.time + c.BL / 2 && f.time + c.WL() == now
  }

  predicate Taken(bus: Option<Timed>, writes: seq<Timed>) {
    |writes| > 0 && Dec(writes[0].left) == 0 && bus.Some?
  }

  lemma {:induction false} TakenCollides(c: Config, issued: seq<Issue>, bus: Option<Timed>, writes: seq<Timed>, t: nat, past: nat)
    requires c.Valid() && FlightOk(c, issued, bus, writes, t, t - 1) && Past(issued, past) && Gaps(c, issued)
    requires Taken(bus, writes)
    ensures Collides(c, issued, t)
  {
    hide Gaps, Past, WriteIssues;
    WriteIssuesOrdered(c, issued, past);
    WriteIssuesMembers(issued);
    var ws := WriteIssues(issued);
    var f := Landed(issued, bus, writes);
    var n := |f.landed|;
    assert f.flying[0] == ws[n] && f.queued[0] == ws[n + 1];
    assert ws[n] in ws && ws[n + 1] in ws;
    assert writes[0].left > 0;
    var e, g := ws[n], ws[n + 1];
    assert e in issued && g in issued && e.packet.kind.IsWrite() && g.packet.kind.IsWrite();
    assert e.time < g.time < e.time + c.BL / 2 && g.time + c.WL() == t;
  }

  lemma {:induction false} CollidesTaken(c: Config, issued: seq<Issue>, bus: Option<Timed>, writes: seq<Timed>, t: nat,
                                         past: nat, x: Issue, y: Issue)
    requires c.Valid() && FlightOk(c, issued, bus, writes, t, t - 1) && Past(issued, past) && Gaps(c, issued)
    requires x in issued && y in issued && x.packet.kind.IsWrite() && y.packet.kind.IsWrite()
    requires x.time < y.time < x.time + c.BL / 2 && y.time + c.WL() == t
    ensures Taken(bus, writes)
  {
    WriteIssuesOrdered(c, issued, past);
    hide Gaps, Past, WriteIssues;
    var ws := WriteIssues(issued);
    WriteAt(issued, x);
    WriteAt(issued, y);
    var i :| 0 <= i < |ws| && ws[i] == x;
    var j :| 0 <= j < |ws| && ws[j] == y;
    FlightPart(c, issued, bus, writes, t, i);
    FlightPart(c, issued, bus, writes, t, j);
    hide FlightOk;
    var f := Landed(issued, bus, writes);
    assert i < j;
    assert |f.landed| <= i;
    assert j >= |f.landed| + |f.flying|;
    assert i < |f.landed| + |f.flying|;
  }

  /** The data bus is needed while it is taken exactly if two writes collide. */
  lemma {:induction false} TakenExactly(c: Config, issued: seq<Issue>, bus: Option<Timed>, writes: seq<Timed>, t: nat, past: nat)
    requires c.Valid() && FlightOk(c, issued, bus, writes, t, t - 1) && Past(issued, past) && Gaps(c, issued)
    ensures Taken(bus, writes) <==> Collides(c, issued, t)
  {
    hide Gaps, Past, FlightOk, Taken;
    if Taken(bus, writes) { TakenCollides(c, issued, bus, writes, t, past); }
    if x, y :| x in issued && y in issued && x.packet.kind.IsWrite() && y.packet.kind.IsWrite()
               && x.time < y.time < x.time + c.BL / 2 && y.time + c.WL() == t {
      CollidesTaken(c, issued, bus, writes, t, past, x, y);
    }
  }

  lemma {:induction false} WriteAt(issued: seq<Issue>, e: Issue)
    requires e in issued && e.packet.kind.IsWrite()
    ensures e in WriteIssues(issued)
  {
    var n :| 0 <= n < |issued| && issued[n] == e;
    WriteIssuesHas(issued, n);
  }

  /** Which part of the flight a write is in, from its time. */
  lemma {:induction false} FlightPart(c: Config, issued: seq<Issue>, bus: Option<Timed>, writes: seq<Timed>, t: nat, i: nat)
    requires FlightOk(c, issued, bus, writes, t, t - 1) && i < |WriteIssues(issued)|
    ensures var e := WriteIssues(issued)[i];
            var f := Landed(issued, bus, writes);
            && |f.landed| + |f.flying| + |f.queued| == |WriteIssues(issued)|
            && (i < |f.landed| ==> e.time + c.WL() + c.BL / 2 <= t)
            && (|f.landed| <= i < |f.landed| + |f.flying| ==> e.time + c.WL() <= t - 1 && bus.Some?)
            && (i >= |f.landed| + |f.flying| ==>
                  |writes| > 0 && writes[i - |f.landed| - |f.flying|].left == e.time + c.WL() - (t - 1)
                  && e.time + c.WL() >= t)
  {
    var f := Landed(issued, bus, writes);
    var ws := WriteIssues(issued);
    if i < |f.landed| {
      assert f.landed[i] == ws[i];
    } else if i < |f.landed| + |f.flying| {
      assert f.flying[i - |f.landed|] == ws[i];
    } else {
      assert f.queued[i - |f.landed| - |f.flying|] == ws[i];
    }
  }

  /** A cycle from a reachable state fails exactly if two writes collide in it. */
  lemma {:induction false} CollisionExactly(c: Config, s: State)
    requires Inv(c, s)
    ensures Cycle(c, s).Exit? <==> Collides(c, s.log.issued, s.clock)
  {
    hide Good, FirstHalf, SecondHalf, BeforeWrites, Inv, Collides, WritePhase;
    BeforeWritesGood(c, s);
    FirstHalfGood(c, s);
    CollisionHere(c, BeforeWrites(c, s).value);
    if FirstHalf(c, s).Ok? {
      InvCadence(c, s);
      SecondHalfGood(c, FirstHalf(c, s).value);
    }
  }

  lemma {:induction false} InvCadence(c: Config, s: State)
    requires Inv(c, s)
    ensures OnCadence(c, s)
  {
  }

  lemma {:induction false} CollisionHere(c: Config, s: State)
    requires Good(c, s, Stamps(s.clock, s.clock, s.clock - 1, s.clock, s.clock - 1, s.clock, s.clock))
    ensures WritePhase(c, s).Exit? <==> Collides(c, s.log.issued, s.clock)
  {
    hide Collides, FlightOk, Past, Gaps, InStep, AllHeld, Orders, Accounts, Stored, AllAnswers, Windows, WellPaired;
    TakenExactly(c, s.log.issued, s.ctrl.dataBus, s.ctrl.writes, s.clock, s.clock);
  }
}
