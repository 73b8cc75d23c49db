/** The four-activate window: no five ACTIVATEs of a rank within tFAW cycles. */
module ActivateWindow {
  import opened Configuration
  import opened Packets
  import opened Scheduling
  import opened MemoryModel

  /** Times of the ACTIVATEs of rank r. */
  function Activates(issued: seq<Issue>, r: nat): seq<nat> {
    if |issued| == 0 then []
    else
      var e := issued[|issued| - 1];
      Activates(issued[..|issued| - 1], r)
      + if e.packet.kind.Activate? && e.packet.rank == r then [e.time] else []
  }

  /** Any five ACTIVATEs span at least tFAW cycles. */
  predicate Windowed(c: Config, acts: seq<nat>) {
    forall i, j :: 0 <= i < |acts| && i + 4 <= j < |acts| ==> acts[j] >= acts[i] + c.tFAW
  }

  predicate Increasing(acts: seq<nat>) { forall i, j :: 0 <= i < j < |acts| ==> acts[i] < acts[j] }

  predicate Expired(c: Config, acts: seq<nat>, t: int) {
    forall i :: 0 <= i < |acts| ==> acts[i] + c.tFAW <= t
  }

  predicate Live(c: Config, acts: seq<nat>, w: seq<nat>, t: int) {
    |acts| == |w| && forall i :: 0 <= i < |w| ==> w[i] == acts[i] + c.tFAW - t && w[i] > 0
  }

  /** The countdown list w of a rank holds exactly the ACTIVATEs of the last tFAW cycles, so
      it is strictly increasing and at most its head expires in a cycle. t is the last cycle
      the list was stepped for. */
  predicate WindowOk(c: Config, acts: seq<nat>, w: seq<nat>, t: int) {
    && |w| <= |acts|
    && Expired(c, acts[..|acts| - |w|], t)
    && Live(c, acts[|acts| - |w|..], w, t)
    && Increasing(acts)
    && Windowed(c, acts)
  }

  predicate Windows(c: Config, issued: seq<Issue>, faw: seq<seq<nat>>, t: int) {
    |faw| == c.numRanks && forall r :: 0 <= r < c.numRanks ==> WindowOk(c, Activates(issued, r), faw[r], t)
  }

  lemma {:induction false} AgeLive(c: Config, acts: seq<nat>, w: seq<nat>, t: int)
    requires Live(c, acts, w, t) && Increasing(acts)
    ensures if |w| > 0 && w[0] == 1 then Live(c, acts[1..], Aged(w), t + 1) else Live(c, acts, Aged(w), t + 1)
  {
    var d := seq(|w|, j requires 0 <= j < |w| => Dec(w[j]));
    forall i | 0 <= i < |w| ensures d[i] == w[i] - 1 && (i > 0 ==> d[i] > 0) {
      assert i > 0 ==> acts[0] < acts[i];
      assert w[0] == acts[0] + c.tFAW - t;
    }
  }

  lemma {:induction false} AgeWindow(c: Config, acts: seq<nat>, w: seq<nat>, t: int)
    requires WindowOk(c, acts, w, t)
    ensures WindowOk(c, acts, Aged(w), t + 1)
  {
    hide Windowed, Aged;
    var k := |acts| - |w|;
    AgeLive(c, acts[k..], w, t);
    if |w| > 0 && w[0] == 1 {
      assert acts[k..][1..] == acts[k + 1..];
      assert acts[..k + 1] == acts[..k] + [acts[k]];
    }
  }

  lemma {:induction false} PushWindow(c: Config, acts: seq<nat>, w: seq<nat>, now: nat)
    requires c.tFAW >= 1 && WindowOk(c, acts, w, now) && |w| < 4
    requires forall i :: 0 <= i < |acts| ==> acts[i] < now
    ensures WindowOk(c, acts + [now], w + [c.tFAW], now)
  {
    var k := |acts| - |w|;
    var acts' := acts + [now];
    assert acts'[k..] == acts[k..] + [now] && acts'[..k] == acts[..k];
    forall i | 0 <= i < |acts| && i + 4 <= |acts| ensures now >= acts[i] + c.tFAW {
      assert acts[i] == acts[..k][i];
    }
  }

  predicate ActivatesRank(p: Option<BusPacket>, r: nat) {
    p.Some? && p.value.kind.Activate? && p.value.rank == r
  }

  function LogPop(issued: seq<Issue>, now: nat, p: Option<BusPacket>): seq<Issue> {
    if p.Some? then issued + [Issue(now, p.value)] else issued
  }

  lemma {:induction false} ActivatesAfter(issued: seq<Issue>, now: nat, p: Option<BusPacket>, r: nat)
    ensures Activates(LogPop(issued, now, p), r)
            == if ActivatesRank(p, r) then Activates(issued, r) + [now] else Activates(issued, r)
  {
    if p.Some? {
      var issued' := LogPop(issued, now, p);
      assert issued'[..|issued'| - 1] == issued;
      assert Activates(issued, r) + [] == Activates(issued, r);
    }
  }

  /** A pop keeps the windows of all ranks. */
  lemma {:induction false} PopWindows(c: Config, issued: seq<Issue>, faw: seq<seq<nat>>, now: nat, p: Option<BusPacket>)
    requires c.tFAW >= 1 && Windows(c, issued, faw, now - 1)
    requires forall n :: 0 <= n < |issued| ==> issued[n].time < now
    requires p.Some? && p.value.kind.Activate? ==>
               p.value.rank < c.numRanks && |AgedAll(faw)[p.value.rank]| < 4
    ensures Windows(c, LogPop(issued, now, p), FawAfter(c, AgedAll(faw), p), now)
  {
    var faw' := FawAfter(c, AgedAll(faw), p);
    forall r | 0 <= r < c.numRanks ensures WindowOk(c, Activates(LogPop(issued, now, p), r), faw'[r], now) {
      assert WindowOk(c, Activates(issued, r), faw[r], now - 1);
      PopWindow(c, issued, faw[r], now, p, r);
    }
  }

  lemma {:induction false} PopWindow(c: Config, issued: seq<Issue>, w: seq<nat>, now: nat, p: Option<BusPacket>, r: nat)
    requires c.tFAW >= 1 && WindowOk(c, Activates(issued, r), w, now - 1)
    requires forall n :: 0 <= n < |issued| ==> issued[n].time < now
    requires ActivatesRank(p, r) ==> |Aged(w)| < 4
    ensures WindowOk(c, Activates(LogPop(issued, now, p), r),
                     if ActivatesRank(p, r) then Aged(w) + [c.tFAW] else Aged(w), now)
  {
    AgeWindow(c, Activates(issued, r), w, now - 1);
    ActivatesAfter(issued, now, p, r);
    if ActivatesRank(p, r) {
      ActivatesPast(issued, r, now);
      PushWindow(c, Activates(issued, r), Aged(w), now);
    }
  }

  lemma {:induction false} ActivatesPast(issued: seq<Issue>, r: nat, now: nat)
    requires forall n :: 0 <= n < |issued| ==> issued[n].time < now
    ensures forall i :: 0 <= i < |Activates(issued, r)| ==> Activates(issued, r)[i] < now
  {
    if |issued| > 0 { ActivatesPast(issued[..|issued| - 1], r, now); }
  }
}
