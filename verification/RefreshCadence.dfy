/** When each rank is requested for a refresh. */
module RefreshCadence {
  import opened Configuration
  import opened Packets
  import opened MemoryModel

  lemma {:induction false} TimesMono(m: nat, n: nat, q: nat)
    requires m <= n
    ensures Times(m, q) <= Times(n, q)
  {
    if m < n { TimesMono(m, n - 1, q); }
  }

  /** The cycle in which rank i is requested for the k-th time, from zero. */
  function Due(c: Config, i: nat, k: nat): nat { Times(i + 1, c.refreshStagger) + Times(k, c.refreshPeriod) }

  /** The rank and the round of the n-th request of all. */
  function Turn(c: Config, n: nat): nat {
    if n == 0 then 0 else if Turn(c, n - 1) + 1 == c.numRanks then 0 else Turn(c, n - 1) + 1
  }

  function Round(c: Config, n: nat): nat {
    if n == 0 then 0 else if Turn(c, n - 1) + 1 == c.numRanks then Round(c, n - 1) + 1 else Round(c, n - 1)
  }

  function NthDue(c: Config, n: nat): nat { Due(c, Turn(c, n), Round(c, n)) }

  /** The next cycle rank i is due once n requests have been made. */
  function NextDue(c: Config, i: nat, n: nat): nat {
    Due(c, i, if i < Turn(c, n) then Round(c, n) + 1 else Round(c, n))
  }

  /** The n-th request went to rank Turn(n) at its due cycle. */
  predicate Logged(c: Config, requests: seq<RefreshRequest>) {
    forall k {:trigger requests[k]} :: 0 <= k < |requests| ==> requests[k] == RefreshRequest(NthDue(c, k), Turn(c, k))
  }

  /** Every counter holds the time to its rank's next request. */
  predicate CountsDown(c: Config, counters: seq<nat>, n: nat, t: nat) {
    |counters| == c.numRanks && forall i :: 0 <= i < c.numRanks ==> counters[i] == NextDue(c, i, n) - t
  }

  /** Requests were made when due; the next one is not overdue, the round-robin index
      names it, and the counters count down to it. t is the current cycle. */
  predicate Cadence(c: Config, requests: seq<RefreshRequest>, index: nat, counters: seq<nat>, t: nat) {
    && Logged(c, requests)
    && index == Turn(c, |requests|)
    && t <= NthDue(c, |requests|)
    && CountsDown(c, counters, |requests|, t)
  }

  lemma {:induction false} TurnInRange(c: Config, n: nat)
    requires c.Valid()
    ensures Turn(c, n) < c.numRanks
  {
    if n > 0 { TurnInRange(c, n - 1); }
  }

  lemma {:induction false} NextIsSoonest(c: Config, i: nat, n: nat)
    requires c.Valid() && i < c.numRanks
    ensures NextDue(c, i, n) >= NthDue(c, n)
    ensures i == Turn(c, n) ==> NextDue(c, i, n) == NthDue(c, n)
  {
    TurnInRange(c, n);
    if i < Turn(c, n) {
      TimesMono(Turn(c, n) + 1, c.numRanks, c.refreshStagger);
    } else {
      TimesMono(Turn(c, n) + 1, i + 1, c.refreshStagger);
    }
  }

  lemma {:induction false} DueIncreases(c: Config, n: nat)
    requires c.Valid()
    ensures NthDue(c, n) < NthDue(c, n + 1)
  {
    TurnInRange(c, n);
  }

  lemma {:induction false} RequestAdvances(c: Config, i: nat, n: nat)
    requires c.Valid() && i < c.numRanks
    ensures NextDue(c, i, n + 1)
            == if i == Turn(c, n) then NthDue(c, n) + c.refreshPeriod else NextDue(c, i, n)
  {
    TurnInRange(c, n);
  }

  /** Between the refresh phase and the decrement: the next request lies ahead. */
  predicate CadenceAhead(c: Config, requests: seq<RefreshRequest>, index: nat, counters: seq<nat>, t: nat) {
    && Logged(c, requests)
    && index == Turn(c, |requests|)
    && t < NthDue(c, |requests|)
    && CountsDown(c, counters, |requests|, t)
  }

  lemma {:induction false} CountersAdvance(c: Config, n: nat, counters: seq<nat>, t: nat)
    requires c.Valid() && CountsDown(c, counters, n, t) && t == NthDue(c, n) && Turn(c, n) < c.numRanks
    ensures CountsDown(c, counters[Turn(c, n) := c.refreshPeriod], n + 1, t)
  {
    var counters' := counters[Turn(c, n) := c.refreshPeriod];
    forall i | 0 <= i < c.numRanks ensures counters'[i] == NextDue(c, i, n + 1) - t {
      RequestAdvances(c, i, n);
    }
  }

  lemma {:induction false} LoggedSnoc(c: Config, requests: seq<RefreshRequest>, x: RefreshRequest)
    requires Logged(c, requests) && x == RefreshRequest(NthDue(c, |requests|), Turn(c, |requests|))
    ensures Logged(c, requests + [x])
  {
  }

  lemma {:induction false} RequestMade(c: Config, requests: seq<RefreshRequest>, index: nat, counters: seq<nat>, t: nat)
    requires c.Valid() && Cadence(c, requests, index, counters, t) && index < c.numRanks && counters[index] == 0
    ensures CadenceAhead(c, requests + [RefreshRequest(t, index)], if index + 1 == c.numRanks then 0 else index + 1,
                  counters[index := c.refreshPeriod], t)
  {
    var n := |requests|;
    NextIsSoonest(c, index, n);
    CountersAdvance(c, n, counters, t);
    DueIncreases(c, n);
    LoggedSnoc(c, requests, RefreshRequest(t, index));
  }

  lemma {:induction false} RequestNotDue(c: Config, requests: seq<RefreshRequest>, index: nat, counters: seq<nat>, t: nat)
    requires c.Valid() && Cadence(c, requests, index, counters, t) && index < c.numRanks && counters[index] != 0
    ensures CadenceAhead(c, requests, index, counters, t)
  {
    NextIsSoonest(c, index, |requests|);
  }

  /** No counter is at zero when the next request lies ahead. */
  lemma {:induction false} AheadPositive(c: Config, requests: seq<RefreshRequest>, index: nat, counters: seq<nat>,
                                         t: nat, i: nat)
    requires c.Valid() && CadenceAhead(c, requests, index, counters, t) && i < c.numRanks
    ensures counters[i] > 0
  {
    NextIsSoonest(c, i, |requests|);
  }

  /** The refresh phase keeps the cadence. */
  lemma {:induction false} RefreshAhead(c: Config, s: State)
    requires c.Valid()
    requires Cadence(c, s.log.requests, s.ctrl.refreshRank, s.ctrl.refreshCountdown, s.clock)
    requires RefreshReady(c, s)
    ensures var s' := RefreshPhase(c, s);
            CadenceAhead(c, s'.log.requests, s'.ctrl.refreshRank, s'.ctrl.refreshCountdown, s.clock)
  {
    if s.ctrl.refreshCountdown[s.ctrl.refreshRank] == 0 {
      RequestMade(c, s.log.requests, s.ctrl.refreshRank, s.ctrl.refreshCountdown, s.clock);
    } else {
      RequestNotDue(c, s.log.requests, s.ctrl.refreshRank, s.ctrl.refreshCountdown, s.clock);
    }
  }

  lemma {:induction false} DecrementCadence(c: Config, requests: seq<RefreshRequest>, index: nat, counters: seq<nat>,
                                            counters': seq<nat>, t: nat)
    requires c.Valid() && CadenceAhead(c, requests, index, counters, t)
    requires |counters'| == |counters| && forall i :: 0 <= i < |counters| ==> counters'[i] == Dec(counters[i])
    ensures Cadence(c, requests, index, counters', t + 1)
  {
    forall i | 0 <= i < c.numRanks ensures counters'[i] == NextDue(c, i, |requests|) - (t + 1) {
      AheadPositive(c, requests, index, counters, t, i);
    }
  }

  lemma {:induction false} DueOrder(c: Config, m: nat, n: nat)
    requires c.Valid() && m < n
    ensures NthDue(c, m) < NthDue(c, n)
  {
    DueIncreases(c, n - 1);
    if m < n - 1 { DueOrder(c, m, n - 1); }
  }

  /** Every rank and round is some request. */
  lemma {:induction false} RequestOf(c: Config, i: nat, k: nat) returns (n: nat)
    requires c.Valid() && i < c.numRanks
    ensures Turn(c, n) == i && Round(c, n) == k
    decreases k, i
  {
    if i == 0 && k == 0 {
      n := 0;
    } else if i == 0 {
      var m := RequestOf(c, c.numRanks - 1, k - 1);
      n := m + 1;
    } else {
      var m := RequestOf(c, i - 1, k);
      n := m + 1;
    }
  }

  /** Up to the current cycle, rank i has been requested at exactly the cycles
      (i + 1) * stagger + k * period. */
  lemma {:induction false} RequestedExactlyWhenDue(c: Config, requests: seq<RefreshRequest>, index: nat,
                                                   counters: seq<nat>, t: nat, i: nat, time: nat)
    requires c.Valid() && Cadence(c, requests, index, counters, t) && i < c.numRanks && time < t
    ensures RefreshRequest(time, i) in requests <==> exists k: nat :: time == Due(c, i, k)
  {
    if RefreshRequest(time, i) in requests {
      var n :| 0 <= n < |requests| && requests[n] == RefreshRequest(time, i);
      assert time == Due(c, i, Round(c, n));
    }
    if k: nat :| time == Due(c, i, k) {
      var n := RequestOf(c, i, k);
      assert NthDue(c, n) == time;
      if n > |requests| { DueOrder(c, |requests|, n); }
      assert requests[n] == RefreshRequest(time, i);
    }
  }
}
