/** Commands that must not overtake each other are issued in the order in which the
    controller accepted their transactions, and no accepted transaction is lost. */
module Ordering {
  import opened Configuration
  import opened Packets
  import opened Scheduling
  import opened AddressMapping
  import opened MemoryModel
  import opened Pairing

  type Queues = seq<seq<seq<BusPacket>>>

  predicate Numbered(accepted: seq<Transaction>) {
    forall k :: 0 <= k < |accepted| ==> accepted[k].id == k
  }

  /** p is the ACTIVATE or the column command of an accepted transaction. */
  predicate Known(c: Config, accepted: seq<Transaction>, p: BusPacket)
    requires GeometryOk(c)
  {
    p.id < |accepted|
    && p == if p.kind.Activate? then ActivatePacket(c, accepted[p.id]) else ColumnPacket(c, accepted[p.id])
  }

  /** One queue: known packets, in the order of acceptance. */
  predicate QueueInOrder(c: Config, accepted: seq<Transaction>, q: seq<BusPacket>)
    requires GeometryOk(c)
  {
    && (forall i :: 0 <= i < |q| ==> Known(c, accepted, q[i]))
    && (forall i, j :: 0 <= i < j < |q| ==> q[i].id <= q[j].id)
    && (forall i, j :: 0 <= i < j < |q| && q[i].kind.IsColumn() && q[j].kind.IsColumn() ==> q[i].id < q[j].id)
  }

  predicate QueuesInOrder(c: Config, accepted: seq<Transaction>, queues: Queues)
    requires GeometryOk(c)
  {
    forall r, s :: 0 <= r < |queues| && 0 <= s < |queues[r]| ==> QueueInOrder(c, accepted, queues[r][s])
  }

  /** The transactions still to be split, oldest first. */
  predicate TransactionsInOrder(accepted: seq<Transaction>, ts: seq<Transaction>) {
    && (forall j :: 0 <= j < |ts| ==> ts[j].id < |accepted| && accepted[ts[j].id] == ts[j])
    && (forall i, j :: 0 <= i < j < |ts| ==> ts[i].id < ts[j].id)
  }

  /** A transaction still to be split is younger than everything in the queue it goes to. */
  predicate BehindQueue(c: Config, queues: Queues, t: Transaction)
    requires SystemOk(c) && QueuesOk(c, queues)
  {
    forall p :: p in QueueFor(c, queues, t) ==> p.id < t.id
  }

  predicate AllBehind(c: Config, queues: Queues, ts: seq<Transaction>)
    requires SystemOk(c) && QueuesOk(c, queues)
  {
    forall j :: 0 <= j < |ts| ==> BehindQueue(c, queues, ts[j])
  }

  predicate Clash(c: Config, p: BusPacket, q: BusPacket) { p.rank == q.rank && Conflict(c, p, q) }

  /** A popped column command is older than every clashing one in a queue. */
  predicate OlderThanQueue(c: Config, e: BusPacket, q: seq<BusPacket>) {
    forall p :: p in q && p.kind.IsColumn() && Clash(c, e, p) ==> e.id < p.id
  }

  predicate OlderThanTransactions(c: Config, e: BusPacket, ts: seq<Transaction>)
    requires GeometryOk(c)
  {
    forall j :: 0 <= j < |ts| && Clash(c, e, ColumnPacket(c, ts[j])) ==> e.id < ts[j].id
  }

  /** A popped column command is older than everything it clashes with that still waits. */
  predicate Oldest(c: Config, e: BusPacket, queues: Queues, ts: seq<Transaction>)
    requires GeometryOk(c)
  {
    && (forall r, s :: 0 <= r < |queues| && 0 <= s < |queues[r]| ==> OlderThanQueue(c, e, queues[r][s]))
    && OlderThanTransactions(c, e, ts)
  }

  predicate AllOldest(c: Config, issued: seq<Issue>, queues: Queues, ts: seq<Transaction>)
    requires GeometryOk(c)
  {
    forall n :: 0 <= n < |issued| && issued[n].packet.kind.IsColumn() ==> Oldest(c, issued[n].packet, queues, ts)
  }

  predicate IdOrder(c: Config, p: BusPacket, q: BusPacket) {
    p.kind.IsColumn() && q.kind.IsColumn() && Clash(c, p, q) ==> p.id < q.id
  }

  /** Clashing column commands were popped in the order of acceptance. */
  predicate IssuedInOrder(c: Config, issued: seq<Issue>) {
    forall i, j :: 0 <= i < j < |issued| ==>
      IdOrder(c, issued[i].packet, issued[j].packet)
  }

  predicate IssuedKnown(c: Config, accepted: seq<Transaction>, issued: seq<Issue>)
    requires GeometryOk(c)
  {
    forall n :: 0 <= n < |issued| && issued[n].packet.kind.IsColumn() ==> Known(c, accepted, issued[n].packet)
  }

  // ----- No transaction is lost -----

  predicate InTransactions(ts: seq<Transaction>, k: nat) { exists j :: 0 <= j < |ts| && ts[j].id == k }

  predicate InQueue(q: seq<BusPacket>, k: nat) { exists i :: 0 <= i < |q| && q[i].kind.IsColumn() && q[i].id == k }

  predicate InQueues(queues: Queues, k: nat) {
    exists r, s :: 0 <= r < |queues| && 0 <= s < |queues[r]| && InQueue(queues[r][s], k)
  }

  predicate InIssued(issued: seq<Issue>, k: nat) {
    exists n :: 0 <= n < |issued| && issued[n].packet.kind.IsColumn() && issued[n].packet.id == k
  }

  predicate Covered(accepted: seq<Transaction>, ts: seq<Transaction>, queues: Queues, issued: seq<Issue>) {
    forall k :: 0 <= k < |accepted| ==> InTransactions(ts, k) || InQueues(queues, k) || InIssued(issued, k)
  }

  /** The invariant of this module. */
  predicate InOrder(c: Config, accepted: seq<Transaction>, ts: seq<Transaction>, queues: Queues, issued: seq<Issue>)
  {
    && SystemOk(c) && QueuesOk(c, queues)
    && Numbered(accepted)
    && TransactionsInOrder(accepted, ts)
    && QueuesInOrder(c, accepted, queues)
    && AllBehind(c, queues, ts)
    && IssuedKnown(c, accepted, issued)
    && AllOldest(c, issued, queues, ts)
    && IssuedInOrder(c, issued)
    && Covered(accepted, ts, queues, issued)
  }

  // ----- Accepting a transaction -----

  lemma {:induction false} AcceptInOrder(c: Config, accepted: seq<Transaction>, ts: seq<Transaction>, queues: Queues,
                                         issued: seq<Issue>, t: Transaction)
    requires InOrder(c, accepted, ts, queues, issued) && t.id == |accepted|
    ensures InOrder(c, accepted + [t], ts + [t], queues, issued)
  {
    hide Locate;
    var accepted' := accepted + [t];
    var ts' := ts + [t];
    forall r, s | 0 <= r < |queues| && 0 <= s < |queues[r]| ensures QueueInOrder(c, accepted', queues[r][s]) {
      assert QueueInOrder(c, accepted, queues[r][s]);
    }
    forall j | 0 <= j < |ts'| ensures BehindQueue(c, queues, ts'[j]) {
      assert j < |ts| ==> BehindQueue(c, queues, ts[j]);
      var l := Locate(c, ts'[j].addr);
      assert QueueInOrder(c, accepted, queues[l.rank][c.Slot(l.bank)]);
    }
    forall n | 0 <= n < |issued| && issued[n].packet.kind.IsColumn()
      ensures Oldest(c, issued[n].packet, queues, ts')
    {
      assert Oldest(c, issued[n].packet, queues, ts) && Known(c, accepted, issued[n].packet);
    }
    forall k | 0 <= k < |accepted'|
      ensures InTransactions(ts', k) || InQueues(queues, k) || InIssued(issued, k)
    {
      if k == |accepted| {
        assert ts'[|ts|].id == k;
      } else if InTransactions(ts, k) {
        var j :| 0 <= j < |ts| && ts[j].id == k;
        assert ts'[j].id == k;
      }
    }
  }

  // ----- Splitting a transaction -----

  lemma {:induction false} AppendInOrder(c: Config, accepted: seq<Transaction>, q: seq<BusPacket>, t: Transaction)
    requires GeometryOk(c) && QueueInOrder(c, accepted, q)
    requires t.id < |accepted| && accepted[t.id] == t
    requires forall p :: p in q ==> p.id < t.id
    ensures QueueInOrder(c, accepted, q + [ActivatePacket(c, t), ColumnPacket(c, t)])
  {
    var q' := q + [ActivatePacket(c, t), ColumnPacket(c, t)];
    forall i, j | 0 <= i < j < |q'|
      ensures q'[i].id <= q'[j].id && (q'[i].kind.IsColumn() && q'[j].kind.IsColumn() ==> q'[i].id < q'[j].id)
    {
      assert i < |q| ==> q[i] in q;
    }
  }

  lemma {:induction false} SplitBehind(c: Config, queues: Queues, ts: seq<Transaction>, i: nat, queues': Queues)
    requires SystemOk(c) && QueuesOk(c, queues) && QueuesOk(c, queues') && AllBehind(c, queues, ts)
    requires i < |ts| && i == FirstWithRoom(c, queues, ts, 0)
    requires forall j, k :: 0 <= j < k < |ts| ==> ts[j].id < ts[k].id
    requires var l := Locate(c, ts[i].addr);
             queues' == Update2(queues, l.rank, c.Slot(l.bank),
                                QueueFor(c, queues, ts[i]) + [ActivatePacket(c, ts[i]), ColumnPacket(c, ts[i])])
    ensures AllBehind(c, queues', RemoveAt(ts, i))
  {
    hide Locate;
    var rest := RemoveAt(ts, i);
    forall k | 0 <= k < |rest| ensures BehindQueue(c, queues', rest[k]) {
      var j := if k < i then k else k + 1;
      assert rest[k] == ts[j] && BehindQueue(c, queues, ts[j]);
      assert j < i ==> !HasRoom(c, QueueFor(c, queues, ts[j]), 2);
      forall p | p in QueueFor(c, queues', ts[j]) ensures p.id < ts[j].id {
        if p !in QueueFor(c, queues, ts[j]) {
          assert p == ActivatePacket(c, ts[i]) || p == ColumnPacket(c, ts[i]);
        }
      }
    }
  }

  lemma {:induction false} SplitOldest(c: Config, e: BusPacket, queues: Queues, ts: seq<Transaction>, i: nat, queues': Queues)
    requires SystemOk(c) && QueuesOk(c, queues) && Oldest(c, e, queues, ts) && i < |ts|
    requires var l := Locate(c, ts[i].addr);
             queues' == Update2(queues, l.rank, c.Slot(l.bank),
                                QueueFor(c, queues, ts[i]) + [ActivatePacket(c, ts[i]), ColumnPacket(c, ts[i])])
    ensures Oldest(c, e, queues', RemoveAt(ts, i))
  {
    hide Locate;
    forall r, s | 0 <= r < |queues'| && 0 <= s < |queues'[r]| ensures OlderThanQueue(c, e, queues'[r][s]) {
      assert OlderThanQueue(c, e, queues[r][s]);
      forall p: BusPacket | p in queues'[r][s] && p.kind.IsColumn() && Clash(c, e, p) ensures e.id < p.id {
        if p !in queues[r][s] {
          assert p == ColumnPacket(c, ts[i]);
        }
      }
    }
    var rest := RemoveAt(ts, i);
    forall k | 0 <= k < |rest| && Clash(c, e, ColumnPacket(c, rest[k])) ensures e.id < rest[k].id {
      assert rest[k] == ts[if k < i then k else k + 1];
    }
  }

  lemma {:induction false} SplitCovered(c: Config, accepted: seq<Transaction>, ts: seq<Transaction>, queues: Queues,
                                        issued: seq<Issue>, i: nat, queues': Queues)
    requires SystemOk(c) && QueuesOk(c, queues) && Covered(accepted, ts, queues, issued) && i < |ts|
    requires var l := Locate(c, ts[i].addr);
             queues' == Update2(queues, l.rank, c.Slot(l.bank),
                                QueueFor(c, queues, ts[i]) + [ActivatePacket(c, ts[i]), ColumnPacket(c, ts[i])])
    ensures Covered(accepted, RemoveAt(ts, i), queues', issued)
  {
    hide Locate;
    var rest := RemoveAt(ts, i);
    var l := Locate(c, ts[i].addr);
    var r0, s0 := l.rank, c.Slot(l.bank);
    forall k | 0 <= k < |accepted|
      ensures InTransactions(rest, k) || InQueues(queues', k) || InIssued(issued, k)
    {
      if InTransactions(ts, k) {
        var j :| 0 <= j < |ts| && ts[j].id == k;
        if j == i {
          var q := queues'[r0][s0];
          assert q[|q| - 1] == ColumnPacket(c, ts[i]);
          assert InQueue(q, k);
        } else {
          assert rest[if j < i then j else j - 1] == ts[j];
        }
      } else if InQueues(queues, k) {
        var r, s :| 0 <= r < |queues| && 0 <= s < |queues[r]| && InQueue(queues[r][s], k);
        var n :| 0 <= n < |queues[r][s]| && queues[r][s][n].kind.IsColumn() && queues[r][s][n].id == k;
        assert queues'[r][s][n] == queues[r][s][n];
        assert InQueue(queues'[r][s], k);
      }
    }
  }

  lemma {:induction false} SplitQueuesOk(c: Config, queues: Queues, t: Transaction)
    requires SystemOk(c) && QueuesOk(c, queues)
    ensures var l := Locate(c, t.addr);
            QueuesOk(c, Update2(queues, l.rank, c.Slot(l.bank),
                                QueueFor(c, queues, t) + [ActivatePacket(c, t), ColumnPacket(c, t)]))
  {
  }

  lemma {:induction false} SplitQueuesInOrder(c: Config, accepted: seq<Transaction>, queues: Queues, t: Transaction,
                                              queues': Queues)
    requires SystemOk(c) && QueuesOk(c, queues) && QueuesInOrder(c, accepted, queues) && BehindQueue(c, queues, t)
    requires t.id < |accepted| && accepted[t.id] == t
    requires var l := Locate(c, t.addr);
             queues' == Update2(queues, l.rank, c.Slot(l.bank),
                                QueueFor(c, queues, t) + [ActivatePacket(c, t), ColumnPacket(c, t)])
    ensures QueuesInOrder(c, accepted, queues')
  {
    hide Locate, QueueInOrder, ActivatePacket, ColumnPacket;
    var l := Locate(c, t.addr);
    assert QueueInOrder(c, accepted, queues[l.rank][c.Slot(l.bank)]);
    AppendInOrder(c, accepted, QueueFor(c, queues, t), t);
    forall r, s | 0 <= r < |queues'| && 0 <= s < |queues'[r]| ensures QueueInOrder(c, accepted, queues'[r][s]) {
      assert QueueInOrder(c, accepted, queues[r][s]);
    }
  }

  lemma {:induction false} RemoveInOrder(accepted: seq<Transaction>, ts: seq<Transaction>, i: nat)
    requires TransactionsInOrder(accepted, ts) && i < |ts|
    ensures TransactionsInOrder(accepted, RemoveAt(ts, i))
  {
    var rest := RemoveAt(ts, i);
    assert forall k :: 0 <= k < |rest| ==> rest[k] == ts[if k < i then k else k + 1];
  }

  lemma {:induction false} SplitInOrder(c: Config, accepted: seq<Transaction>, ts: seq<Transaction>, queues: Queues,
                                        issued: seq<Issue>, i: nat, queues': Queues)
    requires InOrder(c, accepted, ts, queues, issued)
    requires i < |ts| && i == FirstWithRoom(c, queues, ts, 0)
    requires var l := Locate(c, ts[i].addr);
             queues' == Update2(queues, l.rank, c.Slot(l.bank),
                                QueueFor(c, queues, ts[i]) + [ActivatePacket(c, ts[i]), ColumnPacket(c, ts[i])])
    ensures InOrder(c, accepted, RemoveAt(ts, i), queues', issued)
  {
    hide Locate, QueuesOk, QueuesInOrder, BehindQueue, Oldest, IssuedInOrder, IssuedKnown, Covered, Numbered,
         ActivatePacket, ColumnPacket, FirstWithRoom;
    SplitQueuesOk(c, queues, ts[i]);
    SplitBehind(c, queues, ts, i, queues');
    SplitCovered(c, accepted, ts, queues, issued, i, queues');
    SplitQueuesInOrder(c, accepted, queues, ts[i], queues');
    RemoveInOrder(accepted, ts, i);
    forall n | 0 <= n < |issued| && issued[n].packet.kind.IsColumn()
      ensures Oldest(c, issued[n].packet, queues', RemoveAt(ts, i))
    {
      assert Oldest(c, issued[n].packet, queues, ts);
      SplitOldest(c, issued[n].packet, queues, ts, i, queues');
    }
  }

  // ----- Popping a command -----

  lemma {:induction false} WithoutMembers(q: seq<BusPacket>, i: nat, pair: bool, p: BusPacket)
    requires i < |q| && (pair ==> i > 0) && p in Without(q, i, pair)
    ensures exists j :: 0 <= j < |q| && j != i && q[j] == p
  {
    var q' := Without(q, i, pair);
    var cut := if pair then i - 1 else i;
    var k :| 0 <= k < |q'| && q'[k] == p;
    assert q[if k < cut then k else k + (i + 1 - cut)] == p;
  }

  lemma {:induction false} WithoutInOrder(c: Config, accepted: seq<Transaction>, q: seq<BusPacket>, i: nat, pair: bool)
    requires GeometryOk(c) && QueueInOrder(c, accepted, q) && i < |q| && (pair ==> i > 0)
    ensures QueueInOrder(c, accepted, Without(q, i, pair))
  {
    hide Known, GeometryOk;
    var q' := Without(q, i, pair);
    var cut := if pair then i - 1 else i;
    assert forall k :: 0 <= k < |q'| ==> q'[k] == q[if k < cut then k else k + (i + 1 - cut)];
  }

  /** The queues of a sound choice stay in order. */
  lemma {:induction false} PopQueuesInOrder(c: Config, accepted: seq<Transaction>, ts: seq<Transaction>, q: QueueState,
                                            ch: Choice)
    requires SystemOk(c) && StateOk(c, q) && ChoiceOk(c, q, ch)
    requires QueuesInOrder(c, accepted, q.queues) && AllBehind(c, q.queues, ts)
    requires QueuesOk(c, QueuesAfter(c, q, ch))
    ensures QueuesInOrder(c, accepted, QueuesAfter(c, q, ch)) && AllBehind(c, QueuesAfter(c, q, ch), ts)
  {
    var queues' := QueuesAfter(c, q, ch);
    if ch.Take? {
      var packets := q.queues[ch.rank][ch.slot];
      assert QueueInOrder(c, accepted, packets);
      WithoutInOrder(c, accepted, packets, ch.index, ch.pair);
      forall j | 0 <= j < |ts| ensures BehindQueue(c, queues', ts[j]) {
        assert BehindQueue(c, q.queues, ts[j]);
        forall p | p in QueueFor(c, queues', ts[j]) ensures p in QueueFor(c, q.queues, ts[j]) {
          if p in Without(packets, ch.index, ch.pair) {
            WithoutMembers(packets, ch.index, ch.pair, p);
          }
        }
      }
    }
  }

  lemma {:induction false} PopOldest(c: Config, q: QueueState, ch: Choice, ts: seq<Transaction>, e: BusPacket)
    requires GeometryOk(c) && StateOk(c, q) && ChoiceOk(c, q, ch) && Oldest(c, e, q.queues, ts)
    ensures Oldest(c, e, QueuesAfter(c, q, ch), ts)
  {
    var queues' := QueuesAfter(c, q, ch);
    forall r, s | 0 <= r < |queues'| && 0 <= s < |queues'[r]| ensures OlderThanQueue(c, e, queues'[r][s]) {
      assert OlderThanQueue(c, e, q.queues[r][s]);
      if ch.Take? && r == ch.rank && s == ch.slot {
        forall p: BusPacket | p in queues'[r][s] ensures p in q.queues[r][s] {
          WithoutMembers(q.queues[r][s], ch.index, ch.pair, p);
        }
      }
    }
  }

  /** The popped column command is the oldest of those it clashes with. */
  lemma {:induction false} ChosenOldest(c: Config, v: View, accepted: seq<Transaction>, ts: seq<Transaction>,
                                        q: QueueState, ch: Choice)
    requires SystemOk(c) && ViewOk(c, v) && StateOk(c, q) && ChoiceOk(c, q, ch) && Sound(c, v, q, ch) && ch.Take?
    requires QueuesInOrder(c, accepted, q.queues) && AllBehind(c, q.queues, ts)
    requires q.queues[ch.rank][ch.slot][ch.index].kind.IsColumn()
    ensures Oldest(c, q.queues[ch.rank][ch.slot][ch.index], QueuesAfter(c, q, ch), ts)
  {
    var packets := q.queues[ch.rank][ch.slot];
    var e := packets[ch.index];
    var queues' := QueuesAfter(c, q, ch);
    QueuesAfterOk(c, q, ch);
    assert PacketOk(c, ch.rank, ch.slot, e);
    assert QueueInOrder(c, accepted, packets);
    forall r, s | 0 <= r < |queues'| && 0 <= s < |queues'[r]| ensures OlderThanQueue(c, e, queues'[r][s]) {
      forall p: BusPacket | p in queues'[r][s] && p.kind.IsColumn() && Clash(c, e, p) ensures e.id < p.id {
        var k :| 0 <= k < |queues'[r][s]| && queues'[r][s][k] == p;
        assert PacketOk(c, r, s, queues'[r][s][k]);
        assert r == ch.rank && s == ch.slot;
        WithoutMembers(packets, ch.index, ch.pair, p);
        var j :| 0 <= j < |packets| && j != ch.index && packets[j] == p;
        assert Conflict(c, packets[j], e);
      }
    }
    forall j | 0 <= j < |ts| && Clash(c, e, ColumnPacket(c, ts[j])) ensures e.id < ts[j].id {
      assert BehindQueue(c, q.queues, ts[j]);
      assert e in QueueFor(c, q.queues, ts[j]);
    }
  }

  lemma {:induction false} PopCovered(c: Config, accepted: seq<Transaction>, ts: seq<Transaction>, q: QueueState,
                                      ch: Choice, issued: seq<Issue>, e: Issue)
    requires StateOk(c, q) && ChoiceOk(c, q, ch) && Chosen(c, q, ch) == Some(e.packet)
    requires ch.Take? && ch.pair ==> q.queues[ch.rank][ch.slot][ch.index - 1].kind.Activate?
    requires Covered(accepted, ts, q.queues, issued)
    ensures Covered(accepted, ts, QueuesAfter(c, q, ch), issued + [e])
  {
    var queues' := QueuesAfter(c, q, ch);
    var issued' := issued + [e];
    forall k | 0 <= k < |accepted|
      ensures InTransactions(ts, k) || InQueues(queues', k) || InIssued(issued', k)
    {
      if InIssued(issued, k) {
        var n :| 0 <= n < |issued| && issued[n].packet.kind.IsColumn() && issued[n].packet.id == k;
        assert issued'[n] == issued[n];
      } else if InQueues(q.queues, k) {
        var r, s :| 0 <= r < |q.queues| && 0 <= s < |q.queues[r]| && InQueue(q.queues[r][s], k);
        var n :| 0 <= n < |q.queues[r][s]| && q.queues[r][s][n].kind.IsColumn() && q.queues[r][s][n].id == k;
        if ch.Take? && r == ch.rank && s == ch.slot {
          if n == ch.index {
            assert issued'[|issued|].packet == q.queues[r][s][n];
          } else {
            var cut := if ch.pair then ch.index - 1 else ch.index;
            var n' := if n < cut then n else n - (ch.index + 1 - cut);
            assert queues'[r][s][n'] == q.queues[r][s][n];
            assert InQueue(queues'[r][s], k);
          }
        } else {
          assert InQueue(queues'[r][s], k);
        }
      }
    }
  }

  /** Popping a sound choice keeps everything in order. */
  lemma {:induction false} PopInOrder(c: Config, v: View, accepted: seq<Transaction>, ts: seq<Transaction>,
                                      q: QueueState, ch: Choice, issued: seq<Issue>, e: Issue)
    requires InOrder(c, accepted, ts, q.queues, issued)
    requires ViewOk(c, v) && StateOk(c, q) && ChoiceOk(c, q, ch) && Sound(c, v, q, ch)
    requires Chosen(c, q, ch) == Some(e.packet)
    ensures InOrder(c, accepted, ts, QueuesAfter(c, q, ch), issued + [e])
  {
    hide Locate, QueuesAfter, Numbered, Covered, AllBehind;
    var queues' := QueuesAfter(c, q, ch);
    var issued' := issued + [e];
    QueuesAfterOk(c, q, ch);
    PopQueuesInOrder(c, accepted, ts, q, ch);
    PopCovered(c, accepted, ts, q, ch, issued, e);
    if e.packet.kind.IsColumn() {
      ChosenOldest(c, v, accepted, ts, q, ch);
      assert QueueInOrder(c, accepted, q.queues[ch.rank][ch.slot]);
    }
    forall n | 0 <= n < |issued| && issued[n].packet.kind.IsColumn()
      ensures Oldest(c, issued[n].packet, queues', ts)
      ensures IdOrder(c, issued[n].packet, e.packet)
    {
      assert Oldest(c, issued[n].packet, q.queues, ts);
      PopOldest(c, q, ch, ts, issued[n].packet);
      assert e.packet.kind.IsColumn() ==>
               OlderThanQueue(c, issued[n].packet, q.queues[ch.rank][ch.slot])
               && e.packet in q.queues[ch.rank][ch.slot];
    }
  }
}
