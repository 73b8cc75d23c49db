/** Distances between the commands of a run: column commands, write bursts, and reads that
    follow writes. */
module Spacing {
  import opened Configuration
  import opened Packets
  import opened BankTiming
  import opened Scheduling
  import opened MemoryModel
  import opened Lockstep

  /** What any earlier command e and later command f of a run keep between them: column
      commands of one rank leave room for a burst; a read of a rank waits until the data of
      an earlier write has landed; and writes to any ranks leave room for a burst, if the
      configuration spaces ranks. */
  predicate Gap(c: Config, e: Issue, f: Issue) {
    && (e.packet.kind.IsColumn() && f.packet.kind.IsColumn() && e.packet.rank == f.packet.rank ==>
          f.time >= e.time + c.BL / 2)
    && (e.packet.kind.IsWrite() && f.packet.kind.IsRead() && e.packet.rank == f.packet.rank ==>
          f.time >= e.time + c.WL() + c.BL / 2)
    && (c.WritesSpaced() && e.packet.kind.IsWrite() && f.packet.kind.IsWrite() ==>
          f.time >= e.time + c.BL / 2)
  }

  predicate Gaps(c: Config, issued: seq<Issue>) {
    forall i, j :: 0 <= i < j < |issued| ==> Gap(c, issued[i], issued[j])
  }

  /** Commands were popped at distinct cycles before now. */
  predicate Past(issued: seq<Issue>, now: nat) {
    && (forall i :: 0 <= i < |issued| ==> issued[i].time < now)
    && (forall i, j :: 0 <= i < j < |issued| ==> issued[i].time < issued[j].time)
  }

  /** How a bank of rank r is kept from taking a column command too soon after e: by its
      entry times, by an auto-precharge that is still under way, or because enough time has
      passed already. */
  predicate Held(c: Config, t: int, e: Issue, r: nat, m: BankState) {
    var burst := e.time + c.BL / 2;
    var landed := e.time + c.WL() + c.BL / 2;
    && (e.packet.kind.IsColumn() && e.packet.rank == r ==>
          || t >= burst
          || (m.nextRead >= burst && m.nextWrite >= burst)
          || (m.mode.RowActive? && m.countdown > 0 && t + m.countdown >= burst))
    && (e.packet.kind.IsWrite() && e.packet.rank == r ==> t >= landed || m.nextRead >= landed)
    && (c.WritesSpaced() && e.packet.kind.IsWrite() && e.packet.rank != r ==>
          t >= burst || m.nextWrite >= burst || !Usable(m))
  }

  predicate RankHeld(c: Config, t: int, e: Issue, r: nat, banks: seq<BankState>) {
    forall b :: 0 <= b < |banks| ==> Held(c, t, e, r, banks[b])
  }

  predicate AllHeld(c: Config, table: Table, issued: seq<Issue>, t: int) {
    forall n, r :: 0 <= n < |issued| && 0 <= r < |table| ==> RankHeld(c, t, issued[n], r, table[r])
  }

  // ----- One bank -----

  lemma {:induction false} TickHeld(c: Config, t: int, e: Issue, r: nat, m: BankState, k: BankState)
    requires Held(c, t, e, r, m) && Synced(t, m, k)
    ensures Held(c, t + 1, e, r, TickBank(c, m))
  {
  }

  /** An earlier command still holds a bank after p is popped. */
  lemma {:induction false} IssueHeld(c: Config, e: Issue, p: BusPacket, now: nat, r: nat, b: nat, m: BankState, k: BankState)
    requires c.Valid() && e.packet.rank < c.numRanks && p.rank < c.numRanks && r < c.numRanks
    requires Held(c, now, e, r, m) && Synced(now, m, k) && e.time < now
    requires r == p.rank && (b == p.bank || p.kind.Refresh?) ==> BankReady(p, now, m)
    ensures Held(c, now, e, r, IssueBank(c, p, now, r, b, m))
  {
  }

  /** The command just popped holds every bank. */
  lemma {:induction false} NewHeld(c: Config, p: BusPacket, now: nat, r: nat, b: nat, m: BankState)
    requires c.Valid()
    requires r == p.rank && (b == p.bank || p.kind.Refresh?) ==> BankReady(p, now, m)
    ensures Held(c, now, Issue(now, p), r, IssueBank(c, p, now, r, b, m))
  {
  }

  lemma {:induction false} ReadyGap(c: Config, e: Issue, p: BusPacket, now: nat, m: BankState)
    requires Held(c, now, e, p.rank, m) && BankReady(p, now, m)
    ensures Gap(c, e, Issue(now, p))
  {
  }

  // ----- The whole table -----

  lemma {:induction false} TickAllHeld(c: Config, table: Table, ranks: seq<RankState>, down: seq<bool>, cmdBus: Option<Timed>,
                    issued: seq<Issue>, t: int, at: nat)
    requires InStep(c, table, ranks, down, cmdBus, t, at) && AllHeld(c, table, issued, t)
    ensures AllHeld(c, TickTable(c, table), issued, t + 1)
  {
    var table' := TickTable(c, table);
    forall n, r | 0 <= n < |issued| && 0 <= r < |table'|
      ensures RankHeld(c, t + 1, issued[n], r, table'[r])
    {
      assert RankHeld(c, t, issued[n], r, table[r]);
      assert RankInStep(c, t, table[r], Future(c, ranks[r].table, cmdBus, at, r));
      forall b | 0 <= b < |table'[r]| ensures Held(c, t + 1, issued[n], r, table'[r][b]) {
        TickHeld(c, t, issued[n], r, table[r][b], Future(c, ranks[r].table, cmdBus, at, r)[b]);
      }
    }
  }

  /** Popping a ready command keeps all distances and holds the next ones. */
  lemma {:induction false} PopGaps(c: Config, table: Table, ranks: seq<RankState>, down: seq<bool>, issued: seq<Issue>,
                p: BusPacket, now: nat, at: nat)
    requires c.Valid() && InStep(c, table, ranks, down, None, now, at)
    requires AllHeld(c, table, issued, now) && Gaps(c, issued) && Past(issued, now)
    requires forall n :: 0 <= n < |issued| ==> issued[n].packet.rank < c.numRanks
    requires InRange(c, p)
    requires if p.kind.Refresh? then forall b :: 0 <= b < c.numBanks ==> BankReady(p, now, table[p.rank][b])
             else BankReady(p, now, table[p.rank][p.bank])
    ensures Gaps(c, issued + [Issue(now, p)]) && Past(issued + [Issue(now, p)], now + 1)
    ensures AllHeld(c, IssueTable(c, p, now, table), issued + [Issue(now, p)], now)
  {
    var table' := IssueTable(c, p, now, table);
    var issued' := issued + [Issue(now, p)];
    forall n | 0 <= n < |issued| ensures Gap(c, issued[n], Issue(now, p)) {
      assert RankHeld(c, now, issued[n], p.rank, table[p.rank]);
      assert RankInStep(c, now, table[p.rank], ranks[p.rank].table);
      if !p.kind.Refresh? { ReadyGap(c, issued[n], p, now, table[p.rank][p.bank]); }
    }
    forall n, r | 0 <= n < |issued'| && 0 <= r < |table'|
      ensures RankHeld(c, now, issued'[n], r, table'[r])
    {
      assert RankInStep(c, now, table[r], ranks[r].table);
      assert n < |issued| ==> RankHeld(c, now, issued[n], r, table[r]);
      forall b | 0 <= b < |table'[r]| ensures Held(c, now, issued'[n], r, table'[r][b]) {
        assert Synced(now, table[r][b], ranks[r].table[b]);
        if n < |issued| {
          IssueHeld(c, issued[n], p, now, r, b, table[r][b], ranks[r].table[b]);
        } else {
          NewHeld(c, p, now, r, b, table[r][b]);
        }
      }
    }
  }

  /** Power management never shortens a hold. */
  lemma {:induction false} PowerHeld(c: Config, t: int, e: Issue, r: nat, now: nat, empty: bool, banks: seq<BankState>, down: bool,
                  k: RankState)
    requires |banks| > 0 && RankHeld(c, t, e, r, banks) && PowerOk(banks, down, k)
    requires PowerRank(c, now, empty, banks, down, k).Ok?
    ensures RankHeld(c, t, e, r, PowerRank(c, now, empty, banks, down, k).value.banks)
  {
    var banks' := PowerRank(c, now, empty, banks, down, k).value.banks;
    forall b | 0 <= b < |banks'| ensures Held(c, t, e, r, banks'[b]) {
      assert Held(c, t, e, r, banks[b]);
    }
  }
}
