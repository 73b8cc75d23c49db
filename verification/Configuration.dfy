/** The system configuration: the values an .ini file supplies, the delay formulas
    derived from them, and the conditions under which the controller is run. */
module Configuration {

  datatype RowBufferPolicy = OpenPage | ClosePage
  datatype QueuingStructure = PerRank | PerRankPerBank
  datatype SchedulingPolicy = RankThenBankRoundRobin | BankThenRankRoundRobin
  datatype AddressScheme = Scheme1 | Scheme2 | Scheme3 | Scheme4 | Scheme5 | Scheme6 | Scheme7

  function Max(a: int, b: int): (m: int)
    ensures m >= a && m >= b && (m == a || m == b)
  {
    if a >= b then a else b
  }

  /** The product n * q, as repeated addition. */
  function Times(n: nat, q: nat): nat { if n == 0 then 0 else Times(n - 1, q) + q }

  datatype Config = Config(
    numChans: nat, numRanks: nat, numBanks: nat, numRows: nat, numCols: nat, busBytes: nat,
    CL: nat, AL: nat, BL: nat,
    tRAS: nat, tRCD: nat, tRRD: nat, tRC: nat, tRP: nat, tCCD: nat, tRTP: nat, tWTR: nat,
    tWR: nat, tRTRS: nat, tRFC: nat, tFAW: nat, tCKE: nat, tXP: nat, tCMD: nat,
    refreshPeriod: nat, refreshStagger: nat,  // REFRESH_PERIOD/tCK in cycles, and its share per rank
    transQueueDepth: nat, cmdQueueDepth: nat, totalRowAccesses: nat,
    policy: RowBufferPolicy, structure: QueuingStructure,
    scheduling: SchedulingPolicy, scheme: AddressScheme, lowPower: bool)
  {
    function RL(): nat { CL + AL }
    function WL(): nat { if RL() == 0 then 0xFFFF_FFFF else RL() - 1 }
    function ReadToPre(): nat { AL + BL / 2 + Max(tRTP, 2) - 2 }
    function WriteToPre(): nat { WL() + BL / 2 + tWR }
    function ReadToWrite(): int { RL() + BL / 2 + tRTRS - WL() }
    function ReadAutoPre(): nat { AL + tRTP + tRP }
    function WriteAutoPre(): nat { WL() + BL / 2 + tWR + tRP }
    function WriteToReadBank(): nat { WL() + BL / 2 + tWTR }
    function WriteToReadRank(): int { WL() + BL / 2 + tRTRS - RL() }
    function ColumnGap(): int { Max(tCCD, BL / 2) }

    /** Queues kept for each rank. */
    function Slots(): nat { if structure.PerRank? then 1 else numBanks }
    function Slot(bank: nat): nat { if structure.PerRank? then 0 else bank }

    /** What the simulator needs of its configuration and does not check itself.
        A command must leave the bus before the next one can be popped (tCMD); a burst
        takes at least one cycle; posted CAS never exceeds tRCD; write data waits at
        least one cycle; and every rank is due for refresh at least one cycle after
        the one before it. */
    predicate Valid() {
      && numRanks >= 1 && numBanks >= 1
      && tCMD == 1
      && BL >= 2
      && AL <= tRCD
      && CL + AL >= 2
      && tFAW >= 1
      && totalRowAccesses >= 1
      && refreshStagger >= 1 && Times(numRanks, refreshStagger) <= refreshPeriod
    }

    /** A rank activated right after a write to another rank cannot start its own
        write burst before that burst has left the data bus. */
    predicate WritesSpaced() {
      numRanks == 1 || tRCD - AL + 1 >= BL / 2
    }
  }
}
