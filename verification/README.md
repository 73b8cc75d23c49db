# Verified models of a memory-system simulator and a bit-vector library

The repository simulates a processor and its main memory. This project models three parts of it and proves what they promise.

**The memory system** (`dramsim2/`, with the host side in `csrc/mm*.cc`). A controller keeps a bank table of its own, pops at most one command a cycle from command queues, and puts it on a bus. The rank that receives it one cycle later checks it against a second, independently updated table, and the simulator exits on any disagreement. Write data, read data, refreshes and power-down travel through separate countdowns.

- `MemoryModel.dfy` is the whole channel as a state machine over the phases of a cycle; every exit of the simulator is a `Fault`, and a run is any sequence of requests and cycles.
- `CommandQueue.dfy`, `Bank.dfy`, `Rank.dfy`, `MemoryController.dfy` and `MemorySystem.dfy` are the classes, with the loops of the original; each method is proved equal to its part of the state machine.
- `Pairing`, `Lockstep`, `Spacing`, `ActivateWindow`, `WritePath`, `ReadPath`, `Ordering`, `Refinement`, `Conservation`, `RefreshCadence` and `SystemInvariant` hold the invariant, `Runs.dfy` proves it for every run, and `RunTheorems.dfy`, `CommandProtocol.dfy`, `CommandTiming.dfy`, `PowerTiming.dfy`, `RowAccesses.dfy`, `ReturnOrder.dfy`, `SubmissionOrder.dfy`, `RefreshAccount.dfy` and `Collisions.dfy` draw the conclusions: no exit is reachable, reads return the last accepted write, commands are legal, ordered and spaced, ranks sleep undisturbed and wake in time, open rows are closed in time, reads are conserved and each callback is for its own read, requests are accepted in order exactly as long as none overtakes, refreshes are requested on time and every request is accounted for.
- `RankTiming.dfy` says what a rank refuses, exactly, from what it has carried out before; `ControllerTiming.dfy` says the same of the controller's table, command by command. `RefreshDrain.dfy` and `RoundRobin.dfy` say which command a pop sends, without the searches that find it.
- `CollisionExample.dfy` shows the one condition on the configuration that is not a matter of course to be necessary, and `RefreshLoss.dfy` that refresh requests can be lost.
- `MagicMemory.dfy` (no timing) and `TimedMemory.dfy` (on top of the memory system) are the two memories the emulator uses.

**Bit vectors** (`chisel/csrc/`). `WordArithmetic`, `WordShifts` and `WordProduct` are the loops over 64-bit words, in place on arrays, proved against the numbers the words stand for, for every number of words. `HexText` and `RadixText` are the printer and the two parsers, with their round trips.

**The disassembler's table** (`csrc/disasm.cc`). `Disassembler.dfy` proves that hash chains agree with an ordered scan.

`dafny verify dfyconfig.toml` checks everything.

## The configuration

`Config.Valid` and `GeometryOk` state what the simulator needs of its configuration and does not check: `tCMD == 1`, `BL >= 2`, `AL <= tRCD`, `CL + AL >= 2`, `tFAW >= 1`, `TOTAL_ROW_ACCESSES >= 1`, at least one rank and one bank, both numbers powers of two, a stagger of at least one cycle between the refreshes of the ranks, and a row that holds at least one transaction. For safety nothing is needed of `tRP`, `tRFC` or of the depth of the command queues: a bank with a precharge or refresh time of zero never becomes idle again, and a queue too shallow for two commands never takes a transaction. The gap that auto-precharge opens between the two tables (the controller shows an open row, the rank an idle bank) needs no relation between `tRTP`, `tRP` and `BL` either, because no column command without an ACTIVATE of its own can be waiting then.

Only the absence of a collision of write data depends on more: with several ranks, `tRCD - AL + 1 >= BL / 2` (`Config.WritesSpaced`). `CollisionReachable` is a run of a configuration without it that ends in a collision, and `CollisionExactly` says, for every reachable state of every configuration, exactly when the next cycle ends in one. That every configuration without the condition has such a run is not claimed: queue depths, refreshes and power-down can prevent it.

## Where the code does less than its comments or names suggest

- `dat_from_str` refuses characters that are not digits of the radix, but compares with `>`: a digit equal to the radix is accepted (`AcceptsForeignDigit`).
- The generic `ltu` is less-than only if the difference fits half the range (`LtuExactly`); for a width that fills its words it is wrong for numbers with the top bit set (`LtuWrong`).
- With one queue per bank under open page, the scan for a bank to precharge keeps its start in two variables of type `bool`, so it ends at rank and bank 0 or 1 (`PrechargeStop`, which the model follows). It looks at every bank if and only if it starts at rank and bank 0 or 1 (`ScannedAllExactly`); from any other start it can miss a bank that may be closed (`MissesBank`); and the second of two idle cycles in a row never does (`SecondIdleLooksEverywhere`).
- `needRefresh` keeps one rank, so a request overwrites one that is still waiting: that one is lost for good, exactly if the flag is set just before the next due cycle (`LostExactly`), and there are configurations in which that happens (`RefreshLost`).
- A request handed over while there is room is accepted at once, ahead of requests that wait: it joins the end of the line exactly if it overtakes nothing (`SubmitExactly`, `Overtaken`).
- The timed memory answers a load from the buffer as it is when the read completes, so it can return a line that never was stored (`HalfWrittenAnswer`, `LineSeen`).
- `mm_t::init` does not check that the size is a multiple of the line size; `LinesInBounds` shows that this is exactly what keeps every line inside the memory.

## Model

| member | source | states |
|---|---|---|
| Runs.RunSafe | dramsim2/MemorySystem.cpp:211-237 | for every valid configuration, both page policies, both queue structures and every sequence of requests and cycles, the run keeps the invariant, or ends in a write data collision and then only if writes to different ranks are not spaced |
| Runs.CycleSafe | dramsim2/MemoryController.cpp:140-675 | one cycle from any state of the invariant: no refused command, no command bus collision, no queue overflow, no failed power-up or power-down, no index out of range |
| Runs.SubmitSafe | dramsim2/MemorySystem.cpp:175-191 | a request between cycles keeps the invariant |
| Runs.InitInv | dramsim2/MemoryController.cpp:60-97 | the initial state has the invariant |
| RunTheorems.NoExit | dramsim2/MemoryController.cpp:209-246 | with spaced writes no run exits at all |
| RunTheorems.ReadsReturnLastWrite | dramsim2/MemoryController.cpp:191-246 | every returned read carries the data of the last write to its address accepted before it, or the tracer value, for requests on one channel at aligned addresses |
| RunTheorems.AnswersAreFaithful | dramsim2/Rank.cpp:108-115 | the same by cells, for all addresses, aligned or not |
| RunTheorems.CommandsInOrder | dramsim2/CommandQueue.cpp:246-292 | column commands to one bank (open page: to one row) are popped in the order of acceptance, and each is the command of an accepted transaction |
| RunTheorems.CommandsSpaced | dramsim2/MemoryController.cpp:301-400 | any two column commands to a rank are at least BL/2 cycles apart, a read waits for an earlier write to its rank to land, spaced writes leave room for a burst |
| RunTheorems.FourActivateWindow | dramsim2/CommandQueue.cpp:169-182 | any five successive ACTIVATEs to a rank span at least tFAW cycles |
| RunTheorems.QueuesWellPaired | dramsim2/CommandQueue.cpp:185-744 | queues are ACTIVATE/column pairs plus at most one lone column command a bank, which waits for the open row, with a row-access count of zero |
| RunTheorems.DroppedWithItsColumn | dramsim2/CommandQueue.cpp:400-416 | the packet after a queued ACTIVATE is the column command of the same transaction |
| RunTheorems.ReadDataKept | dramsim2/Rank.cpp:292-336 | read data is never overwritten on a rank's bus |
| RunTheorems.ReadsConserved | dramsim2/MemoryController.cpp:512-520 | for every address, pending reads equal the reads in queues, on the bus, in ranks and in the return queue; every accepted read is unsplit, pending or called back for |
| RunTheorems.RefreshesOnTime | dramsim2/MemoryController.cpp:93-97 | rank i is requested for refresh at exactly the cycles (i+1)*stagger + k*period; the round-robin index is that of the next rank due and no counter passes below zero |
| CommandProtocol.RunProtocol | dramsim2/CommandQueue.cpp:870-935 | the history of commands is legal by itself: ACTIVATE only for a closed bank, column commands only for the open row and, under close page, only for the row their own ACTIVATE opened, PRECHARGE only for an open bank, REFRESH only with all banks closed |
| CommandProtocol.PopLegal | dramsim2/MemoryController.cpp:270-285 | a popped command may follow the commands before it |
| CommandProtocol.PopLones | dramsim2/CommandQueue.cpp:190-292 | popping keeps every lone column command behind its own ACTIVATE |
| CommandTiming.CommandsApart | dramsim2/MemoryController.cpp:287-453 | in every run: column commands at least tRCD - AL after the ACTIVATE of their bank, PRECHARGE at least tRAS after it and the read or write time after an access, ACTIVATE and REFRESH at least the rest time after a PRECHARGE, an auto-precharge or a REFRESH, power-down or not; without power-down ACTIVATEs of a bank at least tRC and of a rank at least tRRD apart; under open page, or close page with rests that are long enough, any two column commands of a rank at least max(tCCD, BL/2), the read-to-write or the write-to-read time apart |
| CommandTiming.IssueKept | dramsim2/MemoryController.cpp:287-453 | a pop keeps what the table remembers of earlier commands |
| CommandTiming.TickKept | dramsim2/MemoryController.cpp:144-177 | so does the state-change countdown |
| CommandTiming.PowerKept | dramsim2/MemoryController.cpp:554-592 | and power management, which sets activation times outright |
| PowerTiming.SleepsUndisturbed | dramsim2/MemoryController.cpp:554-592 | in every run: a rank sleeps and wakes in turn and sleeps for at least tCKE cycles, no command is popped for it while it sleeps, and no ACTIVATE or REFRESH less than tXP cycles after it was woken |
| PowerTiming.SleepsAndWakesExactly | dramsim2/MemoryController.cpp:554-592 | in every cycle of every run a rank goes to sleep if and only if its queues are empty, its refresh flag is clear and all its banks are idle, and wakes if and only if it is needed and has slept for tCKE cycles: in the first cycle that permits it |
| PowerTiming.FlagExactly | dramsim2/MemoryController.cpp:250-265 | the refresh flag of a rank is set when it is due, or asleep and due within tXP, and stays until a REFRESH reaches it |
| RankTiming.CarriedOutExactly | dramsim2/Rank.cpp:87-270 | after any history, a rank carries out a command if and only if the rows allow it and it keeps its documented distance from every earlier task that no ACTIVATE, REFRESH or wake-up has made it forget; otherwise it refuses it |
| RankTiming.SleepsExactly | dramsim2/Rank.cpp:338-354 | after any history a rank may go to sleep if and only if all rows are closed |
| RankTiming.WakesExactly | dramsim2/Rank.cpp:357-378 | and be woken if and only if it has been asleep for tCKE cycles |
| RankTiming.PerformTimes | dramsim2/Rank.cpp:98-106 | a task moves the first cycle for another command to the later of its distance and what held before, or, if it renews the time, to its distance |
| ControllerTiming.IssuableAfter | dramsim2/MemoryController.cpp:287-453 | after a command is popped, another one may be issued if and only if the row fits, it keeps the documented distance from the popped one, across ranks too, and from what came before, and its rank and bank have ACTIVATEs and accesses left |
| ControllerTiming.ClosesIn | dramsim2/MemoryController.cpp:144-177 | a bank that a command closes is idle after exactly tRP, tRFC or the time to the auto-precharge and tRP |
| RowAccesses.RowsClosedInTime | dramsim2/CommandQueue.cpp:870-935 | in every run a row is accessed at most TOTAL_ROW_ACCESSES times besides the access it was opened for, and the counters tell how often it was |
| RefreshAccount.RequestsAccounted | dramsim2/CommandQueue.cpp:235-243 | in every run: each REFRESH is for the rank of the latest request, with a request between any two; requests are those answered, those lost to the next one and at most one waiting |
| RefreshAccount.LostExactly | dramsim2/CommandQueue.cpp:960-964 | when the next rank is due, the last request has or will ever get a REFRESH if and only if the waiting flag is not set just before that cycle, however the run goes on |
| RefreshLoss.RefreshLost | dramsim2/CommandQueue.cpp:960-964 | with one rank due every cycle and tRFC of at least 5, four cycles lose a request |
| RefreshLoss.OverdueHurried | dramsim2/MemoryController.cpp:250-260 | there is such a configuration |
| RefreshAccount.LossIsFinal | dramsim2/CommandQueue.cpp:960-964 | later events of a run change nothing about an earlier request |
| RefreshAccount.PopRefresh | dramsim2/CommandQueue.cpp:235-243 | a pop sends a REFRESH only for the rank that waits for one |
| Collisions.CollisionExactly | dramsim2/MemoryController.cpp:230-235 | from a reachable state the next cycle exits if and only if two writes were popped less than BL/2 cycles apart and the data of the later one is due |
| CollisionExample.CollisionReachable | dramsim2/MemoryController.cpp:377-390 | without spaced writes, a concrete configuration and run end in a data bus collision |
| SystemInvariant.PopGood | dramsim2/MemoryController.cpp:267-475 | popping a command, updating the table and using the bus keeps the invariant |
| SystemInvariant.CommandGood | dramsim2/MemoryController.cpp:180-189 | the command on the bus is accepted by its rank |
| SystemInvariant.DataGood | dramsim2/MemoryController.cpp:191-206 | write data lands in its bank |
| SystemInvariant.WriteGood | dramsim2/MemoryController.cpp:209-246 | the only exit of the write queue is the collision |
| SystemInvariant.SplitGood | dramsim2/MemoryController.cpp:478-547 | splitting a transaction never overflows a queue |
| SystemInvariant.PowerGood | dramsim2/MemoryController.cpp:550-593 | power management never fails |
| SystemInvariant.RanksGood | dramsim2/Rank.cpp:292-336 | updating the ranks keeps the invariant |
| SystemInvariant.ReturnGood | dramsim2/MemoryController.cpp:638-669 | returning read data keeps the invariant |
| BankTiming.IssueSynced | dramsim2/MemoryController.cpp:287-453 | popping a ready command keeps the controller's entry of every bank an over-approximation of the rank's, one bus cycle later |
| BankTiming.TickSynced | dramsim2/MemoryController.cpp:144-177 | so does a step of the state-change countdown |
| BankTiming.ReadyAllowed | dramsim2/Rank.cpp:87-270 | a command the controller finds ready is allowed by the rank when it arrives |
| Lockstep.PopInStep | dramsim2/MemoryController.cpp:287-475 | lockstep of all banks of all ranks after a pop |
| Lockstep.DeliverInStep | dramsim2/Rank.cpp:73-285 | the delivered command is carried out and lockstep kept |
| Lockstep.PowerRankInStep | dramsim2/MemoryController.cpp:554-592 | powering a rank down or up neither fails nor breaks lockstep |
| Pairing.DecideSound | dramsim2/CommandQueue.cpp:185-744 | whatever the scheduler chooses is issuable, obstructed by nothing, and never strands a column command whose ACTIVATE was sent |
| Pairing.PopPairing | dramsim2/CommandQueue.cpp:162-807 | a pop and its table update keep every queue paired |
| Pairing.LoneUnique | dramsim2/CommandQueue.cpp:246-292 | a bank has at most one lone column command |
| Scheduling.IdleExactly | dramsim2/CommandQueue.cpp:162-807 | pop finds nothing if and only if no refresh-phase command, no packet of any queue and, under open page, no bank within the rounds of the precharge scan was eligible |
| Scheduling.IdleMeansNothingEligible | dramsim2/CommandQueue.cpp:246-292 | and then no bank at all may be closed, if the scan starts where its variables can hold it |
| Scheduling.ScannedAllExactly | dramsim2/CommandQueue.cpp:703-743 | the precharge scan looks at every bank if and only if there is one queue per rank or it starts at rank and bank 0 or 1 |
| Scheduling.MissesBank | dramsim2/CommandQueue.cpp:703-743 | from every other start there are queues and a table for which pop finds nothing although the bank the scan ends at may be closed |
| Scheduling.IdleLeavesStart | dramsim2/CommandQueue.cpp:703-743 | a scan that finds nothing leaves a start that its variables can hold |
| Scheduling.SecondIdleLooksEverywhere | dramsim2/CommandQueue.cpp:703-743 | so the second of two idle cycles in a row means that no bank may be closed |
| Scheduling.ScanStep | dramsim2/CommandQueue.cpp:251-288 | a fruitless iteration of the do-while scan moves to the next queue with one round fewer left, until it is back at its start |
| RefreshDrain.RefreshSentExactly | dramsim2/CommandQueue.cpp:361-367 | a pop sends a REFRESH if and only if one waits, no bank of its rank is open or has a next ACTIVATE in the future, and bank 0 is not powered down; it goes to that rank and nothing waits afterwards |
| RefreshDrain.RowFinished | dramsim2/CommandQueue.cpp:308-338 | with the first open bank in the way, the first packet for its row is popped if it is a column command that is due |
| RefreshDrain.RowClosed | dramsim2/CommandQueue.cpp:340-347 | under open page the bank is precharged, and its accesses counted anew, if nothing continues its row and that is due |
| RefreshDrain.NothingElse | dramsim2/CommandQueue.cpp:370-378 | the queues of the rank that waits give nothing else |
| RoundRobin.ServesNearest | dramsim2/CommandQueue.cpp:246-292 | the packet popped is the first of its queue that may go, and no queue nearer in the round robin has one, unless its rank waits for a refresh |
| RoundRobin.PickableExactly | dramsim2/CommandQueue.cpp:380-397 | what may go, by policy and structure, for packets of one bank and row |
| RoundRobin.GoesOn | dramsim2/CommandQueue.cpp:755-797 | afterwards the round robin goes on by one place, or with posted CAS stays every other time |
| RoundRobin.ClosesNearest | dramsim2/CommandQueue.cpp:436-479 | when nothing may go, the nearest bank of the scan that may be closed is precharged: one whose row nothing waits for, or one accessed as often as allowed |
| Ordering.PopInOrder | dramsim2/CommandQueue.cpp:370-420 | popping keeps every queue, the transactions waiting and the history in order of acceptance, and loses nothing |
| Ordering.SplitInOrder | dramsim2/MemoryController.cpp:478-547 | taking the first transaction with room overtakes nothing it clashes with |
| Refinement.PopSameWrites | dramsim2/CommandQueue.cpp:370-420 | when a read is popped, the writes popped so far to its cell are exactly those accepted before it |
| Refinement.PopFaithful | dramsim2/Rank.cpp:108-115 | the storage already holds the value a popped read is to return |
| WritePath.ReadSeesLastWrite | dramsim2/MemoryController.cpp:272-279 | no write data for a rank is in flight when a read of it is popped |
| WritePath.QueueStep | dramsim2/MemoryController.cpp:209-246 | write data goes on the bus WL cycles after its command, in order |
| ReadPath.UpdateAnswers | dramsim2/Rank.cpp:292-336 | answers leave a rank in order, RL cycles after the read arrived, for BL/2 cycles |
| Spacing.PopGaps | dramsim2/MemoryController.cpp:301-400 | popping a ready command keeps all distances |
| ActivateWindow.PopWindows | dramsim2/CommandQueue.cpp:801-804 | the countdown list holds exactly the ACTIVATEs of the last tFAW cycles |
| Conservation.ReturnFound | dramsim2/MemoryController.cpp:648-668 | the returned read is always found among the pending ones |
| Conservation.ReturnConserved | dramsim2/MemoryController.cpp:638-669 | and is answered by exactly one callback |
| ReturnOrder.CallbackForOwnRead | dramsim2/MemoryController.cpp:638-669 | in every cycle of every run, the pending read found by its address is the very read, by place in the order of acceptance, whose data is at the head of the return queue |
| ReturnOrder.RunMatched | dramsim2/MemoryController.cpp:512-520 | in every run and for every address, the pending reads are in order the reads in the return queue, in the rank, on the bus and in the command queue |
| ReturnOrder.FindsOwnRead | dramsim2/MemoryController.cpp:648-668 | with that, the first pending read of the address is the one the data belongs to |
| SubmissionOrder.SubmitExactly | dramsim2/MemorySystem.cpp:175-191 | a request joins the end of the accepted and waiting ones if and only if it is not accepted while a different one waits |
| SubmissionOrder.AcceptedInOrder | dramsim2/MemorySystem.cpp:223-228 | in every run in which no request does that, the accepted and then the waiting requests are those handed over, in their order |
| SubmissionOrder.Overtaken | dramsim2/MemorySystem.cpp:175-191 | with room for one transaction: a is accepted, b waits, and after a cycle x is accepted ahead of b |
| SubmissionOrder.CycleAdmits | dramsim2/MemorySystem.cpp:223-228 | a cycle accepts the first waiting request if and only if there is room |
| SubmissionOrder.WaitingDrains | dramsim2/MemorySystem.cpp:223-228 | over any number of cycles, as many waiting requests are accepted, in order, as there were cycles with room, until none is left |
| SubmissionOrder.SplitsExactly | dramsim2/MemoryController.cpp:478-547 | the first transaction whose queue has room for two commands is split, and only that one: what leaves, what joins which queue and what becomes pending |
| SubmissionOrder.SplitsNone | dramsim2/MemoryController.cpp:478-547 | if no queue has room, nothing changes |
| RefreshCadence.RequestedExactlyWhenDue | dramsim2/MemoryController.cpp:250-260 | requests were made at the due cycles and no others |
| AddressMapping.LocateAddressOf | dramsim2/AddressMapping.cpp:36-297 | in every scheme each in-range location has an aligned address that maps to it |
| AddressMapping.AddressOfLocate | dramsim2/AddressMapping.cpp:36-297 | and each aligned address of the memory is determined by its location: together a bijection |
| AddressMapping.LocateWritten | dramsim2/AddressMapping.cpp:36-297 | in each scheme the fields of the location are the lowest digits of the transaction number of the address, in the order of the scheme and each below its size |
| AddressMapping.WrittenUnique | dramsim2/AddressMapping.cpp:36-297 | and no other location is |
| AddressMapping.MapAddress | dramsim2/AddressMapping.cpp:36-297 | the shift-and-xor code computes the location, whose fields are the digits of the address, for all seven schemes |
| AddressMapping.TakeField | dramsim2/AddressMapping.cpp:93-96 | a value xor its own high part is its low part |
| Powers.Log2 | dramsim2/SystemConfiguration.h:204-216 | the loop computes the logarithm rounded up |
| Powers.IsPow2Exact | dramsim2/SystemConfiguration.h:217-220 | the test accepts powers of two and nothing else |
| CommandQueues.CommandQueue.Pop | dramsim2/CommandQueue.cpp:162-807 | the imperative pop, in all four branches, is the specification function, of which RefreshDrain and RoundRobin say what it sends |
| CommandQueues.CommandQueue.RefreshPhase | dramsim2/CommandQueue.cpp:190-240 | draining a rank for refresh, as RefreshDrain states it |
| CommandQueues.CommandQueue.ScanQueues | dramsim2/CommandQueue.cpp:246-292 | the do-while over queues |
| CommandQueues.CommandQueue.ScanBanks | dramsim2/CommandQueue.cpp:436-479 | the do-while over banks to precharge |
| CommandQueues.CommandQueue.AgeWindows | dramsim2/CommandQueue.cpp:169-182 | the countdown of all windows |
| CommandQueues.CommandQueue.Finish | dramsim2/CommandQueue.cpp:755-804 | posted CAS, round robin and the new window |
| CommandQueues.CommandQueue.IsIssuable | dramsim2/CommandQueue.cpp:870-935 | the issue conditions of every kind of command |
| CommandQueues.CommandQueue.Enqueue | dramsim2/CommandQueue.cpp:129-158 | the packet goes to the end of its queue; false on overflow |
| CommandQueues.CommandQueue.HasRoomFor | dramsim2/CommandQueue.cpp:810-831 | the room test on an unsigned difference |
| CommandQueues.CommandQueue.IsEmpty | dramsim2/CommandQueue.cpp:938-957 | all queues of the rank are empty |
| CommandQueues.CommandQueue.NeedRefresh | dramsim2/CommandQueue.cpp:960-964 | the rank is marked for refresh |
| CommandQueues.CommandQueue.NextRankAndBank | dramsim2/CommandQueue.cpp:966-1001 | both round-robin policies |
| Banks.SearchForRow | dramsim2/Bank.cpp:71-85 | the first entry of the row in the list |
| Banks.ReadBank | dramsim2/Bank.cpp:87-108 | the stored value, or the tracer value |
| Banks.WriteBank | dramsim2/Bank.cpp:110-148 | exactly one cell changes; fails for a column out of range |
| Ranks.Rank.ReceiveFromBus | dramsim2/Rank.cpp:73-285 | the checks, table updates, reads and writes of every packet kind; with RankTiming, what is refused from then on |
| Ranks.Rank.Update | dramsim2/Rank.cpp:292-336 | the data bus and the return countdowns |
| Ranks.Rank.PowerDown | dramsim2/Rank.cpp:338-354 | refused unless every bank is idle |
| Ranks.Rank.PowerUp | dramsim2/Rank.cpp:357-378 | refused unless powered down for long enough; with RankTiming, no ACTIVATE for tXP cycles |
| MemoryControllers.MemoryController.Update | dramsim2/MemoryController.cpp:140-675 | the whole update is what the state machine does after the ranks, exits included |
| MemoryControllers.MemoryController.UpdateBankStates | dramsim2/MemoryController.cpp:144-177 | the state-change countdowns |
| MemoryControllers.MemoryController.DeliverCommand | dramsim2/MemoryController.cpp:180-189 | the command bus |
| MemoryControllers.MemoryController.DeliverData | dramsim2/MemoryController.cpp:191-206 | the data bus |
| MemoryControllers.MemoryController.SendWriteData | dramsim2/MemoryController.cpp:209-246 | the write queue |
| MemoryControllers.MemoryController.RequestRefresh | dramsim2/MemoryController.cpp:248-265 | refresh requests and early wake-up |
| MemoryControllers.MemoryController.PutOnBus | dramsim2/MemoryController.cpp:270-475 | the data, table and bus of a popped command, or the bus collision |
| MemoryControllers.MemoryController.QueueRefresh | dramsim2/MemoryController.cpp:250-260 | the due rank is queued for refresh and the next one is up |
| MemoryControllers.MemoryController.IssueCommand | dramsim2/MemoryController.cpp:267-475 | one pop, its data and the bus |
| MemoryControllers.MemoryController.UpdateTable | dramsim2/MemoryController.cpp:287-453 | the table after every kind of command |
| MemoryControllers.MemoryController.SplitTransaction | dramsim2/MemoryController.cpp:478-547 | the first transaction with room becomes two commands |
| MemoryControllers.MemoryController.ManagePower | dramsim2/MemoryController.cpp:550-593 | power management of all ranks, as PowerTiming states it |
| MemoryControllers.MemoryController.ReturnReadData | dramsim2/MemoryController.cpp:638-669 | one answer goes to the processor |
| MemoryControllers.MemoryController.DecrementRefresh | dramsim2/MemoryController.cpp:671-675 | the refresh counters |
| MemoryControllers.MemoryController.AddTransaction | dramsim2/MemoryController.cpp:757-775 | accepted if there is room |
| MemoryControllers.MemoryController.ReceiveFromBus | dramsim2/MemoryController.cpp:100-121 | read data joins the return queue |
| MemorySystems.MemorySystem.Update | dramsim2/MemorySystem.cpp:211-237 | a cycle of the objects is a cycle of the state machine, keeps the invariant, and fails only by a write data collision of a configuration without spaced writes |
| MemorySystems.MemorySystem.UpdateRanks | dramsim2/MemorySystem.cpp:218-221 | every rank is updated and its read data handed over, in rank order |
| MemorySystems.MemorySystem.Admit | dramsim2/MemorySystem.cpp:223-228 | a waiting request is accepted if there is room |
| MemorySystems.MemorySystem.AddTransaction | dramsim2/MemorySystem.cpp:175-191 | the request is accepted or waits |
| MemorySystems.BusesDeliverable | dramsim2/MemoryController.cpp:180-206 | packets on the buses name existing ranks, banks and columns |
| TimedMemories.TimedMemory.Tick | csrc/mm_dramsim2.cc:65-126 | stops only on a repeated load or a write data collision: the assertion that a completed read is outstanding never fails; the bytes, the outstanding loads and the queued answers after the cycle; a completed load is answered with the line of a memory that changes by whole lines, unless a store to that line is under way; the memory system is sent, and accepts in this order, a read for each load taken and a write for the last word of each store, and nothing else |
| TimedMemories.TimedMemory.ReadComplete | csrc/mm_dramsim2.cc:16-32 | the words of the line are queued under the tag of the load |
| TimedMemories.CallbackTracks | csrc/mm_dramsim2.cc:16-20 | every callback is for an outstanding load and completes it |
| TimedMemories.LoadTracks | csrc/mm_dramsim2.cc:97-102 | the table of loads holds exactly the reads in flight |
| TimedMemories.LineAddrFits | csrc/mm_dramsim2.cc:84-87 | the wrapped address is that of a whole line |
| TimedMemories.LineAddrExactly | csrc/mm_dramsim2.cc:84-87 | it is the address of the line's number modulo the number of lines, below 2^64 |
| TimedMemories.LineSeen | csrc/mm_dramsim2.cc:16-32 | the bytes of a line are those of the memory of whole lines, or, while a store to it is under way, the words received and the rest of the old line |
| TimedMemories.WrittenWord | csrc/mm_dramsim2.cc:109-122 | the memory of lines changes when the last word of a store arrives, and by that line only |
| TimedMemories.HalfWrittenAnswer | csrc/mm_dramsim2.cc:16-32 | a load that completes in the middle of a store to its line is answered with neither the old nor the new line |
| MagicMemories.RunRefines | csrc/mm.cc:28-75 | in every run, as seen at the signals: stores land whole at the line of their command, loads see no half-written line, and answers delivered plus queued are the line snapshots of the loads in order |
| MagicMemories.AnswersAreLine | csrc/mm.cc:66-71 | the answers to a load are the words of the line in order, all under its tag |
| MagicMemories.TickRefines | csrc/mm.cc:28-75 | one cycle keeps the refinement and fails exactly on a command beyond the memory |
| MagicMemories.DataRefines | csrc/mm.cc:47-54 | the line memory changes when the last word of a store arrives |
| MagicMemories.MagicMemory.Step | csrc/mm.cc:28-75 | the imperative cycle; a command and a word of data are never taken together |
| MagicMemories.LinesInBounds | csrc/mm.cc:8-15 | every line lies inside the memory if and only if the size is a multiple of the line size |
| MagicMemories.ByteAddrExactly | csrc/mm.cc:58-59 | below 2^64 lines lie one after the other |
| MagicMemories.ByteAddrAligned | csrc/mm.cc:58-59 | wrapping to 64 bits keeps lines aligned |
| WordArithmetic.AddN | chisel/csrc/emulator_mod.h:148-154 | addition modulo 2^(64 nw), for every word count |
| WordArithmetic.NegN | chisel/csrc/emulator_mod.h:156-162 | negation modulo 2^(64 nw) |
| WordArithmetic.SubN | chisel/csrc/emulator_mod.h:164-170 | subtraction modulo 2^(64 nw) |
| WordArithmetic.SubUndoesAdd | chisel/csrc/emulator_mod.h:164-170 | subtracting what was added gives the same words back |
| WordArithmetic.Ltu | chisel/csrc/emulator_mod.h:429-433 | the top bit of the wrapped difference |
| WordArithmetic.LtuExactly | chisel/csrc/emulator_mod.h:429-433 | it is less-than if and only if the difference fits half the range |
| WordArithmetic.LtuBelowHalf | chisel/csrc/emulator_mod.h:429-433 | so it is less-than for numbers below 2^(64 nw - 1) |
| WordArithmetic.LtuWrong | chisel/csrc/emulator_mod.h:429-433 | a number with the top bit set compares below zero |
| WordArithmetic.ValSet | chisel/csrc/emulator_api.h:46-49 | the words stand for the given number |
| WordArithmetic.ValCpy | chisel/csrc/emulator_api.h:25-29 | the words are copied |
| WordArithmetic.ValEmpty | chisel/csrc/emulator_api.h:35-39 | the words are zero and the rest is kept |
| WordProduct.MulN | chisel/csrc/emulator_mod.h:172-195 | the product of the operands, as wide as their half-words, modulo 2^(32 p) for the p half-words of the destination, truncated or not |
| WordProduct.RowNext | chisel/csrc/emulator_mod.h:187-190 | a step along a row, with no overflow of the 64-bit accumulator |
| WordProduct.RowTruncated | chisel/csrc/emulator_mod.h:186-193 | a row cut off by the destination is right modulo its limit |
| WordShifts.RshN | chisel/csrc/emulator_mod.h:235-248 | floor division by 2^amount for every amount below 64 nw |
| WordShifts.MaskN | chisel/csrc/emulator_mod.h:277-286 | 2^nb - 1 |
| WordShifts.MaskValIs | chisel/csrc/emulator_mod.h:267-270 | n ones |
| WordShifts.ExtractLow | chisel/csrc/emulator_mod.h:1286-1294 | the number modulo 2^dw |
| WordShifts.Extract | chisel/csrc/emulator_mod.h:1295-1299 | floor(x / 2^s) modulo 2^dw |
| WordShifts.Log2Word | chisel/csrc/emulator_mod.h:288-299 | the position of the highest bit of a word, zero for zero |
| WordShifts.Log2N | chisel/csrc/emulator_mod.h:354-365 | the k with 2^k <= x < 2^(k+1), zero for zero |
| Powers.FloorLog2Unique | chisel/csrc/emulator_mod.h:354-365 | there is only one such k |
| HexText.ToStr | chisel/csrc/emulator_mod.h:1017-1033 | "0x" and the hexadecimal digits of w bits |
| HexText.StrToDat | chisel/csrc/emulator_mod.h:1646-1670 | for every text, the number of its hexadecimal digits modulo 2^(64 nw); the final assertion holds |
| HexText.LowNibbles | chisel/csrc/emulator_mod.h:1020-1027 | the printed digits stand for the number reduced to them |
| HexText.HexStringValue | chisel/csrc/emulator_mod.h:1017-1033 | the text of a number of w bits, prefix included, reads as that number |
| HexText.StrRoundTrip | chisel/csrc/emulator_mod.h:1646-1670 | printing and reading back gives the same words, for every width |
| RadixText.DatFromStr | chisel/csrc/emulator_api.h:57-117 | true exactly if every character is accepted; then the number of the text modulo 2^(32 p), and exactly if it is below |
| RadixText.AddDigit | chisel/csrc/emulator_api.h:110-114 | one digit: the sum and the place value after it |
| RadixText.ParseDigit | chisel/csrc/emulator_api.h:110-114 | the sum and the wrapping place value stay right modulo 2^(32 p), and exact below it |
| RadixText.HexStringRead | chisel/csrc/emulator_api.h:57-82 | the text of a number announces radix 16 and has its value |
| RadixText.FromStrRoundTrip | chisel/csrc/emulator_api.h:57-117 | printing and parsing gives the same words, for every width |
| RadixText.AcceptedExactly | chisel/csrc/emulator_api.h:104-108 | acceptance is "only digits of the radix" exactly except for texts accepted with a digit equal to the radix |
| RadixText.AcceptsForeignDigit | chisel/csrc/emulator_api.h:104-108 | "b2" is accepted in radix 2 |
| Disassemblers.Disassembler.Lookup | csrc/disasm.cc:711-724 | the first inserted match among entries whose mask fixes the low byte, else the first among the rest |
| Disassemblers.Disassembler.AddInsn | csrc/disasm.cc:726-732 | the entry joins the chain of its low byte, or the last one |
| Disassemblers.HashedInChain | csrc/disasm.cc:711-716 | a hashed match can only be in the chain of the low byte |
| Disassemblers.MatchesExactly | csrc/disasm.cc:320-323 | an entry matches if and only if every bit of its mask agrees with the pattern and the pattern has no bit outside the mask |
| Disassemblers.ScanNone | csrc/disasm.cc:711-724 | nothing is found if and only if no inserted entry matches |

## Left out

- That every requested refresh is issued: false of the code (dramsim2/CommandQueue.cpp:960-964). Proved instead are exactly which requests are lost and a run that loses one.
- Progress over many cycles: that a request is eventually answered. What each single step does as soon as it may is stated: sending, draining, precharging, splitting, admitting, waking.
- Acceptance in the order of submission for every run: false of the code (dramsim2/MemorySystem.cpp:175-191). Proved instead are the exact condition and a run that breaks it; all other results count order from acceptance.
- CommandTiming.CommandsApart: tRC and tRRD are claimed without power-down only, because a power-up sets activation times outright; the column distances of a rank are claimed under close page only if the rests of auto-precharge cover them, because the code overwrites the read and write times of the bank.
- MemorySystems.MemorySystem.AddTransaction: models the entry that keeps requests it cannot accept; the one that passes a transaction on is AddTransaction of the controller.
- The trace of a run (`History`) and the number of a packet (`id`, its transaction's place in the order of acceptance) are devices of the model; the code has neither. Data buffers are opaque values.
- The command queue reads the controller's bank table through a reference; here it is a parameter of `Pop`. A rank calls the controller with read data; here it returns the packet. A callback is returned by `Update` instead of called from inside it.
- The model is of the build with storage in the banks. Built with `NO_STORAGE`, as the emulator does, ranks neither store nor return data and everything else is the same.
- The controller's exit on a packet from a rank that is not data is not a `Fault`: RunTheorems.AnswersAreFaithful shows that every packet it receives is data.
- Linked lists of rows in a bank are sequences; nodes have no identity.
- Clocks and addresses are unbounded numbers; the countdowns wrap at 32 bits as in the code.
- MultiChannelMemorySystem: one channel is modelled, so the refinement by addresses is for the addresses of one channel.
- Energy, power and latency statistics, epoch handling, logging and visualisation output, configuration files, trace-driven simulation.
- TimedMemories.TimedMemory.Tick: a load is answered from the buffer when its read completes, so the answer is the line at that time rather than at the time of the load; whole lines are claimed unless a store to the line is under way.
- HexText.ToStr: takes the number of digits as w/4 rounded up, which the floating-point expression gives for widths below 2^24.
- HexText.StrToDat: characters are taken to index the table of digit values inside its bounds, as those of 7-bit text do.
- WordArithmetic.AddN, SubN, NegN, MulN and RshN ask for a destination that is not an operand, as their callers provide.
- `lsh_n` and the `cat` and `inject` built on it, `rsha_n`, signed comparison, division, and the specialised one- and two-word forms of the operations.
- Argument printing of the disassembler, its opcode tables, HTIF, tracing and simulator glue, CACTI, scripts.
