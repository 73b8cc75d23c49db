/** The main memory with timing: requests go to the memory system, whose callbacks complete
    them. */
module TimedMemories {
  import opened Configuration
  import opened Packets
  import opened AddressMapping
  import opened MemoryModel
  import opened Conservation
  import opened SystemInvariant
  import opened Runs
  import opened RunTheorems
  import opened MemorySystems
  import opened SubmissionOrder
  import opened Powers
  import opened Numbers
  import opened MagicMemories

  // ----- Reads in flight -----

  /** Reads of address a that were requested and not called back for. */
  function InFlight(s: State, a: nat): int {
    ReadsOf(s.log.accepted, a) + ReadsOf(s.waiting, a) - Calls(s.log.callbacks, a)
  }

  lemma {:induction false} ReadsOfSnoc(ts: seq<Transaction>, t: Transaction, a: nat)
    ensures ReadsOf(ts + [t], a) == ReadsOf(ts, a) + One(!t.isWrite, t.addr, a)
  {
    assert (ts + [t])[..|ts|] == ts;
  }

  lemma {:induction false} ReadsOfHead(ts: seq<Transaction>, a: nat)
    requires |ts| > 0
    ensures ReadsOf(ts, a) == One(!ts[0].isWrite, ts[0].addr, a) + ReadsOf(ts[1..], a)
  {
    if |ts| == 1 {
      assert ts[..0] == [] && ts[1..] == [];
    } else {
      ReadsOfHead(ts[..|ts| - 1], a);
      assert ts[1..][..|ts| - 2] == ts[..|ts| - 1][1..];
    }
  }

  lemma {:induction false} SubmitInFlight(c: Config, s: State, t: Transaction, a: nat)
    ensures InFlight(Submit(c, s, t), a) == InFlight(s, a) + One(!t.isWrite, t.addr, a)
  {
    ReadsOfSnoc(s.log.accepted, t.(id := |s.log.accepted|), a);
    ReadsOfSnoc(s.waiting, t, a);
  }

  lemma {:induction false} AdmitInFlight(c: Config, s: State, a: nat)
    ensures var s' := AdmitPhase(c, RanksPhase(c, s));
            ReadsOf(s'.log.accepted, a) + ReadsOf(s'.waiting, a) == ReadsOf(s.log.accepted, a) + ReadsOf(s.waiting, a)
  {
    if |s.waiting| > 0 {
      ReadsOfSnoc(s.log.accepted, s.waiting[0].(id := |s.log.accepted|), a);
      ReadsOfHead(s.waiting, a);
    }
  }

  /** A cycle changes the reads in flight by its callbacks alone. */
  lemma {:induction false} CycleInFlight(c: Config, s: State, s': State, call: Option<nat>, a: nat)
    requires Cycle(c, s) == Ok(s')
    requires s'.log.callbacks == s.log.callbacks + if call.Some? then [call.value] else []
    ensures InFlight(s', a) == InFlight(s, a) - (if call.Some? then One(true, call.value, a) else 0)
  {
    hide FirstHalf, SecondHalf, RanksPhase, AdmitPhase;
    FirstHalfAccepts(c, s);
    SecondHalfAccepts(c, FirstHalf(c, s).value);
    AdmitInFlight(c, s, a);
    if call.Some? {
      CallsSnoc(s.log.callbacks, call.value, a);
    } else {
      assert s.log.callbacks + [] == s.log.callbacks;
    }
  }

  /** Never more callbacks than reads. */
  lemma {:induction false} InFlightPositive(c: Config, s: State, a: nat)
    requires Inv(c, s)
    ensures InFlight(s, a) >= 0
  {
    hide Commands, DataPaths, Orders, OnCadence, Conserved;
    assert ReadsOf(s.log.accepted, a)
        == ReadsOf(s.ctrl.transactions, a) + Addrs(s.ctrl.pendingReads, a) + Calls(s.log.callbacks, a);
  }

  /** The table of outstanding loads holds exactly the addresses with a read in flight. */
  ghost predicate Tracks(s: State, req: map<nat, nat>) {
    forall a :: InFlight(s, a) == if a in req then 1 else 0
  }

  lemma {:induction false} InitTracks(c: Config)
    requires c.Valid()
    ensures Tracks(Init(c), map[])
  {
  }

  lemma {:induction false} LoadTracks(c: Config, s: State, req: map<nat, nat>, addr: nat, tag: nat, t: Transaction)
    requires Tracks(s, req) && addr !in req && t.addr == addr && !t.isWrite
    ensures Tracks(Submit(c, s, t), req[addr := tag])
  {
    hide InFlight, Submit;
    forall a ensures InFlight(Submit(c, s, t), a) == if a in req[addr := tag] then 1 else 0 {
      SubmitInFlight(c, s, t, a);
      assert InFlight(s, a) == if a in req then 1 else 0;
    }
  }

  lemma {:induction false} StoreTracks(c: Config, s: State, req: map<nat, nat>, t: Transaction)
    requires Tracks(s, req) && t.isWrite
    ensures Tracks(Submit(c, s, t), req)
  {
    hide InFlight, Submit;
    forall a ensures InFlight(Submit(c, s, t), a) == if a in req then 1 else 0 {
      SubmitInFlight(c, s, t, a);
      assert InFlight(s, a) == if a in req then 1 else 0;
    }
  }

  /** Every callback is for an outstanding load, and completes it. */
  lemma {:induction false} CallbackTracks(c: Config, s: State, s': State, call: Option<nat>, req: map<nat, nat>)
    requires Inv(c, s') && Cycle(c, s) == Ok(s') && Tracks(s, req)
    requires s'.log.callbacks == s.log.callbacks + if call.Some? then [call.value] else []
    ensures call.Some? ==> call.value in req
    ensures Tracks(s', if call.Some? then req - {call.value} else req)
  {
    hide InFlight, Inv, Cycle;
    if call.Some? {
      CycleInFlight(c, s, s', call, call.value);
      InFlightPositive(c, s', call.value);
      assert InFlight(s, call.value) == if call.value in req then 1 else 0;
    }
    forall a ensures InFlight(s', a) == if a in (if call.Some? then req - {call.value} else req) then 1 else 0 {
      CycleInFlight(c, s, s', call, a);
      assert InFlight(s, a) == if a in req then 1 else 0;
    }
  }

  // ----- The memory -----

  /** What the memory system is asked for. */
  function LoadOf(addr: nat): Transaction { Transaction(false, addr, 0, 0) }

  function StoreOf(addr: nat): Transaction { Transaction(true, addr, 0, 0) }

  /** Nothing waits outside the controller, and it has accepted the requests sent, in order. */
  predicate Accepted(s: State, sent: seq<Transaction>) { s.waiting == [] && InLine(s) == sent }

  lemma {:induction false} SubmitAccepted(c: Config, s: State, sent: seq<Transaction>, t: Transaction)
    requires Accepted(s, sent) && WillAccept(c, s) && Plain(t) == t
    ensures Accepted(Submit(c, s, t), sent + [t])
  {
    SubmitExactly(c, s, t);
    hide InLine;
  }

  lemma {:induction false} CycleAccepted(c: Config, s: State, sent: seq<Transaction>)
    requires Accepted(s, sent) && Cycle(c, s).Ok?
    ensures Accepted(Cycle(c, s).value, sent)
  {
    CycleInLine(c, s);
    FirstHalfAccepts(c, s);
    SecondHalfAccepts(c, FirstHalf(c, s).value);
    hide InLine, FirstHalf, SecondHalf;
  }

  datatype Stop =
    | LoadRepeated            // a load of an address that already has one outstanding
    | Exited(fault: Fault)    // the memory system stopped

  /** The address of a line, wrapped to the memory. */
  function LineAddr(z: Shape, line: nat): nat
    requires z.size > 0
  {
    ByteAddr(z, line) % z.size
  }

  lemma {:induction false} LineAddrFits(z: Shape, line: nat)
    requires z.Valid() && z.size > 0
    ensures LineAddr(z, line) + z.lineSize <= z.size && LineAddr(z, line) % z.lineSize == 0 && z.Words() > 0
  {
    ByteAddrAligned(z, line);
    hide ByteAddr, IsPow2;
    ModAligned(ByteAddr(z, line), z.size, z.lineSize);
    MultiplesApart(LineAddr(z, line), z.size, z.lineSize);
    WholeMultiple(z.lineSize, z.wordSize);
  }

  /** Below 2^64 it is that of the line's number modulo the number of lines. */
  lemma {:induction false} LineAddrExactly(z: Shape, line: nat)
    requires z.Valid() && z.size > 0 && line * z.lineSize < 0x1_0000_0000_0000_0000
    ensures z.size / z.lineSize > 0 && LineAddr(z, line) == (line % (z.size / z.lineSize)) * z.lineSize
  {
    ByteAddrExactly(z, line);
    WholeMultiple(z.size, z.lineSize);
    hide ByteAddr, IsPow2;
    ModBlocks(line, z.size / z.lineSize, z.lineSize, z.size);
  }

  lemma {:induction false} ModAligned(a: nat, size: nat, n: nat)
    requires n >= 1 && size >= 1 && a % n == 0 && size % n == 0
    ensures (a % size) % n == 0
  {
    WholeMultiple(a, n);
    WholeMultiple(size, n);
    var q, p, g := a / size, a / n, size / n;
    assert a == size * q + a % size;
    MulAssoc(q, g, n);
    MulDistrib(p, -(q * g), n);
    assert (-(q * g)) * n == -((q * g) * n);
    assert size * q == q * (g * n);
    ModUnique(a % size, p - q * g, 0, n);
  }

  /** Where the next word of a store goes. */
  function StoreAt(z: Shape, addr: nat, count: nat): (at: nat)
    requires z.Asserted() && count < z.Words()
    ensures at + z.wordSize <= addr + z.lineSize
  {
    WordInLine(z, count);
    addr + count * z.wordSize
  }

  /** The outstanding loads and the answers after a load, if any, is completed: its line, as
      the bytes are then, is answered under its tag. */
  predicate Completes(z: Shape, data: seq<Byte>, req: map<nat, nat>, resp: seq<Response>, completed: Option<nat>,
                      req': map<nat, nat>, resp': seq<Response>) {
    match completed
    case None => req' == req && resp' == resp
    case Some(a) =>
      && z.Asserted() && a in req && a + z.lineSize <= |data| && req' == req - {a}
      && resp' == resp + Answers(z, data[a..a + z.lineSize], req[a], z.Words())
  }

  // ----- The memory of lines behind the bytes -----

  /** The bytes are those of a memory of whole lines, except for the words received so far of
      a store under way. */
  predicate Written(z: Shape, lines: seq<Byte>, data: seq<Byte>, inflight: bool, addr: nat, count: nat, received: seq<Byte>) {
    && z.Valid() && |lines| == |data| == z.size && |received| == count * z.wordSize
    && (inflight ==>
          && addr + z.lineSize <= z.size && addr % z.lineSize == 0 && |received| <= z.lineSize
          && data == Splice(lines, addr, received))
    && (!inflight ==> received == [] && data == lines)
  }

  lemma {:induction false} WrittenStart(z: Shape, lines: seq<Byte>, data: seq<Byte>, addr: nat, addr': nat)
    requires Written(z, lines, data, false, addr, 0, []) && addr' + z.lineSize <= z.size && addr' % z.lineSize == 0
    ensures Written(z, lines, data, true, addr', 0, [])
  {
    assert Splice(lines, addr', []) == lines;
  }

  /** A word arrives: the last one of a line changes the memory of lines. */
  lemma {:induction false} WrittenWord(z: Shape, lines: seq<Byte>, data: seq<Byte>, addr: nat, count: nat, received: seq<Byte>,
                                       bits: seq<Byte>)
    requires Written(z, lines, data, true, addr, count, received) && count < z.Words() && |bits| == z.wordSize
    ensures addr + |received + bits| <= |lines|
    ensures var data' := Splice(data, StoreAt(z, addr, count), bits);
            if count + 1 == z.Words() then Written(z, Splice(lines, addr, received + bits), data', false, addr, 0, [])
            else Written(z, lines, data', true, addr, count + 1, received + bits)
  {
    CountsWords(z, count);
    hide IsPow2;
    SpliceMore(lines, addr, received, bits);
    hide Splice;
  }

  /** The memory of lines after a word arrives: it changes by a whole line or not at all. */
  function LinesAfter(z: Shape, lines: seq<Byte>, addr: nat, count: nat, received: seq<Byte>, bits: seq<Byte>): seq<Byte>
    requires z.Asserted()
  {
    if count + 1 == z.Words() && addr + |received + bits| <= |lines| then Splice(lines, addr, received + bits) else lines
  }

  /** What the bytes of a line are: the line of the memory of lines, or, if words of a store to
      it have arrived, those words and the rest of the old line. */
  lemma {:induction false} LineSeen(z: Shape, lines: seq<Byte>, data: seq<Byte>, inflight: bool, addr: nat, count: nat,
                                    received: seq<Byte>, a: nat)
    requires Written(z, lines, data, inflight, addr, count, received) && a + z.lineSize <= z.size && a % z.lineSize == 0
    ensures Seen(z, lines, data, inflight, addr, received, a)
  {
    hide IsPow2;
    if inflight && addr < a {
      MultiplesApart(addr, a, z.lineSize);
    } else if inflight && a < addr {
      MultiplesApart(a, addr, z.lineSize);
    }
  }

  predicate Seen(z: Shape, lines: seq<Byte>, data: seq<Byte>, inflight: bool, addr: nat, received: seq<Byte>, a: nat) {
    && |lines| == |data| && a + z.lineSize <= |data|
    && if inflight && addr == a
       then |received| <= z.lineSize && data[a..a + z.lineSize] == received + lines[a + |received|..a + z.lineSize]
       else data[a..a + z.lineSize] == lines[a..a + z.lineSize]
  }

  /** A load that completes while a store to its line is under way is answered with a line that
      is neither the old nor the new one: here lines of two words of a byte, all bytes 1, and a
      store of 2 and 2 of which one word has arrived. */
  lemma {:induction false} HalfWrittenAnswer(z: Shape, lines: seq<Byte>, received: seq<Byte>)
    requires z == Shape(2, 1, 2) && lines == [1, 1] && received == [2]
    ensures z.Valid() && Written(z, lines, Splice(lines, 0, received), true, 0, 1, received)
    ensures Completes(z, Splice(lines, 0, received), map[0 := 7], [], Some(0), map[], [Response(7, [2]), Response(7, [1])])
  {
    assert CeilLog2(2) == 1 && Pow2(1) == 2;
    var data := Splice(lines, 0, received);
    assert data == [2, 1];
    assert data[0..2] == data && data[0..1] == [2] && data[1..2] == [1];
    NoAnswers(z, data[0..2], 7);
    NextAnswer(z, data[0..2], 7, 0);
    NextAnswer(z, data[0..2], 7, 1);
    assert map[0 := 7] - {0} == map[];
  }

  class TimedMemory {
    const z: Shape
    const mem: MemorySystem
    const data: array<Byte>
    var req: map<nat, nat>
    var storeInflight: bool
    var storeCount: nat
    var storeAddr: nat
    var resp: seq<Response>
    var cycle: nat
    ghost var lines: seq<Byte>
    ghost var received: seq<Byte>
    ghost var sent: seq<Transaction>

    /** Outstanding loads are whole lines of the memory. */
    predicate ReqOk()
      reads this
    {
      z.lineSize > 0 && forall a :: a in req ==> a + z.lineSize <= data.Length && a % z.lineSize == 0
    }

    ghost predicate Valid()
      reads this, data, mem, mem.memoryController, mem.memoryController.commandQueue, mem.memoryController.ranks
    {
      && z.Valid() && z.size > 0 && data.Length == z.size && mem.Valid() && Tracks(mem.Value(), req) && ReqOk()
      && (storeInflight ==> storeAddr + z.lineSize <= z.size && storeCount < z.Words())
      && (!storeInflight ==> storeCount == 0)
      && Written(z, lines, data[..], storeInflight, storeAddr, storeCount, received)
      && Accepted(mem.Value(), sent)
    }

    constructor (z: Shape, c: Config)
      requires z.Valid() && z.size > 0 && SystemOk(c)
      ensures Valid() && this.z == z && mem.c == c && req == map[] && resp == [] && sent == []
    {
      hide Inv, Tracks, IsPow2, GeometryOk, InLine, MemorySystem.Valid, MemorySystem.Value;
      this.z := z;
      mem := new MemorySystem(c);
      data := new Byte[z.size];
      req, storeInflight, storeCount, storeAddr, resp, cycle := map[], false, 0, 0, [], 0;
      new;
      lines, received, sent := data[..], [], [];
      NothingInLine(c);
      assert Init(c).waiting == [];
      assert 0 * z.wordSize == 0;
      InitTracks(c);
    }

    predicate ReqCmdReady()
      reads this, mem.memoryController
    {
      mem.memoryController.WillAcceptTransaction() && !storeInflight
    }

    predicate ReqDataReady()
      reads this, mem.memoryController
    {
      mem.memoryController.WillAcceptTransaction() && storeInflight
    }

    /** A read is complete: the words of its line are queued under its tag. The address is
        that of an outstanding load. */
    method ReadComplete(address: nat)
      requires address in req && z.Asserted() && ReqOk()
      modifies this`req, this`resp
      ensures req == old(req) - {address} && ReqOk()
      ensures resp == old(resp) + Answers(z, data[..][address..address + z.lineSize], old(req)[address], z.Words())
    {
      var tag := req[address];
      req := req - {address};
      var answers := LineAnswers(z, data, address, tag);
      resp := resp + answers;
    }

    /** A load goes to the memory system, unless one of the same address is outstanding. */
    method Load(address: nat, tag: nat) returns (ok: bool)
      requires Valid() && address + z.lineSize <= z.size && address % z.lineSize == 0
      requires mem.memoryController.WillAcceptTransaction()
      modifies this`req, this`sent, mem`pendingTransactions, mem.memoryController
      ensures ok == (address !in old(req)) && (ok ==> Valid() && sent == old(sent) + [LoadOf(address)])
      ensures req == if ok then old(req)[address := tag] else old(req)
    {
      hide Inv, Tracks, Submit, Written, IsPow2, Accepted;
      ok := address !in req;
      if ok {
        var t := LoadOf(address);
        SubmitAccepted(mem.c, mem.Value(), sent, t);
        sent := sent + [t];
        LoadTracks(mem.c, mem.Value(), req, address, tag, t);
        req := req[address := tag];
        mem.AddTransaction(t);
      }
    }

    /** A complete store goes to the memory system. */
    method SendStore()
      requires Valid() && !storeInflight && mem.memoryController.WillAcceptTransaction()
      modifies this`sent, mem`pendingTransactions, mem.memoryController
      ensures Valid() && sent == old(sent) + [StoreOf(storeAddr)]
    {
      hide Inv, Tracks, Submit, IsPow2, Written, Accepted;
      var t := StoreOf(storeAddr);
      SubmitAccepted(mem.c, mem.Value(), sent, t);
      sent := sent + [t];
      StoreTracks(mem.c, mem.Value(), req, t);
      mem.AddTransaction(t);
    }

    /** Stores a word of a line and counts it. */
    method PutWord(bits: seq<Byte>)
      requires z.Asserted() && storeInflight && storeCount < z.Words() && |bits| == z.wordSize
      requires storeAddr + z.lineSize <= data.Length
      modifies this`storeCount, this`storeInflight, data
      ensures data[..] == Splice(old(data[..]), old(StoreAt(z, storeAddr, storeCount)), bits)
      ensures storeCount == if old(storeCount) + 1 == z.Words() then 0 else old(storeCount) + 1
      ensures storeInflight <==> storeCount != 0
    {
      CountsWords(z, storeCount);
      hide Splice, StoreAt, IsPow2;
      CopyIn(data, StoreAt(z, storeAddr, storeCount), bits);
      storeCount := (storeCount + 1) % z.Words();
      if storeCount == 0 { storeInflight := false; }
    }

    /** A word of a store arrives; the last one sends the store to the memory system. */
    method StoreWord(bits: seq<Byte>)
      requires Valid() && storeInflight && |bits| == z.wordSize && mem.memoryController.WillAcceptTransaction()
      modifies this`storeCount, this`storeInflight, this`lines, this`received, this`sent
      modifies data, mem`pendingTransactions, mem.memoryController
      ensures Valid() && data[..] == Splice(old(data[..]), old(StoreAt(z, storeAddr, storeCount)), bits)
      ensures storeInflight <==> old(storeCount) + 1 < z.Words()
      ensures lines == old(LinesAfter(z, lines, storeAddr, storeCount, received, bits))
      ensures sent == old(sent) + if storeInflight then [] else [StoreOf(old(storeAddr))]
    {
      hide Inv, Tracks, Splice, StoreAt, IsPow2, MemorySystem.Valid, MemorySystem.Value, Shape.Words, Written, Accepted;
      WrittenWord(z, lines, data[..], storeAddr, storeCount, received, bits);
      lines := LinesAfter(z, lines, storeAddr, storeCount, received, bits);
      PutWord(bits);
      received := if storeInflight then received + bits else [];
      if !storeInflight { SendStore(); }
    }

    /** A cycle of the memory system. A callback always finds its load outstanding. */
    method Advance() returns (stop: Option<Fault>, completed: Option<nat>)
      requires Valid()
      modifies this`req, this`resp, this`cycle
      modifies mem, mem.memoryController, mem.memoryController.commandQueue, mem.ranks
      ensures stop.None? ==> Valid() && Completes(z, data[..], old(req), old(resp), completed, req, resp)
      ensures stop.None? && completed.Some? ==> completed.value + z.lineSize <= z.size && completed.value % z.lineSize == 0
      ensures stop.Some? ==> stop.value.DataBusCollision? && !mem.c.WritesSpaced()
    {
      hide Inv, Tracks, Cycle, Answers, IsPow2, Written, Accepted, MemorySystem.Value;
      completed := None;
      ghost var before := mem.Value();
      var fault, callback := mem.Update();
      if fault.Some? { return fault, None; }
      CallbackTracks(mem.c, before, mem.Value(), callback, req);
      CycleAccepted(mem.c, before, sent);
      if callback.Some? { ReadComplete(callback.value); }
      cycle := cycle + 1;
      stop, completed := None, callback;
    }

    lemma {:induction false} NothingReceived()
      requires Valid() && !storeInflight
      ensures received == []
    {
    }

    /** Whether a command and a word of data are taken this cycle. */
    predicate CmdFires(i: Input)
      reads this, mem.memoryController
    {
      i.cmdVal && ReqCmdReady()
    }

    predicate DataFires(i: Input)
      reads this, mem.memoryController
    {
      i.dataVal && ReqDataReady()
    }

    /** Starts a store, or sends a load to the memory system. */
    method TakeCommand(i: Input) returns (ok: bool)
      requires Valid() && !storeInflight && mem.memoryController.WillAcceptTransaction()
      modifies this`req, this`storeInflight, this`storeAddr, this`sent, mem`pendingTransactions, mem.memoryController
      ensures ok == (i.cmdStore || LineAddr(z, i.cmdAddr) !in old(req)) && (ok ==> Valid())
      ensures storeInflight == i.cmdStore && storeAddr == if i.cmdStore then LineAddr(z, i.cmdAddr) else old(storeAddr)
      ensures ok ==> req == if i.cmdStore then old(req) else old(req)[LineAddr(z, i.cmdAddr) := i.cmdTag]
      ensures ok ==> sent == old(sent) + if i.cmdStore then [] else [LoadOf(LineAddr(z, i.cmdAddr))]
    {
      hide Inv, Tracks, LineAddr, IsPow2, MemorySystem.Valid, MemorySystem.Value, Shape.Words, Written, Accepted;
      LineAddrFits(z, i.cmdAddr);
      var address := LineAddr(z, i.cmdAddr);
      ok := true;
      if i.cmdStore {
        NothingReceived();
        WrittenStart(z, lines, data[..], storeAddr, address);
        storeInflight, storeAddr := true, address;
      } else {
        ok := Load(address, i.cmdTag);
      }
    }

    /** One cycle. It stops only if the processor repeats a load that is outstanding, or if the
        memory system does: never because of a callback without a load. The bytes change by the
        word of a store, the outstanding loads by the load taken and the one completed, and the
        answers by the one taken and the words of the completed line as they are now. The memory
        system is sent a read for a load that is taken and a write for the last word of a store,
        and nothing else; it has accepted what it was sent, in order. */
    method Tick(i: Input) returns (stop: Option<Stop>, completed: Option<nat>)
      requires Valid() && |i.bits| == z.wordSize
      modifies this, data, mem, mem.memoryController, mem.memoryController.commandQueue, mem.ranks
      ensures stop.None? ==> Valid()
      ensures stop == Some(LoadRepeated) <==>
                old(CmdFires(i)) && !i.cmdStore && LineAddr(z, i.cmdAddr) in old(req)
      ensures stop.Some? && stop.value.Exited? ==> stop.value.fault.DataBusCollision? && !mem.c.WritesSpaced()
      ensures stop.None? ==>
                data[..] == if old(DataFires(i)) then Splice(old(data[..]), old(StoreAt(z, storeAddr, storeCount)), i.bits)
                            else old(data[..])
      ensures stop.None? ==>
                && (storeInflight <==> if old(DataFires(i)) then old(storeCount) + 1 < z.Words()
                                       else old(storeInflight) || (old(CmdFires(i)) && i.cmdStore))
                && storeAddr == if old(CmdFires(i)) && i.cmdStore then LineAddr(z, i.cmdAddr) else old(storeAddr)
      ensures stop.None? ==>
                Completes(z, data[..],
                          if old(CmdFires(i)) && !i.cmdStore then old(req)[LineAddr(z, i.cmdAddr) := i.cmdTag] else old(req),
                          if old(resp) != [] && i.respRdy then old(resp)[1..] else old(resp), completed, req, resp)
      ensures stop.None? ==> lines == if old(DataFires(i)) then old(LinesAfter(z, lines, storeAddr, storeCount, received, i.bits))
                                      else old(lines)
      ensures stop.None? && completed.Some? ==>
                Seen(z, lines, data[..], storeInflight, storeAddr, received, completed.value)
      ensures stop.None? ==>
                sent == old(sent) + (if old(CmdFires(i)) && !i.cmdStore then [LoadOf(LineAddr(z, i.cmdAddr))] else [])
                                  + (if old(DataFires(i)) && old(storeCount) + 1 == z.Words() then [StoreOf(old(storeAddr))] else [])
    {
      hide Inv, Tracks, LineAddr, IsPow2, MemorySystem.Valid, MemorySystem.Value, Splice, StoreAt, Completes, Shape.Words;
      hide Written, Seen, LinesAfter, Accepted;
      completed := None;
      var cmdFire, dataFire := i.cmdVal && ReqCmdReady(), i.dataVal && ReqDataReady();
      assert !(cmdFire && dataFire);
      if resp != [] && i.respRdy { resp := resp[1..]; }
      if cmdFire {
        var ok := TakeCommand(i);
        if !ok { return Some(LoadRepeated), None; }
      }
      if dataFire { StoreWord(i.bits); }
      var fault, done := Advance();
      if fault.None? && done.Some? {
        LineSeen(z, lines, data[..], storeInflight, storeAddr, storeCount, received, done.value);
      }
      stop, completed := if fault.Some? then Some(Exited(fault.value)) else None, done;
    }
  }
}
