/** The main memory without timing: it refines a memory of whole lines, although a store
    arrives one word at a time. */
module MagicMemories {
  import opened Packets
  import opened Powers
  import opened Numbers
  import opened WordShifts

  type Byte = x: int | 0 <= x < 256

  datatype Shape = Shape(size: nat, wordSize: nat, lineSize: nat)
  {
    /** What init asserts of its arguments, the sizes of words and lines being of type int. */
    predicate Asserted() {
      wordSize > 0 && 0 < lineSize < 0x8000_0000 && IsPow2(lineSize) && lineSize % wordSize == 0
    }

    /** It leaves out that the memory holds whole lines. */
    predicate Valid() { Asserted() && size % lineSize == 0 }

    function Words(): nat
      requires Asserted()
    {
      lineSize / wordSize
    }
  }

  /** The line with a given number starts and ends inside the memory. */
  predicate LineWithin(line: nat, n: nat, size: nat) { line * n < size ==> line * n + n <= size }

  /** Every line that starts inside the memory ends inside it, exactly if the size is a
      multiple of the line size. */
  lemma {:induction false} LinesInBounds(n: nat, size: nat)
    requires n > 0
    ensures (forall line: nat :: LineWithin(line, n, size)) <==> size % n == 0
  {
    var q := size / n;
    assert size == n * q + size % n;
    assert q * n == n * q;
    if size % n == 0 {
      forall line: nat ensures LineWithin(line, n, size) {
        if line * n < size { NextLine(line, q, n); }
      }
    } else {
      assert !LineWithin(q, n, size);
    }
  }

  lemma {:induction false} NextLine(a: nat, b: nat, n: nat)
    requires a * n < b * n
    ensures a * n + n <= b * n
  {
    if a >= b { MulMono(b, a, n, n); } else { MulMono(a + 1, b, n, n); MulDistrib(a, 1, n); }
  }

  datatype Response = Response(tag: nat, word: seq<Byte>)

  /** The signals of one cycle. */
  datatype Input = Input(cmdVal: bool, cmdStore: bool, cmdAddr: nat, cmdTag: nat, dataVal: bool, bits: seq<Byte>, respRdy: bool)

  datatype Magic = Magic(data: seq<Byte>, storeInflight: bool, storeCount: nat, storeAddr: nat, resp: seq<Response>)

  predicate CmdFire(s: Magic, i: Input) { i.cmdVal && !s.storeInflight }
  predicate DataFire(s: Magic, i: Input) { i.dataVal && s.storeInflight }
  predicate RespFire(s: Magic, i: Input) { s.resp != [] && i.respRdy }

  /** The address of a line in bytes, in 64-bit arithmetic. */
  function ByteAddr(z: Shape, line: nat): nat { (line * z.lineSize) % 0x1_0000_0000_0000_0000 }

  /** Below 2^64 lines lie one after the other. */
  lemma {:induction false} ByteAddrExactly(z: Shape, line: nat)
    requires line * z.lineSize < 0x1_0000_0000_0000_0000
    ensures ByteAddr(z, line) == line * z.lineSize
  {
    ModUnique(line * z.lineSize, 0, line * z.lineSize, 0x1_0000_0000_0000_0000);
  }

  function Splice(data: seq<Byte>, at: nat, bits: seq<Byte>): (r: seq<Byte>)
    requires at + |bits| <= |data|
    ensures |r| == |data|
  {
    data[..at] + bits + data[at + |bits|..]
  }

  /** The words of a line, as answers with the given tag. */
  function Answers(z: Shape, line: seq<Byte>, tag: nat, n: nat): seq<Response>
    requires z.Asserted() && |line| == z.lineSize && n <= z.Words()
  {
    if n == 0 then []
    else
      WordInLine(z, n - 1);
      Answers(z, line, tag, n - 1)
      + [Response(tag, line[(n - 1) * z.wordSize..(n - 1) * z.wordSize + z.wordSize])]
  }

  lemma {:induction false} AnswersAt(z: Shape, line: seq<Byte>, tag: nat, n: nat)
    requires z.Asserted() && |line| == z.lineSize && n <= z.Words()
    ensures |Answers(z, line, tag, n)| == n
    ensures forall k :: 0 <= k < n ==> Answers(z, line, tag, n)[k].tag == tag
  {
    if n > 0 { AnswersAt(z, line, tag, n - 1); }
  }

  /** The words of some answers, one after the other. */
  function Joined(rs: seq<Response>): seq<Byte> {
    if |rs| == 0 then [] else Joined(rs[..|rs| - 1]) + rs[|rs| - 1].word
  }

  lemma {:induction false} AnswersPrefix(z: Shape, line: seq<Byte>, tag: nat, n: nat)
    requires z.Asserted() && |line| == z.lineSize && n <= z.Words()
    ensures n * z.wordSize <= z.lineSize && Joined(Answers(z, line, tag, n)) == line[..n * z.wordSize]
  {
    hide Answers, IsPow2, Shape.Words;
    if n > 0 {
      AnswersPrefix(z, line, tag, n - 1);
      NextAnswer(z, line, tag, n - 1);
      MulDistrib(n - 1, 1, z.wordSize);
      JoinedSnoc(Answers(z, line, tag, n - 1), Response(tag, line[(n - 1) * z.wordSize..(n - 1) * z.wordSize + z.wordSize]));
    } else {
      NoAnswers(z, line, tag);
      assert n * z.wordSize == 0;
    }
  }

  lemma {:induction false} JoinedSnoc(rs: seq<Response>, x: Response)
    ensures Joined(rs + [x]) == Joined(rs) + x.word
  {
    assert (rs + [x])[..|rs|] == rs;
  }

  /** The answers to a load are as many as a line has words, carry its tag, and in their order
      make up the line. */
  lemma {:induction false} AnswersAreLine(z: Shape, line: seq<Byte>, tag: nat)
    requires z.Asserted() && |line| == z.lineSize
    ensures var rs := Answers(z, line, tag, z.Words());
            |rs| == z.Words() && Joined(rs) == line && forall k :: 0 <= k < |rs| ==> rs[k].tag == tag
  {
    AnswersAt(z, line, tag, z.Words());
    AnswersPrefix(z, line, tag, z.Words());
    WholeMultiple(z.lineSize, z.wordSize);
  }

  lemma {:induction false} WordInLine(z: Shape, n: nat)
    requires z.Asserted() && n < z.Words()
    ensures n * z.wordSize + z.wordSize <= z.lineSize
  {
    assert z.lineSize == z.wordSize * z.Words();
    assert z.Words() * z.wordSize == z.wordSize * z.Words();
    MulMono(n + 1, z.Words(), z.wordSize, z.wordSize);
    MulDistrib(n, 1, z.wordSize);
  }

  lemma {:induction false} WrappedMultiple(line: nat, n: nat, g: nat)
    requires n >= 1 && g * n == 0x1_0000_0000_0000_0000
    ensures ((line * n) % 0x1_0000_0000_0000_0000) % n == 0
  {
    var x := line * n;
    var q := x / 0x1_0000_0000_0000_0000;
    var r := x % 0x1_0000_0000_0000_0000;
    assert x == 0x1_0000_0000_0000_0000 * q + r;
    MulAssoc(q, g, n);
    MulDistrib(line, -(q * g), n);
    assert (-(q * g)) * n == -((q * g) * n);
    ModUnique(r, line - q * g, 0, n);
  }

  /** Wrapping does not break the alignment of a line. */
  lemma {:induction false} ByteAddrAligned(z: Shape, line: nat)
    requires z.Asserted()
    ensures ByteAddr(z, line) % z.lineSize == 0
  {
    hide Pow2;
    var k := CeilLog2(z.lineSize);
    WordBits();
    if k > 64 { Pow2Mono(64, k - 1); }
    Pow2Add(64 - k, k);
    WrappedMultiple(line, z.lineSize, Pow2(64 - k));
  }

  lemma {:induction false} LineFits(z: Shape, line: nat)
    requires z.Valid() && ByteAddr(z, line) < z.size
    ensures ByteAddr(z, line) + z.lineSize <= z.size
  {
    ByteAddrAligned(z, line);
    hide ByteAddr, IsPow2;
    MultiplesApart(ByteAddr(z, line), z.size, z.lineSize);
  }

  lemma {:induction false} MultiplesApart(a: nat, size: nat, n: nat)
    requires n >= 1 && a % n == 0 && size % n == 0 && a < size
    ensures a + n <= size
  {
    WholeMultiple(a, n);
    WholeMultiple(size, n);
    NextLine(a / n, size / n, n);
  }

  lemma {:induction false} WholeMultiple(a: nat, n: nat)
    requires n >= 1 && a % n == 0
    ensures a == (a / n) * n
  {
    assert a == n * (a / n) + a % n;
  }

  predicate StateOk(z: Shape, s: Magic) {
    && z.Valid() && |s.data| == z.size
    && (s.storeInflight ==> s.storeAddr + z.lineSize <= z.size && s.storeCount < z.Words())
    && (!s.storeInflight ==> s.storeCount == 0)
  }

  /** One cycle. None stands for a failed assertion: a command beyond the memory. */
  function Tick(z: Shape, s: Magic, i: Input): Option<Magic>
    requires StateOk(z, s) && |i.bits| == z.wordSize
  {
    var s1 := if RespFire(s, i) then s.(resp := s.resp[1..]) else s;
    if DataFire(s, i) then
      WordInLine(z, s.storeCount);
      var n := (s.storeCount + 1) % z.Words();
      Some(s1.(data := Splice(s.data, s.storeAddr + s.storeCount * z.wordSize, i.bits), storeCount := n,
               storeInflight := n != 0))
    else if CmdFire(s, i) then
      var a := ByteAddr(z, i.cmdAddr);
      if a >= z.size then None
      else if i.cmdStore then Some(s1.(storeInflight := true, storeAddr := a))
      else
        LineFits(z, i.cmdAddr);
        Some(s1.(resp := s1.resp + Answers(z, s.data[a..a + z.lineSize], i.cmdTag, z.Words())))
    else Some(s1)
  }

  // ----- The memory of lines -----

  datatype LineOp = StoreLine(addr: nat, line: seq<Byte>) | LoadLine(addr: nat, tag: nat)

  predicate OpsOk(z: Shape, ops: seq<LineOp>) {
    forall k :: 0 <= k < |ops| ==>
      ops[k].addr + z.lineSize <= z.size && (ops[k].StoreLine? ==> |ops[k].line| == z.lineSize)
  }

  /** The contents after some whole-line operations. */
  function MemAfter(z: Shape, mem: seq<Byte>, ops: seq<LineOp>): (r: seq<Byte>)
    requires OpsOk(z, ops) && |mem| == z.size
    ensures |r| == z.size
  {
    if |ops| == 0 then mem
    else
      var before := MemAfter(z, mem, ops[..|ops| - 1]);
      match ops[|ops| - 1]
      case StoreLine(a, line) => Splice(before, a, line)
      case LoadLine(_, _) => before
  }

  /** The answers to the loads, in order: each is a snapshot of its line. */
  function ResponsesOf(z: Shape, mem: seq<Byte>, ops: seq<LineOp>): seq<Response>
    requires z.Asserted() && OpsOk(z, ops) && |mem| == z.size
  {
    if |ops| == 0 then []
    else
      var front := ops[..|ops| - 1];
      ResponsesOf(z, mem, front)
      + match ops[|ops| - 1]
        case StoreLine(_, _) => []
        case LoadLine(a, tag) => Answers(z, MemAfter(z, mem, front)[a..a + z.lineSize], tag, z.Words())
  }

  /** What has been seen at the signals: line operations in the order they took effect, answers
      taken by the receiver, and the target and the part received of a store under way. */
  datatype Trace = Trace(ops: seq<LineOp>, delivered: seq<Response>, target: Option<nat>, received: seq<Byte>)

  /** A cycle as it is seen at the signals, resp being what is offered to the receiver: a store
      command sets the target, to which the words that follow belong until the line is complete;
      a load command takes effect at once. */
  function Record(z: Shape, resp: seq<Response>, i: Input, h: Trace): Trace {
    var h1 := if resp != [] && i.respRdy then h.(delivered := h.delivered + [resp[0]]) else h;
    match h.target
    case Some(a) =>
      if !i.dataVal then h1
      else
        var received := h.received + i.bits;
        if |received| == z.lineSize then h1.(ops := h.ops + [StoreLine(a, received)], target := None, received := [])
        else h1.(received := received)
    case None =>
      if !i.cmdVal then h1
      else
        var a := ByteAddr(z, i.cmdAddr);
        if i.cmdStore then h1.(target := Some(a)) else h1.(ops := h.ops + [LoadLine(a, i.cmdTag)])
  }

  /** The refinement: the bytes are those of the line memory, except for the words of a store
      under way, and the answers delivered and still queued are exactly those of the loads. */
  predicate Refines(z: Shape, mem: seq<Byte>, s: Magic, h: Trace) {
    && StateOk(z, s) && OpsOk(z, h.ops) && |mem| == z.size
    && h.target == (if s.storeInflight then Some(s.storeAddr) else None)
    && |h.received| == s.storeCount * z.wordSize < z.lineSize
    && (if s.storeInflight
        then s.data == Splice(MemAfter(z, mem, h.ops), s.storeAddr, h.received)
        else s.data == MemAfter(z, mem, h.ops))
    && h.delivered + s.resp == ResponsesOf(z, mem, h.ops)
  }

  lemma {:induction false} OpsSnoc(z: Shape, mem: seq<Byte>, ops: seq<LineOp>, op: LineOp)
    requires z.Asserted() && OpsOk(z, ops) && |mem| == z.size
    requires op.addr + z.lineSize <= z.size && (op.StoreLine? ==> |op.line| == z.lineSize)
    ensures OpsOk(z, ops + [op])
    ensures MemAfter(z, mem, ops + [op])
         == if op.StoreLine? then Splice(MemAfter(z, mem, ops), op.addr, op.line) else MemAfter(z, mem, ops)
    ensures ResponsesOf(z, mem, ops + [op])
         == ResponsesOf(z, mem, ops)
            + if op.StoreLine? then []
              else Answers(z, MemAfter(z, mem, ops)[op.addr..op.addr + z.lineSize], op.tag, z.Words())
  {
    hide Answers, Splice;
    assert (ops + [op])[..|ops|] == ops;
  }

  lemma {:induction false} SpliceMore(data: seq<Byte>, at: nat, a: seq<Byte>, b: seq<Byte>)
    requires at + |a| + |b| <= |data|
    ensures Splice(Splice(data, at, a), at + |a|, b) == Splice(data, at, a + b)
  {
  }

  lemma {:induction false} CountUp(count: nat, words: nat, n: nat)
    requires count < words && n > 0
    ensures count * n + n == (count + 1) * n <= words * n
    ensures (count + 1) * n == words * n <==> count + 1 == words
  {
    MulDistrib(count, 1, n);
    MulMono(count + 1, words, n, n);
    if count + 1 < words {
      MulMono(count + 2, words, n, n);
      MulDistrib(count + 1, 1, n);
    }
  }

  lemma {:induction false} CountWraps(count: nat, words: nat)
    requires count < words
    ensures (count + 1) % words == if count + 1 == words then 0 else count + 1
  {
    if count + 1 == words { ModUnique(count + 1, 1, 0, words); } else { ModUnique(count + 1, 0, count + 1, words); }
  }

  lemma {:induction false} CountsWords(z: Shape, count: nat)
    requires z.Asserted() && count < z.Words()
    ensures count * z.wordSize + z.wordSize == (count + 1) * z.wordSize <= z.lineSize
    ensures (count + 1) * z.wordSize == z.lineSize <==> count + 1 == z.Words()
    ensures (count + 1) % z.Words() == if count + 1 == z.Words() then 0 else count + 1
    ensures 0 * z.wordSize == 0
  {
    hide IsPow2;
    assert z.lineSize == z.wordSize * z.Words() == z.Words() * z.wordSize;
    CountUp(count, z.Words(), z.wordSize);
    CountWraps(count, z.Words());
  }

  /** A word of a store: the line changes in the memory of lines when the last word arrives. */
  lemma {:induction false} DataRefines(z: Shape, mem: seq<Byte>, s: Magic, i: Input, h: Trace)
    requires Refines(z, mem, s, h) && |i.bits| == z.wordSize && DataFire(s, i) && !RespFire(s, i)
    ensures Tick(z, s, i).Some? && Refines(z, mem, Tick(z, s, i).value, Record(z, s.resp, i, h))
  {
    hide Answers, MemAfter, ResponsesOf, OpsOk;
    CountsWords(z, s.storeCount);
    var before := MemAfter(z, mem, h.ops);
    var received := h.received + i.bits;
    SpliceMore(before, s.storeAddr, h.received, i.bits);
    if |received| == z.lineSize {
      OpsSnoc(z, mem, h.ops, StoreLine(s.storeAddr, received));
      assert ResponsesOf(z, mem, h.ops) + [] == ResponsesOf(z, mem, h.ops);
    }
  }

  lemma {:induction false} CommandRefines(z: Shape, mem: seq<Byte>, s: Magic, i: Input, h: Trace)
    requires Refines(z, mem, s, h) && |i.bits| == z.wordSize && CmdFire(s, i) && !RespFire(s, i)
    ensures Tick(z, s, i).None? <==> ByteAddr(z, i.cmdAddr) >= z.size
    ensures Tick(z, s, i).Some? ==> Refines(z, mem, Tick(z, s, i).value, Record(z, s.resp, i, h))
  {
    hide Answers, MemAfter, ResponsesOf, OpsOk, ByteAddr;
    var a := ByteAddr(z, i.cmdAddr);
    if a < z.size {
      LineFits(z, i.cmdAddr);
      if i.cmdStore {
        assert h.received == [];
        assert Splice(s.data, a, []) == s.data;
      } else {
        OpsSnoc(z, mem, h.ops, LoadLine(a, i.cmdTag));
        var more := Answers(z, s.data[a..a + z.lineSize], i.cmdTag, z.Words());
        assert h.delivered + (s.resp + more) == (h.delivered + s.resp) + more;
      }
    }
  }

  /** Taking the answer at the head first changes nothing else. */
  lemma {:induction false} TakeAnswer(z: Shape, mem: seq<Byte>, s: Magic, i: Input, h: Trace)
    requires Refines(z, mem, s, h) && |i.bits| == z.wordSize && RespFire(s, i)
    ensures var s1, i1, h1 := s.(resp := s.resp[1..]), i.(respRdy := false), h.(delivered := h.delivered + [s.resp[0]]);
            && Refines(z, mem, s1, h1) && !RespFire(s1, i1)
            && Tick(z, s, i) == Tick(z, s1, i1) && Record(z, s.resp, i, h) == Record(z, s1.resp, i1, h1)
  {
    hide Answers, MemAfter, ResponsesOf, OpsOk, ByteAddr, Splice;
    assert (h.delivered + [s.resp[0]]) + s.resp[1..] == h.delivered + s.resp;
  }

  lemma {:induction false} QuietRefines(z: Shape, mem: seq<Byte>, s: Magic, i: Input, h: Trace)
    requires Refines(z, mem, s, h) && |i.bits| == z.wordSize && !RespFire(s, i)
    ensures Tick(z, s, i).None? <==> CmdFire(s, i) && ByteAddr(z, i.cmdAddr) >= z.size
    ensures Tick(z, s, i).Some? ==> Refines(z, mem, Tick(z, s, i).value, Record(z, s.resp, i, h))
  {
    if DataFire(s, i) {
      DataRefines(z, mem, s, i, h);
    } else if CmdFire(s, i) {
      CommandRefines(z, mem, s, i, h);
    }
  }

  /** One cycle keeps the refinement; it fails exactly on a command beyond the memory. */
  lemma {:induction false} TickRefines(z: Shape, mem: seq<Byte>, s: Magic, i: Input, h: Trace)
    requires Refines(z, mem, s, h) && |i.bits| == z.wordSize
    ensures Tick(z, s, i).None? <==> CmdFire(s, i) && ByteAddr(z, i.cmdAddr) >= z.size
    ensures Tick(z, s, i).Some? ==> Refines(z, mem, Tick(z, s, i).value, Record(z, s.resp, i, h))
  {
    hide Refines, Tick, Record, ByteAddr;
    if RespFire(s, i) {
      TakeAnswer(z, mem, s, i, h);
      QuietRefines(z, mem, s.(resp := s.resp[1..]), i.(respRdy := false), h.(delivered := h.delivered + [s.resp[0]]));
    } else {
      QuietRefines(z, mem, s, i, h);
    }
  }

  // ----- Runs -----

  datatype Snapshot = Snapshot(state: Magic, trace: Trace)

  function Start(mem: seq<Byte>): Snapshot {
    Snapshot(Magic(mem, false, 0, 0, []), Trace([], [], None, []))
  }

  predicate InputsOk(z: Shape, inputs: seq<Input>) { forall k :: 0 <= k < |inputs| ==> |inputs[k].bits| == z.wordSize }

  /** The states a sequence of cycles goes through. */
  ghost predicate Reaches(z: Shape, mem: seq<Byte>, inputs: seq<Input>, end: Snapshot)
    requires z.Valid() && InputsOk(z, inputs)
  {
    if |inputs| == 0 then end == Start(mem)
    else
      var last := inputs[|inputs| - 1];
      exists before: Snapshot ::
        && Reaches(z, mem, inputs[..|inputs| - 1], before) && StateOk(z, before.state)
        && Tick(z, before.state, last) == Some(end.state) && end.trace == Record(z, before.state.resp, last, before.trace)
  }

  /** In every run the memory refines the memory of lines: stores land whole, loads see no
      half-written line, and the answers come in the order of the loads. */
  lemma {:induction false} RunRefines(z: Shape, mem: seq<Byte>, inputs: seq<Input>, end: Snapshot)
    requires z.Valid() && |mem| == z.size && InputsOk(z, inputs) && Reaches(z, mem, inputs, end)
    ensures Refines(z, mem, end.state, end.trace)
  {
    if |inputs| == 0 {
      assert 0 * z.wordSize == 0;
    } else {
      hide Refines, Tick, Record;
      var front, last := inputs[..|inputs| - 1], inputs[|inputs| - 1];
      var before: Snapshot :|
        && Reaches(z, mem, front, before) && StateOk(z, before.state)
        && Tick(z, before.state, last) == Some(end.state) && end.trace == Record(z, before.state.resp, last, before.trace);
      RunRefines(z, mem, front, before);
      TickRefines(z, mem, before.state, last, before.trace);
    }
  }

  // ----- The memory as it is kept -----

  /** Copies bytes into a buffer. */
  method CopyIn(data: array<Byte>, at: nat, bits: seq<Byte>)
    requires at + |bits| <= data.Length
    modifies data
    ensures data[..] == Splice(old(data[..]), at, bits)
  {
    for k := 0 to |bits|
      invariant forall j :: 0 <= j < data.Length ==>
                  data[j] == if at <= j < at + k then bits[j - at] else old(data[j])
    {
      data[at + k] := bits[k];
    }
  }

  lemma {:induction false} SliceOfSlice(s: seq<Byte>, a: nat, n: nat, o: nat, w: nat)
    requires a + n <= |s| && o + w <= n
    ensures s[a..a + n][o..o + w] == s[a + o..a + o + w]
  {
    var t := s[a..a + n];
    var u, v := t[o..o + w], s[a + o..a + o + w];
    forall k | 0 <= k < w ensures u[k] == v[k] {
      assert t[o + k] == s[a + o + k];
    }
  }

  lemma {:induction false} NoAnswers(z: Shape, line: seq<Byte>, tag: nat)
    requires z.Asserted() && |line| == z.lineSize
    ensures Answers(z, line, tag, 0) == []
  {
  }

  lemma {:induction false} NextAnswer(z: Shape, line: seq<Byte>, tag: nat, n: nat)
    requires z.Asserted() && |line| == z.lineSize && n < z.Words()
    ensures n * z.wordSize + z.wordSize <= z.lineSize
    ensures Answers(z, line, tag, n + 1)
         == Answers(z, line, tag, n) + [Response(tag, line[n * z.wordSize..n * z.wordSize + z.wordSize])]
  {
    WordInLine(z, n);
  }

  /** The answers to a load of the line at a. */
  method LineAnswers(z: Shape, data: array<Byte>, a: nat, tag: nat) returns (rs: seq<Response>)
    requires z.Asserted() && a + z.lineSize <= data.Length
    ensures rs == Answers(z, data[..][a..a + z.lineSize], tag, z.Words())
  {
    ghost var line := data[..][a..a + z.lineSize];
    NoAnswers(z, line, tag);
    hide IsPow2, Answers, Shape.Words;
    rs := [];
    for k := 0 to z.Words()
      invariant rs == Answers(z, line, tag, k)
    {
      WordInLine(z, k);
      NextAnswer(z, line, tag, k);
      var offset := k * z.wordSize;
      SliceOfSlice(data[..], a, z.lineSize, offset, z.wordSize);
      rs := rs + [Response(tag, data[..][a + offset..a + offset + z.wordSize])];
    }
  }

  class MagicMemory {
    const z: Shape
    const data: array<Byte>
    var storeInflight: bool
    var storeCount: nat
    var storeAddr: nat
    var resp: seq<Response>
    var cycle: nat

    function Value(): Magic
      reads this, data
    {
      Magic(data[..], storeInflight, storeCount, storeAddr, resp)
    }

    predicate Valid()
      reads this, data
    {
      StateOk(z, Value())
    }

    constructor (z: Shape)
      requires z.Valid()
      ensures Valid() && this.z == z && fresh(data) && Value() == Start(data[..]).state
    {
      this.z := z;
      data := new Byte[z.size];
      storeInflight, storeCount, storeAddr, resp, cycle := false, 0, 0, [], 0;
    }

    /** One cycle. A command and a word of data are never taken together; ok is false if the
        command lies beyond the memory. */
    method Step(i: Input) returns (ok: bool)
      requires Valid() && |i.bits| == z.wordSize
      modifies this, data
      ensures match Tick(z, old(Value()), i)
              case Some(s) => ok && Value() == s
              case None => !ok
    {
      hide Answers, Splice, IsPow2;
      var cmdFire, dataFire, respFire := i.cmdVal && !storeInflight, i.dataVal && storeInflight, resp != [] && i.respRdy;
      assert !(cmdFire && dataFire);
      if respFire { resp := resp[1..]; }
      if dataFire {
        WordInLine(z, storeCount);
        CopyIn(data, storeAddr + storeCount * z.wordSize, i.bits);
        storeCount := (storeCount + 1) % (z.lineSize / z.wordSize);
        if storeCount == 0 { storeInflight := false; }
      }
      if cmdFire {
        var a := ByteAddr(z, i.cmdAddr);
        if a >= z.size { return false; }
        if i.cmdStore {
          storeInflight := true;
          storeAddr := a;
        } else {
          LineFits(z, i.cmdAddr);
          var answers := LineAnswers(z, data, a, i.cmdTag);
          resp := resp + answers;
        }
      }
      cycle := cycle + 1;
      ok := true;
    }
  }
}
