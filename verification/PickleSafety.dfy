/** What holds of the unpickler on every input, well-formed or hostile, and the framing
    that carries pickles over TCP and UDP. */
module PickleSafety {
  import opened Common
  import opened Bytes
  import opened Pickle

  // ---- no dangling reference, on any input ----

  /** Every dict reference inside `v` is below `n`. */
  ghost predicate Grounded(v: Val, n: nat) {
    match v
    case Dict(id) => id < n
    case List(items) => forall i :: 0 <= i < |items| ==> Grounded(items[i], n)
    case _ => true
  }

  ghost predicate GroundedAll(vs: seq<Val>, n: nat) {
    forall i :: 0 <= i < |vs| ==> Grounded(vs[i], n)
  }

  ghost predicate GroundedHeap(h: Heap) {
    forall d, k :: 0 <= d < |h| && k in h[d] ==> Grounded(h[d][k], |h|)
  }

  ghost predicate WellFormed(st: State) {
    && GroundedAll(st.stack, |st.heap|)
    && (forall i :: i in st.memo ==> Grounded(st.memo[i], |st.heap|))
    && GroundedHeap(st.heap)
  }

  lemma {:induction false} GroundedGrows(v: Val, n: nat, n': nat)
    requires Grounded(v, n) && n <= n'
    ensures Grounded(v, n')
    decreases v
  {
    match v
    case List(items) =>
      forall i | 0 <= i < |items| ensures Grounded(items[i], n') { GroundedGrows(items[i], n, n'); }
    case _ =>
  }

  lemma ImmediateGrounded(pf: FloatParser, op: byte, r: bytes, n: nat)
    ensures ReadImmediate(pf, op, r).Immediate? ==> Grounded(ReadImmediate(pf, op, r).v, n)
  {
  }

  lemma {:induction false} DictSetAllGrounded(stack: seq<Val>, h: Heap, items: seq<Val>)
    requires |items| % 2 == 0 && GroundedAll(items, |h|) && GroundedHeap(h)
    ensures match DictSetAll(stack, h, items)
      case None => true
      case Some(h') => |h'| == |h| && GroundedHeap(h')
    decreases |items|
  {
    if items != [] {
      match DictSet(stack, h, items[0], items[1])
      case None =>
      case Some(h1) =>
        assert GroundedHeap(h1);
        DictSetAllGrounded(stack, h1, items[2..]);
    }
  }

  lemma AllocationKeepsWellFormed(st: State)
    requires WellFormed(st)
    ensures WellFormed(Pushed(st, Dict(|st.heap|)).(heap := st.heap + [map[]]))
  {
    var n := |st.heap|;
    forall i | 0 <= i < |st.stack| ensures Grounded(st.stack[i], n + 1) { GroundedGrows(st.stack[i], n, n + 1); }
    forall i | i in st.memo ensures Grounded(st.memo[i], n + 1) { GroundedGrows(st.memo[i], n, n + 1); }
    forall d, k | 0 <= d < n && k in st.heap[d] ensures Grounded(st.heap[d][k], n + 1) {
      GroundedGrows(st.heap[d][k], n, n + 1);
    }
  }

  lemma MemoKeepsWellFormed(op: byte, r: bytes, st: State)
    requires WellFormed(st)
    ensures match OperateMemo(op, r, st)
      case Next(_, st') => WellFormed(st')
      case Done(result) => result == Error
  {
    hide Grounded, FromLittleEndian;
    assert Grounded(Nil, |st.heap|) by { GroundedNil(|st.heap|); }
  }

  lemma GroundedNil(n: nat)
    ensures Grounded(Nil, n)
  {
  }

  lemma GroundedList(items: seq<Val>, n: nat)
    requires GroundedAll(items, n)
    ensures Grounded(List(items), n)
  {
  }

  lemma GroundedItems(v: Val, n: nat)
    requires Grounded(v, n) && v.List?
    ensures GroundedAll(v.items, n)
  {
  }

  lemma StackKeepsWellFormed(st: State, stack: seq<Val>)
    requires WellFormed(st) && GroundedAll(stack, |st.heap|)
    ensures WellFormed(st.(stack := stack))
  {
    hide GroundedAll, Grounded, GroundedHeap;
  }

  lemma GroundedSlice(vs: seq<Val>, i: nat, j: nat, n: nat)
    requires GroundedAll(vs, n) && i <= j <= |vs|
    ensures GroundedAll(vs[i..j], n)
  {
    hide Grounded;
  }

  /** A stack cut at `i`, with one list pushed. */
  lemma GroundedCut(vs: seq<Val>, i: nat, items: seq<Val>, n: nat)
    requires GroundedAll(vs, n) && i <= |vs| && GroundedAll(items, n)
    ensures GroundedAll(vs[..i] + [List(items)], n)
  {
    GroundedList(items, n);
    hide Grounded;
  }

  lemma GroundedConcat(vs: seq<Val>, ws: seq<Val>, n: nat)
    requires GroundedAll(vs, n) && GroundedAll(ws, n)
    ensures GroundedAll(vs + ws, n)
  {
    hide Grounded;
  }

  lemma ListOpKeepsWellFormed(op: byte, r: bytes, st: State)
    requires WellFormed(st) && (op == APPEND || op == APPENDS)
    ensures match OperateFill(op, r, st)
      case Next(_, st') => WellFormed(st')
      case Done(result) => result == Error
  {
    var n, top := |st.stack|, if op == APPEND then |st.stack| - 1 else TopMark(st.stack);
    if top >= 1 && st.stack[top - 1].List? {
      var more := if op == APPEND then [st.stack[top]] else st.stack[top + 1..];
      ExtendKeepsWellFormed(st, top, if op == APPEND then top else top + 1);
      assert st.stack[top..n] == st.stack[top..];
      assert op == APPEND ==> st.stack[top..] == [st.stack[top]];
    }
    hide TopMark, WellFormed;
  }

  /** The list below `top` extended by the items from `from` on. */
  lemma ExtendKeepsWellFormed(st: State, top: nat, from: nat)
    requires WellFormed(st) && 1 <= top <= from <= |st.stack| && st.stack[top - 1].List?
    ensures WellFormed(st.(stack := st.stack[..top - 1] + [List(st.stack[top - 1].items + st.stack[from..])]))
  {
    var size := |st.heap|;
    GroundedItems(st.stack[top - 1], size);
    GroundedSlice(st.stack, from, |st.stack|, size);
    GroundedConcat(st.stack[top - 1].items, st.stack[from..], size);
    GroundedCut(st.stack, top - 1, st.stack[top - 1].items + st.stack[from..], size);
    StackKeepsWellFormed(st, st.stack[..top - 1] + [List(st.stack[top - 1].items + st.stack[from..])]);
  }

  lemma DictOpKeepsWellFormed(op: byte, r: bytes, st: State)
    requires WellFormed(st) && (op == SETITEM || op == SETITEMS)
    ensures match OperateFill(op, r, st)
      case Next(_, st') => WellFormed(st')
      case Done(result) => result == Error
  {
    hide TopMark, DictSet, DictSetAll, WellFormed, GroundedAll, GroundedHeap;
    var n, i := |st.stack|, TopMark(st.stack);
    StackGrounded(st);
    if op == SETITEM && n >= 2 {
      LastGrounded(st.stack, |st.heap|);
      DictSetGrounded(st.stack[..n - 2], st.heap, st.stack[n - 2], st.stack[n - 1]);
      var h := DictSet(st.stack[..n - 2], st.heap, st.stack[n - 2], st.stack[n - 1]);
      if h.Some? { ShorterKeepsWellFormed(st, n - 2, h.value); }
    } else if op == SETITEMS && i >= 0 && (n - i - 1) % 2 == 0 {
      GroundedSlice(st.stack, i + 1, n, |st.heap|);
      assert st.stack[i + 1..n] == st.stack[i + 1..];
      DictSetAllGrounded(st.stack[..i], st.heap, st.stack[i + 1..]);
      var h := DictSetAll(st.stack[..i], st.heap, st.stack[i + 1..]);
      if h.Some? { ShorterKeepsWellFormed(st, i, h.value); }
    }
  }

  lemma LastGrounded(vs: seq<Val>, n: nat)
    requires GroundedAll(vs, n) && vs != []
    ensures Grounded(vs[|vs| - 1], n)
  {
  }

  /** A shorter stack over a heap of the same size. */
  lemma ShorterKeepsWellFormed(st: State, n: nat, h: Heap)
    requires WellFormed(st) && n <= |st.stack| && |h| == |st.heap| && GroundedHeap(h)
    ensures WellFormed(st.(stack := st.stack[..n], heap := h))
  {
    hide Grounded, GroundedHeap;
  }

  lemma DictSetGrounded(stack: seq<Val>, h: Heap, k: Val, v: Val)
    requires Grounded(v, |h|) && GroundedHeap(h)
    ensures match DictSet(stack, h, k, v)
      case None => true
      case Some(h') => |h'| == |h| && GroundedHeap(h')
  {
    hide Grounded;
  }

  /** No reference is left dangling, on the machine or in what it returns. */
  ghost predicate Safe(o: Outcome) {
    match o
    case Next(_, st) => WellFormed(st)
    case Done(Error) => true
    case Done(Decoded(id, h)) => id < |h| && GroundedHeap(h)
  }

  lemma SimpleOpIsSafe(op: byte, r: bytes, st: State)
    requires WellFormed(st) && (op == PROTO || op == MARK || op == EMPTY_DICT)
    ensures Safe(Operate(op, r, st))
  {
    hide TopMark, OperateFill, WellFormed, Grounded, GroundedAll, GroundedHeap;
    if op == EMPTY_DICT {
      AllocationKeepsWellFormed(st);
    } else if op == MARK {
      StackGrounded(st);
      GroundedMark(|st.heap|);
      GroundedConcat(st.stack, [Mark], |st.heap|);
      StackKeepsWellFormed(st, st.stack + [Mark]);
    }
  }

  lemma StopIsSafe(r: bytes, st: State)
    requires WellFormed(st)
    ensures Safe(Operate(STOP, r, st))
  {
    hide TopMark, OperateFill, WellFormed, GroundedHeap;
    StackGrounded(st);
    if st.stack != [] { TopGrounded(st); }
  }

  lemma TupleOpIsSafe(op: byte, r: bytes, st: State)
    requires WellFormed(st) && (op == TUPLE || TUPLE1 <= op <= TUPLE3)
    ensures Safe(Operate(op, r, st))
  {
    hide TopMark, OperateFill, WellFormed;
    var n, i := |st.stack|, TopMark(st.stack);
    if op == TUPLE {
      if i >= 0 { TupleKeepsWellFormed(st, i, i + 1); }
    } else {
      var k := op - TUPLE1 + 1;
      if n >= k { TupleKeepsWellFormed(st, n - k, n - k); }
    }
  }

  lemma OtherOpIs(op: byte, r: bytes, st: State)
    requires op != PROTO && op != STOP && op != MARK && op != EMPTY_DICT && op != TUPLE && !(TUPLE1 <= op <= TUPLE3)
    ensures Operate(op, r, st) == OperateFill(op, r, st)
  {
    hide OperateFill;
  }

  lemma OperateIsSafe(op: byte, r: bytes, st: State)
    requires WellFormed(st) && Safe(OperateFill(op, r, st))
    ensures Safe(Operate(op, r, st))
  {
    hide Operate, OperateFill, WellFormed, Safe;
    if op == PROTO || op == MARK || op == EMPTY_DICT {
      SimpleOpIsSafe(op, r, st);
    } else if op == STOP {
      StopIsSafe(r, st);
    } else if op == TUPLE || TUPLE1 <= op <= TUPLE3 {
      TupleOpIsSafe(op, r, st);
    } else {
      OtherOpIs(op, r, st);
    }
  }

  lemma StackGrounded(st: State)
    requires WellFormed(st)
    ensures GroundedAll(st.stack, |st.heap|) && GroundedHeap(st.heap)
  {
    hide GroundedAll, GroundedHeap;
  }

  lemma GroundedMark(n: nat)
    ensures GroundedAll([Mark], n)
  {
  }

  lemma TopGrounded(st: State)
    requires WellFormed(st) && st.stack != []
    ensures var top := st.stack[|st.stack| - 1]; top.Dict? ==> top.id < |st.heap|
  {
    assert Grounded(st.stack[|st.stack| - 1], |st.heap|);
  }

  lemma TupleKeepsWellFormed(st: State, to: nat, from: nat)
    requires WellFormed(st) && to <= from <= |st.stack|
    ensures WellFormed(st.(stack := st.stack[..to] + [List(st.stack[from..])]))
  {
    GroundedSlice(st.stack, from, |st.stack|, |st.heap|);
    GroundedCut(st.stack, to, st.stack[from..], |st.heap|);
    StackKeepsWellFormed(st, st.stack[..to] + [List(st.stack[from..])]);
  }

  lemma FillIsSafe(op: byte, r: bytes, st: State)
    requires WellFormed(st)
    ensures Safe(OperateFill(op, r, st))
  {
    hide WellFormed, OperateMemo;
    if op == APPEND || op == APPENDS {
      ListOpKeepsWellFormed(op, r, st);
      hide OperateFill;
    } else if op == SETITEM || op == SETITEMS {
      DictOpKeepsWellFormed(op, r, st);
      hide OperateFill;
    } else {
      MemoKeepsWellFormed(op, r, st);
    }
  }

  /** Every step, from a well-formed state, on any bytes at all: no reference is left
      dangling, and a decoded dict is in the heap with everything it refers to. */
  lemma StepKeepsWellFormed(pf: FloatParser, op: byte, r: bytes, st: State)
    requires WellFormed(st)
    ensures Safe(Step(pf, op, r, st))
  {
    hide OperateFill, ReadImmediate, Operate;
    ImmediateGrounded(pf, op, r, |st.heap|);
    FillIsSafe(op, r, st);
    OperateIsSafe(op, r, st);
  }

  lemma {:induction false} DecodedIsGrounded(pf: FloatParser, input: bytes, st: State)
    requires WellFormed(st)
    ensures match Run(pf, input, st)
      case Error => true
      case Decoded(id, h) => id < |h| && GroundedHeap(h)
    decreases |input|
  {
    if input != [] {
      StepKeepsWellFormed(pf, input[0], input[1..], st);
      var o := Step(pf, input[0], input[1..], st);
      if o.Next? { DecodedIsGrounded(pf, o.rest, o.st); }
    }
  }

  // ---- framing ----

  /** The records of a TCP stream: a big-endian length, then that many bytes. A zero or
      oversize length, or a short read, ends the connection. */
  function Frames(input: bytes): seq<bytes>
    decreases |input|
  {
    if |input| < 4 then []
    else
      var n := FromBigEndian(input[..4]);
      if n == 0 || n > MAX_FRAME || |input| < 4 + n then []
      else [input[4..4 + n]] + Frames(input[4 + n..])
  }

  method HandleConn(input: bytes) returns (records: seq<bytes>)
    ensures records == Frames(input)
  {
    hide FromBigEndian, Frames;
    records := [];
    var pos := 0;
    while true
      invariant 0 <= pos <= |input|
      invariant Frames(input) == records + Frames(input[pos..])
      decreases |input| - pos
    {
      UnfoldFrames(input, pos);
      if pos + 4 > |input| { return; }
      var head := input[pos..pos + 4];
      var n := FromBigEndian(head);
      if n == 0 || n > MAX_FRAME { return; }
      if pos + 4 + n > |input| { return; }
      var frame := input[pos + 4..pos + 4 + n];
      Regroup(records, [frame], Frames(input[pos + 4 + n..]));
      records := records + [frame];
      pos := pos + 4 + n;
    }
  }

  lemma UnfoldFrames(input: bytes, pos: nat)
    requires pos <= |input|
    ensures Frames(input[pos..]) ==
      if pos + 4 > |input| then []
      else
        var n := FromBigEndian(input[pos..pos + 4]);
        if n == 0 || n > MAX_FRAME || pos + 4 + n > |input| then []
        else [input[pos + 4..pos + 4 + n]] + Frames(input[pos + 4 + n..])
  {
    hide FromBigEndian;
    if pos + 4 <= |input| {
      SliceAfter(input, pos, 0, 4);
      var n := FromBigEndian(input[pos..pos + 4]);
      if pos + 4 + n <= |input| {
        SliceAfter(input, pos, 4, 4 + n);
        assert input[pos..][4 + n..] == input[pos + 4 + n..];
      }
    }
  }

  /** A datagram carries one record, with or without the length prefix. */
  function Datagram(payload: bytes): bytes {
    if |payload| > 4 && FromBigEndian(payload[..4]) == |payload| - 4 then payload[4..] else payload
  }

  function Framed(record: bytes): bytes { BigEndian(|record|, 4) + record }

  function FramedAll(records: seq<bytes>): bytes {
    if records == [] then [] else Framed(records[0]) + FramedAll(records[1..])
  }

  ghost predicate Sendable(records: seq<bytes>) {
    forall i :: 0 <= i < |records| ==> 0 < |records[i]| <= MAX_FRAME
  }

  lemma FirstFrame(r: bytes, tail: bytes)
    requires 0 < |r| <= MAX_FRAME
    ensures Frames(Framed(r) + tail) == [r] + Frames(tail)
  {
    Pow256Values();
    BigEndianRoundTrip(|r|, 4);
    hide BigEndian;
    var input := BigEndian(|r|, 4) + r + tail;
    assert input[..4] == BigEndian(|r|, 4) && input[4..4 + |r|] == r && input[4 + |r|..] == tail;
  }

  /** Back-to-back records come out one by one; a cut-off last one is dropped. */
  lemma {:induction false} FramesInvertFramed(records: seq<bytes>, cut: bytes)
    requires Sendable(records) && |cut| < 4
    ensures Frames(FramedAll(records) + cut) == records
    decreases |records|
  {
    var input := FramedAll(records) + cut;
    if records == [] {
      assert input == cut;
    } else {
      hide Framed, Frames;
      var r, tail := records[0], FramedAll(records[1..]) + cut;
      FramesInvertFramed(records[1..], cut);
      Regroup(Framed(r), FramedAll(records[1..]), cut);
      FirstFrame(r, tail);
    }
  }

  lemma DatagramUnframes(record: bytes)
    requires 0 < |record| <= MAX_FRAME
    ensures Datagram(Framed(record)) == record
  {
    Pow256Values();
    BigEndianRoundTrip(|record|, 4);
    DropPrefix(BigEndian(|record|, 4), record);
  }

  /** A length of zero, one above 1 MiB, or one that its bytes do not reach ends the connection:
      the records before it come out, and nothing after. */
  lemma {:induction false} BadFrameStops(records: seq<bytes>, n: nat, rest: bytes)
    requires Sendable(records) && n < 0x1_0000_0000 && (n == 0 || n > 0x10_0000 || |rest| < n)
    ensures Frames(FramedAll(records) + (BigEndian(n, 4) + rest)) == records
    decreases |records|
  {
    hide Framed, Frames, BigEndian;
    var tail := BigEndian(n, 4) + rest;
    if records == [] {
      assert FramedAll(records) + tail == tail;
      BadHeader(n, rest);
    } else {
      BadFrameStops(records[1..], n, rest);
      Regroup(Framed(records[0]), FramedAll(records[1..]), tail);
      FirstFrame(records[0], FramedAll(records[1..]) + tail);
    }
  }

  lemma BadHeader(n: nat, rest: bytes)
    requires n < 0x1_0000_0000 && (n == 0 || n > 0x10_0000 || |rest| < n)
    ensures Frames(BigEndian(n, 4) + rest) == []
  {
    Pow256Values();
    BigEndianRoundTrip(n, 4);
    hide BigEndian, FromBigEndian;
    DropPrefix(BigEndian(n, 4), rest);
  }

  /** A datagram whose first four bytes are not the length of the rest is a record as it is. */
  lemma DatagramPlain(payload: bytes)
    requires |payload| <= 4 || FromBigEndian(payload[..4]) != |payload| - 4
    ensures Datagram(payload) == payload
  {
  }
}
