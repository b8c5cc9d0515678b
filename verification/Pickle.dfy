/** The data-only unpickler of the Python sink: a stack machine over a byte string.
    `Run` is its semantics, one opcode at a time; `Unpickle` is the program. */
module Pickle {
  import opened Common
  import opened Bytes

  /** What the machine's stack holds. A dict is a reference into the heap, as a Go map
      is; a list is a value; a mark is an ordinary stack item. */
  datatype Val =
    | Nil
    | Bool(b: bool)
    | Int(n: int)
    | Float(bits: nat)
    | Str(s: bytes)
    | List(items: seq<Val>)
    | Dict(id: nat)
    | Mark

  type Object = map<bytes, Val>
  type Heap = seq<Object>

  datatype State = State(stack: seq<Val>, memo: map<nat, Val>, heap: Heap)

  const START := State([], map[], [])

  datatype Result = Decoded(id: nat, heap: Heap) | Error

  /** `strconv.ParseFloat`, left open: the bits of the float a line denotes, if any. */
  type FloatParser = bytes -> Option<nat>

  // ---- opcodes ----

  const PROTO: byte := 0x80
  const STOP: byte := 0x2E
  const MARK: byte := 0x28
  const NONE: byte := 0x4E
  const NEWTRUE: byte := 0x88
  const NEWFALSE: byte := 0x89
  const INT: byte := 0x49
  const LONG: byte := 0x4C
  const FLOAT: byte := 0x46
  const BININT1: byte := 0x4B
  const BININT2: byte := 0x4D
  const BININT: byte := 0x4A
  const LONG1: byte := 0x8A
  const BINFLOAT: byte := 0x47
  const BINUNICODE: byte := 0x58
  const SHORT_BINUNICODE: byte := 0x8C
  const SHORT_BINSTRING: byte := 0x55
  const EMPTY_DICT: byte := 0x7D
  const EMPTY_LIST: byte := 0x5D
  const EMPTY_TUPLE: byte := 0x29
  const TUPLE: byte := 0x74
  const TUPLE1: byte := 0x85
  const TUPLE3: byte := 0x87
  const APPEND: byte := 0x61
  const APPENDS: byte := 0x65
  const SETITEM: byte := 0x73
  const SETITEMS: byte := 0x75
  const BINPUT: byte := 0x71
  const LONG_BINPUT: byte := 0x72
  const BINGET: byte := 0x68
  const LONG_BINGET: byte := 0x6A
  const MEMOIZE: byte := 0x94

  const MAX_FRAME := 0x10_0000

  // ---- numbers ----

  /** The integer whose `|b|`-byte two's complement, low byte first, is `b`. */
  function TwosComplement(b: bytes): int {
    var v := FromLittleEndian(b);
    if 2 * v >= Pow256(|b|) then v - Pow256(|b|) else v
  }

  /** The sign is the top bit of the top byte. */
  lemma {:induction false} TopBit(b: bytes)
    requires b != []
    ensures 2 * FromLittleEndian(b) >= Pow256(|b|) <==> b[|b| - 1] >= 0x80
  {
    if |b| == 1 {
      assert FromLittleEndian(b[1..]) == 0;
      assert Pow256(1) == 256;
    } else {
      TopBit(b[1..]);
      var v, p := FromLittleEndian(b[1..]), Pow256(|b| - 1);
      EvenPow256(|b| - 1);
      HalfOf(b[0], v, p);
      assert b[1..][|b| - 2] == b[|b| - 1];
    }
  }

  /** A lower byte does not decide which half a number is in. */
  lemma HalfOf(low: int, v: int, p: int)
    requires 0 <= low < 256 && p % 2 == 0
    ensures 2 * (low + 256 * v) >= 256 * p <==> 2 * v >= p
  {
    var q := p / 2;
    assert p == 2 * q;
  }

  lemma SignedWord(b: bytes)
    requires |b| == 4
    ensures var word := FromLittleEndian(b);
      TwosComplement(b) == if word > 0x7FFF_FFFF then word - 0x1_0000_0000 else word
  {
    hide FromLittleEndian;
    Pow256Values();
  }

  lemma EvenPow256(k: nat)
    requires k > 0
    ensures Pow256(k) % 2 == 0
  {
    assert Pow256(k) == 2 * (128 * Pow256(k - 1));
  }

  // ---- one opcode ----

  datatype Immediate = NotImmediate | Malformed | Immediate(v: Val, size: nat)

  /** The opcodes that carry a counted string. */
  function ReadString(op: byte, r: bytes): (i: Immediate)
    ensures i.Immediate? ==> i.size <= |r|
  {
    if op == BINUNICODE then
      if |r| < 4 then Malformed
      else
        var n := FromLittleEndian(r[..4]);
        if n > MAX_FRAME || |r| < 4 + n then Malformed
        else Immediate(Str(r[4..4 + n]), 4 + n)
    else if op == SHORT_BINUNICODE || op == SHORT_BINSTRING then
      if |r| < 1 then Malformed
      else
        var n: nat := r[0];
        if |r| < 1 + n then Malformed else Immediate(Str(r[1..1 + n]), 1 + n)
    else NotImmediate
  }

  /** The opcodes that carry a number in binary, or a string. */
  function ReadBinary(op: byte, r: bytes): (i: Immediate)
    ensures i.Immediate? ==> i.size <= |r|
  {
    if op == BININT1 then
      if |r| < 1 then Malformed else Immediate(Int(r[0]), 1)
    else if op == BININT2 then
      if |r| < 2 then Malformed else Immediate(Int(FromLittleEndian(r[..2])), 2)
    else if op == BININT then
      if |r| < 4 then Malformed else Immediate(Int(TwosComplement(r[..4])), 4)
    else if op == LONG1 then
      if |r| < 1 then Malformed
      else
        var n: nat := r[0];
        if n > 8 || |r| < 1 + n then Malformed
        else Immediate(Int(TwosComplement(r[1..1 + n])), 1 + n)
    else if op == BINFLOAT then
      if |r| < 8 then Malformed else Immediate(Float(FromBigEndian(r[..8])), 8)
    else ReadString(op, r)
  }

  /** The value an opcode pushes from its own argument bytes, which start `r`. */
  function ReadImmediate(parseFloat: FloatParser, op: byte, r: bytes): (i: Immediate)
    ensures i.Immediate? ==> i.size <= |r|
  {
    if op == NONE then Immediate(Nil, 0)
    else if op == NEWTRUE then Immediate(Bool(true), 0)
    else if op == NEWFALSE then Immediate(Bool(false), 0)
    else if op == EMPTY_LIST || op == EMPTY_TUPLE then Immediate(List([]), 0)
    else if op == INT || op == LONG || op == FLOAT then
      var i := IndexByte(r, NL);
      if i < 0 then Malformed
      else
        match ReadNumeral(parseFloat, op, r[..i])
        case None => Malformed
        case Some(v) => Immediate(v, i + 1)
    else ReadBinary(op, r)
  }

  /** A decimal line: 01 and 00 are the protocol-1 booleans, L may end a Python 2 long. */
  function ReadNumeral(parseFloat: FloatParser, op: byte, line: bytes): Option<Val> {
    if op == FLOAT then
      match parseFloat(line)
      case None => None
      case Some(bits) => Some(Float(bits))
    else if op == INT && line == [0x30, 0x31] then Some(Bool(true))
    else if op == INT && line == [0x30, 0x30] then Some(Bool(false))
    else
      var digits := if op == LONG && line != [] && line[|line| - 1] == 0x4C then line[..|line| - 1] else line;
      match ParseInt(digits)
      case None => None
      case Some(n) => Some(Int(n))
  }

  datatype Outcome = Next(rest: bytes, st: State) | Done(result: Result)

  const FAIL := Done(Error)

  function Pushed(st: State, v: Val): State {
    st.(stack := st.stack + [v])
  }

  /** The position of the topmost mark, or -1. */
  function TopMark(stack: seq<Val>): (i: int)
    ensures -1 <= i < |stack|
    ensures 0 <= i ==> stack[i] == Mark
    ensures forall j :: i < j < |stack| ==> stack[j] != Mark
  {
    if stack == [] then -1
    else if stack[|stack| - 1] == Mark then |stack| - 1
    else TopMark(stack[..|stack| - 1])
  }

  /** One assignment into the dict on top of the stack. */
  function DictSet(stack: seq<Val>, heap: Heap, k: Val, v: Val): (r: Option<Heap>)
  {
    if stack == [] then None
    else
      var top := stack[|stack| - 1];
      if top.Dict? && top.id < |heap| && k.Str? then Some(heap[top.id := heap[top.id][k.s := v]])
      else None
  }

  /** Assignments from a flat list of keys and values. */
  function DictSetAll(stack: seq<Val>, heap: Heap, items: seq<Val>): Option<Heap>
    requires |items| % 2 == 0
    decreases |items|
  {
    if items == [] then Some(heap)
    else
      match DictSet(stack, heap, items[0], items[1])
      case None => None
      case Some(h) => DictSetAll(stack, h, items[2..])
  }

  /** The opcodes that store into the memo or read it; any other opcode aborts. */
  function OperateMemo(op: byte, r: bytes, st: State): (o: Outcome)
    ensures o.Next? ==> |o.rest| <= |r|
  {
    if op == BINPUT then
      if |r| < 1 then FAIL else Next(r[1..], Memoized(st, r[0]))
    else if op == LONG_BINPUT then
      if |r| < 4 then FAIL else Next(r[4..], Memoized(st, FromLittleEndian(r[..4])))
    else if op == BINGET then
      if |r| < 1 then FAIL else Next(r[1..], Pushed(st, Recalled(st, r[0])))
    else if op == LONG_BINGET then
      if |r| < 4 then FAIL else Next(r[4..], Pushed(st, Recalled(st, FromLittleEndian(r[..4]))))
    else if op == MEMOIZE then Next(r, Memoized(st, |st.memo|))
    else FAIL
  }

  /** The opcodes that put items into the list or dict below them. */
  function OperateFill(op: byte, r: bytes, st: State): (o: Outcome)
    ensures o.Next? ==> |o.rest| <= |r|
  {
    var n := |st.stack|;
    if op == APPEND then
      if n < 2 || !st.stack[n - 2].List? then FAIL
      else Next(r, st.(stack := st.stack[..n - 2] + [List(st.stack[n - 2].items + [st.stack[n - 1]])]))
    else if op == APPENDS then
      var i := TopMark(st.stack);
      if i < 1 || !st.stack[i - 1].List? then FAIL
      else Next(r, st.(stack := st.stack[..i - 1] + [List(st.stack[i - 1].items + st.stack[i + 1..])]))
    else if op == SETITEM then
      if n < 2 then FAIL
      else
        match DictSet(st.stack[..n - 2], st.heap, st.stack[n - 2], st.stack[n - 1])
        case None => FAIL
        case Some(h) => Next(r, st.(stack := st.stack[..n - 2], heap := h))
    else if op == SETITEMS then
      var i := TopMark(st.stack);
      if i < 0 || (n - i - 1) % 2 != 0 then FAIL
      else
        match DictSetAll(st.stack[..i], st.heap, st.stack[i + 1..])
        case None => FAIL
        case Some(h) => Next(r, st.(stack := st.stack[..i], heap := h))
    else OperateMemo(op, r, st)
  }

  /** The opcodes that carry no value of their own. */
  function Operate(op: byte, r: bytes, st: State): (o: Outcome)
    ensures o.Next? ==> |o.rest| <= |r|
  {
    var n := |st.stack|;
    if op == PROTO then
      if |r| < 1 then FAIL else Next(r[1..], st)
    else if op == STOP then
      if n == 0 || !st.stack[n - 1].Dict? then FAIL
      else Done(Decoded(st.stack[n - 1].id, st.heap))
    else if op == MARK then Next(r, Pushed(st, Mark))
    else if op == EMPTY_DICT then
      Next(r, Pushed(st, Dict(|st.heap|)).(heap := st.heap + [map[]]))
    else if op == TUPLE then
      var i := TopMark(st.stack);
      if i < 0 then FAIL
      else Next(r, st.(stack := st.stack[..i] + [List(st.stack[i + 1..])]))
    else if TUPLE1 <= op <= TUPLE3 then
      var k := op - TUPLE1 + 1;
      if n < k then FAIL
      else Next(r, st.(stack := st.stack[..n - k] + [List(st.stack[n - k..])]))
    else OperateFill(op, r, st)
  }

  /** The top of the stack is remembered under `i`; on an empty stack nothing is. */
  function Memoized(st: State, i: nat): State {
    if st.stack == [] then st else st.(memo := st.memo[i := st.stack[|st.stack| - 1]])
  }

  /** An unknown memo index reads as nil. */
  function Recalled(st: State, i: nat): Val {
    if i in st.memo then st.memo[i] else Nil
  }

  function Step(parseFloat: FloatParser, op: byte, r: bytes, st: State): (o: Outcome)
    ensures o.Next? ==> |o.rest| <= |r|
  {
    match ReadImmediate(parseFloat, op, r)
    case Malformed => FAIL
    case Immediate(v, size) => Next(r[size..], Pushed(st, v))
    case NotImmediate => Operate(op, r, st)
  }

  /** The machine run on what is left of its input. Input that ends before STOP is an error. */
  function Run(parseFloat: FloatParser, input: bytes, st: State): Result
    decreases |input|
  {
    if input == [] then Error
    else
      match Step(parseFloat, input[0], input[1..], st)
      case Done(result) => result
      case Next(rest, st') => Run(parseFloat, rest, st')
  }

  // ---- the program ----

  datatype Status = Continue | Halt(result: Result)

  class Machine {
    const data: bytes
    var pos: nat
    var stack: seq<Val>
    var memo: map<nat, Val>
    var heap: Heap

    ghost predicate Valid() reads this { pos <= |data| }

    ghost function Rest(): bytes
      reads this
      requires Valid()
    {
      data[pos..]
    }

    ghost function Abstract(): State reads this { State(stack, memo, heap) }

    constructor (data: bytes)
      ensures Valid() && this.data == data && pos == 0 && Abstract() == START
    {
      this.data := data;
      pos, stack, memo, heap := 0, [], map[], [];
    }

    method Push(v: Val)
      requires Valid()
      modifies this`stack
      ensures Valid() && Abstract() == Pushed(old(Abstract()), v)
    {
      stack := stack + [v];
    }

    method Pop() returns (r: Option<Val>)
      requires Valid()
      modifies this`stack
      ensures Valid()
      ensures r.None? <==> old(stack) == []
      ensures r.None? ==> stack == old(stack)
      ensures r.Some? ==> old(stack) == stack + [r.value]
    {
      if |stack| == 0 { return None; }
      r := Some(stack[|stack| - 1]);
      stack := stack[..|stack| - 1];
    }

    /** Takes off the topmost mark and everything above it. */
    method PopMark() returns (r: Option<seq<Val>>)
      requires Valid()
      modifies this`stack
      ensures Valid()
      ensures r.None? ==> TopMark(old(stack)) < 0 && stack == old(stack)
      ensures r.Some? ==>
        var i := TopMark(old(stack));
        i >= 0 && stack == old(stack)[..i] && r.value == old(stack)[i + 1..]
    {
      var i := |stack| - 1;
      while i >= 0
        invariant -1 <= i < |stack| && stack == old(stack)
        invariant TopMark(stack) == TopMark(stack[..i + 1])
      {
        assert stack[..i + 1][..i] == stack[..i];
        if stack[i] == Mark {
          var items := stack[i + 1..];
          stack := stack[..i];
          return Some(items);
        }
        i := i - 1;
      }
      return None;
    }

    predicate Need(n: nat) reads this { pos + n <= |data| }

    /** The bytes up to the next newline, which is consumed too. */
    method ReadLine() returns (r: Option<bytes>)
      requires Valid()
      modifies this`pos
      ensures Valid()
      ensures var i := IndexByte(old(Rest()), NL);
        if i < 0 then r.None? && pos == old(pos)
        else r == Some(old(Rest())[..i]) && pos == old(pos) + i + 1
    {
      var i := pos;
      while i < |data| && data[i] != NL
        invariant pos <= i <= |data|
        invariant NL !in data[pos..i]
      {
        i := i + 1;
      }
      assert Rest()[..i - pos] == data[pos..i];
      if i >= |data| {
        assert Rest() == data[pos..i];
        return None;
      }
      assert Rest() == data[pos..i] + [NL] + data[i + 1..];
      IndexAfter(data[pos..i], NL, data[i + 1..]);
      r := Some(data[pos..i]);
      pos := i + 1;
    }

    /** LONG1: `n` bytes assembled into a 64-bit word, sign-extended, reread as signed.
        Each byte lands on bits that are still zero, so "or" is addition here. */
    method ReadLong(n: nat) returns (v: int)
      requires Valid() && n <= 8 && Need(n)
      ensures v == TwosComplement(Rest()[..n])
    {
      var b := data[pos..pos + n];
      assert b == Rest()[..n];
      var word := 0;
      for i := 0 to n
        invariant word == FromLittleEndian(b[..i])
      {
        word := word + data[pos + i] * Pow256(i);
        Assemble(b, i);
      }
      assert b[..n] == b;
      Pow256Values();
      if n > 0 { TopBit(b); }
      if n > 0 && data[pos + n - 1] >= 0x80 {
        ghost var low := word;
        for i := n to 8
          invariant word == low + Pow256(i) - Pow256(n)
        {
          word := word + 0xFF * Pow256(i);
        }
      } else {
        PowMonotone(n, 8);
        assert n > 0 ==> 2 * word < Pow256(n);
      }
      v := if word > INT64_MAX then word - 0x1_0000_0000_0000_0000 else word;
    }

    method PushString(op: byte) returns (known: bool, ok: bool)
      requires Valid()
      modifies this`pos, this`stack
      ensures Valid()
      ensures match ReadString(op, old(Rest()))
        case NotImmediate => !known && pos == old(pos) && stack == old(stack)
        case Malformed => known && !ok
        case Immediate(v, size) => known && ok && pos == old(pos) + size && stack == old(stack) + [v]
    {
      hide FromLittleEndian;
      known, ok := true, true;
      if op == BINUNICODE {
        if !Need(4) { return true, false; }
        SliceAfter(data, pos, 0, 4);
        var n := FromLittleEndian(data[pos..pos + 4]);
        if n > MAX_FRAME || !Need(4 + n) { return true, false; }
        SliceAfter(data, pos, 4, 4 + n);
        Push(Str(data[pos + 4..pos + 4 + n]));
        pos := pos + 4 + n;
      } else if op == SHORT_BINUNICODE || op == SHORT_BINSTRING {
        if !Need(1) { return true, false; }
        var n: nat := data[pos];
        if !Need(1 + n) { return true, false; }
        SliceAfter(data, pos, 1, 1 + n);
        Push(Str(data[pos + 1..pos + 1 + n]));
        pos := pos + 1 + n;
      } else {
        known := false;
      }
    }

    method PushBinary(op: byte) returns (known: bool, ok: bool)
      requires Valid()
      modifies this`pos, this`stack
      ensures Valid()
      ensures match ReadBinary(op, old(Rest()))
        case NotImmediate => !known && pos == old(pos) && stack == old(stack)
        case Malformed => known && !ok
        case Immediate(v, size) => known && ok && pos == old(pos) + size && stack == old(stack) + [v]
    {
      hide FromLittleEndian, FromBigEndian, TwosComplement, ReadString;
      known, ok := true, true;
      if op == BININT1 {
        if !Need(1) { return true, false; }
        Push(Int(data[pos]));
        pos := pos + 1;
      } else if op == BININT2 {
        if !Need(2) { return true, false; }
        SliceAfter(data, pos, 0, 2);
        Push(Int(FromLittleEndian(data[pos..pos + 2])));
        pos := pos + 2;
      } else if op == BININT {
        if !Need(4) { return true, false; }
        SliceAfter(data, pos, 0, 4);
        var word: int := FromLittleEndian(data[pos..pos + 4]);
        SignedWord(data[pos..pos + 4]);
        Push(Int(if word > 0x7FFF_FFFF then word - 0x1_0000_0000 else word));
        pos := pos + 4;
      } else if op == LONG1 {
        if !Need(1) { return true, false; }
        var n: nat := data[pos];
        if n > 8 || !Need(1 + n) { return true, false; }
        pos := pos + 1;
        SliceAfter(data, pos - 1, 1, 1 + n);
        SliceAfter(data, pos, 0, n);
        var v := ReadLong(n);
        Push(Int(v));
        pos := pos + n;
      } else if op == BINFLOAT {
        if !Need(8) { return true, false; }
        SliceAfter(data, pos, 0, 8);
        Push(Float(FromBigEndian(data[pos..pos + 8])));
        pos := pos + 8;
      } else {
        known, ok := PushString(op);
      }
    }

    /** The opcodes that push what their argument bytes say. */
    method PushImmediate(parseFloat: FloatParser, op: byte) returns (known: bool, ok: bool)
      requires Valid()
      modifies this`pos, this`stack
      ensures Valid()
      ensures match ReadImmediate(parseFloat, op, old(Rest()))
        case NotImmediate => !known && pos == old(pos) && stack == old(stack)
        case Malformed => known && !ok
        case Immediate(v, size) => known && ok && pos == old(pos) + size && stack == old(stack) + [v]
    {
      known, ok := true, true;
      if op == NONE {
        Push(Nil);
      } else if op == NEWTRUE {
        Push(Bool(true));
      } else if op == NEWFALSE {
        Push(Bool(false));
      } else if op == EMPTY_LIST || op == EMPTY_TUPLE {
        Push(List([]));
      } else if op == INT || op == LONG || op == FLOAT {
        var line := ReadLine();
        if line.None? { return true, false; }
        var v := ReadNumeral(parseFloat, op, line.value);
        if v.None? { return true, false; }
        Push(v.value);
      } else {
        known, ok := PushBinary(op);
      }
    }

    /** `stack` is what lies below the key and the value. */
    method SetOne(k: Val, v: Val) returns (ok: bool)
      requires Valid()
      modifies this`heap
      ensures Valid()
      ensures match DictSet(stack, old(heap), k, v)
        case None => !ok && heap == old(heap)
        case Some(h) => ok && heap == h
    {
      if |stack| == 0 { return false; }
      var top := stack[|stack| - 1];
      if !(top.Dict? && top.id < |heap|) { return false; }
      if !k.Str? { return false; }
      heap := heap[top.id := heap[top.id][k.s := v]];
      return true;
    }

    method SetAll(items: seq<Val>) returns (ok: bool)
      requires Valid() && |items| % 2 == 0
      modifies this`heap
      ensures Valid()
      ensures match DictSetAll(stack, old(heap), items)
        case None => !ok
        case Some(h) => ok && heap == h
    {
      var i := 0;
      while i < |items|
        invariant 0 <= i <= |items| && i % 2 == 0
        invariant DictSetAll(stack, old(heap), items) == DictSetAll(stack, heap, items[i..])
      {
        assert items[i..][2..] == items[i + 2..];
        ok := SetOne(items[i], items[i + 1]);
        if !ok { return false; }
        i := i + 2;
      }
      return true;
    }

    method Memoize(i: nat)
      requires Valid()
      modifies this`memo
      ensures Valid() && Abstract() == Memoized(old(Abstract()), i)
    {
      if |stack| > 0 { memo := memo[i := stack[|stack| - 1]]; }
    }

    method PerformMemo(op: byte) returns (s: Status)
      requires Valid()
      modifies this
      ensures Valid()
      ensures match OperateMemo(op, old(Rest()), old(Abstract()))
        case Done(result) => s == Halt(result)
        case Next(rest, st) => s == Continue && Rest() == rest && Abstract() == st
    {
      hide FromLittleEndian;
      s := Continue;
      if op == BINPUT {
        if !Need(1) { return Halt(Error); }
        Memoize(data[pos]);
        pos := pos + 1;
      } else if op == LONG_BINPUT {
        if !Need(4) { return Halt(Error); }
        SliceAfter(data, pos, 0, 4);
        Memoize(FromLittleEndian(data[pos..pos + 4]));
        pos := pos + 4;
      } else if op == BINGET {
        if !Need(1) { return Halt(Error); }
        Push(Recalled(State(stack, memo, heap), data[pos]));
        pos := pos + 1;
      } else if op == LONG_BINGET {
        if !Need(4) { return Halt(Error); }
        SliceAfter(data, pos, 0, 4);
        Push(Recalled(State(stack, memo, heap), FromLittleEndian(data[pos..pos + 4])));
        pos := pos + 4;
      } else if op == MEMOIZE {
        Memoize(|memo|);
      } else {
        return Halt(Error);
      }
    }

    method PerformFill(op: byte) returns (s: Status)
      requires Valid()
      modifies this
      ensures Valid()
      ensures match OperateFill(op, old(Rest()), old(Abstract()))
        case Done(result) => s == Halt(result)
        case Next(rest, st) => s == Continue && Rest() == rest && Abstract() == st
    {
      hide DictSet, DictSetAll, TopMark, OperateMemo;
      s := Continue;
      ghost var st, n := Abstract(), |stack|;
      if op == APPEND {
        var v := Pop();
        if v.None? { return Halt(Error); }
        var l := Pop();
        if l.None? || !l.value.List? { return Halt(Error); }
        assert stack == st.stack[..n - 2] && l.value == st.stack[n - 2] && v.value == st.stack[n - 1];
        Push(List(l.value.items + [v.value]));
      } else if op == APPENDS {
        var items := PopMark();
        if items.None? { return Halt(Error); }
        var l := Pop();
        if l.None? || !l.value.List? { return Halt(Error); }
        Push(List(l.value.items + items.value));
      } else if op == SETITEM {
        var v := Pop();
        if v.None? { return Halt(Error); }
        var k := Pop();
        if k.None? { return Halt(Error); }
        assert stack == st.stack[..n - 2] && k.value == st.stack[n - 2] && v.value == st.stack[n - 1];
        var ok := SetOne(k.value, v.value);
        if !ok { return Halt(Error); }
      } else if op == SETITEMS {
        var items := PopMark();
        if items.None? || |items.value| % 2 != 0 { return Halt(Error); }
        var ok := SetAll(items.value);
        if !ok { return Halt(Error); }
      } else {
        s := PerformMemo(op);
      }
    }

    method Perform(op: byte) returns (s: Status)
      requires Valid()
      modifies this
      ensures Valid()
      ensures match Operate(op, old(Rest()), old(Abstract()))
        case Done(result) => s == Halt(result)
        case Next(rest, st) => s == Continue && Rest() == rest && Abstract() == st
    {
      s := Continue;
      if op == PROTO {
        if !Need(1) { return Halt(Error); }
        pos := pos + 1;
      } else if op == STOP {
        var top := Pop();
        if top.None? || !top.value.Dict? { return Halt(Error); }
        return Halt(Decoded(top.value.id, heap));
      } else if op == MARK {
        Push(Mark);
      } else if op == EMPTY_DICT {
        Push(Dict(|heap|));
        heap := heap + [map[]];
      } else if op == TUPLE {
        var items := PopMark();
        if items.None? { return Halt(Error); }
        Push(List(items.value));
      } else if TUPLE1 <= op <= TUPLE3 {
        var n := op - TUPLE1 + 1;
        if |stack| < n { return Halt(Error); }
        var items := stack[|stack| - n..];
        stack := stack[..|stack| - n];
        Push(List(items));
      } else {
        s := PerformFill(op);
      }
    }

    /** One turn of the loop, the opcode already read. */
    method Execute(parseFloat: FloatParser, op: byte) returns (s: Status)
      requires Valid()
      modifies this
      ensures Valid()
      ensures match Step(parseFloat, op, old(Rest()), old(Abstract()))
        case Done(result) => s == Halt(result)
        case Next(rest, st) => s == Continue && Rest() == rest && Abstract() == st
    {
      var known, ok := PushImmediate(parseFloat, op);
      if !known {
        s := Perform(op);
      } else if ok {
        s := Continue;
      } else {
        s := Halt(Error);
      }
    }
  }

  lemma Scale(x: int, p: int)
    ensures 256 * (x * p) == x * (256 * p)
  {
  }

  lemma {:induction false} Assemble(b: bytes, i: nat)
    requires i < |b|
    ensures FromLittleEndian(b[..i + 1]) == FromLittleEndian(b[..i]) + b[i] * Pow256(i)
  {
    if i == 0 {
      assert b[..1][1..] == [];
    } else {
      Assemble(b[1..], i - 1);
      assert b[..i + 1][1..] == b[1..][..i];
      assert b[..i][1..] == b[1..][..i - 1];
      Scale(b[i], Pow256(i - 1));
    }
  }

  lemma {:induction false} PowMonotone(i: nat, j: nat)
    requires i <= j
    ensures Pow256(i) <= Pow256(j)
    decreases j
  {
    if i < j { PowMonotone(i, j - 1); }
  }

  method Unpickle(parseFloat: FloatParser, data: bytes) returns (r: Result)
    ensures r == Run(parseFloat, data, START)
  {
    hide Step;
    var m := new Machine(data);
    while m.pos < |data|
      invariant m.Valid() && m.data == data
      invariant Run(parseFloat, data, START) == Run(parseFloat, m.Rest(), m.Abstract())
      decreases |data| - m.pos
    {
      var op := data[m.pos];
      ghost var before := m.Rest();
      m.pos := m.pos + 1;
      assert before[0] == op && before[1..] == m.Rest();
      var s := m.Execute(parseFloat, op);
      if s.Halt? { return s.result; }
    }
    return Error;
  }
}
