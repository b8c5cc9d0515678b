/** Which opcodes a record may use, and exactly when one of them stops it. The bytes are those
    of the pickle format, written out. */
module PickleOpcodes {
  import opened Common
  import opened Bytes
  import opened Pickle
  import opened PickleOps
  import opened PickleSafety

  // ---- the data subset ----

  const LISTED: seq<byte> := [
    0x80, 0x2E, 0x28,                                            // PROTO, STOP, MARK
    0x4E, 0x88, 0x89, 0x49, 0x4C, 0x46,                          // NONE, NEWTRUE, NEWFALSE, INT, LONG, FLOAT
    0x4B, 0x4D, 0x4A, 0x8A, 0x47,                                // BININT1, BININT2, BININT, LONG1, BINFLOAT
    0x58, 0x8C, 0x55,                                            // BINUNICODE, SHORT_BINUNICODE, SHORT_BINSTRING
    0x7D, 0x5D, 0x29, 0x74, 0x85, 0x86, 0x87,                    // EMPTY_DICT, EMPTY_LIST, tuples
    0x61, 0x65, 0x73, 0x75,                                      // APPEND, APPENDS, SETITEM, SETITEMS
    0x71, 0x72, 0x68, 0x6A, 0x94]                                // puts, gets, MEMOIZE

  /** Any other opcode ends the record with an error, whatever the stack and what follows. */
  lemma OthersStop(pf: FloatParser, op: byte, rest: bytes, st: State)
    requires op !in LISTED
    ensures Run(pf, [op] + rest, st) == Error
  {
    hide FromLittleEndian, FromBigEndian, IndexByte;
    OtherStep(pf, op, rest, st);
    assert ([op] + rest)[1..] == rest;
    hide Step;
  }

  lemma OtherStep(pf: FloatParser, op: byte, r: bytes, st: State)
    requires op !in LISTED
    ensures Step(pf, op, r, st) == Done(Error)
  {
    hide FromLittleEndian, FromBigEndian, IndexByte, TopMark, DictSetAll;
    InList(op);
  }

  lemma InList(op: byte)
    requires op !in LISTED
    ensures forall i :: 0 <= i < |LISTED| ==> op != LISTED[i]
  {
  }

  /** The opcodes a run executes, in order. */
  function Executed(pf: FloatParser, input: bytes, st: State): seq<byte>
    decreases |input|
  {
    if input == [] then []
    else
      match Step(pf, input[0], input[1..], st)
      case Done(_) => [input[0]]
      case Next(rest, st') => [input[0]] + Executed(pf, rest, st')
  }

  /** Whatever decodes was executed with listed opcodes alone, STOP the last of them and only
      the last. */
  lemma {:induction false} DecodedIsListed(pf: FloatParser, input: bytes, st: State)
    requires Run(pf, input, st).Decoded?
    ensures var ops := Executed(pf, input, st);
      && ops != [] && (forall i :: 0 <= i < |ops| ==> ops[i] in LISTED)
      && (forall i :: 0 <= i < |ops| ==> (ops[i] == 0x2E <==> i == |ops| - 1))
    decreases |input|
  {
    hide Step, LISTED;
    var op, r := input[0], input[1..];
    if op !in LISTED { OtherStep(pf, op, r, st); }
    StopIsLast(pf, op, r, st);
    match Step(pf, op, r, st)
    case Done(_) =>
    case Next(rest, st') =>
      DecodedIsListed(pf, rest, st');
      var others := Executed(pf, rest, st');
      assert Executed(pf, input, st) == [op] + others;
  }

  lemma StopIsLast(pf: FloatParser, op: byte, r: bytes, st: State)
    ensures var o := Step(pf, op, r, st);
      if op == 0x2E then o.Done? else o.Next? || o == Done(Error)
  {
    hide FromLittleEndian, FromBigEndian, IndexByte, TopMark, DictSetAll;
  }

  // ---- exactly when an opcode stops the record ----

  /** How many bytes an opcode has after it before any that these count. */
  function ArgBytes(op: byte): nat {
    if op in {0x80, 0x4B, 0x71, 0x68, 0x8A, 0x8C, 0x55} then 1
    else if op == 0x4D then 2
    else if op in {0x4A, 0x58, 0x72, 0x6A} then 4
    else if op == 0x47 then 8
    else 0
  }

  /** A decimal line; a Python 2 long may end in L. */
  predicate LineReads(pf: FloatParser, op: byte, line: bytes) {
    if op == 0x46 then pf(line).Some?
    else IsInteger(line) || (op == 0x4C && line != [] && line[|line| - 1] == 0x4C && IsInteger(line[..|line| - 1]))
  }

  predicate LineEndsAt(r: bytes, i: nat) { i < |r| && r[i] == 0x0A && 0x0A !in r[..i] }

  ghost predicate LineFits(pf: FloatParser, op: byte, r: bytes) {
    exists i: nat :: LineEndsAt(r, i) && LineReads(pf, op, r[..i])
  }

  /** The bytes after the opcode are cut off, too long, or no number. */
  ghost predicate BadArgument(pf: FloatParser, op: byte, r: bytes) {
    || |r| < ArgBytes(op)
    || (op in {0x49, 0x4C, 0x46} && !LineFits(pf, op, r))
    || (op == 0x58 && (FromLittleEndian(r[..4]) > 0x10_0000 || |r| < 4 + FromLittleEndian(r[..4])))
    || (op in {0x8C, 0x55} && |r| < 1 + (r[0] as int))
    || (op == 0x8A && (r[0] > 8 || |r| < 1 + (r[0] as int)))
  }

  predicate MarkAt(stack: seq<Val>, i: nat) { i < |stack| && stack[i] == Mark && Mark !in stack[i + 1..] }

  /** Keys and values in turn, for the dict below the mark at `i`. */
  predicate PairsFit(stack: seq<Val>, i: nat)
    requires i < |stack|
  {
    (|stack| - i) % 2 == 1 &&
    (i + 1 < |stack| ==>
      i > 0 && stack[i - 1].Dict? && StringKeys(stack[i + 1..]))
  }

  predicate StringKeys(items: seq<Val>) { forall j :: 0 <= j < |items| && j % 2 == 0 ==> items[j].Str? }

  ghost predicate ListBelowMark(stack: seq<Val>) {
    exists i: nat :: MarkAt(stack, i) && i > 0 && stack[i - 1].List?
  }

  ghost predicate PairsAboveMark(stack: seq<Val>) { exists i: nat :: MarkAt(stack, i) && PairsFit(stack, i) }

  /** The stack does not hold what the opcode works on. */
  ghost predicate BadStack(op: byte, stack: seq<Val>) {
    var n := |stack|;
    || (op == 0x2E && (n == 0 || !stack[n - 1].Dict?))
    || (op in {0x85, 0x86, 0x87} && n < op - 0x84)
    || (op == 0x74 && Mark !in stack)
    || (op == 0x61 && (n < 2 || !stack[n - 2].List?))
    || (op == 0x65 && !ListBelowMark(stack))
    || (op == 0x73 && (n < 3 || !stack[n - 3].Dict? || !stack[n - 2].Str?))
    || (op == 0x75 && !PairsAboveMark(stack))
  }

  /** An opcode stops the record exactly if it is not listed, its argument is bad, or the stack
      does not fit it. */
  lemma StopsExactly(pf: FloatParser, op: byte, r: bytes, st: State)
    requires WellFormed(st)
    ensures Step(pf, op, r, st) == Done(Error) <==> op !in LISTED || BadArgument(pf, op, r) || BadStack(op, st.stack)
  {
    hide Step, BadArgument, BadStack, WellFormed, LISTED;
    if op !in LISTED {
      OtherStep(pf, op, r, st);
    } else if op in {0x49, 0x4C, 0x46} {
      LineStops(pf, op, r, st);
    } else if op in {0x61, 0x65, 0x73, 0x75} {
      FillStops(pf, op, r, st);
    } else {
      ListedHas(op);
      PlainStops(pf, op, r, st);
    }
  }

  lemma ListedHas(op: byte)
    requires op in LISTED && op !in {0x49, 0x4C, 0x46, 0x61, 0x65, 0x73, 0x75}
    ensures op in {0x80, 0x2E, 0x28, 0x4E, 0x88, 0x89, 0x4B, 0x4D, 0x4A, 0x8A, 0x47, 0x58, 0x8C, 0x55, 0x7D, 0x5D, 0x29,
                   0x74, 0x85, 0x86, 0x87, 0x71, 0x72, 0x68, 0x6A, 0x94}
  {
  }

  lemma LineStops(pf: FloatParser, op: byte, r: bytes, st: State)
    requires op in {0x49, 0x4C, 0x46}
    ensures !BadStack(op, st.stack)
    ensures Step(pf, op, r, st) == Done(Error) <==> BadArgument(pf, op, r)
  {
    hide IndexByte, ReadNumeral, LineFits, ListBelowMark, PairsAboveMark;
    LineFitsExactly(pf, op, r);
  }

  lemma LineFitsExactly(pf: FloatParser, op: byte, r: bytes)
    requires op in {0x49, 0x4C, 0x46}
    ensures var i := IndexByte(r, NL); LineFits(pf, op, r) <==> i >= 0 && ReadNumeral(pf, op, r[..i]).Some?
  {
    hide IndexByte, ReadNumeral, LineReads;
    var i := IndexByte(r, NL);
    if i >= 0 {
      NumeralExactly(pf, op, r[..i]);
      assert LineEndsAt(r, i);
      forall j: nat | LineEndsAt(r, j) ensures j == i { OneLineEnd(r, i, j); }
    } else {
      forall j: nat ensures !LineEndsAt(r, j) { assert j < |r| ==> r[j] in r; }
    }
  }

  lemma OneLineEnd(r: bytes, i: nat, j: nat)
    requires LineEndsAt(r, i) && LineEndsAt(r, j)
    ensures i == j
  {
  }

  lemma NumeralExactly(pf: FloatParser, op: byte, line: bytes)
    requires op in {0x49, 0x4C, 0x46}
    ensures ReadNumeral(pf, op, line).Some? <==> LineReads(pf, op, line)
  {
    ParseIntExactly(line);
    if line != [] {
      ParseIntExactly(line[..|line| - 1]);
      if line[|line| - 1] == 0x4C { NoInteger(line); }
    }
    BoolLines();
    hide ParseInt, IsInteger;
  }

  lemma NoInteger(line: bytes)
    requires line != [] && line[|line| - 1] == 0x4C
    ensures !IsInteger(line)
  {
    var ds := Unsigned(line);
    if ds != [] { assert ds[|ds| - 1] == 0x4C && !IsDigit(ds[|ds| - 1]); }
  }

  lemma BoolLines()
    ensures IsInteger([0x30, 0x31]) && IsInteger([0x30, 0x30])
  {
    SmallValue([0x30, 0x31], 3);
    SmallValue([0x30, 0x30], 3);
    PowersOfTen();
    assert Unsigned([0x30, 0x31]) == [0x30, 0x31] && Unsigned([0x30, 0x30]) == [0x30, 0x30];
  }

  lemma PlainStops(pf: FloatParser, op: byte, r: bytes, st: State)
    requires op in {0x80, 0x2E, 0x28, 0x4E, 0x88, 0x89, 0x4B, 0x4D, 0x4A, 0x8A, 0x47, 0x58, 0x8C, 0x55, 0x7D, 0x5D,
                    0x29, 0x74, 0x85, 0x86, 0x87, 0x71, 0x72, 0x68, 0x6A, 0x94}
    ensures Step(pf, op, r, st) == Done(Error) <==> BadArgument(pf, op, r) || BadStack(op, st.stack)
  {
    hide Step, BadArgument, BadStack;
    if op in {0x4E, 0x88, 0x89, 0x5D, 0x29, 0x4B, 0x4D, 0x4A, 0x47} {
      NumberStops(pf, op, r, st);
    } else if op in {0x8A, 0x58, 0x8C, 0x55} {
      CountedStops(pf, op, r, st);
    } else if op in {0x80, 0x71, 0x72, 0x68, 0x6A, 0x94} {
      MemoStops(pf, op, r, st);
    } else {
      StackStops(pf, op, r, st);
    }
  }

  lemma NumberStops(pf: FloatParser, op: byte, r: bytes, st: State)
    requires op in {0x4E, 0x88, 0x89, 0x5D, 0x29, 0x4B, 0x4D, 0x4A, 0x47}
    ensures !BadStack(op, st.stack)
    ensures Step(pf, op, r, st) == Done(Error) <==> BadArgument(pf, op, r)
  {
    hide FromLittleEndian, FromBigEndian, IndexByte, TwosComplement, Operate, ReadString;
  }

  lemma CountedStops(pf: FloatParser, op: byte, r: bytes, st: State)
    requires op in {0x8A, 0x58, 0x8C, 0x55}
    ensures !BadStack(op, st.stack)
    ensures Step(pf, op, r, st) == Done(Error) <==> BadArgument(pf, op, r)
  {
    hide FromLittleEndian, FromBigEndian, IndexByte, TwosComplement, Operate;
  }

  lemma MemoStops(pf: FloatParser, op: byte, r: bytes, st: State)
    requires op in {0x80, 0x71, 0x72, 0x68, 0x6A, 0x94}
    ensures !BadStack(op, st.stack)
    ensures Step(pf, op, r, st) == Done(Error) <==> BadArgument(pf, op, r)
  {
    hide FromLittleEndian, FromBigEndian, IndexByte, TwosComplement, TopMark, DictSetAll;
  }

  lemma StackStops(pf: FloatParser, op: byte, r: bytes, st: State)
    requires op in {0x2E, 0x28, 0x7D, 0x74, 0x85, 0x86, 0x87}
    ensures !BadArgument(pf, op, r)
    ensures Step(pf, op, r, st) == Done(Error) <==> BadStack(op, st.stack)
  {
    hide FromLittleEndian, FromBigEndian, IndexByte, TwosComplement, TopMark, OperateFill;
    hide ListBelowMark, PairsAboveMark, LineReads, LineEndsAt;
    SomeMark(st.stack);
    NotImmediateOp(pf, op, r);
    hide ReadImmediate;
  }

  lemma NotImmediateOp(pf: FloatParser, op: byte, r: bytes)
    requires op in {0x2E, 0x28, 0x7D, 0x74, 0x85, 0x86, 0x87, 0x61, 0x65, 0x73, 0x75}
    ensures ReadImmediate(pf, op, r) == NotImmediate && !BadArgument(pf, op, r)
  {
    hide FromLittleEndian, FromBigEndian, IndexByte, TwosComplement, ReadNumeral;
  }

  lemma SomeMark(stack: seq<Val>)
    ensures TopMark(stack) < 0 <==> Mark !in stack
  {
    hide TopMark;
    var i := TopMark(stack);
    assert forall j :: i < j < |stack| ==> stack[j] != Mark;
  }

  lemma FillStops(pf: FloatParser, op: byte, r: bytes, st: State)
    requires WellFormed(st) && op in {0x61, 0x65, 0x73, 0x75}
    ensures !BadArgument(pf, op, r)
    ensures Step(pf, op, r, st) == Done(Error) <==> BadStack(op, st.stack)
  {
    NotImmediateOp(pf, op, r);
    FillFails(op, r, st);
    hide ReadImmediate, OperateFill, BadArgument, BadStack, WellFormed;
  }

  lemma FillFails(op: byte, r: bytes, st: State)
    requires WellFormed(st) && op in {0x61, 0x65, 0x73, 0x75}
    ensures OperateFill(op, r, st) == Done(Error) <==> BadStack(op, st.stack)
  {
    hide TopMark, DictSetAll, DictSet, WellFormed, ListBelowMark, PairsAboveMark, OperateMemo;
    if op == 0x73 {
      if |st.stack| >= 2 { SetFits(st); }
    } else if op == 0x75 {
      PairsFitExactly(st);
    } else if op == 0x65 {
      ListBelowExactly(st.stack);
    }
  }

  lemma ListBelowExactly(stack: seq<Val>)
    ensures var i := TopMark(stack); ListBelowMark(stack) <==> i > 0 && stack[i - 1].List?
  {
    hide TopMark, MarkAt;
    TopMarkAt(stack);
    var i := TopMark(stack);
    if i >= 0 { assert MarkAt(stack, i); }
  }

  lemma PairsFitExactly(st: State)
    requires WellFormed(st)
    ensures var i := TopMark(st.stack);
      PairsAboveMark(st.stack) <==>
        i >= 0 && (|st.stack| - i - 1) % 2 == 0 && DictSetAll(st.stack[..i], st.heap, st.stack[i + 1..]).Some?
  {
    hide TopMark, MarkAt, PairsFit, DictSetAll, WellFormed;
    var n, i := |st.stack|, TopMark(st.stack);
    TopMarkAt(st.stack);
    if i >= 0 {
      if (n - i) % 2 == 1 { SetsFit(st, i); } else { OddFits(st.stack, i); }
    }
  }

  lemma OddFits(stack: seq<Val>, i: nat)
    requires i < |stack| && (|stack| - i) % 2 != 1
    ensures !PairsFit(stack, i)
  {
  }

  lemma TopMarkAt(stack: seq<Val>)
    ensures var i := TopMark(stack);
      if i < 0 then forall j: nat :: !MarkAt(stack, j) else forall j: nat :: MarkAt(stack, j) <==> j == i
  {
    hide TopMark;
    var i := TopMark(stack);
    forall j: nat ensures MarkAt(stack, j) <==> j == i {
      if j < |stack| && i > j { assert stack[j + 1..][i - j - 1] == Mark; }
      if i >= 0 {
        assert forall x :: i < x < |stack| ==> stack[x] != Mark;
      }
    }
  }

  /** One assignment succeeds exactly on a dict and with a string for its key. */
  lemma SetFits(st: State)
    requires WellFormed(st) && |st.stack| >= 2
    ensures var n := |st.stack|;
      DictSet(st.stack[..n - 2], st.heap, st.stack[n - 2], st.stack[n - 1]).Some?
      <==> n >= 3 && st.stack[n - 3].Dict? && st.stack[n - 2].Str?
  {
    var n := |st.stack|;
    if n >= 3 { assert Grounded(st.stack[n - 3], |st.heap|); }
  }

  lemma SetsFit(st: State, i: nat)
    requires WellFormed(st) && i < |st.stack| && (|st.stack| - i) % 2 == 1
    ensures DictSetAll(st.stack[..i], st.heap, st.stack[i + 1..]).Some? <==> PairsFit(st.stack, i)
  {
    hide DictSetAll, StringKeys;
    if i > 0 { assert Grounded(st.stack[i - 1], |st.heap|); }
    SetAllFits(st.stack[..i], st.heap, st.stack[i + 1..]);
  }

  lemma {:induction false} SetAllFits(stack: seq<Val>, h: Heap, items: seq<Val>)
    requires |items| % 2 == 0 && (stack != [] && stack[|stack| - 1].Dict? ==> stack[|stack| - 1].id < |h|)
    ensures DictSetAll(stack, h, items).Some? <==>
      items == [] || (stack != [] && stack[|stack| - 1].Dict? && StringKeys(items))
    decreases |items|
  {
    if items != [] {
      var h1 := DictSet(stack, h, items[0], items[1]);
      KeysMore(items);
      if h1.Some? { SetAllFits(stack, h1.value, items[2..]); }
      hide StringKeys;
    }
  }

  lemma KeysMore(items: seq<Val>)
    requires |items| >= 2
    ensures StringKeys(items) <==> items[0].Str? && StringKeys(items[2..])
  {
    var more := items[2..];
    if items[0].Str? && StringKeys(more) {
      forall j | 0 <= j < |items| && j % 2 == 0 ensures items[j].Str? {
        if j >= 2 { assert more[j - 2] == items[j]; }
      }
    }
    if StringKeys(items) {
      forall j | 0 <= j < |more| && j % 2 == 0 ensures more[j].Str? { assert more[j] == items[j + 2]; }
    }
  }

  // ---- what the memo gives when it has nothing ----

  /** An index never put reads as nil, and a put with nothing on the stack remembers nothing. */
  lemma MemoEdges(pf: FloatParser, i: byte, rest: bytes, st: State)
    ensures i as nat !in st.memo ==> Run(pf, [0x68, i] + rest, st) == Run(pf, rest, st.(stack := st.stack + [Nil]))
    ensures st.stack == [] ==> Run(pf, [0x71, i] + rest, st) == Run(pf, rest, st)
  {
    hide Run;
    DropPrefix([i], rest);
    assert [0x68, i] == [0x68] + [i] && [0x71, i] == [0x71] + [i];
    if i as nat !in st.memo { RunMemoOp(pf, 0x68, [i], rest, st, st.(stack := st.stack + [Nil])); }
    if st.stack == [] { RunMemoOp(pf, 0x71, [i], rest, st, st); }
  }
}
