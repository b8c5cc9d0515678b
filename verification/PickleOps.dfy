/** Running the bytes of one scalar, one memo operation, or one opcode that closes a tuple or
    fills a container. */
module PickleOps {
  import opened Common
  import opened Bytes
  import opened Pickle
  import opened PickleEncoding

  // ---- running the bytes ----

  /** The dicts among the containers being filled. */
  function Opened(open: seq<Val>): set<nat> { set v <- open | v.Dict? :: v.id }

  /** The machine's memo is what the pickler knows of it; `open` is what it remembers of the
      containers being filled, outermost first: a reference to a dict, an empty list. */
  ghost predicate Agrees(st: State, m: Memo, open: seq<Val>) {
    st.memo.Keys == m.Keys && forall i :: i in m ==> SlotAgrees(st.heap, open, st.memo[i], m[i])
  }

  ghost predicate SlotAgrees(h: Heap, open: seq<Val>, v: Val, slot: Slot) {
    match slot
    case Filling(level) => level < |open| && v == open[level]
    case Known(tree) => Represents(h, Opened(open), v, tree)
  }

  /** What is known of the memo stays true while open dicts are written to and new ones made. */
  lemma AgreesFrame(st: State, m: Memo, open: seq<Val>, st': State)
    requires Agrees(st, m, open) && st'.memo == st.memo && Keeps(st.heap, Opened(open), st'.heap, Opened(open))
    ensures Agrees(st', m, open)
  {
    hide Represents, Keeps;
    forall i | i in m ensures SlotAgrees(st'.heap, open, st'.memo[i], m[i]) {
      assert SlotAgrees(st.heap, open, st.memo[i], m[i]);
      if m[i].Known? { Frame(st.heap, Opened(open), st.memo[i], m[i].tree, st'.heap, Opened(open)); }
    }
  }

  /** A new dict is opened. */
  lemma AgreesOpen(st: State, m: Memo, open: seq<Val>, st': State)
    requires Agrees(st, m, open) && st'.memo == st.memo && st'.heap == st.heap + [map[]]
    ensures Agrees(st', m, open + [Dict(|st.heap|)])
  {
    hide Represents;
    var open' := open + [Dict(|st.heap|)];
    OpenedMore(open, Dict(|st.heap|));
    assert Keeps(st.heap, Opened(open), st'.heap, Opened(open'));
    hide Keeps, Opened;
    forall i | i in m ensures SlotAgrees(st'.heap, open', st'.memo[i], m[i]) {
      assert SlotAgrees(st.heap, open, st.memo[i], m[i]);
      if m[i].Known? { Frame(st.heap, Opened(open), st.memo[i], m[i].tree, st'.heap, Opened(open')); }
    }
  }

  lemma OpenedMore(open: seq<Val>, v: Val)
    ensures Opened(open + [v]) == Opened(open) + if v.Dict? then {v.id} else {}
  {
    forall o | o in Opened(open) ensures o in Opened(open + [v]) { assert Dict(o) in open + [v]; }
    assert v in open + [v];
  }

  /** A new list is opened: its slice is remembered empty. */
  lemma AgreesOpenList(st: State, m: Memo, open: seq<Val>)
    requires Agrees(st, m, open)
    ensures Agrees(st, m, open + [List([])])
  {
    hide Represents;
    OpenedMore(open, List([]));
    assert Opened(open + [List([])]) == Opened(open);
    hide Opened;
    forall i | i in m ensures SlotAgrees(st.heap, open + [List([])], st.memo[i], m[i]) {
      assert SlotAgrees(st.heap, open, st.memo[i], m[i]);
    }
  }

  /** The innermost container is finished: `tree` is what fetching it from now on gives. */
  lemma AgreesFinish(st: State, m: Memo, open: seq<Val>, v: Val, tree: Tree)
    requires Agrees(st, m, open + [v]) && Represents(st.heap, Opened(open), v, tree)
    ensures Agrees(st, Finished(m, |open|, tree), open)
  {
    hide Represents;
    var open' := open + [v];
    OpenedMore(open, v);
    assert Keeps(st.heap, Opened(open'), st.heap, Opened(open));
    hide Keeps, Opened;
    var m' := Finished(m, |open|, tree);
    forall i | i in m' ensures SlotAgrees(st.heap, open, st.memo[i], m'[i]) {
      assert SlotAgrees(st.heap, open', st.memo[i], m[i]);
      if m[i].Known? { Frame(st.heap, Opened(open'), st.memo[i], m[i].tree, st.heap, Opened(open)); }
    }
  }

  lemma RunStep(pf: FloatParser, op: byte, args: bytes, rest: bytes, st: State, st': State)
    requires Step(pf, op, args + rest, st) == Next(rest, st')
    ensures Run(pf, [op] + args + rest, st) == Run(pf, rest, st')
  {
    hide Step;
    var input := [op] + args + rest;
    assert input[0] == op && input[1..] == args + rest;
    assert Run(pf, input, st) == match Step(pf, input[0], input[1..], st)
      case Done(result) => result
      case Next(rest, st') => Run(pf, rest, st');
  }

  lemma RunImmediate(pf: FloatParser, op: byte, args: bytes, rest: bytes, st: State, v: Val)
    requires ReadImmediate(pf, op, args + rest) == Immediate(v, |args|)
    ensures Run(pf, [op] + args + rest, st) == Run(pf, rest, Pushed(st, v))
  {
    DropPrefix(args, rest);
    RunStep(pf, op, args, rest, st, Pushed(st, v));
  }

  lemma RunConstant(pf: FloatParser, op: byte, rest: bytes, st: State, v: Val)
    requires ReadImmediate(pf, op, rest) == Immediate(v, 0)
    ensures Run(pf, [op] + rest, st) == Run(pf, rest, Pushed(st, v))
  {
    assert [] + rest == rest && [op] + [] == [op];
    RunImmediate(pf, op, [], rest, st, v);
  }

  lemma RunMemoOp(pf: FloatParser, op: byte, args: bytes, rest: bytes, st: State, st': State)
    requires op == BINPUT || op == LONG_BINPUT || op == BINGET || op == LONG_BINGET || op == MEMOIZE
    requires OperateMemo(op, args + rest, st) == Next(rest, st')
    ensures Run(pf, [op] + args + rest, st) == Run(pf, rest, st')
  {
    hide Run, OperateMemo, FromLittleEndian, FromBigEndian, TwosComplement, IndexByte, ReadNumeral;
    var r := args + rest;
    MemoOps(pf, op, r, st);
    hide ReadImmediate, Operate;
    RunStep(pf, op, args, rest, st, st');
  }

  lemma MemoOps(pf: FloatParser, op: byte, r: bytes, st: State)
    requires op == BINPUT || op == LONG_BINPUT || op == BINGET || op == LONG_BINGET || op == MEMOIZE
    ensures ReadImmediate(pf, op, r) == NotImmediate && Operate(op, r, st) == OperateMemo(op, r, st)
  {
    hide OperateMemo, FromLittleEndian, FromBigEndian, TwosComplement, IndexByte, ReadNumeral, TopMark, DictSetAll;
  }

  lemma MemoizedAgrees(st: State, m: Memo, i: nat, what: Slot, open: seq<Val>)
    requires Agrees(st, m, open) && st.stack != [] && SlotAgrees(st.heap, open, st.stack[|st.stack| - 1], what)
    ensures Agrees(Memoized(st, i), m[i := what], open)
  {
    hide SlotAgrees;
  }

  lemma RunPut(pf: FloatParser, put: Put, rest: bytes, st: State, m: Memo, what: Slot, open: seq<Val>)
    returns (st': State)
    requires PutFits(put) && Agrees(st, m, open) && st.stack != []
    requires SlotAgrees(st.heap, open, st.stack[|st.stack| - 1], what)
    ensures Run(pf, EmitPut(put) + rest, st) == Run(pf, rest, st')
    ensures st'.stack == st.stack && st'.heap == st.heap && Agrees(st', PutIn(m, put, what), open)
  {
    hide Run, SlotAgrees;
    match put
    case NoPut =>
      assert EmitPut(put) + rest == rest;
      st' := st;
    case BinPut(i) =>
      st' := Memoized(st, i);
      MemoizedAgrees(st, m, i, what, open);
      assert ([i] + rest)[1..] == rest;
      RunMemoOp(pf, BINPUT, [i], rest, st, st');
      assert EmitPut(put) == [BINPUT] + [i];
    case LongBinPut(j) =>
      st' := Memoized(st, j);
      MemoizedAgrees(st, m, j, what, open);
      var args := LittleEndian(j, 4);
      Pow256Values();
      LittleEndianRoundTrip(j, 4);
      DropPrefix(args, rest);
      assert OperateMemo(LONG_BINPUT, args + rest, st) == Next(rest, st');
      RunMemoOp(pf, LONG_BINPUT, args, rest, st, st');
    case MemoizePut =>
      assert |st.memo| == |st.memo.Keys| == |m.Keys| == |m|;
      st' := Memoized(st, |m|);
      MemoizedAgrees(st, m, |m|, what, open);
      assert [] + rest == rest;
      RunMemoOp(pf, MEMOIZE, [], rest, st, st');
      assert EmitPut(put) == [MEMOIZE] + [];
  }

  lemma TwosComplementRoundTrip(n: int, k: nat)
    requires 0 <= 2 * n + Pow256(k) && 2 * n < Pow256(k)
    ensures TwosComplement(TwosBytes(n, k)) == n
  {
    LittleEndianRoundTrip(if n < 0 then n + Pow256(k) else n, k);
  }

  lemma NumeralReads(pf: FloatParser, op: byte, n: int, suffix: bytes)
    requires IsInt64(n) && (op == INT || op == LONG)
    requires suffix == [] || (op == LONG && suffix == [0x4C])
    ensures ReadNumeral(pf, op, FormatInt(n) + suffix) == Some(Int(n))
    ensures NL !in FormatInt(n) + suffix
  {
    ParseFormatted(n);
    var s := FormatInt(n);
    assert |s| >= 1 && IsDigit(s[|s| - 1]);
    assert suffix == [] ==> s + suffix == s;
    assert (s + suffix)[..|s|] == s;
    assert n == 0 ==> |s| == 1;
    assert n != 0 ==> s[0] != 0x30;
  }

  lemma RunInt(pf: FloatParser, n: int, form: IntForm, rest: bytes, st: State)
    requires IntFits(n, form)
    ensures Run(pf, EmitInt(n, form) + rest, st) == Run(pf, rest, Pushed(st, Int(n)))
  {
    Pow256Values();
    match form
    case Int1 =>
      RunImmediate(pf, BININT1, [n], rest, st, Int(n));
      assert EmitInt(n, form) == [BININT1] + [n];
    case Int2 =>
      LittleEndianRoundTrip(n, 2);
      DropPrefix(LittleEndian(n, 2), rest);
      RunImmediate(pf, BININT2, LittleEndian(n, 2), rest, st, Int(n));
    case Int4 =>
      TwosComplementRoundTrip(n, 4);
      DropPrefix(TwosBytes(n, 4), rest);
      RunImmediate(pf, BININT, TwosBytes(n, 4), rest, st, Int(n));
    case LongBytes(k) =>
      TwosComplementRoundTrip(n, k);
      var args := [k] + TwosBytes(n, k);
      assert (args + rest)[1..1 + k] == TwosBytes(n, k);
      RunImmediate(pf, LONG1, args, rest, st, Int(n));
    case IntLine =>
      NumeralReads(pf, INT, n, []);
      assert FormatInt(n) + [] == FormatInt(n);
      RunLine(pf, INT, FormatInt(n), rest, st, Int(n));
    case LongLine(suffix) =>
      NumeralReads(pf, LONG, n, if suffix then [0x4C] else []);
      RunLine(pf, LONG, FormatInt(n) + (if suffix then [0x4C] else []), rest, st, Int(n));
  }

  lemma RunLine(pf: FloatParser, op: byte, line: bytes, rest: bytes, st: State, v: Val)
    requires (op == INT || op == LONG || op == FLOAT) && NL !in line && ReadNumeral(pf, op, line) == Some(v)
    ensures Run(pf, [op] + (line + [NL]) + rest, st) == Run(pf, rest, Pushed(st, v))
  {
    IndexAfter(line, NL, rest);
    assert (line + [NL] + rest)[..|line|] == line;
    RunImmediate(pf, op, line + [NL], rest, st, v);
  }

  lemma RunStr(pf: FloatParser, s: bytes, form: StrForm, rest: bytes, st: State)
    requires StrFits(s, form)
    ensures Run(pf, EmitStr(s, form) + rest, st) == Run(pf, rest, Pushed(st, Str(s)))
  {
    match form
    case Unicode =>
      Pow256Values();
      LittleEndianRoundTrip(|s|, 4);
      var args := LittleEndian(|s|, 4) + s;
      assert (args + rest)[..4] == LittleEndian(|s|, 4);
      assert (args + rest)[4..4 + |s|] == s;
      RunImmediate(pf, BINUNICODE, args, rest, st, Str(s));
    case _ =>
      var args := [|s|] + s;
      assert (args + rest)[1..1 + |s|] == s;
      RunImmediate(pf, if form == ShortUnicode then SHORT_BINUNICODE else SHORT_BINSTRING, args, rest, st, Str(s));
  }

  lemma RunGet(pf: FloatParser, i: nat, long: bool, rest: bytes, st: State, v: Val)
    requires i < (if long then 0x1_0000_0000 else 0x100) && i in st.memo && st.memo[i] == v
    ensures Run(pf, Emit(SGet(i, long)) + rest, st) == Run(pf, rest, Pushed(st, v))
  {
    hide Run;
    if long {
      Pow256Values();
      var args := LittleEndian(i, 4);
      LittleEndianRoundTrip(i, 4);
      DropPrefix(args, rest);
      RunMemoOp(pf, LONG_BINGET, args, rest, st, Pushed(st, v));
    } else {
      assert ([i] + rest)[1..] == rest;
      RunMemoOp(pf, BINGET, [i], rest, st, Pushed(st, v));
      assert Emit(SGet(i, long)) == [BINGET] + [i];
    }
  }

  lemma NoMarks(h: Heap, open: set<nat>, vs: seq<Val>, ts: seq<Tree>)
    requires RepresentsAll(h, open, vs, ts)
    ensures Mark !in vs
  {
    forall i | 0 <= i < |vs| ensures vs[i] != Mark {
      assert Represents(h, open, vs[i], ts[i]);
    }
  }

  lemma AfterMark(base: seq<Val>, vs: seq<Val>, j: nat)
    requires Mark !in vs && |base| < j < |base| + 1 + |vs|
    ensures (base + [Mark] + vs)[j] != Mark
  {
    assert (base + [Mark] + vs)[j] == vs[j - |base| - 1];
  }

  lemma TopMarkIs(base: seq<Val>, vs: seq<Val>)
    requires Mark !in vs
    ensures TopMark(base + [Mark] + vs) == |base|
  {
    hide TopMark;
    var stack := base + [Mark] + vs;
    assert stack[|base|] == Mark;
    var k := TopMark(stack);
    if k > |base| { AfterMark(base, vs, k); }
  }

  // ---- the opcodes that close a tuple or fill a container ----

  lemma RunOperate(pf: FloatParser, op: byte, rest: bytes, st: State, st': State)
    requires ReadImmediate(pf, op, rest) == NotImmediate && Operate(op, rest, st) == Next(rest, st')
    ensures Run(pf, [op] + rest, st) == Run(pf, rest, st')
  {
    assert [] + rest == rest && [op] + [] == [op];
    RunStep(pf, op, [], rest, st, st');
  }

  lemma RunMark(pf: FloatParser, rest: bytes, st: State)
    ensures Run(pf, [MARK] + rest, st) == Run(pf, rest, Pushed(st, Mark))
  {
    hide Run;
    RunOperate(pf, MARK, rest, st, Pushed(st, Mark));
  }

  lemma RunCountedTuple(pf: FloatParser, rest: bytes, st: State, below: seq<Val>, vs: seq<Val>)
    requires |vs| <= 3 && st.stack == below + vs
    ensures Run(pf, [TupleOp(|vs|)] + rest, st) == Run(pf, rest, st.(stack := below + [List(vs)]))
  {
    hide Run;
    var n := |st.stack|;
    assert st.stack[n - |vs|..] == vs && st.stack[..n - |vs|] == below;
    var op := TupleOp(|vs|);
    if vs == [] {
      assert st.stack == below;
      RunConstant(pf, op, rest, st, List(vs));
    } else {
      RunOperate(pf, op, rest, st, st.(stack := below + [List(vs)]));
    }
  }

  lemma RunMarkedTuple(pf: FloatParser, rest: bytes, st: State, below: seq<Val>, vs: seq<Val>)
    requires st.stack == below + [Mark] + vs && Mark !in vs
    ensures Run(pf, [TUPLE] + rest, st) == Run(pf, rest, st.(stack := below + [List(vs)]))
  {
    hide Run, TopMark;
    TopMarkIs(below, vs);
    assert st.stack[..|below|] == below && st.stack[|below| + 1..] == vs;
    RunOperate(pf, TUPLE, rest, st, st.(stack := below + [List(vs)]));
  }

  lemma RunFill(pf: FloatParser, op: byte, rest: bytes, st: State, st': State)
    requires op == APPEND || op == APPENDS || op == SETITEM || op == SETITEMS
    requires OperateFill(op, rest, st) == Next(rest, st')
    ensures Run(pf, [op] + rest, st) == Run(pf, rest, st')
  {
    hide Run, OperateFill;
    RunOperate(pf, op, rest, st, st');
  }

  lemma RunAppend(pf: FloatParser, batched: bool, rest: bytes, st: State, below: seq<Val>, xs: seq<Val>, vs: seq<Val>)
    requires Mark !in vs && (!batched ==> |vs| == 1)
    requires st.stack == below + [List(xs)] + (if batched then [Mark] else []) + vs
    ensures Run(pf, [if batched then APPENDS else APPEND] + rest, st)
         == Run(pf, rest, st.(stack := below + [List(xs + vs)]))
  {
    hide Run, TopMark;
    var n, b := |st.stack|, |below|;
    assert st.stack[..b] == below && st.stack[b] == List(xs);
    if batched {
      TopMarkIs(below + [List(xs)], vs);
      assert st.stack[b + 2..] == vs;
    } else {
      assert n == b + 2 && vs == [vs[0]] && st.stack[n - 1] == vs[0];
    }
    RunFill(pf, if batched then APPENDS else APPEND, rest, st, st.(stack := below + [List(xs + vs)]));
  }

  lemma RunSet(pf: FloatParser, batched: bool, rest: bytes, st: State, below: seq<Val>, vs: seq<Val>)
    requires |vs| % 2 == 0 && (!batched ==> |vs| == 2)
    requires st.stack == below + (if batched then [Mark] else []) + vs && Mark !in vs
    ensures match DictSetAll(below, st.heap, vs)
      case None => true
      case Some(h) =>
        Run(pf, [if batched then SETITEMS else SETITEM] + rest, st) == Run(pf, rest, st.(stack := below, heap := h))
  {
    hide Run, TopMark;
    var n, b := |st.stack|, |below|;
    assert st.stack[..b] == below;
    if batched {
      TopMarkIs(below, vs);
      assert st.stack[b + 1..] == vs;
    } else {
      assert n == b + 2 && st.stack[n - 2] == vs[0] && st.stack[n - 1] == vs[1];
      assert vs[2..] == [];
      assert DictSetAll(below, st.heap, vs) == DictSet(below, st.heap, vs[0], vs[1]);
    }
    match DictSetAll(below, st.heap, vs)
    case None =>
    case Some(h) => RunFill(pf, if batched then SETITEMS else SETITEM, rest, st, st.(stack := below, heap := h));
  }
}
