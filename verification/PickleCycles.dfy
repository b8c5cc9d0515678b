/** When what the unpickler returns is a finite value: a dict may come to hold itself. */
module PickleCycles {
  import opened Common
  import opened Bytes
  import opened Pickle
  import opened PickleEncoding
  import opened PickleOps
  import opened PickleSafety
  import PickleRoundTrip

  /** `w` is an item of the list `v`, or a value of the dict it refers to. */
  ghost predicate Holds(h: Heap, v: Val, w: Val) {
    match v
    case List(items) => w in items
    case Dict(id) => id < |h| && w in h[id].Values
    case _ => false
  }

  /** Each value of the chain holds the next. */
  ghost predicate Chain(h: Heap, path: seq<Val>) {
    path != [] && forall i :: 0 <= i < |path| - 1 ==> Holds(h, path[i], path[i + 1])
  }

  /** Some chain of references from `v` comes back to a dict it has passed. */
  ghost predicate Returns(h: Heap, v: Val) {
    exists path: seq<Val> :: Chain(h, path) && path[0] == v && ComesBack(path)
  }

  ghost predicate ComesBack(path: seq<Val>) {
    exists i :: 0 <= i < |path| - 1 && path[i].Dict? && path[i] == path[|path| - 1]
  }

  /** Some chain from `v` ends in a stack mark, which no pickler leaves in a value. */
  ghost predicate HoldsMark(h: Heap, v: Val) {
    exists path: seq<Val> :: Chain(h, path) && path[0] == v && path[|path| - 1] == Mark
  }

  ghost predicate IsFinite(h: Heap, v: Val) { exists t :: Represents(h, {}, v, t) }

  lemma ChainTail(h: Heap, path: seq<Val>)
    requires Chain(h, path) && |path| > 1
    ensures Chain(h, path[1..])
  {
    forall i | 0 <= i < |path| - 2 ensures Holds(h, path[1..][i], path[1..][i + 1]) {
      assert Holds(h, path[i + 1], path[i + 2]);
    }
  }

  lemma ChainMore(h: Heap, path: seq<Val>, w: Val)
    requires Chain(h, path) && Holds(h, path[|path| - 1], w)
    ensures Chain(h, path + [w])
  {
    forall i | 0 <= i < |path| ensures Holds(h, (path + [w])[i], (path + [w])[i + 1]) {
      if i < |path| - 1 { assert Holds(h, path[i], path[i + 1]); }
    }
  }

  // ---- a finite value has no such chain ----

  /** What a value that stands for a tree holds stands for a part of it. */
  lemma PartOf(h: Heap, v: Val, t: Tree, w: Val) returns (u: Tree)
    requires Represents(h, {}, v, t) && Holds(h, v, w)
    ensures Represents(h, {}, w, u)
    ensures (t.TList? && u in t.items) || (t.TDict? && u in t.entries.Values)
  {
    match t
    case TList(ts) =>
      var i :| 0 <= i < |v.items| && v.items[i] == w;
      u := ts[i];
    case TDict(entries) =>
      var k :| k in h[v.id] && h[v.id][k] == w;
      u := entries[k];
  }

  lemma {:induction false} NoReturn(h: Heap, v: Val, t: Tree, path: seq<Val>)
    requires Represents(h, {}, v, t) && Chain(h, path) && |path| > 1 && path[0] == v == path[|path| - 1]
    ensures false
    decreases t
  {
    assert Holds(h, path[0], path[1]);
    var u := PartOf(h, v, t, path[1]);
    ChainTail(h, path);
    ChainMore(h, path[1..], path[1]);
    NoReturn(h, path[1], u, path[1..] + [path[1]]);
  }

  /** Along a chain from a value that stands for a tree, everything does. */
  lemma {:induction false} AllFinite(h: Heap, path: seq<Val>, i: nat)
    requires Chain(h, path) && IsFinite(h, path[0]) && i < |path|
    ensures IsFinite(h, path[i])
  {
    if i > 0 {
      AllFinite(h, path, i - 1);
      var t :| Represents(h, {}, path[i - 1], t);
      assert Holds(h, path[i - 1], path[i]);
      var u := PartOf(h, path[i - 1], t, path[i]);
    }
  }

  lemma FiniteHasNone(h: Heap, v: Val)
    requires IsFinite(h, v)
    ensures !Returns(h, v) && !HoldsMark(h, v)
  {
    hide Represents;
    if path: seq<Val> :| Chain(h, path) && path[0] == v && path[|path| - 1] == Mark {
      AllFinite(h, path, |path| - 1);
      MarkIsNone(h);
    }
    if path: seq<Val> :| Chain(h, path) && path[0] == v && ComesBack(path) {
      var i :| 0 <= i < |path| - 1 && path[i].Dict? && path[i] == path[|path| - 1];
      AllFinite(h, path, i);
      var t :| Represents(h, {}, path[i], t);
      ChainFrom(h, path, i);
      NoReturn(h, path[i], t, path[i..]);
    }
  }

  lemma MarkIsNone(h: Heap)
    ensures !IsFinite(h, Mark)
  {
  }

  lemma ChainFrom(h: Heap, path: seq<Val>, i: nat)
    requires Chain(h, path) && i < |path|
    ensures Chain(h, path[i..])
  {
    forall j | 0 <= j < |path| - i - 1 ensures Holds(h, path[i..][j], path[i..][j + 1]) {
      assert Holds(h, path[i + j], path[i + j + 1]);
    }
  }

  // ---- without such a chain there is a tree ----

  /** The dicts passed on the way to the end of the chain. */
  function Passed(path: seq<Val>): set<nat> { set v <- path | v.Dict? :: v.id }

  function Unpassed(h: Heap, path: seq<Val>): set<nat> { set o: nat | o < |h| && o !in Passed(path) }

  /** However the chain goes on, it neither comes back nor meets a mark. */
  ghost predicate Harmless(h: Heap, path: seq<Val>) {
    forall more :: Chain(h, path + more) ==> !ComesBack(path + more) && (path + more)[|path + more| - 1] != Mark
  }

  lemma HarmlessMore(h: Heap, path: seq<Val>, w: Val)
    requires Harmless(h, path)
    ensures Harmless(h, path + [w])
  {
    hide Chain, ComesBack;
    forall more | Chain(h, path + [w] + more)
      ensures !ComesBack(path + [w] + more) && (path + [w] + more)[|path + [w] + more| - 1] != Mark
    {
      assert path + [w] + more == path + ([w] + more);
    }
  }

  ghost function TreeOf(h: Heap, v: Val): (t: Tree)
    requires IsFinite(h, v)
    ensures Represents(h, {}, v, t)
  {
    var t :| Represents(h, {}, v, t);
    t
  }

  lemma ListFinite(h: Heap, items: seq<Val>)
    requires forall i :: 0 <= i < |items| ==> IsFinite(h, items[i])
    ensures IsFinite(h, List(items))
  {
    hide IsFinite;
    var ts := seq(|items|, i requires 0 <= i < |items| => TreeOf(h, items[i]));
    FiniteBy(h, List(items), TList(ts));
  }

  lemma DictFinite(h: Heap, id: nat)
    requires id < |h| && forall k :: k in h[id] ==> IsFinite(h, h[id][k])
    ensures IsFinite(h, Dict(id))
  {
    hide IsFinite;
    var entries := map k | k in h[id] :: TreeOf(h, h[id][k]);
    FiniteBy(h, Dict(id), TDict(entries));
  }

  lemma FiniteBy(h: Heap, v: Val, t: Tree)
    requires Represents(h, {}, v, t)
    ensures IsFinite(h, v)
  {
  }

  lemma ScalarFinite(h: Heap, v: Val)
    requires !v.List? && !v.Dict? && v != Mark
    ensures IsFinite(h, v)
  {
    FiniteBy(h, v, match v
      case Bool(b) => TBool(b)
      case Int(n) => TInt(n)
      case Float(bits) => TFloat(bits)
      case Str(s) => TStr(s)
      case _ => TNone);
  }

  lemma EndHarmless(h: Heap, path: seq<Val>)
    requires Chain(h, path) && Harmless(h, path)
    ensures !ComesBack(path) && path[|path| - 1] != Mark
  {
    assert path + [] == path;
  }

  /** Past a dict fewer are left to pass. */
  lemma PassedOne(h: Heap, path: seq<Val>)
    requires path != [] && !ComesBack(path)
    ensures var init, v := path[..|path| - 1], path[|path| - 1];
      if v.Dict? && v.id < |h| then Unpassed(h, path) < Unpassed(h, init) else Unpassed(h, path) <= Unpassed(h, init)
  {
    var init, v := path[..|path| - 1], path[|path| - 1];
    forall o | o in Unpassed(h, path) ensures o in Unpassed(h, init) {
      assert o in Passed(init) ==> Dict(o) in path;
    }
    if v.Dict? && v.id < |h| {
      assert v in path;
      assert v.id in Unpassed(h, init) && v.id !in Unpassed(h, path);
    }
  }

  /** The end of a harmless chain stands for a tree: a list is made of smaller values, and
      every dict on the way is passed once. */
  lemma {:induction false} HarmlessIsFinite(h: Heap, path: seq<Val>)
    requires GroundedHeap(h) && Chain(h, path) && Grounded(path[|path| - 1], |h|) && Harmless(h, path)
    ensures IsFinite(h, path[|path| - 1])
    decreases Unpassed(h, path[..|path| - 1]), path[|path| - 1]
  {
    var v := path[|path| - 1];
    hide IsFinite, Harmless, Unpassed, ComesBack, Chain;
    EndHarmless(h, path);
    PassedOne(h, path);
    match v
    case List(items) =>
      forall i | 0 <= i < |items| ensures IsFinite(h, items[i]) {
        var w := items[i];
        ChainMore(h, path, w);
        HarmlessMore(h, path, w);
        assert (path + [w])[..|path|] == path;
        HarmlessIsFinite(h, path + [w]);
      }
      ListFinite(h, items);
    case Dict(id) =>
      forall k | k in h[id] ensures IsFinite(h, h[id][k]) {
        var w := h[id][k];
        ChainMore(h, path, w);
        HarmlessMore(h, path, w);
        assert (path + [w])[..|path|] == path;
        HarmlessIsFinite(h, path + [w]);
      }
      DictFinite(h, id);
    case _ => ScalarFinite(h, v);
  }

  /** A value in a heap without dangling references stands for a tree exactly if no chain of
      references from it comes back to a dict, and none ends in a mark. */
  lemma FiniteExactly(h: Heap, v: Val)
    requires GroundedHeap(h) && Grounded(v, |h|)
    ensures IsFinite(h, v) <==> !Returns(h, v) && !HoldsMark(h, v)
  {
    if IsFinite(h, v) {
      FiniteHasNone(h, v);
    } else if !Returns(h, v) && !HoldsMark(h, v) {
      hide ComesBack;
      assert Chain(h, [v]);
      assert Harmless(h, [v]);
      hide IsFinite, Grounded, GroundedHeap, Harmless, Returns, HoldsMark;
      HarmlessIsFinite(h, [v]);
    }
  }

  /** On any bytes whatever: what was decoded is a finite tree of values exactly if it does
      not, by any chain of references, come back to a dict or hold a mark. */
  lemma DecodedFiniteExactly(pf: FloatParser, input: bytes)
    ensures match Run(pf, input, START)
      case Error => true
      case Decoded(id, h) => IsFinite(h, Dict(id)) <==> !Returns(h, Dict(id)) && !HoldsMark(h, Dict(id))
  {
    DecodedIsGrounded(pf, input, START);
    hide Run, IsFinite, Returns, HoldsMark, GroundedHeap;
    match Run(pf, input, START)
    case Error =>
    case Decoded(id, h) => FiniteExactly(h, Dict(id));
  }

  // ---- a dict that holds itself ----

  const KEY: bytes := [0x6B]
  const STORE: bytes := [0x73, 0x2E]
  const FETCH: bytes := [0x55, 1, 0x6B] + ([0x68, 0] + STORE)

  /** A dict is remembered, fetched, and stored in itself under `k`. */
  const SELF: bytes := [0x7D] + ([0x71, 0] + FETCH)

  lemma SelfStored(pf: FloatParser, st: State)
    requires st.stack == [Dict(0), Str(KEY), Dict(0)] && st.heap == [map[]]
    ensures Run(pf, STORE, st) == Decoded(0, [map[KEY := Dict(0)]])
  {
    var vs, heap := [Str(KEY), Dict(0)], [map[KEY := Dict(0)]];
    assert vs[2..] == [];
    assert st.heap[0 := st.heap[0][KEY := Dict(0)]] == heap;
    assert DictSet([Dict(0)], st.heap, Str(KEY), Dict(0)) == Some(heap);
    assert DictSetAll([Dict(0)], st.heap, vs) == Some(heap);
    hide Run;
    assert STORE == [SETITEM] + [STOP];
    RunSet(pf, false, [STOP], st, [Dict(0)], vs);
    assert [STOP] + [] == [STOP];
    PickleRoundTrip.RunStop(pf, [], st.(stack := [Dict(0)], heap := heap), [], 0);
  }

  lemma SelfFetched(pf: FloatParser, st: State)
    requires st == State([Dict(0)], map[0 := Dict(0)], [map[]])
    ensures Run(pf, FETCH, st) == Decoded(0, [map[KEY := Dict(0)]])
  {
    hide Run;
    var st1 := Pushed(st, Str(KEY));
    assert EmitStr(KEY, ShortString) == [SHORT_BINSTRING, 1, 0x6B];
    RunStr(pf, KEY, ShortString, [BINGET, 0] + STORE, st);
    assert Emit(SGet(0, false)) == [BINGET, 0];
    RunGet(pf, 0, false, STORE, st1, Dict(0));
    SelfStored(pf, Pushed(st1, Dict(0)));
  }

  lemma SelfDecodes(pf: FloatParser)
    ensures Run(pf, SELF, START) == Decoded(0, [map[KEY := Dict(0)]])
  {
    hide Run;
    var st1 := State([Dict(0)], map[], [map[]]);
    var st2 := st1.(memo := map[0 := Dict(0)]);
    RunOperate(pf, EMPTY_DICT, [BINPUT, 0] + FETCH, START, st1);
    DropPrefix([0], FETCH);
    RunMemoOp(pf, BINPUT, [0], FETCH, st1, st2);
    assert [BINPUT] + [0] == [BINPUT, 0];
    SelfFetched(pf, st2);
  }

  /** So there is an input that decodes to no finite tree. */
  lemma SelfIsEndless(pf: FloatParser)
    ensures match Run(pf, SELF, START)
      case Error => false
      case Decoded(id, h) => Returns(h, Dict(id)) && !IsFinite(h, Dict(id))
  {
    SelfDecodes(pf);
    hide Run;
    var h: Heap := [map[KEY := Dict(0)]];
    var path := [Dict(0), Dict(0)];
    assert Holds(h, Dict(0), Dict(0)) by { assert h[0][KEY] == Dict(0); }
    assert Chain(h, path);
    assert ComesBack(path) by { assert path[0].Dict? && path[0] == path[1]; }
    if IsFinite(h, Dict(0)) { FiniteHasNone(h, Dict(0)); }
  }
}
