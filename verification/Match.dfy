/** The composite rule language: a tree of conditions compiled to a predicate. */
module Match {
  import opened Common
  import opened Model

  /** Library text operations the language rests on, left open: lower-casing, which
      patterns compile, and which text a pattern matches. */
  datatype Lib = Lib(lower: string -> string, regexOk: string -> bool, regexTest: (string, string) -> bool)

  /** One string comparison; an empty operand is an operator that is not set. */
  datatype Cond = Cond(contains: string, starts: string, ends: string, equals: string, caseSensitive: bool)

  /** A node is the conjunction of everything set on it. */
  datatype Node = Node(
    and: seq<Node>,
    or: seq<Node>,
    app: string,
    src: string,
    pid: string,
    lvl: string,
    msg: Option<Cond>,
    regex: string,
    fields: map<string, Cond>)

  type Pred = Entry -> bool

  // ---- meaning ----

  predicate OccursAt(s: string, v: string, i: int) { 0 <= i <= |s| - |v| && s[i..i + |v|] == v }

  predicate Contains(s: string, v: string) { exists i :: 0 <= i <= |s| && OccursAt(s, v, i) }

  predicate HasSuffix(s: string, v: string) { |v| <= |s| && s[|s| - |v|..] == v }

  function Ops(c: Cond): nat {
    (if c.contains != "" then 1 else 0) + (if c.starts != "" then 1 else 0)
    + (if c.ends != "" then 1 else 0) + (if c.equals != "" then 1 else 0)
  }

  function Fold(lib: Lib, c: Cond, s: string): string { if c.caseSensitive then s else lib.lower(s) }

  predicate CondHolds(lib: Lib, c: Cond, s: string) {
    && (c.contains != "" ==> Contains(Fold(lib, c, s), Fold(lib, c, c.contains)))
    && (c.starts != "" ==> Fold(lib, c, c.starts) <= Fold(lib, c, s))
    && (c.ends != "" ==> HasSuffix(Fold(lib, c, s), Fold(lib, c, c.ends)))
    && (c.equals != "" ==> Fold(lib, c, s) == Fold(lib, c, c.equals))
  }

  const LEVEL_NAMES: seq<string> := ["DEBUG", "INFO", "LOG", "WARN", "ERROR", "SEVERE", "PANIC"]

  function Upper(c: char): char { if 'a' <= c <= 'z' then c - 'a' + 'A' else c }

  predicate EqualFold(a: string, b: string) {
    |a| == |b| && forall i :: 0 <= i < |a| ==> Upper(a[i]) == Upper(b[i])
  }

  /** The level a name stands for, in any case. */
  ghost predicate Names(s: string, l: Level) { l < |LEVEL_NAMES| && EqualFold(s, LEVEL_NAMES[l]) }

  ghost predicate KnownLevel(s: string) { exists l :: Names(s, l) }

  ghost predicate AtLeast(s: string, l: Level) { forall min :: Names(s, min) ==> l >= min }

  predicate SetsSomething(m: Node) {
    m.and != [] || m.or != [] || m.app != "" || m.src != "" || m.pid != "" || m.lvl != ""
    || m.msg.Some? || m.regex != "" || m.fields != map[]
  }

  ghost predicate WellFormed(lib: Lib, m: Node) {
    && SetsSomething(m)
    && (m.lvl != "" ==> KnownLevel(m.lvl))
    && (m.msg.Some? ==> Ops(m.msg.value) == 1)
    && (m.regex != "" ==> lib.regexOk(m.regex))
    && (forall k :: k in m.fields ==> Ops(m.fields[k]) == 1)
    && (forall i :: 0 <= i < |m.and| ==> WellFormed(lib, m.and[i]))
    && (forall i :: 0 <= i < |m.or| ==> WellFormed(lib, m.or[i]))
  }

  ghost predicate Holds(lib: Lib, m: Node, e: Entry) {
    && LeavesHold(lib, m, e)
    && (forall i :: 0 <= i < |m.and| ==> Holds(lib, m.and[i], e))
    && (m.or != [] ==> exists i :: 0 <= i < |m.or| && Holds(lib, m.or[i], e))
  }

  /** The conditions on the node itself. */
  ghost predicate LeavesHold(lib: Lib, m: Node, e: Entry) {
    ExactHold(m, e) && TestsHold(lib, m, e) && FieldsHold(lib, m.fields, e)
  }

  predicate ExactHold(m: Node, e: Entry) {
    && (m.app != "" ==> e.app == m.app)
    && (m.src != "" ==> e.src == m.src)
    && (m.pid != "" ==> e.pid == m.pid)
  }

  ghost predicate TestsHold(lib: Lib, m: Node, e: Entry) {
    && (m.lvl != "" ==> AtLeast(m.lvl, e.lvl))
    && (m.msg.Some? ==> CondHolds(lib, m.msg.value, e.msg))
    && (m.regex != "" ==> lib.regexTest(m.regex, e.msg))
  }

  ghost predicate FieldsHold(lib: Lib, fields: map<string, Cond>, e: Entry) {
    forall k :: k in fields ==> k in e.fields && CondHolds(lib, fields[k], e.fields[k])
  }

  // ---- compiled form ----

  predicate All(ps: seq<Pred>, e: Entry) { forall i :: 0 <= i < |ps| ==> ps[i](e) }

  predicate Any(ps: seq<Pred>, e: Entry) { exists i :: 0 <= i < |ps| && ps[i](e) }

  lemma AllMore(ps: seq<Pred>, p: Pred)
    ensures forall e :: All(ps + [p], e) <==> All(ps, e) && p(e)
  {
    forall e ensures All(ps + [p], e) <==> All(ps, e) && p(e) {
      assert (ps + [p])[|ps|] == p;
      assert forall i :: 0 <= i < |ps| ==> (ps + [p])[i] == ps[i];
    }
  }

  // ---- the program ----

  method ParseLevel(s: string) returns (l: Level)
    ensures Names(s, l) || (l == INFO && !KnownLevel(s))
  {
    for i := 0 to |LEVEL_NAMES|
      invariant forall k: Level :: Names(s, k) ==> k >= i
    {
      if EqualFold(s, LEVEL_NAMES[i]) { return i; }
    }
    return INFO;
  }

  lemma NameUnique(s: string, k: Level, l: Level)
    requires Names(s, k) && Names(s, l)
    ensures k == l
  {
    assert EqualFold(LEVEL_NAMES[k], LEVEL_NAMES[l]);
    assert Upper(LEVEL_NAMES[k][0]) == Upper(LEVEL_NAMES[l][0]);
  }

  /** Rejects a name that is not a level, which ParseLevel would take for INFO. */
  method ParseLevelStrict(s: string) returns (l: Option<Level>)
    ensures l.Some? <==> KnownLevel(s)
    ensures l.Some? ==> Names(s, l.value) && forall x: Level :: AtLeast(s, x) <==> x >= l.value
  {
    var level := ParseLevel(s);
    if !EqualFold(LEVEL_NAMES[level], s) {
      assert !Names(s, level);
      return None;
    }
    assert Names(s, level);
    forall k | Names(s, k) ensures k == level { NameUnique(s, k, level); }
    return Some(level);
  }

  datatype Op = Op(val: string, test: (string, string) -> bool)

  method CompileCond(lib: Lib, c: Cond) returns (f: Option<string -> bool>)
    ensures f.Some? <==> Ops(c) == 1
    ensures f.Some? ==> forall s :: f.value(s) <==> CondHolds(lib, c, s)
  {
    var ops: seq<Op> := [];
    if c.contains != "" { ops := ops + [Op(c.contains, Contains)]; }
    if c.starts != "" { ops := ops + [Op(c.starts, (s: string, v: string) => v <= s)]; }
    if c.ends != "" { ops := ops + [Op(c.ends, HasSuffix)]; }
    if c.equals != "" { ops := ops + [Op(c.equals, (s: string, v: string) => s == v)]; }
    if |ops| != 1 { return None; }
    var o := ops[0];
    if c.caseSensitive {
      return Some((s: string) => o.test(s, o.val));
    }
    var val := lib.lower(o.val);
    return Some((s: string) => o.test(lib.lower(s), val));
  }

  method CompileFields(lib: Lib, fields: map<string, Cond>) returns (preds: Option<seq<Pred>>)
    ensures preds.Some? <==> forall k :: k in fields ==> Ops(fields[k]) == 1
    ensures preds.Some? ==> (preds.value == [] <==> fields == map[])
    ensures preds.Some? ==> forall e :: All(preds.value, e) <==> FieldsHold(lib, fields, e)
  {
    var ps: seq<Pred> := [];
    var left := fields.Keys;
    while left != {}
      invariant left <= fields.Keys
      invariant forall k :: k in fields && k !in left ==> Ops(fields[k]) == 1
      invariant ps == [] <==> left == fields.Keys
      invariant forall e :: All(ps, e) <==>
        forall k :: k in fields && k !in left ==> k in e.fields && CondHolds(lib, fields[k], e.fields[k])
      decreases left
    {
      hide All, CondHolds;
      var key :| key in left;
      var f := CompileCond(lib, fields[key]);
      if f.None? { return None; }
      var test := f.value;
      var p: Pred := (e: Entry) => key in e.fields && test(e.fields[key]);
      AllMore(ps, p);
      left := left - {key};
      ps := ps + [p];
    }
    return Some(ps);
  }

  method CompileExact(m: Node) returns (ps: seq<Pred>)
    ensures ps == [] <==> m.app == "" && m.src == "" && m.pid == ""
    ensures forall e :: All(ps, e) <==> ExactHold(m, e)
  {
    AllOfNone();
    hide All;
    ps := [];
    if m.app != "" {
      var p: Pred := (e: Entry) => e.app == m.app;
      AllMore(ps, p);
      ps := ps + [p];
    }
    if m.src != "" {
      var p: Pred := (e: Entry) => e.src == m.src;
      AllMore(ps, p);
      ps := ps + [p];
    }
    if m.pid != "" {
      var p: Pred := (e: Entry) => e.pid == m.pid;
      AllMore(ps, p);
      ps := ps + [p];
    }
  }

  method CompileTests(lib: Lib, m: Node) returns (preds: Option<seq<Pred>>)
    ensures preds.Some? <==>
      (m.lvl != "" ==> KnownLevel(m.lvl))
        && (m.msg.Some? ==> Ops(m.msg.value) == 1) && (m.regex != "" ==> lib.regexOk(m.regex))
    ensures preds.Some? ==> (preds.value == [] <==> m.lvl == "" && m.msg.None? && m.regex == "")
    ensures preds.Some? ==> forall e :: All(preds.value, e) <==> TestsHold(lib, m, e)
  {
    AllOfNone();
    hide All, CondHolds, AtLeast, KnownLevel, Ops;
    var ps: seq<Pred> := [];
    if m.lvl != "" {
      var min := ParseLevelStrict(m.lvl);
      if min.None? { return None; }
      var p: Pred := (e: Entry) => e.lvl >= min.value;
      AllMore(ps, p);
      ps := ps + [p];
    }
    if m.msg.Some? {
      var f := CompileCond(lib, m.msg.value);
      if f.None? { return None; }
      var p: Pred := (e: Entry) => f.value(e.msg);
      AllMore(ps, p);
      ps := ps + [p];
    }
    if m.regex != "" {
      if !lib.regexOk(m.regex) { return None; }
      var p: Pred := (e: Entry) => lib.regexTest(m.regex, e.msg);
      AllMore(ps, p);
      ps := ps + [p];
    }
    return Some(ps);
  }

  method CompileLeaves(lib: Lib, m: Node) returns (preds: Option<seq<Pred>>)
    ensures preds.Some? <==> LeavesOk(lib, m)
    ensures preds.Some? ==> (preds.value == [] <==> !SetsSomething(m.(and := [], or := [])))
    ensures preds.Some? ==> forall e :: All(preds.value, e) <==> LeavesHold(lib, m, e)
  {
    hide All, ExactHold, TestsHold, FieldsHold, KnownLevel, Ops;
    var exact := CompileExact(m);
    var tests := CompileTests(lib, m);
    if tests.None? { return None; }
    var fields := CompileFields(lib, m.fields);
    if fields.None? { return None; }
    AllConcat(exact, tests.value);
    AllConcat(exact + tests.value, fields.value);
    return Some(exact + tests.value + fields.value);
  }

  ghost predicate LeavesOk(lib: Lib, m: Node) {
    && (m.lvl != "" ==> KnownLevel(m.lvl))
    && (m.msg.Some? ==> Ops(m.msg.value) == 1)
    && (m.regex != "" ==> lib.regexOk(m.regex))
    && (forall k :: k in m.fields ==> Ops(m.fields[k]) == 1)
  }

  lemma AllOfNone()
    ensures forall e :: All([], e)
  {
  }

  lemma AllConcat(ps: seq<Pred>, qs: seq<Pred>)
    ensures forall e :: All(ps + qs, e) <==> All(ps, e) && All(qs, e)
  {
    forall e ensures All(ps + qs, e) <==> All(ps, e) && All(qs, e) {
      assert forall i :: 0 <= i < |ps| ==> (ps + qs)[i] == ps[i];
      assert forall i :: 0 <= i < |qs| ==> (ps + qs)[|ps| + i] == qs[i];
    }
  }

  method CompileKids(lib: Lib, ms: seq<Node>) returns (kids: Option<seq<Pred>>)
    ensures kids.Some? <==> forall i :: 0 <= i < |ms| ==> WellFormed(lib, ms[i])
    ensures kids.Some? ==> |kids.value| == |ms|
    ensures kids.Some? ==> forall e, i :: 0 <= i < |ms| ==> (kids.value[i](e) <==> Holds(lib, ms[i], e))
    decreases ms, 0
  {
    hide WellFormed, Holds;
    var ks: seq<Pred> := [];
    for i := 0 to |ms|
      invariant |ks| == i
      invariant forall j :: 0 <= j < i ==> WellFormed(lib, ms[j])
      invariant forall e, j :: 0 <= j < i ==> (ks[j](e) <==> Holds(lib, ms[j], e))
    {
      var k := CompileMatch(lib, ms[i]);
      if k.None? { return None; }
      ks := ks + [k.value];
    }
    return Some(ks);
  }

  /** Compilation succeeds exactly on well-formed trees, and then the predicate means
      what the tree means. */
  method CompileMatch(lib: Lib, m: Node) returns (f: Option<Pred>)
    ensures f.Some? <==> WellFormed(lib, m)
    ensures f.Some? ==> forall e :: f.value(e) <==> Holds(lib, m, e)
    decreases m, 1
  {
    hide LeavesHold, All, Any;
    var leaves := CompileLeaves(lib, m);
    if leaves.None? { return None; }
    var ps := leaves.value;
    if |m.and| > 0 {
      var kids := CompileKids(lib, m.and);
      if kids.None? { return None; }
      var p: Pred := (e: Entry) => All(kids.value, e);
      AllMore(ps, p);
      AllKids(lib, m.and, kids.value);
      ps := ps + [p];
    }
    if |m.or| > 0 {
      var kids := CompileKids(lib, m.or);
      if kids.None? { return None; }
      var p: Pred := (e: Entry) => Any(kids.value, e);
      AllMore(ps, p);
      AnyKid(lib, m.or, kids.value);
      ps := ps + [p];
    }
    if |ps| == 0 { return None; }
    return Some((e: Entry) => All(ps, e));
  }

  lemma AllKids(lib: Lib, ms: seq<Node>, kids: seq<Pred>)
    requires |kids| == |ms| && forall e, i :: 0 <= i < |ms| ==> (kids[i](e) <==> Holds(lib, ms[i], e))
    ensures forall e :: All(kids, e) <==> forall i :: 0 <= i < |ms| ==> Holds(lib, ms[i], e)
  {
    hide Holds;
  }

  lemma AnyKid(lib: Lib, ms: seq<Node>, kids: seq<Pred>)
    requires |kids| == |ms| && forall e, i :: 0 <= i < |ms| ==> (kids[i](e) <==> Holds(lib, ms[i], e))
    ensures forall e :: Any(kids, e) <==> exists i :: 0 <= i < |ms| && Holds(lib, ms[i], e)
  {
    hide Holds;
  }

  // ---- the language, in plain terms ----

  lemma ContainsMeans(s: string, v: string)
    ensures Contains(s, v) <==> exists a, b :: s == a + v + b
  {
    if i :| 0 <= i <= |s| && OccursAt(s, v, i) { assert s == s[..i] + v + s[i + |v|..]; }
    if a, b :| s == a + v + b { assert OccursAt(s, v, |a|); }
  }

  lemma SuffixMeans(s: string, v: string)
    ensures HasSuffix(s, v) <==> exists a :: s == a + v
  {
    if HasSuffix(s, v) { assert s == s[..|s| - |v|] + v; }
  }

  lemma PrefixMeans(s: string, v: string)
    ensures v <= s <==> exists b :: s == v + b
  {
    if v <= s { assert s == v + s[|v|..]; }
  }

  /** `s` passes the one comparison set in `c`. */
  ghost predicate Passes(c: Cond, s: string, contains: string, starts: string, ends: string, equals: string) {
    && (c.contains != "" ==> exists a, b :: s == a + contains + b)
    && (c.starts != "" ==> exists b :: s == starts + b)
    && (c.ends != "" ==> exists a :: s == a + ends)
    && (c.equals != "" ==> s == equals)
  }

  /** A comparison is of the texts as they are, or of both in lower case. */
  lemma CondMeans(lib: Lib, c: Cond, s: string)
    ensures c.caseSensitive ==> (CondHolds(lib, c, s) <==> Passes(c, s, c.contains, c.starts, c.ends, c.equals))
    ensures !c.caseSensitive ==>
      (CondHolds(lib, c, s) <==>
       Passes(c, lib.lower(s), lib.lower(c.contains), lib.lower(c.starts), lib.lower(c.ends), lib.lower(c.equals)))
  {
    hide Contains, HasSuffix;
    ContainsMeans(Fold(lib, c, s), Fold(lib, c, c.contains));
    PrefixMeans(Fold(lib, c, s), Fold(lib, c, c.starts));
    SuffixMeans(Fold(lib, c, s), Fold(lib, c, c.ends));
  }

  /** The same letters, in any case. */
  predicate SameLetters(a: string, b: string) {
    |a| == |b| && forall i :: 0 <= i < |a| ==> SameLetter(a[i], b[i])
  }

  predicate SameLetter(a: char, b: char) {
    a == b || ('a' <= a <= 'z' && a as int - 32 == b as int) || ('a' <= b <= 'z' && b as int - 32 == a as int)
  }

  /** The levels and their numbers. */
  lemma LevelNames(s: string, l: Level)
    ensures Names(s, l) <==>
      l < 7 && SameLetters(s, ["DEBUG", "INFO", "LOG", "WARN", "ERROR", "SEVERE", "PANIC"][l])
  {
    if l < 7 {
      var name := LEVEL_NAMES[l];
      assert forall i :: 0 <= i < |name| ==> 'A' <= name[i] <= 'Z';
      forall i | 0 <= i < |name| && i < |s| ensures Upper(s[i]) == Upper(name[i]) <==> SameLetter(s[i], name[i]) {}
    }
  }

  const ANY := Node([], [], "", "", "", "", None, "", map[])

  /** A node that sets one thing accepts what that says. */
  lemma LeafMeans(lib: Lib, e: Entry, v: string, l: Level, c: Cond)
    ensures v != "" ==> (Holds(lib, ANY.(app := v), e) <==> e.app == v)
    ensures v != "" ==> (Holds(lib, ANY.(src := v), e) <==> e.src == v)
    ensures v != "" ==> (Holds(lib, ANY.(pid := v), e) <==> e.pid == v)
    ensures v != "" ==> (Holds(lib, ANY.(regex := v), e) <==> lib.regexTest(v, e.msg))
    ensures v != "" && Names(v, l) ==> (Holds(lib, ANY.(lvl := v), e) <==> e.lvl >= l)
    ensures Holds(lib, ANY.(msg := Some(c)), e) <==> CondHolds(lib, c, e.msg)
    ensures Holds(lib, ANY.(fields := map[v := c]), e) <==> v in e.fields && CondHolds(lib, c, e.fields[v])
  {
    hide CondHolds, Names;
    forall m | Names(v, l) && Names(v, m) ensures m == l { NameUnique(v, m, l); }
  }

  /** A list of nodes asks for all of them, or for one. */
  lemma ListMeans(lib: Lib, ms: seq<Node>, e: Entry)
    requires ms != []
    ensures Holds(lib, ANY.(and := ms), e) <==> forall i :: 0 <= i < |ms| ==> Holds(lib, ms[i], e)
    ensures Holds(lib, ANY.(or := ms), e) <==> exists i :: 0 <= i < |ms| && Holds(lib, ms[i], e)
  {
    hide CondHolds;
  }

  /** A node asks for everything that is set on it. */
  lemma NodeMeans(lib: Lib, m: Node, e: Entry)
    ensures Holds(lib, m, e) <==>
      && Holds(lib, ANY.(app := m.app, src := m.src, pid := m.pid), e)
      && Holds(lib, ANY.(lvl := m.lvl, msg := m.msg, regex := m.regex), e)
      && Holds(lib, ANY.(fields := m.fields), e)
      && Holds(lib, ANY.(and := m.and), e) && Holds(lib, ANY.(or := m.or), e)
  {
    hide CondHolds, AtLeast;
    ExactMeans(lib, m, e);
    TestsMean(lib, m, e);
    FieldsMean(lib, m, e);
    ListsMean(lib, m, e);
    hide ExactHold, TestsHold, FieldsHold;
  }

  lemma ExactMeans(lib: Lib, m: Node, e: Entry)
    ensures Holds(lib, ANY.(app := m.app, src := m.src, pid := m.pid), e) <==> ExactHold(m, e)
  {
    hide CondHolds, AtLeast;
  }

  lemma TestsMean(lib: Lib, m: Node, e: Entry)
    ensures Holds(lib, ANY.(lvl := m.lvl, msg := m.msg, regex := m.regex), e) <==> TestsHold(lib, m, e)
  {
    hide CondHolds, AtLeast;
  }

  lemma FieldsMean(lib: Lib, m: Node, e: Entry)
    ensures Holds(lib, ANY.(fields := m.fields), e) <==> FieldsHold(lib, m.fields, e)
  {
    hide CondHolds, AtLeast;
  }

  lemma ListsMean(lib: Lib, m: Node, e: Entry)
    ensures Holds(lib, ANY.(and := m.and), e) <==> forall i :: 0 <= i < |m.and| ==> Holds(lib, m.and[i], e)
    ensures Holds(lib, ANY.(or := m.or), e) <==> (m.or != [] ==> exists i :: 0 <= i < |m.or| && Holds(lib, m.or[i], e))
  {
    hide CondHolds, AtLeast;
  }
}
