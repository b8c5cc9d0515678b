/** Catalog entity names: every app gets one of its own, in Backstage's alphabet. */
module Backstage {
  import opened Common
  import opened Sorting
  import opened Text

  const LONGEST := 63
  const STEM := 59

  predicate Alnum(c: char) { 'a' <= c <= 'z' || 'A' <= c <= 'Z' || '0' <= c <= '9' }

  predicate Separator(c: char) { c == '-' || c == '_' || c == '.' }

  predicate Allowed(c: char) { Alnum(c) || Separator(c) }

  /** Letters, digits and separators, starting with a letter or a digit. */
  predicate Proper(s: string) {
    s != "" && Alnum(s[0]) && forall i :: 0 <= i < |s| ==> Allowed(s[i])
  }

  // ---- one name ----

  function Truncate(s: string, n: nat): string { if |s| <= n then s else s[..n] }

  function Cleaned(s: string): string {
    seq(|s|, i requires 0 <= i < |s| => if Allowed(s[i]) then s[i] else '-')
  }

  function TrimLeft(s: string): string {
    if s != "" && Separator(s[0]) then TrimLeft(s[1..]) else s
  }

  function TrimRight(s: string): string {
    if s != "" && Separator(s[|s| - 1]) then TrimRight(s[..|s| - 1]) else s
  }

  /** What is left of a name before the cut. */
  function Trimmed(app: string): string { TrimRight(TrimLeft(Cleaned(app))) }

  function Alphabet(s: string): string { Truncate(Trimmed(s), LONGEST) }

  function Sanitize(app: string): string {
    if Alphabet(app) != "" then Alphabet(app) else "service"
  }

  /** The name tried when the plain one is taken; `i` counts from 2. */
  function Candidate(app: string, i: nat): string { Truncate(Sanitize(app), STEM) + "-" + Decimal(i) }

  lemma {:induction false} TrimLeftFacts(s: string)
    ensures var t := TrimLeft(s);
      && (t != "" ==> !Separator(t[0]))
      && |t| <= |s| && t == s[|s| - |t|..]
  {
    if s != "" && Separator(s[0]) { TrimLeftFacts(s[1..]); }
  }

  lemma {:induction false} TrimRightFacts(s: string)
    ensures var t := TrimRight(s);
      && (t != "" ==> !Separator(t[|t| - 1]))
      && |t| <= |s| && t == s[..|t|]
  {
    if s != "" && Separator(s[|s| - 1]) { TrimRightFacts(s[..|s| - 1]); }
  }

  /** Whatever the app is called, its plain name is proper and within 63 characters; it is the
      app's own name exactly if that is proper, within 63 and ends in a letter or digit. */
  lemma SanitizeProper(app: string)
    ensures Proper(Sanitize(app)) && |Sanitize(app)| <= LONGEST
    ensures Sanitize(app) == app <==> Proper(app) && |app| <= LONGEST && Alnum(app[|app| - 1])
  {
    hide TrimLeft, TrimRight;
    TrimmedProper(app);
    if Proper(app) && Alnum(app[|app| - 1]) { TrimKeeps(app); }
  }

  lemma TrimmedProper(app: string)
    ensures var t := Trimmed(app);
      && |t| <= |app|
      && (forall i :: 0 <= i < |t| ==> Allowed(t[i]))
      && (t != "" ==> Alnum(t[0]) && Alnum(t[|t| - 1]))
  {
    hide TrimLeft, TrimRight;
    var c := Cleaned(app);
    var l := TrimLeft(c);
    var t := TrimRight(l);
    TrimLeftFacts(c);
    TrimRightFacts(l);
    assert forall i :: 0 <= i < |c| ==> Allowed(c[i]);
    assert forall i :: 0 <= i < |t| ==> t[i] == c[|c| - |l| + i];
    assert t != "" ==> t[0] == l[0];
  }

  lemma TrimKeeps(s: string)
    requires Proper(s) && Alnum(s[|s| - 1])
    ensures Cleaned(s) == s && Trimmed(s) == s
  {
    assert Cleaned(s) == s;
  }

  /** Separators are trimmed before the cut, not after it: a plain name ends in a letter or
      digit exactly if nothing is cut off or the cut leaves one at the end. */
  lemma EndsWellExactly(app: string)
    ensures var n, t := Sanitize(app), Trimmed(app);
      Alnum(n[|n| - 1]) <==> |t| <= LONGEST || Alnum(t[LONGEST - 1])
  {
    hide TrimLeft, TrimRight;
    TrimmedProper(app);
  }

  const LongName := seq(LONGEST - 1, i => 'a') + "-b"

  /** One name for which the cut leaves a separator: 62 letters, a dash and a letter. */
  lemma CutShows()
    ensures Sanitize(LongName) == LongName[..LONGEST] && Sanitize(LongName)[LONGEST - 1] == '-'
  {
    TrimKeeps(LongName);
  }

  lemma CandidateProper(app: string, i: nat)
    ensures Proper(Candidate(app, i)) && |Candidate(app, i)| <= STEM + 1 + |Decimal(i)|
  {
    hide Sanitize, Decimal;
    SanitizeProper(app);
  }

  lemma CandidatesDiffer(app: string, i: nat, j: nat)
    requires Candidate(app, i) == Candidate(app, j)
    ensures i == j
  {
    hide Sanitize, Decimal;
    var k := |Truncate(Sanitize(app), STEM) + "-"|;
    assert Candidate(app, i)[k..] == Decimal(i) && Candidate(app, j)[k..] == Decimal(j);
    DecimalInjective(i, j);
  }

  // ---- the first free number ----

  /** The taken names that a later try could run into. */
  ghost function Ahead(app: string, taken: set<string>, i: nat): set<string> {
    set t <- taken | exists j: nat :: i <= j && Candidate(app, j) == t
  }

  lemma AheadShrinks(app: string, taken: set<string>, i: nat)
    requires Candidate(app, i) in taken
    ensures |Ahead(app, taken, i + 1)| < |Ahead(app, taken, i)|
  {
    hide Candidate;
    var now, later := Ahead(app, taken, i), Ahead(app, taken, i + 1);
    if Candidate(app, i) in later {
      var j: nat :| i + 1 <= j && Candidate(app, j) == Candidate(app, i);
      CandidatesDiffer(app, i, j);
      assert false;
    }
    assert later < now;
    SubsetSize(later, now);
  }

  lemma AheadBound(app: string, taken: set<string>, i: nat)
    ensures |Ahead(app, taken, i)| <= |taken|
  {
    SubsetSize(Ahead(app, taken, i), taken);
  }

  /** The number the search stops at: each number passed over costs one taken name. */
  function Free(app: string, taken: set<string>, i: nat): (r: nat)
    ensures i <= r && Candidate(app, r) !in taken
    ensures forall j: nat :: i <= j < r ==> Candidate(app, j) in taken
    ensures r - i <= |Ahead(app, taken, i)|
    decreases |Ahead(app, taken, i)|
  {
    hide Candidate, Ahead;
    if Candidate(app, i) in taken then
      AheadShrinks(app, taken, i);
      Free(app, taken, i + 1)
    else i
  }

  function NameFor(app: string, taken: set<string>): string {
    if Sanitize(app) !in taken then Sanitize(app) else Candidate(app, Free(app, taken, 2))
  }

  // ---- all of them ----

  datatype Given = Given(names: map<string, string>, taken: set<string>)

  function Assigned(apps: seq<string>): Given {
    if apps == [] then Given(map[], {})
    else
      var g, app := Assigned(apps[..|apps| - 1]), apps[|apps| - 1];
      var name := NameFor(app, g.taken);
      Given(g.names[app := name], g.taken + {name})
  }

  /** The loops as written: an inner search for every app. It ends because the numbered
      names are all different and only finitely many are taken. */
  method BackstageNames(apps: seq<string>) returns (names: map<string, string>)
    ensures names == Assigned(apps).names
  {
    hide Sanitize, Candidate, Ahead;
    names := map[];
    var taken: set<string> := {};
    for k := 0 to |apps|
      invariant Given(names, taken) == Assigned(apps[..k])
    {
      var app := apps[k];
      var name := Sanitize(app);
      var i: nat := 2;
      while name in taken
        invariant i >= 2 && (i == 2 ==> name == Sanitize(app))
        invariant i > 2 ==> name == Candidate(app, i - 1) && Sanitize(app) in taken
        invariant i > 2 && name in taken ==> Free(app, taken, 2) == Free(app, taken, i)
        invariant i > 2 && name !in taken ==> Free(app, taken, 2) == i - 1
        decreases if i == 2 then 1 else 0, |Ahead(app, taken, if i == 2 then 2 else i - 1)|
      {
        if i > 2 { AheadShrinks(app, taken, i - 1); }
        name := Candidate(app, i);
        i := i + 1;
      }
      assert name == NameFor(app, taken);
      assert apps[..k + 1][..k] == apps[..k];
      names := names[app := name];
      taken := taken + {name};
    }
    assert apps[..|apps|] == apps;
  }

  /** Every app is named, each name is proper and new: as many are taken as apps were seen. */
  lemma {:induction false} NamesAreUnique(apps: seq<string>)
    ensures var g := Assigned(apps);
      && g.names.Keys == (set a <- apps)
      && (forall a <- g.names :: g.names[a] in g.taken)
      && (forall a <- g.names, b <- g.names :: g.names[a] == g.names[b] ==> a == b)
      && (forall t <- g.taken :: Proper(t))
      && |g.taken| == |apps|
  {
    hide Proper, NameFor;
    if apps != [] {
      var init, app := apps[..|apps| - 1], apps[|apps| - 1];
      assert apps == init + [app];
      NamesAreUnique(init);
      var before, g := Assigned(init), Assigned(apps);
      var name := NameFor(app, before.taken);
      NameIsNew(app, before.taken);
      assert g.names == before.names[app := name] && g.taken == before.taken + {name};
      forall a, b | a in g.names && b in g.names && g.names[a] == g.names[b] ensures a == b {
        assert a != app ==> g.names[a] == before.names[a] && before.names[a] in before.taken;
        assert b != app ==> g.names[b] == before.names[b] && before.names[b] in before.taken;
      }
    }
  }

  lemma NameIsNew(app: string, taken: set<string>)
    ensures NameFor(app, taken) !in taken && Proper(NameFor(app, taken))
  {
    hide Proper, Sanitize, Candidate, Ahead;
    SanitizeProper(app);
    CandidateProper(app, Free(app, taken, 2));
  }

  // ---- the length of names ----

  ghost predicate Short(apps: seq<string>) {
    var names := Assigned(apps).names;
    forall a <- names :: |names[a]| <= LONGEST
  }

  lemma ThreeDigits(n: nat)
    ensures |Decimal(n)| <= 3 <==> n < 1000
  {
    if n >= 1000 {
      MoreDigits(n / 100);
      assert |Decimal(n / 100)| >= 2;
      assert |Decimal(n / 10)| == |Decimal(n / 10 / 10)| + 1;
      assert n / 10 / 10 == n / 100;
    } else if n >= 10 {
      MoreDigits(n / 10);
      if n >= 100 { MoreDigits(n / 100); }
    }
  }

  lemma {:induction false} ShortUpTo998(apps: seq<string>)
    requires |apps| <= 998
    ensures Short(apps)
  {
    hide Proper, Sanitize, Candidate, Ahead, Decimal;
    if apps != [] {
      var init, app := apps[..|apps| - 1], apps[|apps| - 1];
      ShortUpTo998(init);
      NamesAreUnique(init);
      var taken := Assigned(init).taken;
      var r := Free(app, taken, 2);
      AheadBound(app, taken, 2);
      ThreeDigits(r);
      SanitizeProper(app);
      CandidateProper(app, r);
    }
  }

  /** In whatever order they come, distinct apps that need no cleaning keep their names. */
  lemma {:induction false} PlainKeepTheirs(apps: seq<string>)
    requires Distinct(apps) && forall i :: 0 <= i < |apps| ==> Sanitize(apps[i]) == apps[i]
    ensures Assigned(apps).taken == set a <- apps
  {
    hide Sanitize, Candidate, Ahead;
    if apps != [] {
      var init, app := apps[..|apps| - 1], apps[|apps| - 1];
      PlainKeepTheirs(init);
      assert apps == init + [app];
      assert forall i :: 0 <= i < |init| ==> init[i] == apps[i];
    }
  }

  /** A name once given to an app that does not come again stays. */
  lemma {:induction false} LaterKeep(apps: seq<string>, more: seq<string>, a: string)
    requires a in Assigned(apps).names && a !in more
    ensures a in Assigned(apps + more).names && Assigned(apps + more).names[a] == Assigned(apps).names[a]
    decreases |more|
  {
    hide NameFor;
    if more == [] {
      assert apps + more == apps;
    } else {
      var init := more[..|more| - 1];
      LaterKeep(apps, init, a);
      assert (apps + more)[..|apps + more| - 1] == apps + init;
    }
  }

  function Repeat(c: char, n: nat): (s: string)
    ensures |s| == n
  {
    seq(n, i => c)
  }

  function Stem(): string { Repeat('a', STEM) }

  function Numbered(i: nat): string { Stem() + "-" + Decimal(i) }

  ghost predicate Crowded(app: string) { exists i: nat :: 2 <= i <= 999 && app == Numbered(i) }

  /** An app whose plain name is the stem numbered 2, and ever longer ones like it. */
  function Slashed(k: nat): string { Stem() + "/2" + Repeat('/', k) }

  lemma NumberedPlain(i: nat)
    requires i < 1000
    ensures Sanitize(Numbered(i)) == Numbered(i)
  {
    hide Sanitize, Decimal;
    ThreeDigits(i);
    SanitizeProper(Numbered(i));
  }

  lemma SlashedCleans(i: nat)
    ensures Sanitize(Slashed(0)) == Numbered(2) && Candidate(Slashed(0), i) == Numbered(i)
  {
    hide TrimRight, TrimLeft, Decimal;
    TwoIs();
    var s, t := Slashed(0), Numbered(2);
    assert Cleaned(s) == t;
    assert Proper(t) && Alnum(t[|t| - 1]);
    TrimKeeps(t);
    assert Sanitize(s) == t;
    assert Truncate(t, STEM) == Stem();
  }

  lemma TwoIs()
    ensures Decimal(2) == "2"
  {
  }

  /** The stem numbered 2 to 999 in any order, and then the slashed one: it gets number
      1000, and so 64 characters, because its plain name is one of the numbered ones. */
  lemma CrowdedOut(apps: seq<string>)
    requires Distinct(apps)
    requires forall k :: 0 <= k < |apps| ==> Crowded(apps[k])
    requires forall i: nat :: 2 <= i <= 999 ==> Numbered(i) in apps
    ensures |Assigned(apps + [Slashed(0)]).names[Slashed(0)]| > LONGEST
  {
    hide Sanitize, Candidate, Ahead, Numbered, Slashed, Decimal;
    var app := Slashed(0);
    forall k | 0 <= k < |apps| ensures Sanitize(apps[k]) == apps[k] {
      var i: nat :| 2 <= i <= 999 && apps[k] == Numbered(i);
      NumberedPlain(i);
    }
    PlainKeepTheirs(apps);
    var taken := Assigned(apps).taken;
    var r := Free(app, taken, 2);
    SlashedCleans(r);
    assert r < 1000 ==> Numbered(r) in apps;
    ThreeDigits(r);
    NumberedLength(r);
    assert (apps + [app])[..|apps|] == apps;
  }

  lemma NumberedLength(i: nat)
    ensures |Numbered(i)| == STEM + 1 + |Decimal(i)|
  {
  }

  function Crowd(n: nat): (apps: seq<string>)
    requires n >= 999
    ensures |apps| == n
  {
    seq(998, i requires 0 <= i => Numbered(i + 2)) + seq(n - 998, k requires 0 <= k => Slashed(k))
  }

  lemma CrowdDistinct(n: nat)
    requires n >= 999
    ensures Distinct(Crowd(n))
  {
    hide Decimal;
    var c := Crowd(n);
    forall i, j | 0 <= i < j < |c| ensures c[i] != c[j] {
      if j < 998 {
        NumberedDiffer(i + 2, j + 2);
      } else if i < 998 {
        assert c[i][STEM] == '-' && c[j][STEM] == '/';
      } else {
        assert |c[i]| == STEM + 2 + (i - 998) && |c[j]| == STEM + 2 + (j - 998);
      }
    }
  }

  lemma NumberedDiffer(i: nat, j: nat)
    requires i != j
    ensures Numbered(i) != Numbered(j)
  {
    hide Decimal;
    if Numbered(i) == Numbered(j) {
      assert Numbered(i)[STEM + 1..] == Decimal(i) && Numbered(j)[STEM + 1..] == Decimal(j);
      DecimalInjective(i, j);
      assert false;
    }
  }

  lemma CrowdFront(n: nat)
    requires n >= 999
    ensures var apps := Crowd(n)[..998];
      && (forall k :: 0 <= k < |apps| ==> Crowded(apps[k]))
      && (forall i: nat :: 2 <= i <= 999 ==> Numbered(i) in apps)
    ensures Crowd(n)[998] == Slashed(0)
    ensures Slashed(0) !in Crowd(n)[999..]
  {
    hide Numbered;
    var c := Crowd(n);
    var apps := c[..998];
    forall k | 0 <= k < |apps| ensures Crowded(apps[k]) {
      assert apps[k] == Numbered(k + 2);
    }
    forall i: nat | 2 <= i <= 999 ensures Numbered(i) in apps { assert apps[i - 2] == Numbered(i); }
    forall k | 999 <= k < |c| ensures c[k] != Slashed(0) { assert |c[k]| > |Slashed(0)|; }
  }

  lemma CrowdTooLong(n: nat)
    requires n >= 999
    ensures !Short(Crowd(n))
  {
    hide Assigned, Numbered, Slashed, Crowd;
    var c := Crowd(n);
    CrowdDistinct(n);
    var apps, app, more := c[..998], Slashed(0), c[999..];
    CrowdFront(n);
    CrowdedOut(apps);
    NamesAreUnique(apps + [app]);
    assert (apps + [app])[998] == app;
    LaterKeep(apps + [app], more, app);
    assert c == apps + [app] + more;
  }

  /** All names of any list of `n` distinct apps are within 63 characters exactly when `n`
      is at most 998; one more app is enough for a name of 64. */
  lemma BoundExactly(n: nat)
    ensures (forall apps :: |apps| == n && Distinct(apps) ==> Short(apps)) <==> n <= 998
  {
    hide Short, Distinct, Crowd;
    if n <= 998 {
      forall apps | |apps| == n && Distinct(apps) ensures Short(apps) { ShortUpTo998(apps); }
    } else {
      CrowdDistinct(n);
      CrowdTooLong(n);
      var c := Crowd(n);
      assert |c| == n && Distinct(c) && !Short(c);
    }
  }

  // ---- sorted, without repeats ----

  ghost predicate StrictlyAscending(s: seq<string>) {
    forall i, j :: 0 <= i < j < |s| ==> Less(s[i], s[j])
  }

  function Strings(s: seq<string>): set<string> { set x <- s }

  /** The compaction of the sorted slice in place: the front `n` places end up holding
      each of the strings once, ascending. */
  method CompactSorted(a: array<string>) returns (n: nat)
    requires Ascending(a[..])
    modifies a
    ensures n <= a.Length && StrictlyAscending(a[..n])
    ensures Strings(a[..n]) == Strings(old(a[..]))
  {
    hide Less, StrictlyAscending, Strings;
    ghost var was := a[..];
    if a.Length == 0 {
      NoneAscending();
      return 0;
    }
    n := 1;
    OneAscending(was[0]);
    assert a[..1] == was[..1] == [was[0]];
    for k := 1 to a.Length
      invariant 1 <= n <= k
      invariant a[k..] == was[k..]
      invariant StrictlyAscending(a[..n])
      invariant a[n - 1] == was[k - 1]
      invariant Strings(a[..n]) == Strings(was[..k])
    {
      ghost var front, seen := a[..n], was[..k];
      assert was[..k + 1] == seen + [was[k]];
      assert a[k] == a[k..][0] == was[k];
      ghost var more := a[k + 1..];
      assert more == a[k..][1..] == was[k..][1..] == was[k + 1..];
      OneMore(front, was[k]);
      OneMore(seen, was[k]);
      LastIn(seen);
      assert seen[|seen| - 1] == was[k - 1];
      if a[k] != a[n - 1] {
        Extends(front, was[k]);
        a[n] := a[k];
        n := n + 1;
        assert a[..n] == front + [was[k]];
        assert a[k + 1..] == more;
      }
    }
    assert was[..a.Length] == was;
  }

  lemma NoneAscending()
    ensures StrictlyAscending([])
  {
  }

  lemma OneAscending(x: string)
    ensures StrictlyAscending([x])
  {
  }

  lemma LastIn(s: seq<string>)
    requires s != []
    ensures s[|s| - 1] in Strings(s)
  {
  }

  /** Sorted, each string once. The library's sort is stood in for by one that is proved. */
  method SortedUnique(a: array<string>) returns (n: nat)
    modifies a
    ensures n <= a.Length && StrictlyAscending(a[..n])
    ensures Strings(a[..n]) == Strings(old(a[..]))
  {
    hide Less;
    InsertionSort(a);
    SortedAscends(a[..]);
    forall x ensures x in a[..] <==> x in old(a[..]) { assert x in multiset(a[..]) <==> x in multiset(old(a[..])); }
    n := CompactSorted(a);
  }

  lemma OneMore(s: seq<string>, x: string)
    ensures Strings(s + [x]) == Strings(s) + {x}
  {
  }

  lemma Extends(s: seq<string>, x: string)
    requires s != [] && StrictlyAscending(s) && Less(s[|s| - 1], x)
    ensures StrictlyAscending(s + [x])
  {
    hide Less;
    forall i | 0 <= i < |s| ensures Less(s[i], x) {
      if i < |s| - 1 { LessTransitive(s[i], s[|s| - 1], x); }
    }
  }

  // ---- names in plain terms ----

  /** Letters and digits, by their codes. */
  predicate Basic(c: char) {
    var n := c as int;
    48 <= n <= 57 || 65 <= n <= 90 || 97 <= n <= 122
  }

  lemma AlnumExactly(c: char)
    ensures Alnum(c) <==> Basic(c)
  {
  }

  /** Every character outside the alphabet becomes a dash, and nothing else changes. */
  lemma CleanedExactly(s: string)
    ensures |Cleaned(s)| == |s|
    ensures forall i :: 0 <= i < |s| ==> Cleaned(s)[i] == if Basic(s[i]) || s[i] in "-_." then s[i] else '-'
  {
    hide Alnum, Basic;
    forall i | 0 <= i < |s| ensures Alnum(s[i]) <==> Basic(s[i]) { AlnumExactly(s[i]); }
  }

  /** An app without a single letter or digit is called a service. */
  lemma NothingLeft(app: string)
    requires forall i :: 0 <= i < |app| ==> !Basic(app[i])
    ensures Sanitize(app) == "service"
  {
    hide TrimLeft, TrimRight, Alnum;
    TrimmedProper(app);
    CleanedExactly(app);
    TrimmedInside(app);
    var t := Trimmed(app);
    if t != "" {
      var i :| 0 <= i < |app| && Cleaned(app)[i] == t[0];
      AlnumExactly(t[0]);
    }
  }

  lemma TrimmedInside(app: string)
    ensures var t := Trimmed(app); t != "" ==> exists i :: 0 <= i < |app| && Cleaned(app)[i] == t[0]
  {
    hide TrimLeft, TrimRight;
    var c := Cleaned(app);
    var l := TrimLeft(c);
    TrimLeftFacts(c);
    TrimRightFacts(l);
    if Trimmed(app) != "" { assert Trimmed(app)[0] == l[0] == c[|c| - |l|]; }
  }

  /** The second app that comes out with some name is numbered 2, the third 3. */
  lemma NumbersCount(a: string, b: string, c: string)
    requires a != b && a != c && b != c && Sanitize(a) == Sanitize(b) == Sanitize(c) && |Sanitize(a)| <= 59
    ensures var g := Assigned([a, b, c]).names; var n := Sanitize(a);
      g == map[a := n, b := n + "-2", c := n + "-3"]
  {
    hide Sanitize, Decimal;
    var n := Sanitize(a);
    OneDigit();
    assert Candidate(b, 2) == Candidate(c, 2) == n + "-2" && Candidate(c, 3) == n + "-3";
    assert [a, b, c][..2] == [a, b] && [a, b][..1] == [a] && [a][..0] == [];
    assert Assigned([a]) == Given(map[a := n], {n});
    assert Free(b, {n}, 2) == 2;
    assert Assigned([a, b]) == Given(map[a := n, b := n + "-2"], {n, n + "-2"});
    if Candidate(c, 2) == Candidate(c, 3) { CandidatesDiffer(c, 2, 3); }
    assert Free(c, {n, n + "-2"}, 2) == 3;
  }

  lemma OneDigit()
    ensures Decimal(2) == "2" && Decimal(3) == "3"
  {
  }
}
