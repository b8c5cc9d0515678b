/** The notification engine: threshold rules over a ring of buckets, silence rules over
    the last time an application was heard. */
module Notify {
  import opened Common
  import opened Model

  const SLOT: Time := 10_000_000_000
  const MAX_CAPTURED := 50

  datatype Kind = Threshold | Silence

  /** A rule with its defaults applied. `matcher` is the compiled condition, if any. */
  datatype Config = Config(
    kind: Kind,
    app: string,
    threshold: int,
    window: Time,
    cooldown: Time,
    maxFires: Option<int>,
    matcher: Option<Entry -> bool>)

  predicate Built(c: Config) { c.window > 0 && c.cooldown > 0 && c.threshold > 0 }

  /** The defaults of a rule that leaves a number unset. */
  function WithDefaults(c: Config): (d: Config)
    ensures Built(d)
  {
    c.(cooldown := if c.cooldown <= 0 then 300_000_000_000 else c.cooldown,
       window := if c.window > 0 then c.window else if c.kind == Threshold then 60_000_000_000 else 300_000_000_000,
       threshold := if c.threshold <= 0 then 10 else c.threshold)
  }

  /** How many slots it takes to cover the window. */
  function BucketCount(c: Config): (n: nat)
    requires Built(c)
    ensures n >= 1 && n * SLOT >= c.window && n * SLOT < c.window + SLOT
  {
    (c.window + SLOT - 1) / SLOT
  }

  function Allowed(c: Config): (a: int)
    ensures a == -1 || a >= 1
  {
    if c.maxFires.None? then -1 else if c.maxFires.value <= 0 then 1 else c.maxFires.value
  }

  predicate Matches(c: Config, e: Entry) {
    if c.matcher.Some? then c.matcher.value(e)
    else e.lvl >= ERROR && (c.app == "" || c.app == e.app)
  }

  // ---- the state of one rule ----

  datatype Captured = Captured(e: Entry, at: Time)

  datatype Event = Event(ts: Time, count: nat, entries: seq<Entry>)

  datatype RuleState = RuleState(
    buckets: seq<nat>,
    cur: nat,
    entries: seq<Captured>,
    fires: nat,
    disabled: bool,
    lastFired: Option<Time>,
    silenced: bool)

  predicate RingOk(c: Config, r: RuleState) {
    c.kind == Threshold ==> r.cur < |r.buckets|
  }

  function Initial(c: Config): (r: RuleState)
    requires Built(c)
    ensures RingOk(c, r)
  {
    RuleState(if c.kind == Threshold then seq(BucketCount(c), _ => 0) else [], 0, [], 0, false, None, false)
  }

  /** One entry arrives at `now`. */
  function Observed(c: Config, r: RuleState, e: Entry, now: Time): (r': RuleState)
    requires RingOk(c, r)
    ensures RingOk(c, r')
  {
    if c.kind != Threshold || r.disabled || !Matches(c, e) then r
    else
      r.(buckets := r.buckets[r.cur := r.buckets[r.cur] + 1],
         entries := (if |r.entries| == MAX_CAPTURED then r.entries[1..] else r.entries) + [Captured(e, now)])
  }

  /** Without the leading entries older than `cut`. */
  function Pruned(entries: seq<Captured>, cut: Time): seq<Captured> {
    if entries == [] || entries[0].at >= cut then entries else Pruned(entries[1..], cut)
  }

  function Sum(s: seq<nat>): nat { if s == [] then 0 else Sum(s[..|s| - 1]) + s[|s| - 1] }

  function Entries(cs: seq<Captured>): seq<Entry> {
    seq(|cs|, i requires 0 <= i < |cs| => cs[i].e)
  }

  predicate Rested(c: Config, r: RuleState, now: Time) {
    r.lastFired.None? || now - r.lastFired.value >= c.cooldown
  }

  /** The fire is counted, and may be the last. */
  function Fired(c: Config, r: RuleState, now: Time): RuleState {
    r.(lastFired := Some(now), fires := r.fires + 1,
       disabled := r.disabled || (Allowed(c) >= 0 && r.fires + 1 >= Allowed(c)))
  }

  /** The next slot becomes the current one, empty. */
  function Advanced(r: RuleState): (r': RuleState)
    requires r.cur < |r.buckets|
    ensures r'.cur < |r'.buckets|
  {
    var next := (r.cur + 1) % |r.buckets|;
    r.(cur := next, buckets := r.buckets[next := 0])
  }

  function TickThreshold(c: Config, r: RuleState, now: Time): (o: (RuleState, Option<Event>))
    requires RingOk(c, r) && c.kind == Threshold
    ensures RingOk(c, o.0)
  {
    var p := r.(entries := Pruned(r.entries, now - c.window));
    var sum := Sum(r.buckets);
    if sum >= c.threshold && Rested(c, r, now) then
      var f := Fired(c, p, now).(entries := [], buckets := seq(|r.buckets|, _ => 0));
      (Advanced(f), Some(Event(now, sum, Entries(p.entries))))
    else (Advanced(p), None)
  }

  /** `last` is when the application was last heard. */
  function TickSilence(c: Config, r: RuleState, now: Time, last: Option<Time>): (RuleState, Option<Event>) {
    if last.None? || now - last.value < c.window then (r.(silenced := false), None)
    else if !r.silenced && Rested(c, r, now) then
      (Fired(c, r, now).(silenced := true), Some(Event(now, 0, [])))
    else (r, None)
  }

  function Ticked(c: Config, r: RuleState, now: Time, last: Option<Time>): (o: (RuleState, Option<Event>))
    requires RingOk(c, r)
    ensures RingOk(c, o.0)
  {
    if r.disabled then (r, None)
    else if c.kind == Threshold then TickThreshold(c, r, now)
    else TickSilence(c, r, now, last)
  }

  // ---- the program: one rule ----

  class Rule {
    const c: Config
    var buckets: array<nat>
    var cur: nat
    var entries: seq<Captured>
    var fires: nat
    var disabled: bool
    var lastFired: Option<Time>
    var silenced: bool

    ghost predicate Valid()
      reads this, buckets
    {
      Built(c) && RingOk(c, Abstract())
    }

    ghost function Abstract(): RuleState
      reads this, buckets
    {
      RuleState(buckets[..], cur, entries, fires, disabled, lastFired, silenced)
    }

    lemma Ring()
      requires Valid()
      ensures RingOk(c, Abstract())
    {
    }

    constructor (rc: Config)
      ensures Valid() && fresh(buckets) && c == WithDefaults(rc) && Abstract() == Initial(c)
    {
      var d := WithDefaults(rc);
      c := d;
      buckets := new nat[if d.kind == Threshold then BucketCount(d) else 0](_ => 0);
      cur, entries, fires, disabled, lastFired, silenced := 0, [], 0, false, None, false;
    }

    method Observe(e: Entry, now: Time)
      requires Valid()
      modifies this, buckets
      ensures Valid() && buckets == old(buckets)
      ensures Abstract() == Observed(c, old(Abstract()), e, now)
    {
      if c.kind != Threshold || disabled { return; }
      if Matches(c, e) {
        buckets[cur] := buckets[cur] + 1;
        if |entries| == MAX_CAPTURED {
          entries := entries[1..];
        }
        entries := entries + [Captured(e, now)];
      }
    }

    method Total() returns (sum: nat)
      requires Valid()
      ensures sum == Sum(buckets[..])
    {
      sum := 0;
      for j := 0 to buckets.Length
        invariant sum == Sum(buckets[..j])
      {
        assert buckets[..j + 1][..j] == buckets[..j];
        sum := sum + buckets[j];
      }
      assert buckets[..buckets.Length] == buckets[..];
    }

    method Prune(cut: Time)
      requires Valid()
      modifies this`entries
      ensures Valid() && entries == Pruned(old(entries), cut)
    {
      while |entries| > 0 && entries[0].at < cut
        invariant Pruned(entries, cut) == Pruned(old(entries), cut)
        decreases |entries|
      {
        entries := entries[1..];
      }
    }

    method CountFire(now: Time)
      requires Valid()
      modifies this`lastFired, this`fires, this`disabled
      ensures Valid() && Abstract() == Fired(c, old(Abstract()), now)
    {
      lastFired := Some(now);
      fires := fires + 1;
      var allowed := Allowed(c);
      if allowed >= 0 && fires >= allowed { disabled := true; }
    }

    method ClearBuckets()
      requires Valid()
      modifies buckets
      ensures Valid() && buckets[..] == seq(buckets.Length, _ => 0)
    {
      for j := 0 to buckets.Length
        invariant forall k :: 0 <= k < j ==> buckets[k] == 0
      {
        buckets[j] := 0;
      }
    }

    method TickThresholdRule(now: Time) returns (fire: Option<Event>)
      requires Valid() && c.kind == Threshold
      modifies this, buckets
      ensures Valid() && buckets == old(buckets)
      ensures (Abstract(), fire) == TickThreshold(c, old(Abstract()), now)
    {
      hide Sum, Pruned, Fired;
      Prune(now - c.window);
      var sum := Total();
      fire := None;
      if sum >= c.threshold && (lastFired.None? || now - lastFired.value >= c.cooldown) {
        fire := Some(Event(now, sum, Entries(entries)));
        CountFire(now);
        entries := [];
        ClearBuckets();
      }
      ghost var r := Abstract();
      cur := (cur + 1) % buckets.Length;
      buckets[cur] := 0;
      assert Abstract() == Advanced(r);
    }

    method Tick(now: Time, last: Option<Time>) returns (fire: Option<Event>)
      requires Valid()
      modifies this, buckets
      ensures Valid() && buckets == old(buckets)
      ensures (Abstract(), fire) == Ticked(c, old(Abstract()), now, last)
    {
      hide TickThreshold;
      fire := None;
      if disabled { return; }
      if c.kind == Threshold {
        fire := TickThresholdRule(now);
      } else {
        if last.None? || now - last.value < c.window {
          silenced := false;
          return;
        }
        if !silenced && (lastFired.None? || now - lastFired.value >= c.cooldown) {
          fire := Some(Event(now, 0, []));
          silenced := true;
          CountFire(now);
        }
      }
    }
  }

  // ---- the program: the engine ----

  class Engine {
    const rules: seq<Rule>
    var lastSeen: map<string, Time>

    ghost predicate Valid()
      reads this, rules, set r | r in rules :: r.buckets
    {
      && (forall i :: 0 <= i < |rules| ==> rules[i].Valid())
      && (forall i, j :: 0 <= i < j < |rules| ==> rules[i] != rules[j] && rules[i].buckets != rules[j].buckets)
    }

    constructor (rules: seq<Rule>)
      requires forall i :: 0 <= i < |rules| ==> rules[i].Valid()
      requires forall i, j :: 0 <= i < j < |rules| ==> rules[i] != rules[j] && rules[i].buckets != rules[j].buckets
      ensures Valid() && this.rules == rules && lastSeen == map[]
    {
      this.rules := rules;
      lastSeen := map[];
    }

    /** Every rule observes the entry; no rule affects another. */
    method Append(e: Entry, now: Time)
      requires Valid()
      modifies this`lastSeen, rules, set r | r in rules :: r.buckets
      ensures Valid() && lastSeen == old(lastSeen)[e.app := now]
      ensures forall i :: 0 <= i < |rules| ==>
        rules[i].Abstract() == Observed(rules[i].c, old(rules[i].Abstract()), e, now)
    {
      hide Observed, RingOk, Built, Rule.Valid, Rule.Abstract;
      forall k | 0 <= k < |rules| ensures RingOk(rules[k].c, rules[k].Abstract()) { rules[k].Ring(); }
      lastSeen := lastSeen[e.app := now];
      for i := 0 to |rules|
        invariant Valid() && lastSeen == old(lastSeen)[e.app := now]
        invariant forall r :: r in rules ==> r.buckets == old(r.buckets)
        invariant forall k :: 0 <= k < i ==>
          rules[k].Abstract() == Observed(rules[k].c, old(rules[k].Abstract()), e, now)
        invariant forall k :: i <= k < |rules| ==> rules[k].Abstract() == old(rules[k].Abstract())
      {
        label before:
        rules[i].Observe(e, now);
        forall k | 0 <= k < |rules| && k != i
          ensures rules[k].Valid() && rules[k].Abstract() == old@before(rules[k].Abstract())
        {
          assert rules[k] != rules[i] && rules[k].buckets != rules[i].buckets;
        }
      }
    }

    /** Every rule takes its tick; the fires come in rule order. */
    method Tick(now: Time) returns (fires: seq<Option<Event>>)
      requires Valid()
      modifies rules, set r | r in rules :: r.buckets
      ensures Valid() && |fires| == |rules|
      ensures forall i :: 0 <= i < |rules| ==>
        (rules[i].Abstract(), fires[i])
        == Ticked(rules[i].c, old(rules[i].Abstract()), now, LastSeen(lastSeen, rules[i].c.app))
    {
      hide Ticked, RingOk, Built, Rule.Valid, Rule.Abstract;
      forall k | 0 <= k < |rules| ensures RingOk(rules[k].c, rules[k].Abstract()) { rules[k].Ring(); }
      fires := [];
      for i := 0 to |rules|
        invariant Valid() && |fires| == i
        invariant forall r :: r in rules ==> r.buckets == old(r.buckets)
        invariant forall k :: 0 <= k < i ==>
          (rules[k].Abstract(), fires[k])
          == Ticked(rules[k].c, old(rules[k].Abstract()), now, LastSeen(lastSeen, rules[k].c.app))
        invariant forall k :: i <= k < |rules| ==> rules[k].Abstract() == old(rules[k].Abstract())
      {
        var f := rules[i].Tick(now, LastSeen(lastSeen, rules[i].c.app));
        fires := fires + [f];
      }
    }
  }

  function LastSeen(lastSeen: map<string, Time>, app: string): Option<Time> {
    if app in lastSeen then Some(lastSeen[app]) else None
  }
}
