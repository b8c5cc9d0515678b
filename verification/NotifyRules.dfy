/** From a rule as configured to a rule that runs: validation, defaults, compilation. */
module NotifyRules {
  import opened Common
  import opened Model
  import opened Notify
  import Match

  /** A rule as the configuration or the API gives it. */
  datatype Spec = Spec(
    name: string,
    kind: string,
    app: string,
    threshold: int,
    window: Time,
    cooldown: Time,
    maxFires: Option<int>,
    condition: Option<Match.Node>,
    channels: seq<string>)

  const THRESHOLD := "error_threshold"
  const SILENCE := "silence"

  datatype Fault = NoName | UnknownType | BadCondition | NoApp | ConditionOnSilence | UnknownChannel(name: string)

  /** What is wrong with a rule, in the order it is checked; None when it is accepted. */
  ghost predicate IsFault(lib: Match.Lib, known: set<string>, s: Spec, f: Option<Fault>) {
    if s.name == "" then f == Some(NoName)
    else if s.kind != "error_threshold" && s.kind != "silence" then f == Some(UnknownType)
    else if s.kind == "error_threshold" && s.condition.Some? && !Match.WellFormed(lib, s.condition.value) then
      f == Some(BadCondition)
    else if s.kind == "silence" && s.app == "" then f == Some(NoApp)
    else if s.kind == "silence" && s.condition.Some? then f == Some(ConditionOnSilence)
    else if exists i :: UnknownAt(known, s.channels, i) then
      exists i :: UnknownAt(known, s.channels, i) && f == Some(UnknownChannel(s.channels[i]))
    else f == None
  }

  /** The first channel that is not configured is at `i`. */
  ghost predicate UnknownAt(known: set<string>, channels: seq<string>, i: int) {
    0 <= i < |channels| && channels[i] !in known && forall j :: 0 <= j < i ==> channels[j] in known
  }

  /** Which entries a threshold rule is about. */
  ghost predicate Concerns(lib: Match.Lib, s: Spec, e: Entry) {
    if s.condition.Some? then Match.Holds(lib, s.condition.value, e)
    else e.lvl >= 4 && (s.app == "" || s.app == e.app)
  }

  function Configured(s: Spec, matcher: Option<Entry -> bool>): Config {
    var kind := if s.kind == THRESHOLD then Threshold else Silence;
    Config(kind, s.app, s.threshold, s.window, s.cooldown, s.maxFires, matcher)
  }

  /** What a rule runs with: the numbers it sets to something positive, and for the others ten
      errors, a window of one minute, or five for silence, and a cooldown of five minutes. */
  predicate Configures(s: Spec, c: Config) {
    && c.app == s.app && c.maxFires == s.maxFires
    && c.kind == (if s.kind == "error_threshold" then Threshold else Silence)
    && c.threshold == (if s.threshold > 0 then s.threshold else 10)
    && c.cooldown == (if s.cooldown > 0 then s.cooldown else 5 * MINUTE)
    && c.window == (if s.window > 0 then s.window else if s.kind == "error_threshold" then MINUTE else 5 * MINUTE)
  }

  const MINUTE: Time := 60_000_000_000

  method CheckChannels(known: set<string>, channels: seq<string>) returns (f: Option<Fault>)
    ensures f.None? <==> forall i :: !UnknownAt(known, channels, i)
    ensures f.Some? ==> exists i :: UnknownAt(known, channels, i) && f == Some(UnknownChannel(channels[i]))
  {
    for i := 0 to |channels|
      invariant forall j :: 0 <= j < i ==> channels[j] in known
    {
      if channels[i] !in known {
        assert UnknownAt(known, channels, i);
        return Some(UnknownChannel(channels[i]));
      }
    }
    return None;
  }

  /** Accepts exactly the rules without a fault. An accepted rule has the defaults applied,
      an empty ring of the right size, and matches exactly the entries it is about. */
  method BuildRule(lib: Match.Lib, known: set<string>, s: Spec) returns (rule: Rule?, fault: Option<Fault>)
    ensures IsFault(lib, known, s, fault) && (rule == null <==> fault.Some?)
    ensures rule != null ==>
      && fresh(rule) && rule.Valid() && rule.Abstract() == Initial(rule.c)
      && Configures(s, rule.c)
      && (s.kind == "error_threshold" ==> forall e :: Matches(rule.c, e) <==> Concerns(lib, s, e))
  {
    hide Match.WellFormed, Match.Holds;
    if s.name == "" { return null, Some(NoName); }
    var matcher: Option<Entry -> bool> := None;
    if s.kind == THRESHOLD {
      if s.condition.Some? {
        matcher := Match.CompileMatch(lib, s.condition.value);
        if matcher.None? { return null, Some(BadCondition); }
      }
    } else if s.kind == SILENCE {
      if s.app == "" { return null, Some(NoApp); }
      if s.condition.Some? { return null, Some(ConditionOnSilence); }
    } else {
      return null, Some(UnknownType);
    }
    fault := CheckChannels(known, s.channels);
    if fault.Some? { return null, fault; }
    rule := new Rule(Configured(s, matcher));
  }
}
