/** The threshold engine of server/alerts.go: rules, sustain clocks, hysteresis and holds. */
module Alerts {
  import opened Optional

  const ALERT_MARGIN: real := 5.0

  datatype Key = Key(agent: string, rule: string)

  /** `trueSince` and `since` are None where the source holds the zero time. */
  datatype AlertState = AlertState(
    firing: bool, trueSince: Option<int>, since: Option<int>, host: string, value: real)

  datatype Rule = Rule(name: string, threshold: real, value: real, active: bool, forDur: int)

  /** One host of a tick with the rules it produced; a silenced host produces none. */
  datatype HostRules = HostRules(agent: string, host: string, rules: seq<Rule>)

  datatype Observation = Observation(key: Key, host: string, rule: Rule)

  datatype Alert = Alert(key: Key, host: string, value: real, since: Option<int>, firing: bool)

  const FRESH := AlertState(false, None, None, "", 0.0)

  // ---------------------------------------------------------------- one condition

  /** The sticky clear: a firing threshold rule stays active inside the margin. */
  predicate Sticky(st: AlertState, r: Rule) {
    r.active || (st.firing && r.threshold > 0.0 && r.value >= r.threshold - ALERT_MARGIN)
  }

  predicate ClearsMargin(r: Rule) {
    !r.active && (r.threshold > 0.0 ==> r.value < r.threshold - ALERT_MARGIN)
  }

  function Next(prev: AlertState, host: string, r: Rule, now: int): AlertState {
    var st := prev.(host := host, value := r.value);
    if !Sticky(prev, r) then
      st.(firing := false, trueSince := None)
    else
      var start := if prev.trueSince.None? then now else prev.trueSince.value;
      if !prev.firing && now - start >= r.forDur then
        st.(trueSince := Some(start), firing := true, since := Some(now))
      else
        st.(trueSince := Some(start))
  }

  function Rewound(st: AlertState, at: int): AlertState {
    st.(firing := false, trueSince := Some(at))
  }

  function StateOf(states: map<Key, AlertState>, k: Key): AlertState {
    if k in states then states[k] else FRESH
  }

  predicate Firing(states: map<Key, AlertState>, k: Key) {
    k in states && states[k].firing
  }

  function MakeAlert(o: Observation, st: AlertState): Alert {
    Alert(o.key, if o.host == "" then o.key.agent else o.host, o.rule.value, st.since, st.firing)
  }

  // ---------------------------------------------------------------- one tick over all hosts

  function HostObservations(v: HostRules, n: nat): seq<Observation>
    requires n <= |v.rules|
  {
    seq(n, i requires 0 <= i < n => Observation(Key(v.agent, v.rules[i].name), v.host, v.rules[i]))
  }

  lemma NextObservation(earlier: seq<Observation>, v: HostRules, j: nat)
    requires j < |v.rules|
    ensures earlier + HostObservations(v, j + 1)
            == earlier + HostObservations(v, j) + [Observation(Key(v.agent, v.rules[j].name), v.host, v.rules[j])]
  {
  }

  /** The order in which a tick visits its (host, rule) pairs. */
  function Observations(views: seq<HostRules>): seq<Observation> {
    if views == [] then []
    else
      var last := views[|views| - 1];
      Observations(views[..|views| - 1]) + HostObservations(last, |last.rules|)
  }

  function StatesAfter(states: map<Key, AlertState>, obs: seq<Observation>, now: int): map<Key, AlertState> {
    if obs == [] then states
    else
      var before := StatesAfter(states, obs[..|obs| - 1], now);
      var o := obs[|obs| - 1];
      before[o.key := Next(StateOf(before, o.key), o.host, o.rule, now)]
  }

  function Transitions(states: map<Key, AlertState>, obs: seq<Observation>, now: int): seq<Alert> {
    if obs == [] then []
    else
      var before := StatesAfter(states, obs[..|obs| - 1], now);
      var o := obs[|obs| - 1];
      var st := Next(StateOf(before, o.key), o.host, o.rule, now);
      Transitions(states, obs[..|obs| - 1], now) +
      (if st.firing != Firing(before, o.key) then [MakeAlert(o, st)] else [])
  }

  lemma OneMore(states: map<Key, AlertState>, obs: seq<Observation>, o: Observation, now: int)
    ensures var before := StatesAfter(states, obs, now);
            var st := Next(StateOf(before, o.key), o.host, o.rule, now);
            && StatesAfter(states, obs + [o], now) == before[o.key := st]
            && Transitions(states, obs + [o], now)
               == Transitions(states, obs, now) + (if st.firing != Firing(before, o.key) then [MakeAlert(o, st)] else [])
  {
    assert (obs + [o])[..|obs|] == obs;
  }

  predicate DistinctKeys(obs: seq<Observation>) {
    forall i, j :: 0 <= i < j < |obs| ==> obs[i].key != obs[j].key
  }

  /** Hosts with their own ids and rules with their own names are visited under their own keys. */
  lemma {:induction false} OwnNamesOwnKeys(views: seq<HostRules>)
    requires forall i, j :: 0 <= i < j < |views| ==> views[i].agent != views[j].agent
    requires forall v :: v in views ==> DistinctNames(v.rules)
    ensures DistinctKeys(Observations(views))
    ensures forall o :: o in Observations(views) ==> exists v :: v in views && v.agent == o.key.agent
  {
    if views != [] {
      var pre, last := views[..|views| - 1], views[|views| - 1];
      assert last in views && forall v :: v in pre ==> v in views && v.agent != last.agent;
      OwnNamesOwnKeys(pre);
      assert forall o :: o in HostObservations(last, |last.rules|) ==> o.key.agent == last.agent;
      assert forall o :: o in Observations(pre) ==> o.key.agent != last.agent;
    }
  }

  predicate Visits(obs: seq<Observation>, k: Key) {
    exists i :: 0 <= i < |obs| && obs[i].key == k
  }

  /** Each visited condition moves by its own step alone, and a condition without a rule stays frozen. */
  lemma {:induction false} TickIsPointwise(states: map<Key, AlertState>, obs: seq<Observation>, now: int)
    requires DistinctKeys(obs)
    ensures forall k :: !Visits(obs, k) ==> Lookup(StatesAfter(states, obs, now), k) == Lookup(states, k)
    ensures forall i :: 0 <= i < |obs| ==>
              Lookup(StatesAfter(states, obs, now), obs[i].key)
              == Some(Next(StateOf(states, obs[i].key), obs[i].host, obs[i].rule, now))
  {
    if obs != [] {
      var pre := obs[..|obs| - 1];
      TickIsPointwise(states, pre, now);
      var o := obs[|obs| - 1];
      assert !Visits(pre, o.key);
      assert Lookup(StatesAfter(states, pre, now), o.key) == Lookup(states, o.key);
      forall k | !Visits(obs, k)
        ensures Lookup(StatesAfter(states, obs, now), k) == Lookup(states, k)
      {
        assert obs[|obs| - 1].key != k;
        assert forall i :: 0 <= i < |pre| ==> pre[i] == obs[i];
        assert !Visits(pre, k);
      }
      forall i | 0 <= i < |obs|
        ensures Lookup(StatesAfter(states, obs, now), obs[i].key)
                == Some(Next(StateOf(states, obs[i].key), obs[i].host, obs[i].rule, now))
      {
        if i < |pre| {
          assert pre[i] == obs[i] && obs[i].key != o.key;
        }
      }
    }
  }

  /** `alerts` lists exactly the conditions whose firing flag differs between the two, once each. */
  ghost predicate AreFlips(was: map<Key, AlertState>, after: map<Key, AlertState>, alerts: seq<Alert>) {
    && (forall a :: a in alerts ==> a.firing == Firing(after, a.key) != Firing(was, a.key))
    && (forall i, j :: 0 <= i < j < |alerts| ==> alerts[i].key != alerts[j].key)
    && (forall k :: Firing(after, k) != Firing(was, k) ==> exists a :: a in alerts && a.key == k)
  }

  lemma OneMoreFlip(was: map<Key, AlertState>, before: map<Key, AlertState>, st: AlertState,
                    early: seq<Alert>, a: Alert)
    requires AreFlips(was, before, early)
    requires Firing(before, a.key) == Firing(was, a.key) && a.firing == st.firing
    ensures AreFlips(was, before[a.key := st], early + if st.firing != Firing(before, a.key) then [a] else [])
  {
    var after := before[a.key := st];
    var alerts := early + if st.firing != Firing(before, a.key) then [a] else [];
    assert forall e :: e in early ==> e.key != a.key;
    forall k | Firing(after, k) != Firing(was, k)
      ensures exists e :: e in alerts && e.key == k
    {
      if k == a.key {
        assert alerts == early + [a] && a in alerts;
      } else {
        var e :| e in early && e.key == k;
        assert e in alerts;
      }
    }
  }

  lemma {:induction false} TransitionsAreFlips(states: map<Key, AlertState>, obs: seq<Observation>, now: int)
    requires DistinctKeys(obs)
    ensures AreFlips(states, StatesAfter(states, obs, now), Transitions(states, obs, now))
  {
    if obs != [] {
      var pre, o := obs[..|obs| - 1], obs[|obs| - 1];
      TransitionsAreFlips(states, pre, now);
      var before := StatesAfter(states, pre, now);
      assert Firing(before, o.key) == Firing(states, o.key) by {
        TickIsPointwise(states, pre, now);
        assert !Visits(pre, o.key);
        assert Lookup(before, o.key) == Lookup(states, o.key);
      }
      var st := Next(StateOf(before, o.key), o.host, o.rule, now);
      OneMoreFlip(states, before, st, Transitions(states, pre, now), MakeAlert(o, st));
    }
  }

  /** What is kept of a condition is what was seen of it last. */
  lemma StatesShowTheLastLook(states: map<Key, AlertState>, obs: seq<Observation>, now: int, i: nat)
    requires DistinctKeys(obs) && i < |obs|
    ensures obs[i].key in StatesAfter(states, obs, now)
    ensures var st := StatesAfter(states, obs, now)[obs[i].key]; st.host == obs[i].host && st.value == obs[i].rule.value
  {
    TickIsPointwise(states, obs, now);
    assert Lookup(StatesAfter(states, obs, now), obs[i].key).Some?;
  }

  /** What an alert says: the host by its name if it has one, the value just seen, and since when it fires or fired. */
  predicate Tells(a: Alert, o: Observation, before: AlertState, now: int) {
    && a.key == o.key && a.value == o.rule.value
    && (if o.host != "" then a.host == o.host else a.host == o.key.agent)
    && (if a.firing then a.since == Some(now) else a.since == before.since)
  }

  /** Every transition of a tick tells what was seen of its condition. */
  lemma {:induction false} TransitionsTell(states: map<Key, AlertState>, obs: seq<Observation>, now: int, a: Alert)
    returns (i: nat)
    requires DistinctKeys(obs) && a in Transitions(states, obs, now)
    ensures i < |obs| && Tells(a, obs[i], StateOf(states, obs[i].key), now)
  {
    var pre, o := obs[..|obs| - 1], obs[|obs| - 1];
    var before := StatesAfter(states, pre, now);
    if a in Transitions(states, pre, now) {
      i := TransitionsTell(states, pre, now, a);
    } else {
      i := |obs| - 1;
      TickIsPointwise(states, pre, now);
      assert !Visits(pre, o.key);
      assert Lookup(before, o.key) == Lookup(states, o.key);
    }
  }

  // ---------------------------------------------------------------- the engine

  class Alerter {
    var states: map<Key, AlertState>

    constructor ()
      ensures states == map[]
    {
      states := map[];
    }

    method Evaluate(views: seq<HostRules>, now: int) returns (transitions: seq<Alert>)
      modifies this
      ensures states == StatesAfter(old(states), Observations(views), now)
      ensures transitions == Transitions(old(states), Observations(views), now)
    {
      transitions := [];
      ghost var start := states;
      for i := 0 to |views|
        invariant states == StatesAfter(start, Observations(views[..i]), now)
        invariant transitions == Transitions(start, Observations(views[..i]), now)
      {
        transitions := EvaluateHost(views[i], now, transitions, start, Observations(views[..i]));
        assert views[..i + 1][..i] == views[..i];
      }
      assert views[..|views|] == views;
    }

    /** The source's inner loop, over the rules of one host. */
    method EvaluateHost(v: HostRules, now: int, before: seq<Alert>,
                        ghost start: map<Key, AlertState>, ghost earlier: seq<Observation>)
      returns (transitions: seq<Alert>)
      requires states == StatesAfter(start, earlier, now) && before == Transitions(start, earlier, now)
      modifies this
      ensures states == StatesAfter(start, earlier + HostObservations(v, |v.rules|), now)
      ensures transitions == Transitions(start, earlier + HostObservations(v, |v.rules|), now)
    {
      transitions := before;
      ghost var done := earlier;
      for j := 0 to |v.rules|
        invariant done == earlier + HostObservations(v, j)
        invariant states == StatesAfter(start, done, now)
        invariant transitions == Transitions(start, done, now)
      {
        ghost var o := Observation(Key(v.agent, v.rules[j].name), v.host, v.rules[j]);
        var changed := Visit(v, v.rules[j], now);
        transitions := transitions + changed;
        OneMore(start, done, o, now);
        NextObservation(earlier, v, j);
        done := done + [o];
      }
    }

    /** The body of the source's inner loop. */
    method Visit(v: HostRules, r: Rule, now: int) returns (changed: seq<Alert>)
      modifies this
      ensures var o := Observation(Key(v.agent, r.name), v.host, r);
              var st := Next(StateOf(old(states), o.key), v.host, r, now);
              && states == old(states)[o.key := st]
              && changed == if st.firing != Firing(old(states), o.key) then [MakeAlert(o, st)] else []
    {
      var key := Key(v.agent, r.name);
      var st := if key in states then states[key] else FRESH;
      st := st.(host := v.host, value := r.value);
      changed := [];
      var active := r.active;
      if st.firing && r.threshold > 0.0 && r.value >= r.threshold - ALERT_MARGIN {
        active := true;
      }
      var shown := if v.host == "" then v.agent else v.host;
      if active {
        if st.trueSince.None? {
          st := st.(trueSince := Some(now));
        }
        if !st.firing && now - st.trueSince.value >= r.forDur {
          st := st.(firing := true, since := Some(now));
          changed := [Alert(key, shown, r.value, st.since, true)];
        }
      } else {
        if st.firing {
          st := st.(firing := false);
          changed := [Alert(key, shown, r.value, st.since, false)];
        }
        st := st.(trueSince := None);
      }
      states := states[key := st];
    }

    method Hold(key: Key, at: int)
      modifies this
      ensures states == if key in old(states) then old(states)[key := Rewound(old(states)[key], at)] else old(states)
    {
      if key in states {
        states := states[key := states[key].(firing := false, trueSince := Some(at))];
      }
    }

    method Forget(agent: string)
      modifies this
      ensures states == map k | k in old(states) && k.agent != agent :: old(states)[k]
    {
      ghost var start := states;
      var pending := states.Keys;
      while pending != {}
        invariant pending <= start.Keys
        invariant states == map k | k in start && (k in pending || k.agent != agent) :: start[k]
        decreases |pending|
      {
        var k :| k in pending;
        pending := pending - {k};
        if k.agent == agent {
          states := states - {k};
        }
      }
    }
  }

  // ---------------------------------------------------------------- the rules of a host

  datatype Config = Config(cpu: real, mem: real, disk: real, sustain: int, offlineAfter: int)

  datatype Thresholds = Thresholds(cpu: real, mem: real, disk: real)

  /** `drives` says of each S.M.A.R.T. drive whether it is healthy. */
  datatype Metrics = Metrics(cpu: real, mem: real, disks: seq<real>, drives: seq<bool>)

  datatype HostView = HostView(agent: string, hostname: string, online: bool, metrics: Option<Metrics>)

  function OrElse(override: real, global: real): real {
    if override > 0.0 then override else global
  }

  function Fullest(disks: seq<real>): real {
    if disks == [] then 0.0
    else
      var before := Fullest(disks[..|disks| - 1]);
      if disks[|disks| - 1] > before then disks[|disks| - 1] else before
  }

  function BadDrives(drives: seq<bool>): nat {
    if drives == [] then 0 else BadDrives(drives[..|drives| - 1]) + if drives[|drives| - 1] then 0 else 1
  }

  function LevelRule(name: string, threshold: real, value: real, sustain: int): seq<Rule> {
    if threshold > 0.0 then [Rule(name, threshold, value, value >= threshold, sustain)] else []
  }

  function DriveRule(m: Metrics): seq<Rule> {
    if m.drives != [] then [Rule("smart", 0.0, BadDrives(m.drives) as real, BadDrives(m.drives) > 0, 0)] else []
  }

  function MetricRules(cfg: Config, pref: Thresholds, m: Metrics): seq<Rule> {
    LevelRule("cpu", OrElse(pref.cpu, cfg.cpu), m.cpu, cfg.sustain) +
    LevelRule("mem", OrElse(pref.mem, cfg.mem), m.mem, cfg.sustain) +
    DriveRule(m) +
    LevelRule("disk", OrElse(pref.disk, cfg.disk), Fullest(m.disks), cfg.sustain)
  }

  /** A watched service nothing has reported on produces no rule. */
  function ServiceRules(watched: seq<string>, running: map<string, bool>): seq<Rule> {
    if watched == [] then []
    else
      var name := watched[|watched| - 1];
      ServiceRules(watched[..|watched| - 1], running) +
      (if name in running then [Rule("service:" + name, 0.0, 0.0, !running[name], 0)] else [])
  }

  function RulesFor(cfg: Config, pref: Thresholds, silenced: bool, v: HostView,
                    watched: seq<string>, running: map<string, bool>): seq<Rule>
  {
    if silenced then []
    else
      [Rule("offline", 0.0, 0.0, !v.online, cfg.offlineAfter)] +
      (if v.online && v.metrics.Some? then MetricRules(cfg, pref, v.metrics.value) else []) +
      ServiceRules(watched, running)
  }

  predicate DistinctNames(rules: seq<Rule>) {
    forall i, j :: 0 <= i < j < |rules| ==> rules[i].name != rules[j].name
  }

  /** Named after one of the watched services. */
  predicate ServiceName(name: string, watched: seq<string>) {
    |name| >= 8 && name[..8] == "service:" && name[8..] in watched
  }

  lemma OneServiceName(w: string, watched: seq<string>)
    ensures ServiceName("service:" + w, watched) <==> w in watched
  {
    assert ("service:" + w)[..8] == "service:" && ("service:" + w)[8..] == w;
  }

  lemma {:induction false} ServiceRuleNames(watched: seq<string>, running: map<string, bool>)
    requires forall i, j :: 0 <= i < j < |watched| ==> watched[i] != watched[j]
    ensures DistinctNames(ServiceRules(watched, running))
    ensures forall r :: r in ServiceRules(watched, running) ==> ServiceName(r.name, watched)
  {
    if watched != [] {
      var pre, last := watched[..|watched| - 1], watched[|watched| - 1];
      ServiceRuleNames(pre, running);
      OneServiceName(last, pre);
      OneServiceName(last, watched);
      assert forall w :: w in pre ==> w in watched;
      if last in running {
        DistinctJoin(ServiceRules(pre, running), [Rule("service:" + last, 0.0, 0.0, !running[last], 0)]);
      }
    }
  }

  predicate OwnNames(rules: seq<Rule>) { forall r :: r in rules ==> r.name in {"offline", "cpu", "mem", "smart", "disk"} }

  lemma DistinctJoin(a: seq<Rule>, b: seq<Rule>)
    requires DistinctNames(a) && DistinctNames(b)
    requires forall r: Rule, q: Rule :: r in a && q in b ==> r.name != q.name
    ensures DistinctNames(a + b)
  {
  }

  predicate AllNamed(rules: seq<Rule>, names: set<string>) { forall r :: r in rules ==> r.name in names }

  lemma NamesJoin(a: seq<Rule>, b: seq<Rule>, some: set<string>, others: set<string>)
    requires DistinctNames(a) && DistinctNames(b) && AllNamed(a, some) && AllNamed(b, others) && some !! others
    ensures DistinctNames(a + b) && AllNamed(a + b, some + others)
  {
    DistinctJoin(a, b);
  }

  lemma MetricNamesDiffer()
    ensures {"cpu"} !! {"mem"} && {"cpu"} + {"mem"} !! {"smart"} && {"cpu"} + {"mem"} + {"smart"} !! {"disk"}
    ensures "offline" !in {"cpu"} + {"mem"} + {"smart"} + {"disk"}
  {
    assert "cpu"[0] != "mem"[0] && "cpu"[0] != "smart"[0] && "cpu"[0] != "disk"[0] && "mem"[0] != "smart"[0];
    assert "mem"[0] != "disk"[0] && "smart"[0] != "disk"[0];
    assert "offline"[0] !in {"cpu"[0], "mem"[0], "smart"[0], "disk"[0]};
  }

  lemma HostRuleNames(cfg: Config, pref: Thresholds, m: Metrics)
    ensures DistinctNames(MetricRules(cfg, pref, m)) && OwnNames(MetricRules(cfg, pref, m))
    ensures forall r :: r in MetricRules(cfg, pref, m) ==> r.name != "offline"
  {
    var cpu := LevelRule("cpu", OrElse(pref.cpu, cfg.cpu), m.cpu, cfg.sustain);
    var mem := LevelRule("mem", OrElse(pref.mem, cfg.mem), m.mem, cfg.sustain);
    var smart := DriveRule(m);
    var disk := LevelRule("disk", OrElse(pref.disk, cfg.disk), Fullest(m.disks), cfg.sustain);
    MetricNamesDiffer();
    NamesJoin(cpu, mem, {"cpu"}, {"mem"});
    NamesJoin(cpu + mem, smart, {"cpu"} + {"mem"}, {"smart"});
    NamesJoin(cpu + mem + smart, disk, {"cpu"} + {"mem"} + {"smart"}, {"disk"});
  }

  /** Watched services that are distinct give every rule of a host its own name. */
  lemma RuleNamesAreDistinct(cfg: Config, pref: Thresholds, silenced: bool, v: HostView,
                             watched: seq<string>, running: map<string, bool>)
    requires forall i, j :: 0 <= i < j < |watched| ==> watched[i] != watched[j]
    ensures DistinctNames(RulesFor(cfg, pref, silenced, v, watched, running))
  {
    var own := if v.online && v.metrics.Some? then MetricRules(cfg, pref, v.metrics.value) else [];
    var offline := [Rule("offline", 0.0, 0.0, !v.online, cfg.offlineAfter)];
    var services := ServiceRules(watched, running);
    if v.online && v.metrics.Some? { HostRuleNames(cfg, pref, v.metrics.value); }
    DistinctJoin(offline, own);
    ServiceRuleNames(watched, running);
    forall r: Rule, q: Rule | r in offline + own && q in services ensures r.name != q.name {
      ServiceNameIsLong(watched, running, q);
    }
    DistinctJoin(offline + own, services);
  }

  lemma ServiceNameIsLong(watched: seq<string>, running: map<string, bool>, q: Rule)
    requires q in ServiceRules(watched, running)
    requires forall i, j :: 0 <= i < j < |watched| ==> watched[i] != watched[j]
    ensures |q.name| >= 8 && q.name !in {"offline", "cpu", "mem", "smart", "disk"}
  {
    ServiceRuleNames(watched, running);
    assert |"offline"| == 7 && |"smart"| == 5 && |"disk"| == 4 && |"cpu"| == |"mem"| == 3;
  }

  // ---------------------------------------------------------------- what the rules say

  /** The rules of this name. */
  function Named(rules: seq<Rule>, name: string): set<Rule> { set r | r in rules && r.name == name }

  lemma LevelNamed(name: string, threshold: real, value: real, sustain: int, other: string)
    ensures Named(LevelRule(name, threshold, value, sustain), other) ==
            if other == name && threshold > 0.0 then {Rule(name, threshold, value, value >= threshold, sustain)} else {}
  {
  }

  lemma NamedJoins(a: seq<Rule>, b: seq<Rule>, name: string)
    ensures Named(a + b, name) == Named(a, name) + Named(b, name)
  {
  }

  lemma {:induction false} FullestIs(disks: seq<real>)
    ensures forall d :: d in disks ==> d <= Fullest(disks)
    ensures Fullest(disks) == 0.0 || Fullest(disks) in disks
    ensures Fullest(disks) >= 0.0
  {
    if disks != [] {
      var pre := disks[..|disks| - 1];
      FullestIs(pre);
      assert forall d :: d in disks <==> d in pre || d == disks[|disks| - 1];
    }
  }

  function Failing(drives: seq<bool>): set<int> { set i | 0 <= i < |drives| && !drives[i] }

  lemma {:induction false} BadDrivesCount(drives: seq<bool>)
    ensures BadDrives(drives) == |Failing(drives)|
    ensures BadDrives(drives) > 0 <==> false in drives
  {
    if drives == [] {
      assert Failing(drives) == {};
    } else {
      var pre, n := drives[..|drives| - 1], |drives| - 1;
      BadDrivesCount(pre);
      assert n !in Failing(pre);
      assert Failing(drives) == if drives[n] then Failing(pre) else Failing(pre) + {n};
      assert forall d :: d in drives <==> d in pre || d == drives[n];
    }
  }

  lemma DrivesNamed(m: Metrics, other: string)
    ensures Named(DriveRule(m), other)
            == if other == "smart" && m.drives != []
               then {Rule("smart", 0.0, BadDrives(m.drives) as real, false in m.drives, 0)} else {}
  {
    BadDrivesCount(m.drives);
  }

  lemma MetricRulesJoin(cfg: Config, pref: Thresholds, m: Metrics, name: string)
    ensures Named(MetricRules(cfg, pref, m), name) ==
            Named(LevelRule("cpu", OrElse(pref.cpu, cfg.cpu), m.cpu, cfg.sustain), name) +
            Named(LevelRule("mem", OrElse(pref.mem, cfg.mem), m.mem, cfg.sustain), name) +
            Named(DriveRule(m), name) +
            Named(LevelRule("disk", OrElse(pref.disk, cfg.disk), Fullest(m.disks), cfg.sustain), name)
  {
    var cpu := LevelRule("cpu", OrElse(pref.cpu, cfg.cpu), m.cpu, cfg.sustain);
    var mem := LevelRule("mem", OrElse(pref.mem, cfg.mem), m.mem, cfg.sustain);
    var disk := LevelRule("disk", OrElse(pref.disk, cfg.disk), Fullest(m.disks), cfg.sustain);
    NamedJoins(cpu + mem + DriveRule(m), disk, name);
    NamedJoins(cpu + mem, DriveRule(m), name);
    NamedJoins(cpu, mem, name);
  }

  /** The rule a level is checked by, if there is a level: the host's own, or else that of all hosts. */
  function LevelCheck(name: string, own: real, all: real, value: real, sustain: int): set<Rule> {
    var t := if own > 0.0 then own else all;
    if t > 0.0 then {Rule(name, t, value, value >= t, sustain)} else {}
  }

  /** What a host that reports metrics is checked for under a name. */
  function MetricCheck(cfg: Config, pref: Thresholds, m: Metrics, name: string): set<Rule> {
    if name == "cpu" then LevelCheck(name, pref.cpu, cfg.cpu, m.cpu, cfg.sustain)
    else if name == "mem" then LevelCheck(name, pref.mem, cfg.mem, m.mem, cfg.sustain)
    else if name == "disk" then LevelCheck(name, pref.disk, cfg.disk, Fullest(m.disks), cfg.sustain)
    else if name == "smart" && m.drives != [] then {Rule(name, 0.0, BadDrives(m.drives) as real, false in m.drives, 0)}
    else {}
  }

  lemma MetricRulesSay(cfg: Config, pref: Thresholds, m: Metrics, name: string)
    ensures Named(MetricRules(cfg, pref, m), name) == MetricCheck(cfg, pref, m, name)
  {
    MetricNamesDiffer();
    MetricRulesJoin(cfg, pref, m, name);
    DrivesNamed(m, name);
    LevelNamed("cpu", OrElse(pref.cpu, cfg.cpu), m.cpu, cfg.sustain, name);
    LevelNamed("mem", OrElse(pref.mem, cfg.mem), m.mem, cfg.sustain, name);
    LevelNamed("disk", OrElse(pref.disk, cfg.disk), Fullest(m.disks), cfg.sustain, name);
  }

  /** A watched service has a rule exactly if it was reported on, which is active while it does not run. */
  lemma {:induction false} ServiceRulesSay(watched: seq<string>, running: map<string, bool>, w: string)
    ensures Named(ServiceRules(watched, running), "service:" + w)
            == if w in watched && w in running then {Rule("service:" + w, 0.0, 0.0, !running[w], 0)} else {}
  {
    if watched != [] {
      var pre, last := watched[..|watched| - 1], watched[|watched| - 1];
      ServiceRulesSay(pre, running, w);
      assert forall x :: x in watched <==> x in pre || x == last;
      var one := if last in running then [Rule("service:" + last, 0.0, 0.0, !running[last], 0)] else [];
      NamedJoins(ServiceRules(pre, running), one, "service:" + w);
      assert ("service:" + w)[8..] == w && ("service:" + last)[8..] == last;
    }
  }

  lemma {:induction false} ServiceRulesAreServices(watched: seq<string>, running: map<string, bool>, name: string)
    requires name in {"offline", "cpu", "mem", "smart", "disk"}
    ensures Named(ServiceRules(watched, running), name) == {}
  {
    if watched != [] {
      ServiceRulesAreServices(watched[..|watched| - 1], running, name);
      assert forall w: string :: |"service:" + w| >= 8;
    }
  }

  /**
   * What a host is checked for: always whether it is there; while it is, its metrics; and its watched services, as
   * ServiceRulesSay says. A silenced host is not checked at all.
   */
  lemma RulesSay(cfg: Config, pref: Thresholds, silenced: bool, v: HostView, watched: seq<string>,
                 running: map<string, bool>, name: string)
    ensures var rules := RulesFor(cfg, pref, silenced, v, watched, running);
            && (rules == [] <==> silenced)
            && (!silenced ==>
                  && Named(rules, "offline") == {Rule("offline", 0.0, 0.0, !v.online, cfg.offlineAfter)}
                  && (name in {"cpu", "mem", "smart", "disk"} ==>
                        Named(rules, name) ==
                        if v.online && v.metrics.Some? then MetricCheck(cfg, pref, v.metrics.value, name) else {})
                  && (|name| >= 8 && name[..8] == "service:" ==>
                        Named(rules, name) == Named(ServiceRules(watched, running), name)))
  {
    if !silenced {
      var offline := [Rule("offline", 0.0, 0.0, !v.online, cfg.offlineAfter)];
      var own := if v.online && v.metrics.Some? then MetricRules(cfg, pref, v.metrics.value) else [];
      var services := ServiceRules(watched, running);
      var rules := RulesFor(cfg, pref, silenced, v, watched, running);
      assert rules == offline + own + services;
      MetricNamesDiffer();
      ServiceRulesAreServices(watched, running, "offline");
      if name in {"cpu", "mem", "smart", "disk"} { ServiceRulesAreServices(watched, running, name); }
      if v.online && v.metrics.Some? {
        HostRuleNames(cfg, pref, v.metrics.value);
        MetricRulesSay(cfg, pref, v.metrics.value, name);
      }
      forall n ensures Named(rules, n) == Named(offline, n) + Named(own, n) + Named(services, n) {
        NamedJoins(offline + own, services, n);
        NamedJoins(offline, own, n);
      }
    }
  }
}
