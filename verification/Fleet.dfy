/** Ticks as the hub makes them: resolved settings and watch lists turned into the rules of each host. */
module Fleet {
  import opened Alerts
  import opened AlertLoop
  import opened Escalation
  import opened Persistence
  import Prefs = HostPrefs

  /** One host of a tick: its view, its resolved settings, what is to be watched on it and what is known of that. */
  datatype Polled = Polled(view: HostView, pref: Prefs.HostPref, wanted: seq<string>, running: map<string, bool>)

  function Watched(h: Polled, lower: string -> string): seq<string> { Prefs.FirstSpellings(h.wanted, lower) }

  function RulesOf(cfg: Config, h: Polled, now: int, lower: string -> string): HostRules {
    HostRules(h.view.agent, h.view.hostname,
              RulesFor(cfg, Thresholds(h.pref.cpu, h.pref.mem, h.pref.disk), Prefs.Silenced(h.pref, now), h.view,
                       Watched(h, lower), h.running))
  }

  function ViewsOf(cfg: Config, hosts: seq<Polled>, now: int, lower: string -> string): seq<HostRules> {
    seq(|hosts|, i requires 0 <= i < |hosts| => RulesOf(cfg, hosts[i], now, lower))
  }

  /** A host is checked for something unless it is muted or its window of silence is not over. */
  lemma SilenceIsExact(cfg: Config, h: Polled, now: int, lower: string -> string)
    ensures RulesOf(cfg, h, now, lower).rules == []
            <==> h.pref.mute || match h.pref.until case None => false case Some(until) => now < until
  {
    RulesSay(cfg, Thresholds(h.pref.cpu, h.pref.mem, h.pref.disk), Prefs.Silenced(h.pref, now), h.view,
             Watched(h, lower), h.running, "");
  }

  /** The registry keys its hosts by agent id. */
  predicate OwnIds(hosts: seq<Polled>) {
    forall i, j :: 0 <= i < j < |hosts| ==> hosts[i].view.agent != hosts[j].view.agent
  }

  /** The tick evaluates hosts of the registry by their resolved settings. */
  ghost predicate IsPoll(e: Event, cfg: Config, lower: string -> string) {
    e.Evaluate? ==> exists hosts :: OwnIds(hosts) && e.views == ViewsOf(cfg, hosts, e.now, lower)
  }

  lemma PollVisitsOnce(cfg: Config, hosts: seq<Polled>, now: int, lower: string -> string)
    requires OwnIds(hosts)
    ensures DistinctKeys(Observations(ViewsOf(cfg, hosts, now, lower)))
  {
    var views := ViewsOf(cfg, hosts, now, lower);
    forall v | v in views ensures DistinctNames(v.rules) {
      var i :| 0 <= i < |hosts| && views[i] == v;
      var h := hosts[i];
      Prefs.WatchedRulesAreDistinct(cfg, Thresholds(h.pref.cpu, h.pref.mem, h.pref.disk), Prefs.Silenced(h.pref, now),
                                    h.view, h.wanted, lower, h.running);
    }
    OwnNamesOwnKeys(views);
  }

  /** Ticks made from the registry and resolved settings visit a condition at most once. */
  lemma PollsAreOrderly(events: seq<Event>, cfg: Config, lower: string -> string)
    requires forall e :: e in events ==> IsPoll(e, cfg, lower)
    ensures Orderly(events)
  {
    forall e | e in events && e.Evaluate? ensures DistinctKeys(Observations(e.views)) {
      assert IsPoll(e, cfg, lower);
      var hosts :| OwnIds(hosts) && e.views == ViewsOf(cfg, hosts, e.now, lower);
      PollVisitsOnce(cfg, hosts, e.now, lower);
    }
  }

  /** No rule name of the tick holds a bar; only a watched service could bring one in. */
  predicate NoBars(e: Event) {
    e.Evaluate? ==> forall o :: o in Observations(e.views) ==> '|' !in o.key.rule
  }

  lemma {:induction false} ServiceRulesWithoutBars(watched: seq<string>, running: map<string, bool>)
    requires forall w :: w in watched ==> '|' !in w
    ensures forall r :: r in ServiceRules(watched, running) ==> '|' !in r.name
  {
    if watched != [] {
      var pre, last := watched[..|watched| - 1], watched[|watched| - 1];
      assert last in watched && forall w :: w in pre ==> w in watched;
      ServiceRulesWithoutBars(pre, running);
      assert forall c :: c in "service:" + last ==> c in "service:" || c in last;
    }
  }

  lemma HostRulesWithoutBars(cfg: Config, h: Polled, now: int, lower: string -> string)
    requires forall w :: w in Watched(h, lower) ==> '|' !in w
    ensures forall r :: r in RulesOf(cfg, h, now, lower).rules ==> '|' !in r.name
  {
    var pref, services := Thresholds(h.pref.cpu, h.pref.mem, h.pref.disk), ServiceRules(Watched(h, lower), h.running);
    ServiceRulesWithoutBars(Watched(h, lower), h.running);
    if h.view.metrics.Some? { HostRuleNames(cfg, pref, h.view.metrics.value); }
    forall r | r in RulesOf(cfg, h, now, lower).rules ensures '|' !in r.name {
      if r !in services { BuiltInHasNoBar(r.name); }
    }
  }

  lemma BuiltInHasNoBar(name: string)
    requires name in {"offline", "cpu", "mem", "smart", "disk"}
    ensures '|' !in name
  {
  }

  lemma {:induction false} RuleOfObservation(views: seq<HostRules>, o: Observation) returns (v: HostRules)
    requires o in Observations(views)
    ensures v in views && o.rule in v.rules && o.key == Key(v.agent, o.rule.name)
  {
    var pre, last := views[..|views| - 1], views[|views| - 1];
    if o in Observations(pre) {
      v := RuleOfObservation(pre, o);
    } else {
      v := last;
    }
  }

  lemma PollHasNoBars(cfg: Config, hosts: seq<Polled>, now: int, lower: string -> string)
    requires forall h :: h in hosts ==> forall w :: w in Watched(h, lower) ==> '|' !in w
    ensures NoBars(Evaluate(now, ViewsOf(cfg, hosts, now, lower)))
  {
    var views := ViewsOf(cfg, hosts, now, lower);
    forall o | o in Observations(views) ensures '|' !in o.key.rule {
      var v := RuleOfObservation(views, o);
      var i :| 0 <= i < |hosts| && views[i] == v;
      HostRulesWithoutBars(cfg, hosts[i], now, lower);
    }
  }

  /** As long as no watched service has a bar in its name every condition has a budget of its own. */
  lemma WithoutBarsBudgetsAreOwn(events: seq<Event>, k: Key)
    requires forall e :: e in events ==> NoBars(e)
    requires '|' !in k.rule
    ensures OwnBudget(events, k)
  {
    forall e, o | e in events && e.Evaluate? && o in Observations(e.views) ensures !Share(o.key, k) {
      assert NoBars(e);
      if Share(o.key, k) { CollisionsNeedTwoBars(o.key, k); }
    }
  }
}
