/**
 * The alerting loop of server/alerts.go joined to the auto-remediation of server/remediate.go. The loop
 * takes its locks step by step: evaluate, then for each transition try a fix and hold or send the alert.
 * Hosts are forgotten by HTTP handlers, and that can happen between any two of these steps.
 */
module AlertLoop {
  import opened Optional
  import opened Sequences
  import opened Alerts
  import opened Remediation

  /** What the hub finds when it looks for a fix: the answers of the stores it asks, and the clock. */
  datatype Remedy = Remedy(scripted: bool, online: bool, script: string, loadable: bool, allowAt: int)

  /** Everything that happens to a condition, in order. */
  datatype Entry =
    | Observed(obs: Observation, now: int)
    | Attempted(key: Key, at: int)
    | Cleared(key: Key)
    | Held(key: Key, at: int, until: int)
    | Dispatched(alert: Alert)
    | Forgot(agent: string)

  /** What is to become of the transition in hand; a hold remembers the attempt it is owed to. */
  datatype Verdict = Undecided | Send | Hold(at: int)

  /** `pending` is what is left of the tick's transitions, the one in hand first. */
  datatype Sys = Sys(
    states: map<Key, AlertState>, attempts: map<string, seq<int>>, pending: seq<Alert>, verdict: Verdict, log: seq<Entry>)

  datatype Event =
    | Evaluate(now: int, views: seq<HostRules>)
    | Remediate(remedy: Remedy)
    | Settle(at: int)
    | Forget(agent: string)

  const EMPTY := Sys(map[], map[], [], Undecided, [])

  function BudgetKey(k: Key): string { k.agent + "|" + k.rule }

  // ---------------------------------------------------------------- the steps

  predicate Enabled(s: Sys, e: Event) {
    match e
    case Evaluate(_, _) => s.pending == []
    case Remediate(_) => s.pending != [] && s.verdict.Undecided?
    case Settle(_) => s.pending != [] && !s.verdict.Undecided?
    case Forget(_) => true
  }

  function Entries(obs: seq<Observation>, now: int): seq<Entry> {
    seq(|obs|, i requires 0 <= i < |obs| => Observed(obs[i], now))
  }

  function Evaluated(s: Sys, obs: seq<Observation>, now: int): Sys {
    s.(states := StatesAfter(s.states, obs, now), pending := Transitions(s.states, obs, now),
       verdict := Undecided, log := s.log + Entries(obs, now))
  }

  /** A fix may be tried: the alert fires, and a script is configured for a host that is there. */
  predicate Fixable(a: Alert, r: Remedy) {
    a.firing && r.scripted && r.online && r.script != ""
  }

  /** A fix is run only if the budget allows it and the script can be read. */
  function Decision(attempts: map<string, seq<int>>, a: Alert, r: Remedy): Verdict {
    if Fixable(a, r) && Allows(attempts, BudgetKey(a.key), r.allowAt) && r.loadable then Hold(r.allowAt) else Send
  }

  function Spent(attempts: map<string, seq<int>>, a: Alert, r: Remedy): map<string, seq<int>> {
    if !a.firing then attempts - {BudgetKey(a.key)}
    else if Fixable(a, r) then AfterAllow(attempts, BudgetKey(a.key), r.allowAt)
    else attempts
  }

  function Noted(attempts: map<string, seq<int>>, a: Alert, r: Remedy): seq<Entry> {
    if !a.firing then [Cleared(a.key)]
    else if Fixable(a, r) && Allows(attempts, BudgetKey(a.key), r.allowAt) then [Attempted(a.key, r.allowAt)]
    else []
  }

  function Remediated(s: Sys, r: Remedy): Sys
    requires s.pending != []
  {
    var a := s.pending[0];
    s.(attempts := Spent(s.attempts, a, r), verdict := Decision(s.attempts, a, r), log := s.log + Noted(s.attempts, a, r))
  }

  function Outcome(a: Alert, v: Verdict, at: int): Entry {
    if v.Hold? then Held(a.key, v.at, at) else Dispatched(a)
  }

  function Settled(s: Sys, at: int): Sys
    requires s.pending != []
  {
    var a := s.pending[0];
    s.(states := if s.verdict.Hold? && a.key in s.states then s.states[a.key := Rewound(s.states[a.key], at)] else s.states,
       pending := s.pending[1..], verdict := Undecided, log := s.log + [Outcome(a, s.verdict, at)])
  }

  function Forgotten(s: Sys, agent: string): Sys {
    s.(states := map k | k in s.states && k.agent != agent :: s.states[k], log := s.log + [Forgot(agent)])
  }

  /** A step that is not enabled does not happen. */
  function Step(s: Sys, e: Event): Sys {
    if !Enabled(s, e) then s
    else
      match e
      case Evaluate(now, views) => Evaluated(s, Observations(views), now)
      case Remediate(r) => Remediated(s, r)
      case Settle(at) => Settled(s, at)
      case Forget(agent) => Forgotten(s, agent)
  }

  function Resume(s: Sys, events: seq<Event>): Sys {
    if events == [] then s else Step(Resume(s, events[..|events| - 1]), events[|events| - 1])
  }

  function Run(events: seq<Event>): Sys { Resume(EMPTY, events) }

  lemma ResumeOneMore(s: Sys, events: seq<Event>, e: Event)
    ensures Resume(s, events + [e]) == Step(Resume(s, events), e)
  {
    assert (events + [e])[..|events|] == events;
  }

  /**
   * The loop takes its transitions one after the other: it does not look again before all are dealt with, asks
   * for a fix of the one in hand once, and neither sends nor holds it before.
   */
  lemma StepsTakeTurns(events: seq<Event>, now: int, views: seq<HostRules>, r: Remedy, at: int)
    ensures var s := Run(events);
            && (s.pending != [] ==> Run(events + [Evaluate(now, views)]) == s)
            && (s.pending == [] || !s.verdict.Undecided? ==> Run(events + [Remediate(r)]) == s)
            && (s.pending == [] || s.verdict.Undecided? ==> Run(events + [Settle(at)]) == s)
  {
    ResumeOneMore(EMPTY, events, Evaluate(now, views));
    ResumeOneMore(EMPTY, events, Remediate(r));
    ResumeOneMore(EMPTY, events, Settle(at));
  }

  lemma {:induction false} ResumeJoins(s: Sys, events: seq<Event>, more: seq<Event>)
    ensures Resume(s, events + more) == Resume(Resume(s, events), more)
  {
    if more == [] {
      assert events + more == events;
    } else {
      var pre, e := more[..|more| - 1], more[|more| - 1];
      ResumeJoins(s, events, pre);
      LastSplit(more);
      Regroup(events, pre, e);
      ResumeOneMore(s, events + pre, e);
      ResumeOneMore(Resume(s, events), pre, e);
    }
  }

  /** Hosts are keyed by agent id and rules by name, so a tick visits a condition at most once. */
  predicate Orderly(events: seq<Event>) {
    forall e :: e in events && e.Evaluate? ==> DistinctKeys(Observations(e.views))
  }

  // ---------------------------------------------------------------- the clock

  /** The loop ticks every ten seconds. */
  const TICK: int := 10 * 1000000000

  predicate Timed(e: Event) { !e.Forget? }

  function Time(e: Event): int
    requires Timed(e)
  {
    match e
    case Evaluate(now, _) => now
    case Remediate(r) => r.allowAt
    case Settle(at) => at
  }

  /** Everything in the run happened no later than t. */
  predicate Before(events: seq<Event>, t: int) {
    forall e :: e in events && Timed(e) ==> Time(e) <= t
  }

  /** The clock never goes back. */
  predicate Timely(events: seq<Event>) {
    events == [] ||
    var pre, e := events[..|events| - 1], events[|events| - 1];
    Timely(pre) && (Timed(e) ==> Before(pre, Time(e)))
  }

  /** Everything in the run happened no earlier than t. */
  predicate After(events: seq<Event>, t: int) {
    forall e :: e in events && Timed(e) ==> Time(e) >= t
  }

  lemma {:induction false} TimelyJoins(events: seq<Event>, more: seq<Event>, t: int)
    requires Timely(events) && Before(events, t) && Timely(more) && After(more, t)
    ensures Timely(events + more)
  {
    if more == [] {
      assert events + more == events;
    } else {
      var pre, e := more[..|more| - 1], more[|more| - 1];
      assert e in more && forall x :: x in pre ==> x in more;
      TimelyJoins(events, pre, t);
      assert (events + more)[..|events + more| - 1] == events + pre;
    }
  }

  // ---------------------------------------------------------------- what a log says about one condition

  /** What one entry does to a condition, by the one-condition step. */
  function Replayed(before: Option<AlertState>, e: Entry, k: Key): Option<AlertState> {
    match e
    case Observed(o, now) =>
      if o.key == k then Some(Next(if before.Some? then before.value else FRESH, o.host, o.rule, now)) else before
    case Held(key, _, until) =>
      if key == k && before.Some? then Some(Rewound(before.value, until)) else before
    case Forgot(agent) => if agent == k.agent then None else before
    case _ => before
  }

  function Replay(log: seq<Entry>, k: Key): Option<AlertState> {
    if log == [] then None else Replayed(Replay(log[..|log| - 1], k), log[|log| - 1], k)
  }

  predicate FiringIn(log: seq<Entry>, k: Key) {
    Replay(log, k).Some? && Replay(log, k).value.firing
  }

  /** The last word sent about a condition was that it fires. */
  predicate Announced(log: seq<Entry>, k: Key) {
    log != [] &&
    var before := Announced(log[..|log| - 1], k);
    match log[|log| - 1]
    case Dispatched(a) => if a.key == k then a.firing else before
    case Forgot(agent) => before && agent != k.agent
    case _ => before
  }

  /** Every alert sent for a condition turns over what was last said about it. */
  predicate Alternates(log: seq<Entry>, k: Key) {
    log == [] ||
    var pre, e := log[..|log| - 1], log[|log| - 1];
    Alternates(pre, k) && (e.Dispatched? && e.alert.key == k ==> e.alert.firing != Announced(pre, k))
  }

  /** The firing flags of the alerts sent for a condition, in order. */
  function Sent(log: seq<Entry>, k: Key): seq<bool> {
    if log == [] then []
    else
      var before := Sent(log[..|log| - 1], k);
      match log[|log| - 1]
      case Dispatched(a) => if a.key == k then before + [a.firing] else before
      case _ => before
  }

  lemma OneMoreEntry(log: seq<Entry>, e: Entry)
    ensures (log + [e])[..|log + [e]| - 1] == log
    ensures forall k :: Replay(log + [e], k) == Replayed(Replay(log, k), e, k)
  {
  }

  /** An entry that is neither an alert for the condition nor a forget of its host is silent about it. */
  predicate Silent(e: Entry, k: Key) {
    (e.Dispatched? ==> e.alert.key != k) && (e.Forgot? ==> e.agent != k.agent)
  }

  /** Two logs that have said the same about a condition. */
  predicate SaysAlike(log: seq<Entry>, was: seq<Entry>, k: Key) {
    Announced(log, k) == Announced(was, k) && Alternates(log, k) == Alternates(was, k) && Sent(log, k) == Sent(was, k)
  }

  lemma Unspoken(log: seq<Entry>, e: Entry, k: Key)
    requires Silent(e, k)
    ensures SaysAlike(log + [e], log, k)
  {
    OneMoreEntry(log, e);
  }

  lemma Spoken(log: seq<Entry>, a: Alert)
    ensures Announced(log + [Dispatched(a)], a.key) == a.firing
    ensures Alternates(log + [Dispatched(a)], a.key) == (Alternates(log, a.key) && a.firing != Announced(log, a.key))
  {
    OneMoreEntry(log, Dispatched(a));
  }

  lemma ForgotEntry(log: seq<Entry>, agent: string, k: Key)
    ensures Announced(log + [Forgot(agent)], k) == (Announced(log, k) && agent != k.agent)
    ensures Alternates(log + [Forgot(agent)], k) == Alternates(log, k)
    ensures Sent(log + [Forgot(agent)], k) == Sent(log, k)
  {
    OneMoreEntry(log, Forgot(agent));
  }

  lemma EntriesOneMore(log: seq<Entry>, obs: seq<Observation>, now: int)
    requires obs != []
    ensures log + Entries(obs, now) == (log + Entries(obs[..|obs| - 1], now)) + [Observed(obs[|obs| - 1], now)]
  {
  }

  lemma NoEntries(log: seq<Entry>, now: int)
    ensures log + Entries([], now) == log
  {
  }

  lemma {:induction false} ObservingIsSilent(log: seq<Entry>, obs: seq<Observation>, now: int, k: Key)
    ensures SaysAlike(log + Entries(obs, now), log, k)
  {
    if obs == [] {
      NoEntries(log, now);
    } else {
      var pre, e := obs[..|obs| - 1], Observed(obs[|obs| - 1], now);
      ObservingIsSilent(log, pre, now, k);
      EntriesOneMore(log, obs, now);
      Unspoken(log + Entries(pre, now), e, k);
    }
  }

  lemma RemediatingIsSilent(log: seq<Entry>, attempts: map<string, seq<int>>, a: Alert, r: Remedy, k: Key)
    ensures SaysAlike(log + Noted(attempts, a, r), log, k)
  {
    Unspoken(log, Cleared(a.key), k);
    Unspoken(log, Attempted(a.key, r.allowAt), k);
    assert log + [] == log;
  }

  // ---------------------------------------------------------------- conditions are independent

  ghost predicate Tracks(s: Sys) {
    forall k :: Lookup(s.states, k) == Replay(s.log, k)
  }

  lemma {:induction false} EvaluationTracks(s: Sys, obs: seq<Observation>, now: int)
    requires Tracks(s)
    ensures Tracks(Evaluated(s, obs, now))
  {
    if obs == [] {
      NoEntries(s.log, now);
    } else {
      var pre := obs[..|obs| - 1];
      EvaluationTracks(s, pre, now);
      EntriesOneMore(s.log, obs, now);
      OneMoreEntry(s.log + Entries(pre, now), Observed(obs[|obs| - 1], now));
    }
  }

  lemma RemediationTracks(s: Sys, r: Remedy)
    requires Tracks(s) && s.pending != []
    ensures Tracks(Remediated(s, r))
  {
    var a := s.pending[0];
    OneMoreEntry(s.log, Cleared(a.key));
    OneMoreEntry(s.log, Attempted(a.key, r.allowAt));
    assert s.log + [] == s.log;
  }

  lemma SettlingTracks(s: Sys, at: int)
    requires Tracks(s) && s.pending != []
    ensures Tracks(Settled(s, at))
  {
    OneMoreEntry(s.log, Outcome(s.pending[0], s.verdict, at));
  }

  lemma ForgettingTracks(s: Sys, agent: string)
    requires Tracks(s)
    ensures Tracks(Forgotten(s, agent))
  {
    OneMoreEntry(s.log, Forgot(agent));
  }

  /**
   * In every run the state of a condition is what its own entries make of it: other hosts and other
   * rules never reach it, and a tick that produces no rule for it leaves it frozen.
   */
  lemma {:induction false} ConditionsAreIndependent(events: seq<Event>)
    ensures Tracks(Run(events))
  {
    if events != [] {
      var s, e := Run(events[..|events| - 1]), events[|events| - 1];
      ConditionsAreIndependent(events[..|events| - 1]);
      if Enabled(s, e) {
        match e {
          case Evaluate(now, views) => EvaluationTracks(s, Observations(views), now);
          case Remediate(r) => RemediationTracks(s, r);
          case Settle(at) => SettlingTracks(s, at);
          case Forget(agent) => ForgettingTracks(s, agent);
        }
      }
    }
  }

  // ---------------------------------------------------------------- transitions on their way

  /** The transition of a condition that was evaluated and is neither sent nor held yet. */
  predicate InFlight(s: Sys, k: Key) {
    exists a :: a in s.pending && a.key == k
  }

  /** It is decided that the transition of this condition will be held. */
  predicate ToBeHeld(s: Sys, k: Key) {
    s.pending != [] && s.pending[0].key == k && s.verdict.Hold?
  }

  predicate OneEach(alerts: seq<Alert>) {
    forall i, j :: 0 <= i < j < |alerts| ==> alerts[i].key != alerts[j].key
  }

  /** In every run a condition has at most one transition under way, and only firing ones are held. */
  predicate Queued(s: Sys) {
    && OneEach(s.pending)
    && (s.verdict.Undecided? || s.pending != [])
    && (s.verdict.Hold? ==> s.pending[0].firing)
  }

  lemma StepKeepsQueue(s: Sys, e: Event)
    requires Queued(s) && Orderly([e])
    ensures Queued(Step(s, e))
  {
    if e.Evaluate? && s.pending == [] {
      assert e in [e];
      TransitionsAreFlips(s.states, Observations(e.views), e.now);
    }
  }

  lemma {:induction false} ResumeKeepsQueue(s: Sys, events: seq<Event>)
    requires Queued(s) && Orderly(events)
    ensures Queued(Resume(s, events))
  {
    if events != [] {
      var pre, e := events[..|events| - 1], events[|events| - 1];
      assert e in events && forall x :: x in pre ==> x in events;
      ResumeKeepsQueue(s, pre);
      StepKeepsQueue(Resume(s, pre), e);
    }
  }
}
