/** How long the loop of server/alerts.go keeps trying: the attempt budget of server/remediate.go over whole runs. */
module Escalation {
  import opened Optional
  import opened Alerts
  import opened Remediation
  import opened AlertLoop
  import opened Alternation

  // ---------------------------------------------------------------- whose budget it is

  /** The agent id of k is that of j and a piece of j's rule. */
  predicate Swallows(j: Key, k: Key) {
    && |j.agent| < |k.agent| && j.agent + "|" <= k.agent
    && j.rule == k.agent[|j.agent| + 1..] + "|" + k.rule
  }

  lemma SwallowedKeysAgree(j: Key, k: Key)
    requires Swallows(j, k)
    ensures BudgetKey(j) == BudgetKey(k)
  {
    var x := k.agent[|j.agent| + 1..];
    assert k.agent == j.agent + "|" + x;
    assert j.agent + "|" + (x + "|" + k.rule) == (j.agent + "|" + x) + "|" + k.rule;
  }

  lemma LongerAgentSwallows(j: Key, k: Key)
    requires BudgetKey(j) == BudgetKey(k) && |j.agent| < |k.agent|
    ensures Swallows(j, k)
  {
    var b, n, m := BudgetKey(k), |j.agent|, |k.agent|;
    assert b[..n] == j.agent && b[..m] == k.agent && b[n] == '|' && b[n + 1..] == j.rule;
    assert k.agent[..n] == b[..n] && k.agent[n] == b[n];
    assert k.agent[..n + 1] == j.agent + "|";
    assert b[n + 1..] == b[n + 1..m] + b[m..] && b[m..] == "|" + k.rule && b[n + 1..m] == k.agent[n + 1..];
  }

  /** Two conditions share a budget if and only if one's agent id swallows the front of the other's rule name. */
  lemma BudgetKeysCollideExactly(j: Key, k: Key)
    ensures j != k && BudgetKey(j) == BudgetKey(k) <==> Swallows(j, k) || Swallows(k, j)
  {
    if Swallows(j, k) { SwallowedKeysAgree(j, k); }
    if Swallows(k, j) { SwallowedKeysAgree(k, j); }
    BudgetKeyParts(j);
    BudgetKeyParts(k);
    if BudgetKey(j) == BudgetKey(k) {
      if |j.agent| < |k.agent| { LongerAgentSwallows(j, k); }
      if |k.agent| < |j.agent| { LongerAgentSwallows(k, j); }
    }
  }

  lemma BudgetKeyParts(k: Key)
    ensures BudgetKey(k)[..|k.agent|] == k.agent && BudgetKey(k)[|k.agent| + 1..] == k.rule
  {
  }

  /** So it takes a bar in an agent id and one in a rule name, which only a watched service can bring in. */
  lemma CollisionsNeedTwoBars(j: Key, k: Key)
    requires j != k && BudgetKey(j) == BudgetKey(k)
    ensures ('|' in j.agent && '|' in k.rule) || ('|' in k.agent && '|' in j.rule)
  {
    BudgetKeysCollideExactly(j, k);
    if Swallows(j, k) {
      assert k.agent[|j.agent|] == (j.agent + "|")[|j.agent|];
      assert j.rule[|k.agent| - |j.agent| - 1] == '|';
    } else {
      assert j.agent[|k.agent|] == (k.agent + "|")[|k.agent|];
      assert k.rule[|j.agent| - |k.agent| - 1] == '|';
    }
  }

  /** A service on one host, and the processor of another. */
  lemma BudgetKeysDoCollide()
    ensures var j, k := Key("box", "service:web|cpu"), Key("box|service:web", "cpu");
            j != k && BudgetKey(j) == BudgetKey(k)
  {
    var j, k := Key("box", "service:web|cpu"), Key("box|service:web", "cpu");
    assert |j.agent| != |k.agent|;
    assert BudgetKey(j) == "box|service:web|cpu" == BudgetKey(k);
  }

  // ---------------------------------------------------------------- attempts and holds

  /** When attempts were allowed under a budget key, since it was last cleared. */
  function AttemptTimes(log: seq<Entry>, b: string): seq<int> {
    if log == [] then []
    else
      var before := AttemptTimes(log[..|log| - 1], b);
      match log[|log| - 1]
      case Attempted(key, at) => if BudgetKey(key) == b then before + [at] else before
      case Cleared(key) => if BudgetKey(key) == b then [] else before
      case _ => before
  }

  /** When alerts were held back for an attempt under a budget key, since it was last cleared. */
  function HoldTimes(log: seq<Entry>, b: string): seq<int> {
    if log == [] then []
    else
      var before := HoldTimes(log[..|log| - 1], b);
      match log[|log| - 1]
      case Held(key, at, _) => if BudgetKey(key) == b then before + [at] else before
      case Cleared(key) => if BudgetKey(key) == b then [] else before
      case _ => before
  }

  lemma TimesEntry(log: seq<Entry>, e: Entry, b: string)
    ensures AttemptTimes(log + [e], b) ==
            if e.Attempted? && BudgetKey(e.key) == b then AttemptTimes(log, b) + [e.at]
            else if e.Cleared? && BudgetKey(e.key) == b then [] else AttemptTimes(log, b)
    ensures HoldTimes(log + [e], b) ==
            if e.Held? && BudgetKey(e.key) == b then HoldTimes(log, b) + [e.at]
            else if e.Cleared? && BudgetKey(e.key) == b then [] else HoldTimes(log, b)
  {
    OneMoreEntry(log, e);
  }

  lemma {:induction false} ObservingKeepsTimes(log: seq<Entry>, obs: seq<Observation>, now: int, b: string)
    ensures AttemptTimes(log + Entries(obs, now), b) == AttemptTimes(log, b)
    ensures HoldTimes(log + Entries(obs, now), b) == HoldTimes(log, b)
  {
    if obs == [] {
      NoEntries(log, now);
    } else {
      var pre := obs[..|obs| - 1];
      ObservingKeepsTimes(log, pre, now, b);
      EntriesOneMore(log, obs, now);
      TimesEntry(log + Entries(pre, now), Observed(obs[|obs| - 1], now), b);
    }
  }

  /** The stored budget answers like the history of the attempts allowed under its key. */
  predicate BudgetSound(budget: seq<int>, history: seq<int>, clock: int) {
    && Ascending(history) && WithinBudget(history)
    && TailOf(budget, history, clock)
    && (history != [] ==> history[|history| - 1] <= clock)
  }

  /** The first is what is left of the second when some of it is left out. */
  predicate Among(some: seq<int>, all: seq<int>) {
    some == [] ||
    (all != [] &&
     var n, m := |some| - 1, |all| - 1;
     Among(some, all[..m]) || (some[n] == all[m] && Among(some[..n], all[..m])))
  }

  lemma AmongOneMore(some: seq<int>, all: seq<int>, t: int)
    requires Among(some, all)
    ensures Among(some, all + [t]) && Among(some + [t], all + [t])
  {
    assert (all + [t])[..|all|] == all && (some + [t])[..|some|] == some;
  }

  /** Counted from the end, what is left lies no later. */
  lemma {:induction false} AmongLiesEarlier(some: seq<int>, all: seq<int>, i: nat)
    requires Among(some, all) && Ascending(all) && i < |some|
    ensures |some| <= |all| && some[|some| - 1 - i] <= all[|all| - 1 - i]
  {
    var n, m := |some| - 1, |all| - 1;
    if Among(some, all[..m]) {
      AmongLiesEarlier(some, all[..m], i);
    } else if i > 0 {
      AmongLiesEarlier(some[..n], all[..m], i - 1);
    } else if n > 0 {
      AmongLiesEarlier(some[..n], all[..m], 0);
    }
  }

  lemma {:induction false} AmongWithin(some: seq<int>, all: seq<int>)
    requires Among(some, all) && Ascending(all) && WithinBudget(all)
    ensures WithinBudget(some)
  {
    if some != [] {
      var n, m := |some| - 1, |all| - 1;
      if Among(some, all[..m]) {
        AmongWithin(some, all[..m]);
      } else {
        AmongWithin(some[..n], all[..m]);
        if n >= MAX_ATTEMPTS { AmongLiesEarlier(some[..n], all[..m], MAX_ATTEMPTS - 1); }
        forall i | 0 <= i && i + MAX_ATTEMPTS < |some| ensures some[i + MAX_ATTEMPTS] - some[i] >= WINDOW {
          if i + MAX_ATTEMPTS < n {
            assert some[..n][i + MAX_ATTEMPTS] - some[..n][i] >= WINDOW;
          } else {
            assert all[m - MAX_ATTEMPTS + MAX_ATTEMPTS] - all[m - MAX_ATTEMPTS] >= WINDOW;
          }
        }
      }
    }
  }

  predicate InHand(s: Sys, b: string) {
    s.pending != [] && BudgetKey(s.pending[0].key) == b && !s.verdict.Undecided?
  }

  /** Every hold is owed to an attempt of its own, and an alert that is going to be held to the last of them. */
  predicate HoldsFollow(history: seq<int>, holds: seq<int>, v: Verdict) {
    if v.Hold? then history != [] && history[|history| - 1] == v.at && Among(holds, history[..|history| - 1])
    else Among(holds, history)
  }

  predicate Sound(s: Sys, b: string, clock: int) {
    && BudgetSound(Budget(s.attempts, b), AttemptTimes(s.log, b), clock)
    && HoldsFollow(AttemptTimes(s.log, b), HoldTimes(s.log, b), if InHand(s, b) then s.verdict else Undecided)
  }

  lemma SoundLater(budget: seq<int>, history: seq<int>, clock: int, t: int)
    requires BudgetSound(budget, history, clock) && clock <= t
    ensures BudgetSound(budget, history, t)
  {
  }

  lemma TryingKeepsSound(budget: seq<int>, history: seq<int>, holds: seq<int>, clock: int, at: int)
    requires BudgetSound(budget, history, clock) && Among(holds, history) && clock <= at
    ensures var kept := Recent(budget, at);
            if |kept| < MAX_ATTEMPTS then
              && BudgetSound(kept + [at], history + [at], at)
              && HoldsFollow(history + [at], holds, Hold(at)) && HoldsFollow(history + [at], holds, Send)
            else BudgetSound(kept, history, at)
  {
    BudgetDecidesLikeHistory(budget, history, clock, at);
    AmongOneMore(holds, history, at);
    assert (history + [at])[..|history|] == history;
  }

  /** Trying a fix under one budget key leaves the others' times and budgets alone. */
  lemma RemediatingSparesOthers(s: Sys, r: Remedy, b: string)
    requires s.pending != [] && BudgetKey(s.pending[0].key) != b
    ensures var s' := Remediated(s, r);
            && Budget(s'.attempts, b) == Budget(s.attempts, b)
            && AttemptTimes(s'.log, b) == AttemptTimes(s.log, b) && HoldTimes(s'.log, b) == HoldTimes(s.log, b)
  {
    var a := s.pending[0];
    TimesEntry(s.log, Cleared(a.key), b);
    TimesEntry(s.log, Attempted(a.key, r.allowAt), b);
    assert s.log + [] == s.log;
  }

  lemma NothingIsSound(clock: int)
    ensures BudgetSound([], [], clock)
  {
  }

  lemma SoundOf(s: Sys, b: string, clock: int, budget: seq<int>, history: seq<int>, holds: seq<int>, v: Verdict)
    requires Budget(s.attempts, b) == budget
    requires AttemptTimes(s.log, b) == history && HoldTimes(s.log, b) == holds
    requires InHand(s, b) && s.verdict == v
    requires BudgetSound(budget, history, clock) && HoldsFollow(history, holds, v)
    ensures Sound(s, b, clock)
  {
  }

  /** A recovery clears the budget, and is going to be sent. */
  lemma RecoveringKeepsSound(s: Sys, r: Remedy, b: string)
    requires Enabled(s, Remediate(r)) && BudgetKey(s.pending[0].key) == b && !s.pending[0].firing
    ensures Sound(Remediated(s, r), b, r.allowAt)
  {
    TimesEntry(s.log, Cleared(s.pending[0].key), b);
    NothingIsSound(r.allowAt);
    SoundOf(Remediated(s, r), b, r.allowAt, [], [], [], Send);
  }

  /** An alert whose fix is not even tried is going to be sent. */
  lemma UntriedKeepsSound(s: Sys, r: Remedy, b: string, clock: int)
    requires Enabled(s, Remediate(r)) && BudgetKey(s.pending[0].key) == b && s.pending[0].firing
    requires !Fixable(s.pending[0], r) && clock <= r.allowAt && Sound(s, b, clock)
    ensures Sound(Remediated(s, r), b, r.allowAt)
  {
    assert s.log + [] == s.log;
    SoundLater(Budget(s.attempts, b), AttemptTimes(s.log, b), clock, r.allowAt);
    SoundOf(Remediated(s, r), b, r.allowAt, Budget(s.attempts, b), AttemptTimes(s.log, b), HoldTimes(s.log, b), Send);
  }

  lemma RefusedKeepsSound(s: Sys, r: Remedy, b: string, clock: int)
    requires Enabled(s, Remediate(r)) && BudgetKey(s.pending[0].key) == b
    requires Fixable(s.pending[0], r) && !Allows(s.attempts, b, r.allowAt) && clock <= r.allowAt && Sound(s, b, clock)
    ensures Sound(Remediated(s, r), b, r.allowAt)
  {
    var budget, history, holds := Budget(s.attempts, b), AttemptTimes(s.log, b), HoldTimes(s.log, b);
    assert s.log + [] == s.log;
    TryingKeepsSound(budget, history, holds, clock, r.allowAt);
    SoundOf(Remediated(s, r), b, r.allowAt, Recent(budget, r.allowAt), history, holds, Send);
  }

  lemma AllowedKeepsSound(s: Sys, r: Remedy, b: string, clock: int)
    requires Enabled(s, Remediate(r)) && BudgetKey(s.pending[0].key) == b
    requires Fixable(s.pending[0], r) && Allows(s.attempts, b, r.allowAt) && clock <= r.allowAt && Sound(s, b, clock)
    ensures Sound(Remediated(s, r), b, r.allowAt)
  {
    var budget, history, holds := Budget(s.attempts, b), AttemptTimes(s.log, b), HoldTimes(s.log, b);
    var at, s' := r.allowAt, Remediated(s, r);
    TimesEntry(s.log, Attempted(s.pending[0].key, at), b);
    TryingKeepsSound(budget, history, holds, clock, at);
    SoundOf(s', b, at, Recent(budget, at) + [at], history + [at], holds, s'.verdict);
  }

  lemma RemediatingKeepsSound(s: Sys, r: Remedy, b: string, clock: int)
    requires Sound(s, b, clock) && Enabled(s, Remediate(r)) && clock <= r.allowAt
    ensures Sound(Remediated(s, r), b, r.allowAt)
  {
    if BudgetKey(s.pending[0].key) != b {
      RemediatingSparesOthers(s, r, b);
      SoundLater(Budget(s.attempts, b), AttemptTimes(s.log, b), clock, r.allowAt);
    } else if !s.pending[0].firing {
      RecoveringKeepsSound(s, r, b);
    } else if !Fixable(s.pending[0], r) {
      UntriedKeepsSound(s, r, b, clock);
    } else if Allows(s.attempts, b, r.allowAt) {
      AllowedKeepsSound(s, r, b, clock);
    } else {
      RefusedKeepsSound(s, r, b, clock);
    }
  }

  lemma HeldFollows(history: seq<int>, holds: seq<int>, at: int)
    requires HoldsFollow(history, holds, Hold(at))
    ensures Among(holds + [at], history)
  {
    AmongOneMore(holds, history[..|history| - 1], at);
    assert history == history[..|history| - 1] + [at];
  }

  lemma SettlingKeepsSound(s: Sys, at: int, b: string, clock: int)
    requires Sound(s, b, clock) && Enabled(s, Settle(at))
    ensures Sound(Settled(s, at), b, clock)
  {
    TimesEntry(s.log, Outcome(s.pending[0], s.verdict, at), b);
    if InHand(s, b) && s.verdict.Hold? {
      HeldFollows(AttemptTimes(s.log, b), HoldTimes(s.log, b), s.verdict.at);
    }
  }

  // ---------------------------------------------------------------- timely runs

  lemma SoundAt(s: Sys, b: string, clock: int, t: int)
    requires Sound(s, b, clock) && clock <= t
    ensures Sound(s, b, t)
  {
    SoundLater(Budget(s.attempts, b), AttemptTimes(s.log, b), clock, t);
  }

  lemma EvaluatingKeepsSound(s: Sys, obs: seq<Observation>, now: int, b: string, t: int)
    requires Sound(s, b, t) && s.pending == []
    ensures Sound(Evaluated(s, obs, now), b, t)
  {
    ObservingKeepsTimes(s.log, obs, now, b);
  }

  lemma ForgettingKeepsSound(s: Sys, agent: string, b: string, t: int)
    requires Sound(s, b, t)
    ensures Sound(Forgotten(s, agent), b, t)
  {
    TimesEntry(s.log, Forgot(agent), b);
  }

  lemma StepKeepsSound(s: Sys, e: Event, b: string, clock: int, t: int)
    requires Sound(s, b, clock) && clock <= t && (Timed(e) ==> clock <= Time(e) <= t)
    ensures Sound(Step(s, e), b, t)
  {
    SoundAt(s, b, clock, t);
    if Enabled(s, e) {
      match e {
        case Evaluate(now, views) => EvaluatingKeepsSound(s, Observations(views), now, b, t);
        case Remediate(r) =>
          RemediatingKeepsSound(s, r, b, clock);
          SoundAt(Remediated(s, r), b, r.allowAt, t);
        case Settle(at) => SettlingKeepsSound(s, at, b, t);
        case Forget(agent) => ForgettingKeepsSound(s, agent, b, t);
      }
    }
  }

  lemma LastEvent(events: seq<Event>, t: int)
    requires events != [] && Timely(events) && Before(events, t)
    ensures var pre, e := events[..|events| - 1], events[|events| - 1];
            Timely(pre) && Before(pre, if Timed(e) then Time(e) else t) && (Timed(e) ==> Time(e) <= t)
  {
    var pre, e := events[..|events| - 1], events[|events| - 1];
    assert e in events;
    assert forall x :: x in pre ==> x in events;
  }

  /** In every timely run, the budget stored under a key is the tail of the whole history of attempts under it. */
  lemma {:induction false} RunIsSound(events: seq<Event>, b: string, t: int)
    requires Timely(events) && Before(events, t)
    ensures Sound(Run(events), b, t)
  {
    if events != [] {
      var pre, e := events[..|events| - 1], events[|events| - 1];
      LastEvent(events, t);
      var clock := if Timed(e) then Time(e) else t;
      RunIsSound(pre, b, clock);
      StepKeepsSound(Run(pre), e, b, clock, t);
    }
  }

  /** However a fix keeps failing, no four alerts in a row are held for one budget within one window. */
  lemma HoldsStayWithinBudget(events: seq<Event>, b: string, t: int)
    requires Timely(events) && Before(events, t)
    ensures WithinBudget(HoldTimes(Run(events).log, b)) && Ascending(HoldTimes(Run(events).log, b))
  {
    RunIsSound(events, b, t);
    var s := Run(events);
    HoldsWithin(AttemptTimes(s.log, b), HoldTimes(s.log, b), if InHand(s, b) then s.verdict else Undecided);
  }

  lemma HoldsWithin(history: seq<int>, holds: seq<int>, v: Verdict)
    requires Ascending(history) && WithinBudget(history) && HoldsFollow(history, holds, v)
    ensures WithinBudget(holds) && Ascending(holds)
  {
    var h := if v.Hold? then history[..|history| - 1] else history;
    AmongWithin(holds, h);
    AmongAscends(holds, h);
  }

  lemma {:induction false} AmongAscends(some: seq<int>, all: seq<int>)
    requires Among(some, all) && Ascending(all)
    ensures Ascending(some)
  {
    if some != [] {
      var n, m := |some| - 1, |all| - 1;
      if Among(some, all[..m]) {
        AmongAscends(some, all[..m]);
      } else {
        AmongAscends(some[..n], all[..m]);
        if n > 0 { AmongLiesEarlier(some[..n], all[..m], 0); }
      }
    }
  }

  // ---------------------------------------------------------------- escalation

  /** A fix will be run for a firing alert, going by the whole history: fewer than three attempts in the last hour. */
  predicate HasBudget(history: seq<int>, at: int) {
    |history| < 3 || at - history[|history| - 3] >= 3600 * 1000000000
  }

  /** The third hold from the end is less than an hour old. */
  predicate HeldThrice(holds: seq<int>, at: int) {
    |holds| >= 3 && at - holds[|holds| - 3] < 3600 * 1000000000
  }

  lemma HeldThriceSpendsBudget(history: seq<int>, holds: seq<int>, at: int)
    requires Ascending(history) && Among(holds, history) && HeldThrice(holds, at)
    ensures !HasBudget(history, at)
  {
    AmongLiesEarlier(holds, history, MAX_ATTEMPTS - 1);
  }

  lemma SoundDecides(budget: seq<int>, history: seq<int>, clock: int, at: int)
    requires BudgetSound(budget, history, clock) && clock <= at
    ensures |Recent(budget, at)| < MAX_ATTEMPTS <==> HasBudget(history, at)
  {
    BudgetDecidesLikeHistory(budget, history, clock, at);
  }

  /** The loop is about to ask for a fix of this alert, at a time no earlier than anything before. */
  predicate Asks(events: seq<Event>, a: Alert, r: Remedy) {
    && Timely(events) && Before(events, r.allowAt)
    && Run(events).pending != [] && Run(events).pending[0] == a && Run(events).verdict.Undecided?
  }

  predicate OnlyForgets(events: seq<Event>) { forall e :: e in events ==> e.Forget? }

  /** The alert fires, and there is a script to run on a host that is there. */
  predicate HasFix(a: Alert, r: Remedy) {
    a.firing && r.scripted && r.script != "" && r.online
  }

  /** What the history says should happen: the fix is run and the alert held, or the alert is sent. */
  predicate FixRuns(events: seq<Event>, a: Alert, r: Remedy) {
    HasFix(a, r) && r.loadable && HasBudget(AttemptTimes(Run(events).log, BudgetKey(a.key)), r.allowAt)
  }

  lemma BudgetMatchesHistory(events: seq<Event>, a: Alert, r: Remedy)
    requires Asks(events, a, r)
    ensures Decision(Run(events).attempts, a, r) == if FixRuns(events, a, r) then Hold(r.allowAt) else Send
    ensures HeldThrice(HoldTimes(Run(events).log, BudgetKey(a.key)), r.allowAt) ==> !FixRuns(events, a, r)
  {
    var s, b := Run(events), BudgetKey(a.key);
    RunIsSound(events, b, r.allowAt);
    SoundDecides(Budget(s.attempts, b), AttemptTimes(s.log, b), r.allowAt, r.allowAt);
    if HeldThrice(HoldTimes(s.log, b), r.allowAt) {
      HeldThriceSpendsBudget(AttemptTimes(s.log, b), HoldTimes(s.log, b), r.allowAt);
    }
  }

  lemma {:induction false} ForgetsSpareTheQueue(s: Sys, events: seq<Event>)
    requires OnlyForgets(events)
    ensures Resume(s, events).pending == s.pending && Resume(s, events).verdict == s.verdict
  {
    if events != [] {
      var pre := events[..|events| - 1];
      assert events[|events| - 1] in events && forall e :: e in pre ==> e in events;
      ForgetsSpareTheQueue(s, pre);
    }
  }

  lemma VerdictIsCarriedOut(events: seq<Event>, r: Remedy, more: seq<Event>, at: int)
    requires Enabled(Run(events), Remediate(r)) && OnlyForgets(more)
    ensures var s := Run(events);
            var log := Run(events + [Remediate(r)] + more + [Settle(at)]).log;
            log != [] && log[|log| - 1] == Outcome(s.pending[0], Decision(s.attempts, s.pending[0], r), at)
  {
    var s := Run(events);
    ResumeOneMore(EMPTY, events, Remediate(r));
    ResumeJoins(EMPTY, events + [Remediate(r)], more);
    ForgetsSpareTheQueue(Remediated(s, r), more);
    ResumeOneMore(EMPTY, events + [Remediate(r)] + more, Settle(at));
  }

  /**
   * In every timely run, whatever hosts are forgotten meanwhile: the alert in hand is held if and only if it
   * fires, a script is configured for a host that is there and can be read, and fewer than three attempts of
   * the whole history under its budget key fall inside the window. Otherwise it is sent.
   */
  lemma EscalatesExactlyWithoutBudget(events: seq<Event>, a: Alert, r: Remedy, more: seq<Event>, at: int)
    requires Asks(events, a, r) && OnlyForgets(more)
    ensures var log := Run(events + [Remediate(r)] + more + [Settle(at)]).log;
            && log != []
            && log[|log| - 1] == if FixRuns(events, a, r) then Held(a.key, r.allowAt, at) else Dispatched(a)
  {
    BudgetMatchesHistory(events, a, r);
    VerdictIsCarriedOut(events, r, more, at);
  }

  /**
   * An alert without a script configured, with an empty one, or of a host that is not there is sent in every
   * run, and costs nothing.
   */
  lemma NothingToRunIsSent(events: seq<Event>, r: Remedy, more: seq<Event>, at: int)
    requires Enabled(Run(events), Remediate(r)) && Run(events).pending[0].firing && OnlyForgets(more)
    requires !r.scripted || r.script == "" || !r.online
    ensures var a, s := Run(events).pending[0], Run(events + [Remediate(r)] + more + [Settle(at)]);
            s.log != [] && s.log[|s.log| - 1] == Dispatched(a) && s.attempts == Run(events).attempts
  {
    VerdictIsCarriedOut(events, r, more, at);
    BudgetsWait(events, r, more, at);
  }

  /** And what is held in any run fires, has a readable script, and is of a host that is there. */
  lemma HeldMeansFixRan(events: seq<Event>, r: Remedy, more: seq<Event>, at: int)
    requires Enabled(Run(events), Remediate(r)) && OnlyForgets(more)
    requires var log := Run(events + [Remediate(r)] + more + [Settle(at)]).log; log != [] && log[|log| - 1].Held?
    ensures Run(events).pending[0].firing && r.scripted && r.script != "" && r.online && r.loadable
  {
    VerdictIsCarriedOut(events, r, more, at);
  }

  lemma {:induction false} ForgetsSpareTheBudgets(s: Sys, events: seq<Event>)
    requires OnlyForgets(events)
    ensures Resume(s, events).attempts == s.attempts
  {
    if events != [] {
      var pre := events[..|events| - 1];
      assert events[|events| - 1] in events && forall e :: e in pre ==> e in events;
      ForgetsSpareTheBudgets(s, pre);
    }
  }

  /** Only the asking touches the budgets. */
  lemma BudgetsWait(events: seq<Event>, r: Remedy, more: seq<Event>, at: int)
    requires OnlyForgets(more)
    ensures Run(events + [Remediate(r)] + more + [Settle(at)]).attempts == Run(events + [Remediate(r)]).attempts
    ensures Run(events + [Remediate(r)]) == Step(Run(events), Remediate(r))
  {
    ResumeOneMore(EMPTY, events, Remediate(r));
    ResumeJoins(EMPTY, events + [Remediate(r)], more);
    ForgetsSpareTheBudgets(Run(events + [Remediate(r)]), more);
    ResumeOneMore(EMPTY, events + [Remediate(r)] + more, Settle(at));
  }

  lemma NotedTimes(s: Sys, a: Alert, r: Remedy)
    ensures var b := BudgetKey(a.key);
            AttemptTimes(s.log + Noted(s.attempts, a, r), b) ==
            if !a.firing then []
            else if HasFix(a, r) && Allows(s.attempts, b, r.allowAt) then AttemptTimes(s.log, b) + [r.allowAt]
            else AttemptTimes(s.log, b)
  {
    TimesEntry(s.log, Cleared(a.key), BudgetKey(a.key));
    TimesEntry(s.log, Attempted(a.key, r.allowAt), BudgetKey(a.key));
    assert s.log + [] == s.log;
  }

  /**
   * What asking costs: a recovery gives the budget back, a fix within budget is charged at once, also if its
   * script turns out not to be readable, and anything else is free.
   */
  lemma AskingIsCharged(events: seq<Event>, a: Alert, r: Remedy)
    requires Asks(events, a, r)
    ensures var b := BudgetKey(a.key);
            var before, after := AttemptTimes(Run(events).log, b), AttemptTimes(Run(events + [Remediate(r)]).log, b);
            after == if !a.firing then []
                     else if HasFix(a, r) && HasBudget(before, r.allowAt) then before + [r.allowAt] else before
  {
    var s, b := Run(events), BudgetKey(a.key);
    RunIsSound(events, b, r.allowAt);
    SoundDecides(Budget(s.attempts, b), AttemptTimes(s.log, b), r.allowAt, r.allowAt);
    ResumeOneMore(EMPTY, events, Remediate(r));
    NotedTimes(s, a, r);
  }

  /** So three holds for one budget within one window are followed by the alert itself. */
  lemma ThreeHoldsThenTheAlert(events: seq<Event>, a: Alert, r: Remedy, more: seq<Event>, at: int)
    requires Asks(events, a, r) && OnlyForgets(more) && HeldThrice(HoldTimes(Run(events).log, BudgetKey(a.key)), r.allowAt)
    ensures var log := Run(events + [Remediate(r)] + more + [Settle(at)]).log;
            log != [] && log[|log| - 1] == Dispatched(a)
  {
    BudgetMatchesHistory(events, a, r);
    EscalatesExactlyWithoutBudget(events, a, r, more, at);
  }

  // ---------------------------------------------------------------- a fix that is slow to fail

  /** The rule has to hold for 120 ticks, twenty minutes. */
  const SUSTAIN: nat := 120
  const PERIOD: int := 120 * TICK
  const SLOW: Key := Key("box", "cpu")
  const SLOW_RULE: Rule := Rule("cpu", 90.0, 95.0, true, PERIOD)
  const SLOW_SEEN: Observation := Observation(SLOW, "box", SLOW_RULE)

  function SlowTick(m: nat): Event {
    Evaluate(m * TICK, [HostRules("box", "box", [SLOW_RULE])])
  }

  /** Asking for the fix, which runs at once and does not help. */
  function SlowFix(m: nat): seq<Event> {
    [Remediate(Remedy(true, true, "restart", true, m * TICK)), Settle(m * TICK)]
  }

  function SlowEvents(m: nat): seq<Event> {
    if m % SUSTAIN == 0 && m > 0 then [SlowTick(m)] + SlowFix(m) else [SlowTick(m)]
  }

  /** A rule that is true at every tick, and a fix that is tried whenever it fires. */
  function SlowFailures(m: nat): seq<Event> {
    if m == 0 then SlowEvents(0) else SlowFailures(m - 1) + SlowEvents(m)
  }

  /** After n failed fixes. */
  function SlowState(n: nat): AlertState {
    AlertState(false, Some(n * PERIOD), if n == 0 then None else Some(n * PERIOD), "box", 95.0)
  }

  function SlowTimes(n: nat): seq<int> { seq(n, i => (i + 1) * PERIOD) }

  predicate SlowLog(log: seq<Entry>, n: nat) {
    HoldTimes(log, BudgetKey(SLOW)) == SlowTimes(n) && Sent(log, SLOW) == []
  }

  predicate SlowBudget(attempts: map<string, seq<int>>, n: nat) {
    TailOf(Budget(attempts, BudgetKey(SLOW)), SlowTimes(n), if n == 0 then PERIOD else n * PERIOD)
  }

  predicate SlowlyFailing(s: Sys, n: nat) {
    && s.pending == [] && s.verdict.Undecided? && SlowLog(s.log, n) && SlowBudget(s.attempts, n)
    && SLOW in s.states && s.states[SLOW] == SlowState(n)
  }

  lemma SlowObservation(m: nat)
    ensures Observations(SlowTick(m).views) == [SLOW_SEEN]
  {
    var v := HostRules("box", "box", [SLOW_RULE]);
    assert [v][..0] == [] && Observations([]) == [];
    assert HostObservations(v, 1) == [SLOW_SEEN];
  }

  lemma SlowEvaluation(states: map<Key, AlertState>, m: nat)
    ensures var obs, st := Observations(SlowTick(m).views), Next(StateOf(states, SLOW), "box", SLOW_RULE, m * TICK);
            && StatesAfter(states, obs, m * TICK) == states[SLOW := st]
            && Transitions(states, obs, m * TICK)
               == if st.firing != Firing(states, SLOW) then [MakeAlert(SLOW_SEEN, st)] else []
  {
    SlowObservation(m);
    OneMore(states, [], SLOW_SEEN, m * TICK);
    assert [] + [SLOW_SEEN] == [SLOW_SEEN];
  }

  lemma SlowTickLog(log: seq<Entry>, m: nat, n: nat)
    requires SlowLog(log, n)
    ensures SlowLog(log + Entries(Observations(SlowTick(m).views), m * TICK), n)
  {
    ObservingKeepsTimes(log, Observations(SlowTick(m).views), m * TICK, BudgetKey(SLOW));
    ObservingIsSilent(log, Observations(SlowTick(m).views), m * TICK, SLOW);
  }

  /** A tick that comes before the sustain time is over changes nothing. */
  lemma SlowWait(s: Sys, m: nat, n: nat)
    requires SlowlyFailing(s, n) && m * TICK - n * PERIOD < PERIOD
    ensures SlowlyFailing(Step(s, SlowTick(m)), n)
  {
    SlowEvaluation(s.states, m);
    SlowTickLog(s.log, m, n);
  }

  /** The condition fires after n failed fixes, and nobody has been told. */
  predicate SlowlyFiring(s: Sys, t: int, n: nat) {
    && s.verdict.Undecided? && SlowBudget(s.attempts, n) && SlowLog(s.log, n)
    && SLOW in s.states && s.states[SLOW] == SlowState(n).(firing := true, since := Some(t))
    && s.pending == [Alert(SLOW, "box", 95.0, Some(t), true)]
  }

  /** The tick at the end of the sustain time fires. */
  lemma SlowFire(s: Sys, m: nat, n: nat)
    requires SlowlyFailing(s, n) && m * TICK == (n + 1) * PERIOD
    ensures SlowlyFiring(Step(s, SlowTick(m)), m * TICK, n)
  {
    SlowEvaluation(s.states, m);
    SlowTickLog(s.log, m, n);
  }

  lemma SlowAllowed(attempts: map<string, seq<int>>, n: nat)
    requires SlowBudget(attempts, n)
    ensures Allows(attempts, BudgetKey(SLOW), (n + 1) * PERIOD)
    ensures SlowBudget(AfterAllow(attempts, BudgetKey(SLOW), (n + 1) * PERIOD), n + 1)
  {
    assert SlowTimes(n + 1) == SlowTimes(n) + [(n + 1) * PERIOD];
    SpacedAttemptsNeverRefused(attempts, BudgetKey(SLOW), SlowTimes(n), (n + 1) * PERIOD);
  }

  lemma SlowFixLog(log: seq<Entry>, n: nat, t: int)
    requires SlowLog(log, n) && t == (n + 1) * PERIOD
    ensures SlowLog(log + [Attempted(SLOW, t)] + [Held(SLOW, t, t)], n + 1)
  {
    TimesEntry(log, Attempted(SLOW, t), BudgetKey(SLOW));
    TimesEntry(log + [Attempted(SLOW, t)], Held(SLOW, t, t), BudgetKey(SLOW));
    Unspoken(log, Attempted(SLOW, t), SLOW);
    Unspoken(log + [Attempted(SLOW, t)], Held(SLOW, t, t), SLOW);
    assert SlowTimes(n + 1) == SlowTimes(n) + [t];
  }

  /** The fix runs. */
  lemma SlowAsk(s: Sys, m: nat, n: nat)
    requires SlowlyFiring(s, m * TICK, n) && m * TICK == (n + 1) * PERIOD
    ensures var u := Step(s, SlowFix(m)[0]);
            && u.verdict == Hold(m * TICK) && u.log == s.log + [Attempted(SLOW, m * TICK)]
            && u.states == s.states && u.pending == s.pending && SlowBudget(u.attempts, n + 1)
  {
    SlowAllowed(s.attempts, n);
  }

  /** The alert is held, and the wait begins again. */
  lemma SlowHold(s: Sys, m: nat, n: nat)
    requires SlowlyFiring(s, m * TICK, n) && m * TICK == (n + 1) * PERIOD
    ensures SlowlyFailing(Step(Step(s, SlowFix(m)[0]), SlowFix(m)[1]), n + 1)
  {
    SlowAsk(s, m, n);
    SlowFixLog(s.log, n, m * TICK);
    SlowSettle(Step(s, SlowFix(m)[0]), m * TICK, n);
  }

  lemma SlowSettle(u: Sys, t: int, n: nat)
    requires u.verdict == Hold(t) && u.pending == [Alert(SLOW, "box", 95.0, Some(t), true)]
    requires SLOW in u.states && u.states[SLOW] == SlowState(n).(firing := true, since := Some(t))
    requires t == (n + 1) * PERIOD && SlowBudget(u.attempts, n + 1) && SlowLog(u.log + [Held(SLOW, t, t)], n + 1)
    ensures SlowlyFailing(Step(u, Settle(t)), n + 1)
  {
  }

  lemma ThreeMore(events: seq<Event>, a: Event, b: Event, c: Event)
    ensures Run(events + [a, b, c]) == Step(Step(Step(Run(events), a), b), c)
  {
    assert events + [a, b, c] == ((events + [a]) + [b]) + [c];
    ResumeOneMore(EMPTY, events, a);
    ResumeOneMore(EMPTY, events + [a], b);
    ResumeOneMore(EMPTY, (events + [a]) + [b], c);
  }

  lemma SlowCycle(s: Sys, m: nat, n: nat)
    requires SlowlyFailing(s, n) && m * TICK == (n + 1) * PERIOD
    ensures SlowlyFailing(Step(Step(Step(s, SlowTick(m)), SlowFix(m)[0]), SlowFix(m)[1]), n + 1)
  {
    SlowFire(s, m, n);
    var u := Step(s, SlowTick(m));
    SlowHold(u, m, n);
  }

  lemma SlowRound(events: seq<Event>, m: nat, n: nat)
    requires SlowlyFailing(Run(events), n)
    requires m % SUSTAIN == 0 && m > 0 && m * TICK == (n + 1) * PERIOD
    ensures SlowlyFailing(Run(events + SlowEvents(m)), n + 1)
  {
    SlowCycle(Run(events), m, n);
    ThreeMore(events, SlowTick(m), SlowFix(m)[0], SlowFix(m)[1]);
    assert SlowEvents(m) == [SlowTick(m), SlowFix(m)[0], SlowFix(m)[1]];
  }

  lemma SlowTickRun(events: seq<Event>, m: nat, n: nat)
    requires SlowlyFailing(Run(events), n) && m * TICK - n * PERIOD < PERIOD
    ensures SlowlyFailing(Run(events + [SlowTick(m)]), n)
  {
    ResumeOneMore(EMPTY, events, SlowTick(m));
    SlowWait(Run(events), m, n);
  }

  lemma SlowStart()
    ensures SlowlyFailing(Run([SlowTick(0)]), 0)
  {
    ResumeOneMore(EMPTY, [], SlowTick(0));
    assert [] + [SlowTick(0)] == [SlowTick(0)];
    SlowEvaluation(map[], 0);
    SlowTickLog([], 0, 0);
    assert [] + Entries(Observations(SlowTick(0).views), 0) == Entries(Observations(SlowTick(0).views), 0);
  }

  /** Every 120th tick ends a sustain time. */
  lemma Rounds(m: nat)
    requires m > 0
    ensures var n := (m - 1) / SUSTAIN;
            if m % SUSTAIN == 0 then m / SUSTAIN == n + 1 && m * TICK == (n + 1) * PERIOD
            else m / SUSTAIN == n && m * TICK - n * PERIOD < PERIOD
  {
  }

  lemma SlowNext(events: seq<Event>, m: nat)
    requires m > 0 && SlowlyFailing(Run(events), (m - 1) / SUSTAIN)
    ensures SlowlyFailing(Run(events + SlowEvents(m)), m / SUSTAIN)
  {
    Rounds(m);
    if m % SUSTAIN == 0 {
      SlowRound(events, m, (m - 1) / SUSTAIN);
    } else {
      SlowTickRun(events, m, (m - 1) / SUSTAIN);
    }
  }

  /**
   * Where the gaps are as long as a third of the window the budget never runs out: for every m there is a
   * run of m ticks that find the condition true each time, in which m / 120 fixes fail and nothing is ever sent.
   */
  lemma {:induction false} SlowFailuresNeverEscalate(m: nat)
    ensures SlowlyFailing(Run(SlowFailures(m)), m / SUSTAIN)
  {
    if m == 0 {
      SlowStart();
    } else {
      SlowFailuresNeverEscalate(m - 1);
      SlowNext(SlowFailures(m - 1), m);
      assert SlowFailures(m) == SlowFailures(m - 1) + SlowEvents(m);
    }
  }

  lemma TimelyOneMore(events: seq<Event>, e: Event, t: int)
    requires Timely(events) && Before(events, t) && (Timed(e) ==> Time(e) == t)
    ensures Timely(events + [e]) && Before(events + [e], t)
  {
    assert (events + [e])[..|events|] == events;
  }

  lemma SlowEventsAreTimely(events: seq<Event>, m: nat)
    requires Timely(events) && Before(events, m * TICK)
    ensures Timely(events + SlowEvents(m)) && Before(events + SlowEvents(m), m * TICK)
  {
    var t, fix := m * TICK, SlowFix(m);
    TimelyOneMore(events, SlowTick(m), t);
    TimelyOneMore(events + [SlowTick(m)], fix[0], t);
    TimelyOneMore(events + [SlowTick(m)] + [fix[0]], fix[1], t);
    assert events + ([SlowTick(m)] + fix) == events + [SlowTick(m)] + [fix[0]] + [fix[1]];
  }

  lemma SlowEventsAreOrderly(m: nat)
    ensures Plain(SlowEvents(m))
  {
    SlowObservation(m);
  }

  /** Those runs are ordinary ones: ten seconds apart, in order, one visit of the condition a tick, nobody forgotten. */
  lemma {:induction false} SlowFailuresAreTimely(m: nat)
    ensures Timely(SlowFailures(m)) && Before(SlowFailures(m), m * TICK) && Plain(SlowFailures(m))
  {
    SlowEventsAreOrderly(m);
    if m == 0 {
      SlowEventsAreTimely([], 0);
      assert [] + SlowEvents(0) == SlowEvents(0);
    } else {
      SlowFailuresAreTimely(m - 1);
      SlowEventsAreTimely(SlowFailures(m - 1), m);
    }
  }
}
