/** When conditions fire, fire again, resolve, and stay as they are, by what was observed of them. */
module Sustain {
  import opened Optional
  import opened Sequences
  import opened Alerts
  import opened AlertLoop

  // ---------------------------------------------------------------- sustain and hysteresis

  /** The hub took the condition into its own hands: it held the alert, or forgot the host. */
  predicate Interferes(e: Entry, k: Key) {
    (e.Held? && e.key == k) || (e.Forgot? && e.agent == k.agent)
  }

  predicate Observes(e: Entry, k: Key) {
    e.Observed? && e.obs.key == k
  }

  /** The sustain clock was set to t0 by entry i, and every evaluation of the condition since found it true. */
  predicate TrueSince(log: seq<Entry>, k: Key, i: nat, t0: int) {
    && i < |log|
    && (|| (Observes(log[i], k) && log[i].obs.rule.active && log[i].now == t0)
        || (log[i].Held? && log[i].key == k && log[i].until == t0))
    && (forall j :: i < j < |log| ==> !Interferes(log[j], k) && (Observes(log[j], k) ==> log[j].obs.rule.active))
  }

  lemma {:induction false} SustainClock(log: seq<Entry>, k: Key) returns (i: nat)
    requires var st := Replay(log, k); st.Some? && !st.value.firing && st.value.trueSince.Some?
    ensures TrueSince(log, k, i, Replay(log, k).value.trueSince.value)
  {
    var pre, e := log[..|log| - 1], log[|log| - 1];
    var before := Replay(pre, k);
    if Interferes(e, k) || (Observes(e, k) && (before.None? || before.value.trueSince.None?)) {
      i := |log| - 1;
    } else {
      i := SustainClock(pre, k);
      assert forall j :: 0 <= j < |pre| ==> pre[j] == log[j];
    }
  }

  /** A condition fires only when it has been true at every evaluation for the whole of its sustain time. */
  lemma FiresOnlyWhenSustained(log: seq<Entry>, o: Observation, now: int) returns (i: nat, t0: int)
    requires !FiringIn(log, o.key) && FiringIn(log + [Observed(o, now)], o.key)
    ensures TrueSince(log + [Observed(o, now)], o.key, i, t0) && now - t0 >= o.rule.forDur
  {
    var longer := log + [Observed(o, now)];
    OneMoreEntry(log, Observed(o, now));
    var before := Replay(log, o.key);
    if before.None? || before.value.trueSince.None? {
      i, t0 := |log|, now;
    } else {
      i := SustainClock(log, o.key);
      t0 := before.value.trueSince.value;
      assert forall j :: 0 <= j < |log| ==> log[j] == longer[j];
    }
  }

  /** When an entry looks at the condition, or lets its clock start again. */
  function ClockTime(e: Entry, k: Key): Option<int> {
    match e
    case Observed(o, now) => if o.key == k then Some(now) else None
    case Held(key, _, until) => if key == k then Some(until) else None
    case _ => None
  }

  /** The condition's clock never goes back. */
  predicate InOrder(log: seq<Entry>, k: Key) {
    forall i, j :: 0 <= i < j < |log| && ClockTime(log[i], k).Some? && ClockTime(log[j], k).Some? ==>
      ClockTime(log[i], k).value <= ClockTime(log[j], k).value
  }

  /** It fires, or is waiting since t0 or longer. */
  predicate DueSince(log: seq<Entry>, k: Key, t0: int) {
    && Replay(log, k).Some?
    && var st := Replay(log, k).value; st.firing || (st.trueSince.Some? && st.trueSince.value <= t0)
  }

  lemma LookStartsClock(log: seq<Entry>, k: Key, e: Entry)
    requires InOrder(log + [e], k) && Observes(e, k) && e.obs.rule.active
    ensures DueSince(log + [e], k, e.now)
  {
    OneMoreEntry(log, e);
    var before := Replay(log, k);
    if before.Some? && !before.value.firing && before.value.trueSince.Some? {
      var i := SustainClock(log, k);
      assert (log + [e])[i] == log[i] && (log + [e])[|log|] == e;
      assert ClockTime(log[i], k) == before.value.trueSince;
    }
  }

  lemma StaysDue(log: seq<Entry>, e: Entry, k: Key, t0: int)
    requires DueSince(log, k, t0) && !Interferes(e, k) && (Observes(e, k) ==> e.obs.rule.active)
    ensures DueSince(log + [e], k, t0)
  {
    OneMoreEntry(log, e);
  }

  lemma TrueBefore(log: seq<Entry>, k: Key, i: nat, t0: int)
    requires TrueSince(log, k, i, t0) && i < |log| - 1 && InOrder(log, k)
    ensures var pre := log[..|log| - 1];
            TrueSince(pre, k, i, t0) && InOrder(pre, k) && pre[..i] == log[..i] && pre[i] == log[i]
  {
    assert forall j :: 0 <= j < |log| - 1 ==> log[..|log| - 1][j] == log[j];
  }

  lemma {:induction false} ClockKeepsRunning(log: seq<Entry>, k: Key, i: nat, t0: int)
    requires InOrder(log, k) && TrueSince(log, k, i, t0) && (log[i].Held? ==> Replay(log[..i], k).Some?)
    ensures DueSince(log, k, t0)
  {
    var pre, e := log[..|log| - 1], log[|log| - 1];
    assert log == pre + [e];
    if i < |log| - 1 {
      TrueBefore(log, k, i, t0);
      ClockKeepsRunning(pre, k, i, t0);
      StaysDue(pre, e, k, t0);
    } else if e.Held? {
      assert log[..i] == pre;
      OneMoreEntry(pre, e);
    } else {
      LookStartsClock(pre, k, e);
    }
  }

  /** A condition that was true at every evaluation for the whole of its sustain time does fire. */
  lemma FiresWhenSustained(log: seq<Entry>, k: Key, i: nat, t0: int)
    requires InOrder(log, k) && TrueSince(log, k, i, t0) && (log[i].Held? ==> Replay(log[..i], k).Some?)
    requires Observes(log[|log| - 1], k) && log[|log| - 1].now - t0 >= log[|log| - 1].obs.rule.forDur
    ensures FiringIn(log, k)
  {
    var pre, e := log[..|log| - 1], log[|log| - 1];
    assert log == pre + [e];
    OneMoreEntry(pre, e);
    if i < |log| - 1 {
      TrueBefore(log, k, i, t0);
      ClockKeepsRunning(pre, k, i, t0);
    } else {
      LookFires(pre, e, k);
    }
  }

  /** With nothing to sustain the first look that finds it true is enough. */
  lemma LookFires(log: seq<Entry>, e: Entry, k: Key)
    requires InOrder(log + [e], k) && Observes(e, k) && e.obs.rule.active && e.obs.rule.forDur <= 0
    ensures FiringIn(log + [e], k)
  {
    OneMoreEntry(log, e);
    var before := Replay(log, k);
    if before.Some? && !before.value.firing && before.value.trueSince.Some? {
      var i := SustainClock(log, k);
      assert (log + [e])[i] == log[i] && (log + [e])[|log|] == e;
      assert ClockTime(log[i], k) == before.value.trueSince;
    }
  }

  /** A firing condition stops at the next evaluation that is inactive and, for a threshold, below it by more than 5. */
  lemma ResolvesExactlyBelowMargin(log: seq<Entry>, o: Observation, now: int)
    requires FiringIn(log, o.key)
    ensures FiringIn(log + [Observed(o, now)], o.key) <==>
            o.rule.active || (o.rule.threshold > 0.0 && o.rule.value >= o.rule.threshold - 5.0)
  {
    OneMoreEntry(log, Observed(o, now));
  }

  /** Once firing, a condition that is neither held nor forgotten ends only at an evaluation below the margin. */
  lemma {:induction false} ResolvesOnlyBelowMargin(log: seq<Entry>, k: Key, from: nat) returns (m: nat)
    requires from <= |log| && FiringIn(log[..from], k) && !FiringIn(log, k)
    requires forall j :: from <= j < |log| ==> !Interferes(log[j], k)
    ensures from <= m < |log| && Observes(log[m], k) && ClearsMargin(log[m].obs.rule) && FiringIn(log[..m], k)
  {
    assert log[..|log|] == log;
    var pre, e := log[..|log| - 1], log[|log| - 1];
    if FiringIn(pre, k) {
      m := |log| - 1;
    } else {
      assert pre[..from] == log[..from];
      m := ResolvesOnlyBelowMargin(pre, k, from);
      assert pre[..m] == log[..m];
    }
  }

  /** A condition that is waiting for its sustain time, as a hold leaves it. */
  predicate Waiting(log: seq<Entry>, k: Key, since: int) {
    Replay(log, k).Some? && !Replay(log, k).value.firing && Replay(log, k).value.trueSince == Some(since)
  }

  /** A hold on a known condition leaves it waiting from that moment. */
  lemma HoldWaits(log: seq<Entry>, k: Key, at: int, until: int)
    requires Replay(log, k).Some?
    ensures Waiting(log + [Held(k, at, until)], k, until)
  {
    OneMoreEntry(log, Held(k, at, until));
  }

  /** The entry does not interfere, and if it evaluates the condition finds it true before its time is over. */
  predicate StillWaiting(e: Entry, k: Key, since: int) {
    !Interferes(e, k) && (Observes(e, k) ==> e.obs.rule.active && e.now - since < e.obs.rule.forDur)
  }

  /** While it waits, evaluations that find it true before its time is over leave it waiting. */
  lemma {:induction false} WaitingLasts(log: seq<Entry>, k: Key, since: int, more: seq<Entry>)
    requires Waiting(log, k, since)
    requires forall e :: e in more ==> StillWaiting(e, k, since)
    ensures Waiting(log + more, k, since)
  {
    if more == [] {
      assert log + more == log;
    } else {
      var pre, e := more[..|more| - 1], more[|more| - 1];
      assert e in more && forall x :: x in pre ==> x in more;
      WaitingLasts(log, k, since, pre);
      LastSplit(more);
      Regroup(log, pre, e);
      OneMoreEntry(log + pre, e);
    }
  }

  /**
   * A condition that stays true after a hold fires again, at the first evaluation that finds its sustain
   * time over and at none before.
   */
  lemma RefiresWhenDue(log: seq<Entry>, k: Key, at: int, until: int, more: seq<Entry>, o: Observation, now: int)
    requires Replay(log, k).Some? && o.key == k && o.rule.active
    requires forall e :: e in more ==> StillWaiting(e, k, until)
    ensures !FiringIn(log + [Held(k, at, until)] + more, k)
    ensures FiringIn(log + [Held(k, at, until)] + more + [Observed(o, now)], k) <==> now - until >= o.rule.forDur
  {
    HoldWaits(log, k, at, until);
    WaitingLasts(log + [Held(k, at, until)], k, until, more);
    OneMoreEntry(log + [Held(k, at, until)] + more, Observed(o, now));
  }

  // ---------------------------------------------------------------- conditions without a rule

  /** The event neither evaluates nor forgets the condition. */
  predicate IgnoredBy(e: Event, k: Key) {
    match e
    case Evaluate(_, views) => !Visits(Observations(views), k)
    case Forget(agent) => agent != k.agent
    case _ => true
  }

  lemma {:induction false} UnvisitedIsUntouched(states: map<Key, AlertState>, obs: seq<Observation>, now: int, k: Key)
    requires !Visits(obs, k)
    ensures Lookup(StatesAfter(states, obs, now), k) == Lookup(states, k)
    ensures forall a :: a in Transitions(states, obs, now) ==> a.key != k
  {
    if obs != [] {
      var pre := obs[..|obs| - 1];
      assert obs[|obs| - 1].key != k;
      assert !Visits(pre, k) by { assert forall i :: 0 <= i < |pre| ==> pre[i] == obs[i]; }
      UnvisitedIsUntouched(states, pre, now, k);
    }
  }

  /** Nothing happened to the condition, and nothing is on its way. */
  predicate Alike(s: Sys, t: Sys, k: Key) {
    !InFlight(s, k) && Lookup(s.states, k) == Lookup(t.states, k) && Sent(s.log, k) == Sent(t.log, k)
  }

  lemma StepIgnores(s: Sys, e: Event, k: Key)
    requires IgnoredBy(e, k) && !InFlight(s, k)
    ensures Alike(Step(s, e), s, k)
  {
    if Enabled(s, e) {
      match e {
        case Evaluate(now, views) =>
          UnvisitedIsUntouched(s.states, Observations(views), now, k);
          ObservingIsSilent(s.log, Observations(views), now, k);
        case Remediate(r) =>
          RemediatingIsSilent(s.log, s.attempts, s.pending[0], r, k);
        case Settle(at) =>
          assert s.pending[0] in s.pending && forall b :: b in s.pending[1..] ==> b in s.pending;
          Unspoken(s.log, Outcome(s.pending[0], s.verdict, at), k);
        case Forget(agent) =>
          ForgotEntry(s.log, agent, k);
      }
    }
  }

  lemma {:induction false} ResumeIgnores(s: Sys, more: seq<Event>, k: Key)
    requires !InFlight(s, k) && forall e :: e in more ==> IgnoredBy(e, k)
    ensures Alike(Resume(s, more), s, k)
  {
    if more != [] {
      var pre, e := more[..|more| - 1], more[|more| - 1];
      assert e in more && forall p :: p in pre ==> p in more;
      ResumeIgnores(s, pre, k);
      StepIgnores(Resume(s, pre), e, k);
    }
  }

  /**
   * The comment at alerts.go:218-221 expects a silenced host's alerts to resolve. They do not: while a
   * condition has no rule its state stays as it was and nothing is sent for it, however long that lasts.
   */
  lemma SilencedStaysFrozen(events: seq<Event>, more: seq<Event>, k: Key)
    requires !InFlight(Run(events), k) && forall e :: e in more ==> IgnoredBy(e, k)
    ensures Lookup(Run(events + more).states, k) == Lookup(Run(events).states, k)
    ensures Sent(Run(events + more).log, k) == Sent(Run(events).log, k)
  {
    ResumeJoins(EMPTY, events, more);
    ResumeIgnores(Run(events), more, k);
  }
}
