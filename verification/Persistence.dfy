/** What the attempt budget means for one condition: its share of the holds, and how soon its alert gets through. */
module Persistence {
  import opened Optional
  import opened Sequences
  import opened Alerts
  import opened Remediation
  import opened AlertLoop
  import opened Alternation
  import opened Escalation
  import opened Sustain

  // ---------------------------------------------------------------- a budget of its own

  /** Two conditions with one budget. */
  predicate Share(j: Key, k: Key) { j != k && BudgetKey(j) == BudgetKey(k) }

  /** No other condition of the run shares this one's budget. */
  predicate OwnBudget(events: seq<Event>, k: Key) {
    forall e :: e in events && e.Evaluate? ==> forall o :: o in Observations(e.views) ==> !Share(o.key, k)
  }

  /** The condition that something was tried for, held, sent, or given its budget back. */
  function Subject(e: Entry): Option<Key> {
    match e
    case Attempted(key, _) => Some(key)
    case Cleared(key) => Some(key)
    case Held(key, _, _) => Some(key)
    case Dispatched(a) => Some(a.key)
    case _ => None
  }

  predicate Unshared(log: seq<Entry>, k: Key) {
    forall e :: e in log && Subject(e).Some? ==> !Share(Subject(e).value, k)
  }

  predicate UnsharedQueue(s: Sys, k: Key) { forall a :: a in s.pending ==> !Share(a.key, k) }

  lemma StepKeepsUnshared(s: Sys, e: Event, k: Key)
    requires Unshared(s.log, k) && UnsharedQueue(s, k) && OwnBudget([e], k)
    ensures Unshared(Step(s, e).log, k) && UnsharedQueue(Step(s, e), k)
  {
    assert e in [e];
    if Enabled(s, e) && e.Evaluate? {
      var obs := Observations(e.views);
      forall a | a in Transitions(s.states, obs, e.now) ensures !Share(a.key, k) {
        if !Visits(obs, a.key) { UnvisitedIsUntouched(s.states, obs, e.now, a.key); }
      }
    }
  }

  /** Then everything that was ever done under its budget was done for this condition. */
  lemma {:induction false} OwnBudgetIsOwnHistory(events: seq<Event>, k: Key)
    requires OwnBudget(events, k)
    ensures Unshared(Run(events).log, k) && UnsharedQueue(Run(events), k)
  {
    if events != [] {
      var pre, e := events[..|events| - 1], events[|events| - 1];
      assert e in events && forall x :: x in pre ==> x in events;
      OwnBudgetIsOwnHistory(pre, k);
      StepKeepsUnshared(Run(pre), e, k);
    }
  }

  /** When the alerts of a condition were held, since something was last sent about it or it recovered. */
  function HeldInARow(log: seq<Entry>, k: Key): seq<int> {
    if log == [] then []
    else
      var before := HeldInARow(log[..|log| - 1], k);
      match log[|log| - 1]
      case Held(key, at, _) => if key == k then before + [at] else before
      case Cleared(key) => if key == k then [] else before
      case Dispatched(a) => if a.key == k then [] else before
      case _ => before
  }

  lemma RowOneMore(log: seq<Entry>, e: Entry, k: Key)
    ensures HeldInARow(log + [e], k) ==
            if e.Held? && e.key == k then HeldInARow(log, k) + [e.at]
            else if (e.Cleared? && e.key == k) || (e.Dispatched? && e.alert.key == k) then [] else HeldInARow(log, k)
  {
    OneMoreEntry(log, e);
  }

  /** No other condition with this one's budget recovers. */
  predicate NoOtherClears(log: seq<Entry>, k: Key) {
    forall e :: e in log && e.Cleared? ==> !Share(e.key, k)
  }

  lemma EntryKeepsAmong(log: seq<Entry>, all: seq<Entry>, e: Entry, k: Key)
    requires Among(HeldInARow(log, k), HoldTimes(all, BudgetKey(k))) && (e.Cleared? ==> !Share(e.key, k))
    ensures Among(HeldInARow(log + [e], k), HoldTimes(all + [e], BudgetKey(k)))
  {
    RowOneMore(log, e, k);
    TimesEntry(all, e, BudgetKey(k));
    if e.Held? { AmongOneMore(HeldInARow(log, k), HoldTimes(all, BudgetKey(k)), e.at); }
  }

  lemma {:induction false} RowIsAmongHolds(before: seq<Entry>, log: seq<Entry>, k: Key)
    requires NoOtherClears(log, k)
    ensures Among(HeldInARow(log, k), HoldTimes(before + log, BudgetKey(k)))
  {
    if log != [] {
      var pre, e := log[..|log| - 1], log[|log| - 1];
      assert e in log && forall x :: x in pre ==> x in log;
      RowIsAmongHolds(before, pre, k);
      EntryKeepsAmong(pre, before + pre, e, k);
      LastSplit(log);
      Regroup(before, pre, e);
    }
  }

  /** Whatever happened before, four holds of a condition in a row do not fit into a window. */
  lemma RowStaysWithinBudget(events: seq<Event>, from: nat, k: Key, t: int)
    requires Timely(events) && Before(events, t) && from <= |Run(events).log|
    requires NoOtherClears(Run(events).log[from..], k)
    ensures WithinBudget(HeldInARow(Run(events).log[from..], k))
  {
    var log, b := Run(events).log, BudgetKey(k);
    assert log == log[..from] + log[from..];
    RowIsAmongHolds(log[..from], log[from..], k);
    HoldsStayWithinBudget(events, b, t);
    AmongWithin(HeldInARow(log[from..], k), HoldTimes(log, b));
  }

  /** With a budget of its own: however its fix fails, no four alerts of a condition in a row are held within one window. */
  lemma OwnHoldsStayWithinBudget(events: seq<Event>, k: Key, t: int)
    requires Timely(events) && Before(events, t) && OwnBudget(events, k)
    ensures WithinBudget(HeldInARow(Run(events).log, k))
  {
    OwnBudgetIsOwnHistory(events, k);
    var log := Run(events).log;
    assert log[0..] == log;
    forall e | e in log && e.Cleared? ensures !Share(e.key, k) {
      assert Subject(e) == Some(e.key);
    }
    RowStaysWithinBudget(events, 0, k, t);
  }

  // ---------------------------------------------------------------- a condition that stays true

  /** How long the rule must hold, and bounds on the gaps between looks, the wait for the fix, and the fix. */
  datatype Pace = Pace(sustain: nat, gap: nat, wait: nat, fix: nat)

  /** The longest way from one hold of the condition to the next. */
  function Round(p: Pace): nat { p.sustain + p.gap + p.wait + p.fix }

  /** When the condition was last looked at or held. */
  function LastSeen(log: seq<Entry>, k: Key): Option<int> {
    if log == [] then None
    else
      var before := LastSeen(log[..|log| - 1], k);
      match log[|log| - 1]
      case Observed(o, now) => if o.key == k then Some(now) else before
      case Held(key, _, until) => if key == k then Some(until) else before
      case _ => before
  }

  predicate Within(t: int, since: Option<int>, bound: nat) { since.Some? ==> t - since.value <= bound }

  function FiringSince(log: seq<Entry>, k: Key): Option<int> {
    if FiringIn(log, k) then Replay(log, k).value.since else None
  }

  /** The condition is found true, soon after the last look; its fix is run soon after it fired, and is soon over. */
  predicate Pressing(log: seq<Entry>, e: Entry, k: Key, p: Pace) {
    match e
    case Observed(o, now) =>
      o.key == k ==> o.rule.active && o.rule.forDur <= p.sustain && Within(now, LastSeen(log, k), p.gap)
    case Held(key, at, until) => key == k ==> Within(at, FiringSince(log, k), p.wait) && until - at <= p.fix
    case Cleared(key) => !Share(key, k)
    case Forgot(agent) => agent != k.agent
    case _ => true
  }

  predicate KeepsPressing(log: seq<Entry>, from: nat, k: Key, p: Pace) {
    forall j :: from <= j < |log| ==> Pressing(log[..j], log[j], k, p)
  }

  /** Only a firing condition is held. */
  predicate HeldWhileFiring(log: seq<Entry>, from: nat, k: Key) {
    forall j :: from <= j < |log| && log[j].Held? && log[j].key == k ==> FiringIn(log[..j], k)
  }

  lemma Shorter(log: seq<Entry>, longer: seq<Entry>, from: nat, k: Key, p: Pace)
    requires log <= longer && KeepsPressing(longer, from, k, p)
    ensures KeepsPressing(log, from, k, p)
  {
    assert forall j :: 0 <= j < |log| ==> log[..j] == longer[..j];
  }

  /** After a hold the condition waits no longer than its sustain time before the look that lets it fire again. */
  predicate OnItsWay(log: seq<Entry>, k: Key, last: int, p: Pace) {
    && Replay(log, k).Some?
    && var st := Replay(log, k).value;
       if st.firing then st.since.Some? && st.since.value - last <= p.fix + p.sustain + p.gap
       else st.trueSince.Some? && st.trueSince.value - last <= p.fix
            && LastSeen(log, k).Some? && LastSeen(log, k).value - st.trueSince.value <= p.sustain
  }

  predicate Spaced(times: seq<int>, d: nat) {
    forall i :: 0 <= i < |times| - 1 ==> times[i + 1] - times[i] <= d
  }

  predicate RowKeepsPace(log: seq<Entry>, row: seq<int>, k: Key, p: Pace) {
    row != [] ==> Spaced(row, Round(p)) && OnItsWay(log, k, row[|row| - 1], p)
  }

  lemma LookKeepsPace(log: seq<Entry>, o: Observation, now: int, last: int, k: Key, p: Pace)
    requires OnItsWay(log, k, last, p) && Pressing(log, Observed(o, now), k, p)
    ensures OnItsWay(log + [Observed(o, now)], k, last, p)
  {
    OneMoreEntry(log, Observed(o, now));
  }

  lemma HoldKeepsPace(log: seq<Entry>, row: seq<int>, at: int, until: int, k: Key, p: Pace)
    requires RowKeepsPace(log, row, k, p) && Pressing(log, Held(k, at, until), k, p) && FiringIn(log, k)
    ensures RowKeepsPace(log + [Held(k, at, until)], row + [at], k, p)
  {
    OneMoreEntry(log, Held(k, at, until));
  }

  lemma OtherEntriesKeepPace(log: seq<Entry>, e: Entry, last: int, k: Key, p: Pace)
    requires OnItsWay(log, k, last, p) && Pressing(log, e, k, p) && !e.Observed? && !(e.Held? && e.key == k)
    ensures OnItsWay(log + [e], k, last, p)
  {
    OneMoreEntry(log, e);
  }

  lemma EntryKeepsPace(log: seq<Entry>, e: Entry, row: seq<int>, k: Key, p: Pace)
    requires RowKeepsPace(log, row, k, p) && Pressing(log, e, k, p) && (e.Held? && e.key == k ==> FiringIn(log, k))
    ensures RowKeepsPace(log + [e], if e.Held? && e.key == k then row + [e.at] else row, k, p)
  {
    if e.Held? && e.key == k {
      HoldKeepsPace(log, row, e.at, e.until, k, p);
    } else if row != [] {
      if e.Observed? {
        LookKeepsPace(log, e.obs, e.now, row[|row| - 1], k, p);
      } else {
        OtherEntriesKeepPace(log, e, row[|row| - 1], k, p);
      }
    }
  }

  lemma LastEntry(log: seq<Entry>, from: nat, k: Key, p: Pace)
    requires from < |log| && KeepsPressing(log, from, k, p) && HeldWhileFiring(log, from, k)
    ensures var pre, e := log[..|log| - 1], log[|log| - 1];
            && log == pre + [e] && log[from..] == pre[from..] + [e]
            && KeepsPressing(pre, from, k, p) && HeldWhileFiring(pre, from, k)
            && Pressing(pre, e, k, p) && (e.Held? && e.key == k ==> FiringIn(pre, k))
  {
    var pre := log[..|log| - 1];
    assert forall j :: 0 <= j < |pre| ==> log[..j] == pre[..j];
  }

  lemma {:induction false} RowsKeepPace(log: seq<Entry>, from: nat, k: Key, p: Pace)
    requires from <= |log| && KeepsPressing(log, from, k, p) && HeldWhileFiring(log, from, k)
    ensures RowKeepsPace(log, HeldInARow(log[from..], k), k, p)
  {
    if from < |log| {
      var pre, e := log[..|log| - 1], log[|log| - 1];
      LastEntry(log, from, k, p);
      RowsKeepPace(pre, from, k, p);
      EntryKeepsPace(pre, e, HeldInARow(pre[from..], k), k, p);
      RowOneMore(pre[from..], e, k);
    }
  }

  // ---------------------------------------------------------------- in every run

  /** A condition whose alert is on its way to be sent or held does fire. */
  predicate Believed(s: Sys, k: Key) {
    forall a :: a in s.pending && a.key == k && a.firing ==> Firing(s.states, k)
  }

  lemma EvaluatingIsBelieved(s: Sys, obs: seq<Observation>, now: int, from: nat, k: Key)
    requires DistinctKeys(obs) && from <= |s.log| && HeldWhileFiring(s.log, from, k)
    ensures Believed(Evaluated(s, obs, now), k) && HeldWhileFiring(Evaluated(s, obs, now).log, from, k)
  {
    TransitionsAreFlips(s.states, obs, now);
    var log := s.log + Entries(obs, now);
    assert forall j :: 0 <= j < |s.log| ==> log[..j] == s.log[..j];
  }

  lemma OneMoreHeldWhileFiring(log: seq<Entry>, e: Entry, from: nat, k: Key)
    requires HeldWhileFiring(log, from, k) && (e.Held? && e.key == k ==> FiringIn(log, k))
    ensures HeldWhileFiring(log + [e], from, k)
  {
    var longer := log + [e];
    assert forall j :: 0 <= j <= |log| ==> longer[..j] == log[..j];
    assert log[..|log|] == log;
  }

  lemma RemediatingIsBelieved(s: Sys, r: Remedy, from: nat, k: Key)
    requires Believed(s, k) && HeldWhileFiring(s.log, from, k) && s.pending != []
    ensures Believed(Remediated(s, r), k) && HeldWhileFiring(Remediated(s, r).log, from, k)
  {
    OneMoreHeldWhileFiring(s.log, Cleared(s.pending[0].key), from, k);
    OneMoreHeldWhileFiring(s.log, Attempted(s.pending[0].key, r.allowAt), from, k);
    assert s.log + [] == s.log;
  }

  lemma SettlingIsBelieved(s: Sys, at: int, from: nat, k: Key)
    requires Believed(s, k) && HeldWhileFiring(s.log, from, k) && Tracks(s) && Queued(s) && Enabled(s, Settle(at))
    ensures Believed(Settled(s, at), k) && HeldWhileFiring(Settled(s, at).log, from, k)
  {
    var a := s.pending[0];
    RestOfQueue(s, k);
    assert a in s.pending;
    if s.verdict.Hold? && a.key == k {
      assert Lookup(s.states, k) == Replay(s.log, k);
    }
    OneMoreHeldWhileFiring(s.log, Outcome(a, s.verdict, at), from, k);
  }

  lemma ForgettingIsBelieved(s: Sys, agent: string, from: nat, k: Key)
    requires Believed(s, k) && HeldWhileFiring(s.log, from, k) && agent != k.agent
    ensures Believed(Forgotten(s, agent), k) && HeldWhileFiring(Forgotten(s, agent).log, from, k)
  {
    OneMoreHeldWhileFiring(s.log, Forgot(agent), from, k);
  }

  lemma StepIsBelieved(s: Sys, e: Event, from: nat, k: Key)
    requires Believed(s, k) && HeldWhileFiring(s.log, from, k) && Tracks(s) && Queued(s) && from <= |s.log|
    requires Orderly([e]) && e != Forget(k.agent)
    ensures Believed(Step(s, e), k) && HeldWhileFiring(Step(s, e).log, from, k)
  {
    if Enabled(s, e) {
      match e {
        case Evaluate(now, views) =>
          assert e in [e];
          EvaluatingIsBelieved(s, Observations(views), now, from, k);
        case Remediate(r) => RemediatingIsBelieved(s, r, from, k);
        case Settle(at) => SettlingIsBelieved(s, at, from, k);
        case Forget(agent) => ForgettingIsBelieved(s, agent, from, k);
      }
    }
  }

  lemma LogGrows(s: Sys, e: Event)
    ensures s.log <= Step(s, e).log
    ensures e.Forget? ==> Step(s, e).log == s.log + [Forgot(e.agent)]
  {
  }

  lemma {:induction false} RunIsBelieved(events: seq<Event>, more: seq<Event>, k: Key, p: Pace)
    requires Orderly(events + more) && !InFlight(Run(events), k)
    requires KeepsPressing(Run(events + more).log, |Run(events).log|, k, p)
    ensures var s := Run(events + more);
            Run(events).log <= s.log && Believed(s, k) && HeldWhileFiring(s.log, |Run(events).log|, k)
  {
    var from := |Run(events).log|;
    if more == [] {
      assert events + more == events;
    } else {
      var pre, e := more[..|more| - 1], more[|more| - 1];
      var s := Run(events + pre);
      assert events + more == (events + pre) + [e];
      assert e in events + more && forall x :: x in events + pre ==> x in events + more;
      ResumeOneMore(EMPTY, events + pre, e);
      LogGrows(s, e);
      Shorter(s.log, Step(s, e).log, from, k, p);
      RunIsBelieved(events, pre, k, p);
      if e.Forget? {
        assert Pressing(Step(s, e).log[..|s.log|], Forgot(e.agent), k, p);
      }
      ConditionsAreIndependent(events + pre);
      ResumeKeepsQueue(EMPTY, events + pre);
      StepIsBelieved(s, e, from, k);
    }
  }

  /**
   * A condition that every look finds true, at a pace whose rounds take less than a third of the window: no more
   * than three of its alerts in a row are held, so of any four times it fires at least one is sent.
   */
  lemma OneOfFourIsSent(events: seq<Event>, more: seq<Event>, k: Key, p: Pace, t: int)
    requires Orderly(events + more) && Timely(events + more) && Before(events + more, t)
    requires !InFlight(Run(events), k) && KeepsPressing(Run(events + more).log, |Run(events).log|, k, p)
    requires 3 * Round(p) < WINDOW
    ensures |Run(events).log| <= |Run(events + more).log|
    ensures |HeldInARow(Run(events + more).log[|Run(events).log|..], k)| <= 3
  {
    var log, from := Run(events + more).log, |Run(events).log|;
    RunIsBelieved(events, more, k, p);
    RowsKeepPace(log, from, k, p);
    forall e | e in log[from..] && e.Cleared? ensures !Share(e.key, k) {
      var j :| from <= j < |log| && log[j] == e;
      assert Pressing(log[..j], log[j], k, p);
    }
    RowStaysWithinBudget(events + more, from, k, t);
    ThreeRoundsFit(HeldInARow(log[from..], k), Round(p));
  }

  lemma ThreeGaps(row: seq<int>, d: nat)
    requires Spaced(row, d) && |row| > 3
    ensures row[3] - row[0] <= 3 * d
  {
    assert row[0 + 1] - row[0] <= d && row[1 + 1] - row[1] <= d && row[2 + 1] - row[2] <= d;
  }

  lemma ThreeRoundsFit(row: seq<int>, d: nat)
    requires WithinBudget(row) && Spaced(row, d) && 3 * d < WINDOW
    ensures |row| <= 3
  {
    assert |row| > 3 ==> row[0 + MAX_ATTEMPTS] - row[0] >= WINDOW;
    if |row| > 3 { ThreeGaps(row, d); }
  }

  // ---------------------------------------------------------------- a fix that works

  /** Whenever a condition's budget is given back, the last that was said about it was that it fires. */
  predicate ClearedOnlyWhenAnnounced(log: seq<Entry>, k: Key) {
    forall j :: 0 <= j < |log| && log[j] == Cleared(k) ==> Announced(log[..j], k)
  }

  lemma OneMoreCleared(log: seq<Entry>, e: Entry, k: Key)
    requires ClearedOnlyWhenAnnounced(log, k) && (e == Cleared(k) ==> Announced(log, k))
    ensures ClearedOnlyWhenAnnounced(log + [e], k)
  {
    var longer := log + [e];
    assert forall j :: 0 <= j < |log| ==> longer[..j] == log[..j];
    assert longer[..|log|] == log;
  }

  lemma {:induction false} ObservingClearsNothing(log: seq<Entry>, obs: seq<Observation>, now: int, k: Key)
    requires ClearedOnlyWhenAnnounced(log, k)
    ensures ClearedOnlyWhenAnnounced(log + Entries(obs, now), k)
  {
    if obs == [] {
      NoEntries(log, now);
    } else {
      ObservingClearsNothing(log, obs[..|obs| - 1], now, k);
      EntriesOneMore(log, obs, now);
      OneMoreCleared(log + Entries(obs[..|obs| - 1], now), Observed(obs[|obs| - 1], now), k);
    }
  }

  lemma StepClearsOnlyWhenAnnounced(s: Sys, e: Event, k: Key)
    requires InHarmony(s, k) && ClearedOnlyWhenAnnounced(s.log, k)
    ensures ClearedOnlyWhenAnnounced(Step(s, e).log, k)
  {
    if Enabled(s, e) {
      match e {
        case Evaluate(now, views) => ObservingClearsNothing(s.log, Observations(views), now, k);
        case Remediate(r) =>
          var a := s.pending[0];
          assert a in s.pending;
          if a.key == k && !a.firing { assert Owed(s, a); }
          if !a.firing { OneMoreCleared(s.log, Cleared(a.key), k); }
          OneMoreCleared(s.log, Attempted(a.key, r.allowAt), k);
          assert s.log + [] == s.log;
        case Settle(at) => OneMoreCleared(s.log, Outcome(s.pending[0], s.verdict, at), k);
        case Forget(agent) => OneMoreCleared(s.log, Forgot(agent), k);
      }
    }
  }

  /**
   * A recovery gives a condition its budget back only if its alert had been sent. Where a fix worked the alert
   * was held, so there is no recovery to announce and the attempt stays counted until it leaves the window.
   */
  lemma {:induction false} BudgetsReturnOnlyAfterAnAlert(events: seq<Event>, k: Key)
    requires Orderly(events) && ForgetsBetween(EMPTY, events, k)
    ensures ClearedOnlyWhenAnnounced(Run(events).log, k)
  {
    if events != [] {
      var pre := events[..|events| - 1];
      assert forall x :: x in pre ==> x in events;
      BudgetsReturnOnlyAfterAnAlert(pre, k);
      HarmonyLasts(EMPTY, pre, k);
      StepClearsOnlyWhenAnnounced(Run(pre), events[|events| - 1], k);
    }
  }

  /** The condition fires at once, and its fix is run. */
  function Repair(k: Key, up: Rule, t: int): seq<Event> {
    [Look(k, up, t), Remediate(Remedy(true, true, "restart", true, t)), Settle(t)]
  }

  /** Two ticks lie between one failure and the next. */
  function FlapTime(n: nat): nat { if n == 0 then 0 else FlapTime(n - 1) + 2 * TICK }

  /** n failures, each repaired by the next tick, ten seconds later. */
  function Flaps(k: Key, up: Rule, down: Rule, n: nat): seq<Event> {
    if n == 0 then []
    else
      var t := FlapTime(n - 1);
      Flaps(k, up, down, n - 1) + (Repair(k, up, t) + [Look(k, down, t + TICK)])
  }

  function FlapTimes(n: nat): seq<int> { seq(n, (i: nat) => FlapTime(i)) }

  /** Nobody has been told, the condition is as good as new, and every repair is still counted. */
  predicate Flapped(s: Sys, k: Key, n: nat) {
    && s.pending == [] && s.verdict.Undecided? && Sent(s.log, k) == [] && Budget(s.attempts, BudgetKey(k)) == FlapTimes(n)
    && !StateOf(s.states, k).firing && StateOf(s.states, k).trueSince.None?
  }

  lemma {:induction false} AllRecent(times: seq<int>, now: int)
    requires forall i :: 0 <= i < |times| ==> now - times[i] < WINDOW
    ensures Recent(times, now) == times
  {
    if times != [] {
      AllRecent(times[..|times| - 1], now);
      assert times == times[..|times| - 1] + [times[|times| - 1]];
    }
  }

  lemma ThreeFlapsAreSoonOver(n: nat)
    requires n <= 3
    ensures FlapTime(n) < WINDOW
  {
    assert FlapTime(1) == 2 * TICK;
    assert FlapTime(2) == 4 * TICK;
    assert FlapTime(3) == 6 * TICK;
  }

  lemma FlapTimesRecent(n: nat)
    requires n <= 3
    ensures Recent(FlapTimes(n), FlapTime(n)) == FlapTimes(n) && FlapTimes(n + 1) == FlapTimes(n) + [FlapTime(n)]
  {
    ThreeFlapsAreSoonOver(n);
    AllRecent(FlapTimes(n), FlapTime(n));
  }

  /** The failure fires. */
  lemma FlapFires(s: Sys, k: Key, up: Rule, n: nat) returns (a: Alert)
    requires Flapped(s, k, n) && up.name == k.rule && up.active && up.forDur <= 0
    ensures var u := Step(s, Look(k, up, FlapTime(n)));
            && u.pending == [a] && a.key == k && a.firing && u.verdict.Undecided? && u.attempts == s.attempts
            && Sent(u.log, k) == [] && k in u.states
  {
    LookSteps(s, k, up, FlapTime(n));
    a := MakeAlert(Observation(k, "", up), Next(StateOf(s.states, k), "", up, FlapTime(n)));
  }

  /** The first three times the alert is held, the fourth time it is sent. */
  lemma FlapSettles(u: Sys, k: Key, n: nat, a: Alert)
    requires n <= 3 && u.pending == [a] && a.key == k && a.firing && u.verdict.Undecided? && k in u.states
    requires Sent(u.log, k) == [] && Budget(u.attempts, BudgetKey(k)) == FlapTimes(n)
    ensures var t := FlapTime(n);
            var w := Step(Step(u, Remediate(Remedy(true, true, "restart", true, t))), Settle(t));
            && w.pending == [] && w.verdict.Undecided?
            && (if n < 3 then Sent(w.log, k) == [] && Budget(w.attempts, BudgetKey(k)) == FlapTimes(n + 1)
                              && k in w.states && !w.states[k].firing
                else Sent(w.log, k) == [true])
  {
    var t := FlapTime(n);
    var r := Remedy(true, true, "restart", true, t);
    FlapTimesRecent(n);
    RemediatingIsSilent(u.log, u.attempts, a, r, k);
    var v := Step(u, Remediate(r));
    OneMoreEntry(v.log, Outcome(a, v.verdict, t));
  }

  /** The next tick finds it repaired, which is no transition. */
  lemma FlapClears(w: Sys, k: Key, down: Rule, n: nat, t: int)
    requires w.pending == [] && k in w.states && !w.states[k].firing && down.name == k.rule && ClearsMargin(down)
    requires Sent(w.log, k) == [] && Budget(w.attempts, BudgetKey(k)) == FlapTimes(n)
    ensures Flapped(Step(w, Look(k, down, t)), k, n)
  {
    LookSteps(w, k, down, t);
  }

  lemma RepairSteps(events: seq<Event>, k: Key, up: Rule, t: int)
    ensures var r := Repair(k, up, t);
            Run(events + r) == Step(Step(Step(Run(events), r[0]), r[1]), r[2])
  {
    var r := Repair(k, up, t);
    assert r == [r[0], r[1], r[2]];
    ThreeMore(events, r[0], r[1], r[2]);
  }

  lemma FlapOnce(before: seq<Event>, k: Key, up: Rule, down: Rule, n: nat, t: int)
    requires Readings(k, up, down) && up.forDur <= 0 && n < 3 && t == FlapTime(n) && Flapped(Run(before), k, n)
    ensures Flapped(Run(before + (Repair(k, up, t) + [Look(k, down, t + TICK)])), k, n + 1)
  {
    var a := FlapFires(Run(before), k, up, n);
    FlapSettles(Step(Run(before), Look(k, up, t)), k, n, a);
    RepairSteps(before, k, up, t);
    var w := Run(before + Repair(k, up, t));
    FlapClears(w, k, down, n + 1, t + TICK);
    ResumeOneMore(EMPTY, before + Repair(k, up, t), Look(k, down, t + TICK));
    Regroup(before, Repair(k, up, t), Look(k, down, t + TICK));
  }

  lemma {:induction false} FlapsFlap(k: Key, up: Rule, down: Rule, n: nat)
    requires Readings(k, up, down) && up.forDur <= 0 && n <= 3
    ensures Flapped(Run(Flaps(k, up, down, n)), k, n)
  {
    if n > 0 {
      FlapsFlap(k, up, down, n - 1);
      FlapOnce(Flaps(k, up, down, n - 1), k, up, down, n - 1, FlapTime(n - 1));
    }
  }

  lemma RepairIsTimely(events: seq<Event>, k: Key, up: Rule, t: int)
    requires Timely(events) && Before(events, t)
    ensures Timely(events + Repair(k, up, t)) && Before(events + Repair(k, up, t), t)
  {
    var r := Repair(k, up, t);
    TimelyOneMore(events, r[0], t);
    TimelyOneMore(events + [r[0]], r[1], t);
    TimelyOneMore(events + [r[0]] + [r[1]], r[2], t);
    assert events + r == events + [r[0]] + [r[1]] + [r[2]];
  }

  lemma FlapIsTimely(before: seq<Event>, k: Key, up: Rule, down: Rule, t: int)
    requires Timely(before) && Before(before, t)
    ensures var after := before + (Repair(k, up, t) + [Look(k, down, t + TICK)]); Timely(after) && Before(after, t + 2 * TICK)
  {
    RepairIsTimely(before, k, up, t);
    TimelyOneMore(before + Repair(k, up, t), Look(k, down, t + TICK), t + TICK);
    Regroup(before, Repair(k, up, t), Look(k, down, t + TICK));
  }

  lemma {:induction false} FlapsTimely(k: Key, up: Rule, down: Rule, n: nat)
    ensures Timely(Flaps(k, up, down, n)) && Before(Flaps(k, up, down, n), FlapTime(n))
  {
    if n > 0 {
      FlapsTimely(k, up, down, n - 1);
      FlapIsTimely(Flaps(k, up, down, n - 1), k, up, down, FlapTime(n - 1));
    }
  }

  /** The ticks find the condition alone, up or down, and nobody is forgotten. */
  predicate OnlyLooks(events: seq<Event>, k: Key, up: Rule, down: Rule) {
    forall e :: e in events ==> !e.Forget? && (e.Evaluate? ==> e.views == View(k, up) || e.views == View(k, down))
  }

  lemma {:induction false} FlapsOnlyLook(k: Key, up: Rule, down: Rule, n: nat)
    ensures OnlyLooks(Flaps(k, up, down, n), k, up, down)
  {
    if n > 0 { FlapsOnlyLook(k, up, down, n - 1); }
  }

  lemma OnlyLooksIsPlain(events: seq<Event>, k: Key, up: Rule, down: Rule)
    requires OnlyLooks(events, k, up, down) && Readings(k, up, down)
    ensures Plain(events)
  {
    ViewObserves(k, up);
    ViewObserves(k, down);
  }

  /** Those runs are ordinary ones. */
  lemma WorkingFixesAreTimely(k: Key, up: Rule, down: Rule)
    requires Readings(k, up, down)
    ensures var events := Flaps(k, up, down, 3) + Repair(k, up, FlapTime(3)); Timely(events) && Plain(events)
  {
    var flaps, last := Flaps(k, up, down, 3), Repair(k, up, FlapTime(3));
    FlapsTimely(k, up, down, 3);
    RepairIsTimely(flaps, k, up, FlapTime(3));
    FlapsOnlyLook(k, up, down, 3);
    assert forall e :: e in flaps + last <==> e in flaps || e in last;
    OnlyLooksIsPlain(flaps + last, k, up, down);
  }

  /**
   * A service that fails every twenty seconds and is repaired by its fix each time: the first three times nobody
   * is told, and the fourth time the alert is sent without a fix being tried.
   */
  lemma WorkingFixesSpendTheBudget(k: Key, up: Rule, down: Rule)
    requires Readings(k, up, down) && up.forDur <= 0
    ensures Sent(Run(Flaps(k, up, down, 3)).log, k) == []
    ensures Sent(Run(Flaps(k, up, down, 3) + Repair(k, up, FlapTime(3))).log, k) == [true]
  {
    FlapsFlap(k, up, down, 3);
    var before := Flaps(k, up, down, 3);
    var a := FlapFires(Run(before), k, up, 3);
    FlapSettles(Step(Run(before), Look(k, up, FlapTime(3))), k, 3, a);
    RepairSteps(before, k, up, FlapTime(3));
  }
}
