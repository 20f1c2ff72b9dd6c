/** What is sent about a condition over whole runs: fires and recoveries in turn, and exactly when not. */
module Alternation {
  import opened Alerts
  import opened AlertLoop

  // ---------------------------------------------------------------- alerts alternate

  /** What the transition under way will turn over is still what was last said, and what the engine believes. */
  predicate Owed(s: Sys, a: Alert) {
    Announced(s.log, a.key) != a.firing && Firing(s.states, a.key) == a.firing
  }

  /** The engine and its audience agree about a condition, or are about to. */
  predicate InHarmony(s: Sys, k: Key) {
    && Alternates(s.log, k)
    && (if ToBeHeld(s, k) then !Announced(s.log, k)
        else if InFlight(s, k) then forall a :: a in s.pending && a.key == k ==> Owed(s, a)
        else Announced(s.log, k) == Firing(s.states, k))
  }

  lemma EvaluatingKeepsHarmony(s: Sys, obs: seq<Observation>, now: int, k: Key)
    requires InHarmony(s, k) && s.pending == [] && DistinctKeys(obs)
    ensures InHarmony(Evaluated(s, obs, now), k)
  {
    TransitionsAreFlips(s.states, obs, now);
    ObservingIsSilent(s.log, obs, now, k);
  }

  lemma RemediatingKeepsHarmony(s: Sys, r: Remedy, k: Key)
    requires InHarmony(s, k) && Queued(s) && Enabled(s, Remediate(r))
    ensures InHarmony(Remediated(s, r), k)
  {
    var s' := Remediated(s, r);
    RemediatingIsSilent(s.log, s.attempts, s.pending[0], r, k);
    assert InFlight(s', k) == InFlight(s, k);
    if s.pending[0].key == k {
      assert s.pending[0] in s.pending && Owed(s, s.pending[0]);
    }
  }

  lemma RestOfQueue(s: Sys, k: Key)
    requires s.pending != [] && OneEach(s.pending)
    ensures var a := s.pending[0];
            forall b :: b in s.pending[1..] <==> b in s.pending && b != a
    ensures forall b :: b in s.pending[1..] ==> b.key != s.pending[0].key
  {
    assert forall b :: b in s.pending[1..] ==> b in s.pending;
    assert forall b :: b in s.pending ==> b == s.pending[0] || b in s.pending[1..];
  }

  lemma SettlingKeepsHarmony(s: Sys, at: int, k: Key)
    requires InHarmony(s, k) && Queued(s) && Enabled(s, Settle(at))
    ensures InHarmony(Settled(s, at), k)
  {
    var a, s' := s.pending[0], Settled(s, at);
    RestOfQueue(s, k);
    assert a in s.pending;
    if a.key == k {
      if s.verdict.Hold? {
        Unspoken(s.log, Held(k, s.verdict.at, at), k);
      } else {
        assert Owed(s, a);
        Spoken(s.log, a);
      }
    } else {
      Unspoken(s.log, Outcome(a, s.verdict, at), k);
      assert InFlight(s', k) == InFlight(s, k);
    }
  }

  /**
   * Forgetting a host keeps harmony about a condition exactly when none of the condition's transitions is
   * on its way to be sent: what the queue still carries would speak for a state that is gone.
   */
  lemma ForgettingKeepsHarmonyExactly(s: Sys, agent: string, k: Key)
    requires InHarmony(s, k) && Queued(s)
    ensures InHarmony(Forgotten(s, agent), k) <==> agent != k.agent || !InFlight(s, k) || ToBeHeld(s, k)
  {
    var s' := Forgotten(s, agent);
    ForgotEntry(s.log, agent, k);
    assert InFlight(s', k) == InFlight(s, k) && ToBeHeld(s', k) == ToBeHeld(s, k);
    if agent == k.agent && InFlight(s, k) && !ToBeHeld(s, k) {
      var a :| a in s.pending && a.key == k;
      assert !Owed(s', a);
    }
  }

  /** No step of the run forgets the host while a transition of the condition is on its way to be sent. */
  predicate ForgetsBetween(s: Sys, events: seq<Event>, k: Key) {
    events == [] ||
    var pre, e := events[..|events| - 1], events[|events| - 1];
    && ForgetsBetween(s, pre, k)
    && (e == Forget(k.agent) ==> !InFlight(Resume(s, pre), k) || ToBeHeld(Resume(s, pre), k))
  }

  lemma StepKeepsHarmony(s: Sys, e: Event, k: Key)
    requires InHarmony(s, k) && Queued(s) && Orderly([e])
    requires e == Forget(k.agent) ==> !InFlight(s, k) || ToBeHeld(s, k)
    ensures InHarmony(Step(s, e), k)
  {
    if Enabled(s, e) {
      match e {
        case Evaluate(now, views) =>
          assert e in [e];
          EvaluatingKeepsHarmony(s, Observations(views), now, k);
        case Remediate(r) => RemediatingKeepsHarmony(s, r, k);
        case Settle(at) => SettlingKeepsHarmony(s, at, k);
        case Forget(agent) => ForgettingKeepsHarmonyExactly(s, agent, k);
      }
    }
  }

  lemma {:induction false} HarmonyLasts(s: Sys, events: seq<Event>, k: Key)
    requires InHarmony(s, k) && Queued(s) && Orderly(events) && ForgetsBetween(s, events, k)
    ensures InHarmony(Resume(s, events), k) && Queued(Resume(s, events))
  {
    if events != [] {
      var pre, e := events[..|events| - 1], events[|events| - 1];
      assert e in events && forall x :: x in pre ==> x in events;
      HarmonyLasts(s, pre, k);
      StepKeepsHarmony(Resume(s, pre), e, k);
      StepKeepsQueue(Resume(s, pre), e);
    }
  }

  /**
   * In every run that forgets a host only between its transitions, whatever fixes are tried, the alerts sent
   * for its conditions turn over each time. A host that is forgotten starts again in silence.
   */
  lemma DispatchesAlternate(events: seq<Event>, k: Key)
    requires Orderly(events) && ForgetsBetween(EMPTY, events, k)
    ensures InHarmony(Run(events), k)
  {
    HarmonyLasts(EMPTY, events, k);
  }

  // ---------------------------------------------------------------- and exactly then

  function NoFix(t: int): Remedy { Remedy(false, false, "", false, t) }

  /** What will have been said about a condition, and believed, when the queue is empty and nothing was fixed. */
  predicate FinallyAnnounced(s: Sys, k: Key) {
    if InFlight(s, k) && !ToBeHeld(s, k) then exists a :: a in s.pending && a.key == k && a.firing
    else Announced(s.log, k)
  }

  predicate FinallyFiring(s: Sys, k: Key) { Firing(s.states, k) && !ToBeHeld(s, k) }

  /** The alert the queue still carries, if any, does turn over what was last said. */
  predicate WillAlternate(s: Sys, k: Key) {
    Alternates(s.log, k) &&
    (InFlight(s, k) && !ToBeHeld(s, k) ==> forall a :: a in s.pending && a.key == k ==> Announced(s.log, k) != a.firing)
  }

  /** Nobody is forgotten and no fix is tried. */
  predicate Plain(events: seq<Event>) {
    Orderly(events) && forall e :: e in events ==> !e.Forget?
  }

  /** How the rule of a condition may look while it is true and when it has cleared. */
  predicate Readings(k: Key, up: Rule, down: Rule) {
    up.name == k.rule && down.name == k.rule && up.active && ClearsMargin(down)
  }

  function View(k: Key, r: Rule): seq<HostRules> { [HostRules(k.agent, "", [r])] }

  /** No tick finds anything but the condition, up or down; nothing is fixed and nobody forgotten. */
  predicate Ordinary(events: seq<Event>, k: Key, up: Rule, down: Rule) {
    forall e :: e in events ==>
      match e
      case Evaluate(_, views) => views == View(k, up) || views == View(k, down)
      case Remediate(r) => !r.scripted
      case Settle(_) => true
      case Forget(_) => false
  }

  /** An ordinary run in which the clock moves on from t. */
  predicate OrdinaryFrom(events: seq<Event>, k: Key, up: Rule, down: Rule, t: int) {
    Ordinary(events, k, up, down) && Timely(events) && After(events, t)
  }

  lemma ViewObserves(k: Key, r: Rule)
    requires r.name == k.rule
    ensures Observations(View(k, r)) == [Observation(k, "", r)]
  {
    var v := View(k, r)[0];
    assert [v][..0] == [] && Observations([]) == [];
    assert HostObservations(v, 1) == [Observation(k, "", r)];
  }

  lemma OrdinaryIsPlain(events: seq<Event>, k: Key, up: Rule, down: Rule)
    requires Ordinary(events, k, up, down) && Readings(k, up, down)
    ensures Plain(events)
  {
    ViewObserves(k, up);
    ViewObserves(k, down);
  }

  predicate SameFuture(s: Sys, t: Sys, k: Key) {
    WillAlternate(s, k) == WillAlternate(t, k) && FinallyAnnounced(s, k) == FinallyAnnounced(t, k)
    && FinallyFiring(s, k) == FinallyFiring(t, k)
  }

  lemma SendingIsForeseen(s: Sys, t: int, k: Key)
    requires Queued(s) && Enabled(s, Remediate(NoFix(t)))
    ensures SameFuture(Remediated(s, NoFix(t)), s, k)
  {
    RemediatingIsSilent(s.log, s.attempts, s.pending[0], NoFix(t), k);
    assert InFlight(Remediated(s, NoFix(t)), k) == InFlight(s, k);
  }

  lemma SettlingIsForeseen(s: Sys, at: int, k: Key)
    requires Queued(s) && Enabled(s, Settle(at))
    ensures SameFuture(Settled(s, at), s, k)
  {
    var a, s' := s.pending[0], Settled(s, at);
    RestOfQueue(s, k);
    assert a in s.pending;
    if a.key == k {
      assert !InFlight(s', k);
      Spoken(s.log, a);
      if s.verdict.Hold? { Unspoken(s.log, Held(k, s.verdict.at, at), k); }
    } else {
      Unspoken(s.log, Outcome(a, s.verdict, at), k);
      assert InFlight(s', k) == InFlight(s, k);
    }
  }

  /** Every step of working off the queue without a fix is taken at once. */
  predicate Drains(events: seq<Event>, t: int) {
    forall e :: e in events ==> e == Remediate(NoFix(t)) || e == Settle(t)
  }

  lemma {:induction false} DrainsTimely(events: seq<Event>, t: int)
    requires Drains(events, t)
    ensures Timely(events) && After(events, t) && Before(events, t)
  {
    if events != [] {
      var pre := events[..|events| - 1];
      assert events[|events| - 1] in events && forall x :: x in pre ==> x in events;
      DrainsTimely(pre, t);
    }
  }

  /** The queue can be worked off without a fix, and that brings about what was foreseen. */
  lemma {:induction false} QueueDrains(s: Sys, t: int, k: Key) returns (more: seq<Event>)
    requires Queued(s)
    ensures Drains(more, t) && Resume(s, more).pending == [] && SameFuture(Resume(s, more), s, k)
    ensures Queued(Resume(s, more))
    decreases |s.pending|, s.verdict.Undecided?
  {
    if s.pending == [] {
      more := [];
    } else {
      var e := if s.verdict.Undecided? then Remediate(NoFix(t)) else Settle(t);
      if s.verdict.Undecided? { SendingIsForeseen(s, t, k); } else { SettlingIsForeseen(s, t, k); }
      StepKeepsQueue(s, e);
      var rest := QueueDrains(Step(s, e), t, k);
      more := [e] + rest;
      assert [e][..0] == [] && Resume(s, [e]) == Step(s, e);
      ResumeJoins(s, [e], rest);
      assert forall x :: x in more <==> x == e || x in rest;
    }
  }

  /** A tick that finds only this condition. */
  function Look(k: Key, r: Rule, now: int): Event { Evaluate(now, View(k, r)) }

  lemma LookSteps(s: Sys, k: Key, r: Rule, now: int)
    requires s.pending == [] && r.name == k.rule
    ensures var s', st := Step(s, Look(k, r, now)), Next(StateOf(s.states, k), "", r, now);
            && s'.states == s.states[k := st]
            && s'.pending == (if st.firing == Firing(s.states, k) then [] else [MakeAlert(Observation(k, "", r), st)])
            && s'.verdict.Undecided? && SaysAlike(s'.log, s.log, k)
  {
    ViewObserves(k, r);
    var o := Observation(k, "", r);
    OneMore(s.states, [], o, now);
    assert [] + [o] == [o];
    ObservingIsSilent(s.log, [o], now, k);
  }

  /** The condition's flag was turned over, and the alert about it is all there is in the queue. */
  predicate Turned(s: Sys, s': Sys, k: Key) {
    && |s'.pending| == 1 && s'.pending[0].key == k && s'.pending[0].firing == !Firing(s.states, k)
    && s'.verdict.Undecided? && SaysAlike(s'.log, s.log, k)
  }

  /** Ticks ten seconds apart that all find the condition alike. */
  function Looks(k: Key, r: Rule, t: int, n: nat): seq<Event>
    decreases n
  {
    if n == 0 then [] else [Look(k, r, t)] + Looks(k, r, t + TICK, n - 1)
  }

  lemma {:induction false} LooksTimely(k: Key, r: Rule, t: int, n: nat)
    ensures Timely(Looks(k, r, t, n)) && After(Looks(k, r, t, n), t) && Before(Looks(k, r, t, n), t + n * TICK)
    ensures forall e :: e in Looks(k, r, t, n) ==> e.Evaluate? && e.views == View(k, r)
    decreases n
  {
    if n > 0 {
      LooksTimely(k, r, t + TICK, n - 1);
      assert [Look(k, r, t)][..0] == [];
      TimelyJoins([Look(k, r, t)], Looks(k, r, t + TICK, n - 1), t + TICK);
    }
  }

  /** How much of the sustain time is still to come. */
  function ToGo(s: Sys, k: Key, r: Rule, t: int): nat {
    var start := if StateOf(s.states, k).trueSince.Some? then StateOf(s.states, k).trueSince.value else t;
    if start + r.forDur > t then start + r.forDur - t else 0
  }

  lemma LooksOneMore(s: Sys, k: Key, r: Rule, t: int, n: nat)
    ensures Resume(s, Looks(k, r, t, n + 1)) == Resume(Step(s, Look(k, r, t)), Looks(k, r, t + TICK, n))
  {
    var e := Look(k, r, t);
    assert [e][..0] == [] && Resume(s, [e]) == Step(s, e);
    ResumeJoins(s, [e], Looks(k, r, t + TICK, n));
  }

  /** The look that ends the sustain time lets the condition fire. */
  lemma LookFires(s: Sys, k: Key, r: Rule, t: int)
    requires s.pending == [] && r.name == k.rule && r.active && !Firing(s.states, k) && ToGo(s, k, r, t) == 0
    ensures Turned(s, Step(s, Look(k, r, t)), k)
  {
    LookSteps(s, k, r, t);
  }

  /** An earlier one only takes its time off what is to go. */
  lemma LookWaits(s: Sys, k: Key, r: Rule, t: int)
    requires s.pending == [] && r.name == k.rule && r.active && !Firing(s.states, k) && ToGo(s, k, r, t) > 0
    ensures var s' := Step(s, Look(k, r, t));
            && s'.pending == [] && !Firing(s'.states, k) && SaysAlike(s'.log, s.log, k)
            && ToGo(s', k, r, t + TICK) < ToGo(s, k, r, t)
  {
    LookSteps(s, k, r, t);
  }

  /** A condition that does not fire does so after enough ticks that find it true, whatever its duration. */
  lemma {:induction false} LooksFire(s: Sys, k: Key, r: Rule, t: int) returns (n: nat)
    requires s.pending == [] && r.name == k.rule && r.active && !Firing(s.states, k)
    ensures Turned(s, Resume(s, Looks(k, r, t, n)), k)
    decreases ToGo(s, k, r, t)
  {
    if ToGo(s, k, r, t) == 0 {
      LookFires(s, k, r, t);
      n := 1;
      LooksOneMore(s, k, r, t, 0);
    } else {
      LookWaits(s, k, r, t);
      var s' := Step(s, Look(k, r, t));
      var rest := LooksFire(s', k, r, t + TICK);
      TurnedLater(s, s', Resume(s', Looks(k, r, t + TICK, rest)), k);
      LooksOneMore(s, k, r, t, rest);
      n := rest + 1;
    }
  }

  lemma TurnedLater(s: Sys, s': Sys, u: Sys, k: Key)
    requires Firing(s'.states, k) == Firing(s.states, k) && SaysAlike(s'.log, s.log, k) && Turned(s', u, k)
    ensures Turned(s, u, k)
  {
  }

  lemma LooksTurn(s: Sys, k: Key, up: Rule, down: Rule, t: int) returns (n: nat, r: Rule)
    requires s.pending == [] && Readings(k, up, down)
    ensures r == (if Firing(s.states, k) then down else up) && Turned(s, Resume(s, Looks(k, r, t, n)), k)
  {
    if Firing(s.states, k) {
      n, r := 1, down;
      LookSteps(s, k, down, t);
      LooksOneMore(s, k, down, t, 0);
    } else {
      r := up;
      n := LooksFire(s, k, up, t);
    }
  }

  lemma ThenTimely(a: seq<Event>, b: seq<Event>, from: int, t: int)
    requires Timely(a) && After(a, from) && Before(a, t) && Timely(b) && After(b, t) && from <= t
    ensures Timely(a + b) && After(a + b, from)
  {
    TimelyJoins(a, b, t);
    assert forall x :: x in a + b <==> x in a || x in b;
  }

  lemma TurnTakesTime(drain: seq<Event>, k: Key, r: Rule, n: nat, rest: seq<Event>, t: int)
    requires Drains(drain, t) && Drains(rest, t + n * TICK)
    ensures Timely(drain + (Looks(k, r, t, n) + rest)) && After(drain + (Looks(k, r, t, n) + rest), t)
    ensures forall e :: e in drain + (Looks(k, r, t, n) + rest) ==>
              e in drain || e in rest || (e.Evaluate? && e.views == View(k, r))
  {
    DrainsTimely(drain, t);
    LooksTimely(k, r, t, n);
    DrainsTimely(rest, t + n * TICK);
    ThenTimely(Looks(k, r, t, n), rest, t, t + n * TICK);
    ThenTimely(drain, Looks(k, r, t, n) + rest, t, t);
  }

  /** With the queue empty and engine and audience apart, the next alert repeats the last. */
  lemma TurningShows(u: Sys, k: Key, up: Rule, down: Rule, t: int) returns (n: nat, r: Rule, rest: seq<Event>)
    requires Queued(u) && u.pending == [] && Announced(u.log, k) != Firing(u.states, k) && Readings(k, up, down)
    ensures (r == up || r == down) && Drains(rest, t + n * TICK)
    ensures !Alternates(Resume(u, Looks(k, r, t, n) + rest).log, k)
  {
    n, r := LooksTurn(u, k, up, down, t);
    var v := Resume(u, Looks(k, r, t, n));
    assert OneEach(v.pending);
    rest := QueueDrains(v, t + n * TICK, k);
    TurnedBreaks(u, v, Resume(v, rest), k);
    ResumeJoins(u, Looks(k, r, t, n), rest);
  }

  /** Out of harmony, some ordinary continuation sends two alerts of one kind in a row, whatever the rule is. */
  lemma DisharmonyShows(s: Sys, k: Key, up: Rule, down: Rule, t: int) returns (more: seq<Event>)
    requires Queued(s) && !InHarmony(s, k) && Readings(k, up, down)
    ensures OrdinaryFrom(more, k, up, down, t) && !Alternates(Resume(s, more).log, k)
  {
    var drain := QueueDrains(s, t, k);
    var u := Resume(s, drain);
    assert !InFlight(u, k);
    if !Alternates(u.log, k) {
      more := drain;
      DrainsTimely(drain, t);
    } else {
      DisharmonyRemains(s, k);
      var n, r, rest := TurningShows(u, k, up, down, t);
      more := drain + (Looks(k, r, t, n) + rest);
      TurnTakesTime(drain, k, r, n, rest, t);
      ResumeJoins(s, drain, Looks(k, r, t, n) + rest);
    }
  }

  lemma DisharmonyRemains(s: Sys, k: Key)
    requires Queued(s) && !InHarmony(s, k) && WillAlternate(s, k)
    ensures FinallyAnnounced(s, k) != FinallyFiring(s, k)
  {
    if ToBeHeld(s, k) {
      assert s.pending[0] in s.pending;
    } else if InFlight(s, k) {
      var a :| a in s.pending && a.key == k;
      assert forall b :: b in s.pending && b.key == k ==> b == a;
    }
  }

  lemma TurnedBreaks(u: Sys, v: Sys, w: Sys, k: Key)
    requires u.pending == [] && Announced(u.log, k) != Firing(u.states, k)
    requires Turned(u, v, k) && SameFuture(w, v, k) && w.pending == []
    ensures !Alternates(w.log, k)
  {
    assert v.pending[0] in v.pending;
    assert InFlight(v, k);
  }

  /**
   * Harmony is exactly what it takes: every careful continuation alternates if and only if the engine and
   * its audience agree, or are about to.
   */
  lemma HarmonyIsExact(s: Sys, k: Key)
    requires Queued(s)
    ensures InHarmony(s, k) <==>
            forall more :: Orderly(more) && ForgetsBetween(s, more, k) ==> Alternates(Resume(s, more).log, k)
  {
    if InHarmony(s, k) {
      forall more | Orderly(more) && ForgetsBetween(s, more, k) ensures Alternates(Resume(s, more).log, k) {
        HarmonyLasts(s, more, k);
      }
    } else {
      var up, down := Rule(k.rule, 0.0, 0.0, true, 0), Rule(k.rule, 0.0, 0.0, false, 0);
      var more := DisharmonyShows(s, k, up, down, 0);
      OrdinaryIsPlain(more, k, up, down);
      PlainIsCareful(s, more, k);
    }
  }

  lemma {:induction false} PlainIsCareful(s: Sys, events: seq<Event>, k: Key)
    requires forall e :: e in events ==> e != Forget(k.agent)
    ensures ForgetsBetween(s, events, k)
  {
    if events != [] {
      var pre := events[..|events| - 1];
      assert events[|events| - 1] in events && forall e :: e in pre ==> e in events;
      PlainIsCareful(s, pre, k);
    }
  }

  /** Every state a run can reach is in harmony about a condition exactly if all its careful continuations alternate. */
  lemma RunsAreInHarmonyExactly(events: seq<Event>, k: Key)
    requires Orderly(events)
    ensures InHarmony(Run(events), k) <==>
            forall more :: Orderly(more) && ForgetsBetween(Run(events), more, k) ==>
              Alternates(Resume(Run(events), more).log, k)
  {
    ResumeKeepsQueue(EMPTY, events);
    HarmonyIsExact(Run(events), k);
  }

  /**
   * So the restriction on forgets is needed each time: after any run that kept to it, forgetting the host of
   * a condition whose transition is on its way to be sent leads, by ordinary steps alone, to two fires or two
   * recoveries in a row. It does so whatever the condition's rule is, and from any time on.
   */
  lemma ForgettingInFlightBreaks(events: seq<Event>, k: Key, up: Rule, down: Rule, t: int) returns (more: seq<Event>)
    requires Orderly(events) && ForgetsBetween(EMPTY, events, k) && Readings(k, up, down)
    requires InFlight(Run(events), k) && !ToBeHeld(Run(events), k)
    ensures OrdinaryFrom(more, k, up, down, t) && !Alternates(Run(events + [Forget(k.agent)] + more).log, k)
  {
    var s := Run(events);
    HarmonyLasts(EMPTY, events, k);
    ForgettingKeepsHarmonyExactly(s, k.agent, k);
    more := DisharmonyShows(Forgotten(s, k.agent), k, up, down, t);
    ResumeOneMore(EMPTY, events, Forget(k.agent));
    ResumeJoins(EMPTY, events + [Forget(k.agent)], more);
  }

  /** The first forget of the condition's host at the wrong moment. */
  lemma {:induction false} FirstCarelessForget(events: seq<Event>, k: Key) returns (n: nat)
    requires !ForgetsBetween(EMPTY, events, k)
    ensures n < |events| && ForgetsBetween(EMPTY, events[..n], k) && events[n] == Forget(k.agent)
    ensures InFlight(Run(events[..n]), k) && !ToBeHeld(Run(events[..n]), k)
  {
    var pre := events[..|events| - 1];
    if ForgetsBetween(EMPTY, pre, k) {
      n := |events| - 1;
    } else {
      n := FirstCarelessForget(pre, k);
      assert pre[..n] == events[..n];
    }
  }

  lemma {:induction false} CarefulSoFar(events: seq<Event>, n: nat, k: Key)
    requires ForgetsBetween(EMPTY, events, k) && n <= |events|
    ensures ForgetsBetween(EMPTY, events[..n], k)
  {
    if n == |events| {
      assert events[..n] == events;
    } else {
      CarefulSoFar(events[..|events| - 1], n, k);
      assert events[..|events| - 1][..n] == events[..n];
    }
  }

  /** A careful run goes on alternating as long as nobody is forgotten. */
  lemma CarefulRunsAlternate(events: seq<Event>, n: nat, more: seq<Event>, k: Key)
    requires Orderly(events) && ForgetsBetween(EMPTY, events, k) && n <= |events| && Plain(more)
    ensures Alternates(Run(events[..n] + more).log, k)
  {
    CarefulSoFar(events, n, k);
    assert forall e :: e in events[..n] ==> e in events;
    HarmonyLasts(EMPTY, events[..n], k);
    PlainIsCareful(Run(events[..n]), more, k);
    HarmonyLasts(Run(events[..n]), more, k);
    ResumeJoins(EMPTY, events[..n], more);
  }

  /** And a careless one could have gone on to repeat itself. */
  lemma CarelessRunsBreak(events: seq<Event>, k: Key) returns (n: nat, more: seq<Event>)
    requires Orderly(events) && !ForgetsBetween(EMPTY, events, k)
    ensures n <= |events| && Plain(more) && !Alternates(Run(events[..n] + more).log, k)
  {
    var i := FirstCarelessForget(events, k);
    var up, down := Rule(k.rule, 0.0, 0.0, true, 0), Rule(k.rule, 0.0, 0.0, false, 0);
    assert forall e :: e in events[..i] ==> e in events;
    more := ForgettingInFlightBreaks(events[..i], k, up, down, 0);
    OrdinaryIsPlain(more, k, up, down);
    n := i + 1;
    assert events[..n] == events[..i] + [Forget(k.agent)];
  }

  /**
   * When alerts alternate: a run forgets the host of a condition only between its transitions if and only if
   * its alerts alternate wherever the run is broken off and whatever ordinary steps then follow.
   */
  lemma AlternationIsExact(events: seq<Event>, k: Key)
    requires Orderly(events)
    ensures ForgetsBetween(EMPTY, events, k) <==>
            forall n: nat, more :: n <= |events| && Plain(more) ==> Alternates(Run(events[..n] + more).log, k)
  {
    if ForgetsBetween(EMPTY, events, k) {
      forall n: nat, more | n <= |events| && Plain(more) ensures Alternates(Run(events[..n] + more).log, k) {
        CarefulRunsAlternate(events, n, more, k);
      }
    } else {
      var n, more := CarelessRunsBreak(events, k);
    }
  }

  /**
   * It takes no more than ticks ten seconds apart until the condition fires, and a forget before that is sent:
   * for every condition and whatever its rule, the clock moving on all the while.
   */
  lemma ForgottenHostAlertsTwice(k: Key, up: Rule, down: Rule, t: int) returns (n: nat, more: seq<Event>)
    requires Readings(k, up, down)
    ensures OrdinaryFrom(more, k, up, down, t + n * TICK) && Timely(Looks(k, up, t, n) + [Forget(k.agent)] + more)
    ensures !Alternates(Run(Looks(k, up, t, n) + [Forget(k.agent)] + more).log, k)
  {
    n := LooksFire(EMPTY, k, up, t);
    var ticks := Looks(k, up, t, n);
    assert Run(ticks).pending[0] in Run(ticks).pending;
    LooksTimely(k, up, t, n);
    OrdinaryIsPlain(ticks, k, up, down);
    PlainIsCareful(EMPTY, ticks, k);
    more := ForgettingInFlightBreaks(ticks, k, up, down, t + n * TICK);
    assert forall e :: e in ticks + [Forget(k.agent)] <==> e in ticks || e == Forget(k.agent);
    assert (ticks + [Forget(k.agent)])[..|ticks|] == ticks;
    TimelyJoins(ticks + [Forget(k.agent)], more, t + n * TICK);
  }

  // ---------------------------------------------------------------- without a forget

  lemma {:induction false} AlternationInOrder(log: seq<Entry>, k: Key)
    requires Alternates(log, k) && NoForgot(log, k.agent)
    ensures forall i :: 0 <= i < |Sent(log, k)| ==> Sent(log, k)[i] == (i % 2 == 0)
    ensures Announced(log, k) == (|Sent(log, k)| % 2 == 1)
  {
    if log != [] {
      AlternationInOrder(log[..|log| - 1], k);
      assert log[|log| - 1] in log;
    }
  }

  predicate NeverForgets(events: seq<Event>, agent: string) {
    forall e :: e in events && e.Forget? ==> e.agent != agent
  }

  predicate NoForgot(log: seq<Entry>, agent: string) {
    forall e :: e in log && e.Forgot? ==> e.agent != agent
  }

  lemma {:induction false} OnlyForgetForgets(events: seq<Event>, agent: string)
    requires NeverForgets(events, agent)
    ensures NoForgot(Run(events).log, agent)
  {
    if events != [] {
      var pre, last := events[..|events| - 1], events[|events| - 1];
      OnlyForgetForgets(pre, agent);
      assert last in events;
    }
  }

  /** Without a forget: fire, resolve, fire, resolve, starting with a fire. */
  lemma FireResolveFire(events: seq<Event>, k: Key)
    requires Orderly(events) && NeverForgets(events, k.agent)
    ensures var sent := Sent(Run(events).log, k); forall i :: 0 <= i < |sent| ==> sent[i] == (i % 2 == 0)
  {
    PlainIsCareful(EMPTY, events, k);
    DispatchesAlternate(events, k);
    OnlyForgetForgets(events, k.agent);
    AlternationInOrder(Run(events).log, k);
  }
}
