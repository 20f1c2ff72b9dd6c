/**
 * The hand-over of internal/capture/dispatch.go: any number of callers, one worker on an unbuffered
 * channel, and callers that may stop waiting. A run is the sequence of the steps taken, in order.
 */
module Dispatch {
  import opened Optional
  import opened Sequences

  type Id = nat

  /** Each call of `send` makes one job; `Free` is the worker going back to its channel. */
  datatype Entry =
    | Send(id: Id)
    | HandOff(id: Id)
    | Start(id: Id)
    | Finish(id: Id)
    | Free
    | Return(id: Id, ok: bool)

  datatype Worker = Ready | Holding(id: Id) | Running(id: Id) | Leaving

  datatype Phase = Fresh | Offering | Waiting | Returned

  function WorkerAfter(log: seq<Entry>): Worker {
    if log == [] then Ready
    else
      match log[|log| - 1]
      case HandOff(id) => Holding(id)
      case Start(id) => Running(id)
      case Finish(_) => Leaving
      case Free => Ready
      case _ => WorkerAfter(log[..|log| - 1])
  }

  function PhaseAfter(log: seq<Entry>, id: Id): Phase {
    if log == [] then Fresh
    else
      var e, before := log[|log| - 1], PhaseAfter(log[..|log| - 1], id);
      match e
      case Send(i) => if i == id then Offering else before
      case HandOff(i) => if i == id then Waiting else before
      case Return(i, _) => if i == id then Returned else before
      case _ => before
  }

  /**
   * What may happen next. A channel send meets a receive; a timer may fire at any moment, also when the
   * other branch of the select is ready; with a timeout of zero (`patient`) there is no timer.
   */
  predicate Enabled(log: seq<Entry>, e: Entry, patient: bool) {
    match e
    case Send(id) => PhaseAfter(log, id).Fresh?
    case HandOff(id) => PhaseAfter(log, id).Offering? && WorkerAfter(log).Ready?
    case Start(id) => WorkerAfter(log) == Holding(id)
    case Finish(id) => WorkerAfter(log) == Running(id)
    case Free => WorkerAfter(log).Leaving?
    case Return(id, true) => PhaseAfter(log, id).Waiting? && Finish(id) in log
    case Return(id, false) => !patient && (PhaseAfter(log, id).Offering? || PhaseAfter(log, id).Waiting?)
  }

  predicate Legal(log: seq<Entry>, patient: bool) {
    log == [] ||
    (Legal(log[..|log| - 1], patient) && Enabled(log[..|log| - 1], log[|log| - 1], patient))
  }

  // ---------------------------------------------------------------- one job in every run

  /** How far one job has come, and what that says about the worker and its caller. */
  predicate Consistent(log: seq<Entry>, id: Id) {
    && (Start(id) in log ==> HandOff(id) in log)
    && (Finish(id) in log ==> Start(id) in log)
    && (WorkerAfter(log) == Holding(id) <==> HandOff(id) in log && Start(id) !in log)
    && (WorkerAfter(log) == Running(id) <==> Start(id) in log && Finish(id) !in log)
    && (PhaseAfter(log, id).Fresh? || PhaseAfter(log, id).Offering? ==> HandOff(id) !in log && Return(id, true) !in log)
    && (PhaseAfter(log, id).Waiting? ==> HandOff(id) in log && Return(id, true) !in log)
    && (PhaseAfter(log, id).Fresh? ==> Return(id, false) !in log)
    && (PhaseAfter(log, id).Offering? || PhaseAfter(log, id).Waiting? ==> Return(id, false) !in log)
    && (Return(id, true) in log ==> Finish(id) in log)
  }

  lemma InLonger(log: seq<Entry>, e: Entry)
    ensures forall x :: x in log + [e] <==> x in log || x == e
    ensures (log + [e])[..|log + [e]| - 1] == log
  {
  }

  lemma {:induction false} EveryJobIsConsistent(log: seq<Entry>, patient: bool, id: Id)
    requires Legal(log, patient)
    ensures Consistent(log, id)
  {
    if log != [] {
      var pre, e := log[..|log| - 1], log[|log| - 1];
      EveryJobIsConsistent(pre, patient, id);
      if (e.HandOff? || e.Start? || e.Finish?) && e.id != id {
        EveryJobIsConsistent(pre, patient, e.id);
      }
      assert log == pre + [e];
      InLonger(pre, e);
    }
  }

  lemma {:induction false} PrefixesAreLegal(log: seq<Entry>, patient: bool, i: nat)
    requires Legal(log, patient) && i < |log|
    ensures Legal(log[..i], patient) && Enabled(log[..i], log[i], patient)
  {
    if i < |log| - 1 {
      var pre := log[..|log| - 1];
      PrefixesAreLegal(pre, patient, i);
      assert pre[..i] == log[..i] && pre[i] == log[i];
    }
  }

  /** Whatever is possible at a step is consistent with what came before it. */
  lemma At(log: seq<Entry>, patient: bool, i: nat, id: Id)
    requires Legal(log, patient) && i < |log|
    ensures Consistent(log[..i], id) && Enabled(log[..i], log[i], patient)
  {
    PrefixesAreLegal(log, patient, i);
    EveryJobIsConsistent(log[..i], patient, id);
  }

  predicate Once(log: seq<Entry>, e: Entry, i: nat) {
    i < |log| && log[i] == e && forall j :: 0 <= j < |log| && log[j] == e ==> j == i
  }

  lemma Earlier(log: seq<Entry>, e: Entry, i: nat) returns (j: nat)
    requires i <= |log| && e in log[..i]
    ensures j < i && log[j] == e
  {
    j :| j < i && log[..i][j] == e;
  }

  /** A job is handed over, started and finished at most once each. */
  lemma StepsHappenOnce(log: seq<Entry>, patient: bool, i: nat, j: nat)
    requires Legal(log, patient) && i < j < |log|
    requires log[i].HandOff? || log[i].Start? || log[i].Finish?
    ensures log[j] != log[i]
  {
    assert log[i] == log[..j][i] && log[i] in log[..j];
    At(log, patient, j, log[i].id);
  }

  // ---------------------------------------------------------------- what the answer means

  /** `send` answers true only for a job that ran, once and to its end, before the answer. */
  lemma TrueMeansRanOnce(log: seq<Entry>, patient: bool, i: nat) returns (s: nat, f: nat)
    requires Legal(log, patient) && i < |log| && log[i].Return? && log[i].ok
    ensures s < f < i && Once(log, Start(log[i].id), s) && Once(log, Finish(log[i].id), f)
  {
    var id := log[i].id;
    At(log, patient, i, id);
    f := Earlier(log, Finish(id), i);
    At(log, patient, f, id);
    assert Start(id) in log[..f];
    s := Earlier(log, Start(id), f);
    OnlyOne(log, patient, s);
    OnlyOne(log, patient, f);
  }

  lemma OnlyOne(log: seq<Entry>, patient: bool, i: nat)
    requires Legal(log, patient) && i < |log|
    requires log[i].HandOff? || log[i].Start? || log[i].Finish?
    ensures Once(log, log[i], i)
  {
    forall j | 0 <= j < |log| && log[j] == log[i] ensures j == i {
      if i < j { StepsHappenOnce(log, patient, i, j); }
      if j < i { StepsHappenOnce(log, patient, j, i); }
    }
  }

  /** A caller that gives up before its job is taken can rely on the job never running, then or later. */
  lemma RefusedNeverRuns(log: seq<Entry>, patient: bool, i: nat)
    requires Legal(log, patient) && i < |log| && log[i].Return? && HandOff(log[i].id) !in log[..i]
    ensures !log[i].ok && HandOff(log[i].id) !in log && Start(log[i].id) !in log && Finish(log[i].id) !in log
  {
    var id := log[i].id;
    At(log, patient, i, id);
    forall j | 0 <= j < |log| ensures log[j] != HandOff(id) {
      if j < i {
        assert log[j] == log[..i][j] && log[j] in log[..i];
      } else if i < j {
        ReturnedStays(log, patient, i, j);
        At(log, patient, j, id);
      }
    }
    EveryJobIsConsistent(log, patient, id);
  }

  lemma {:induction false} ReturnedStays(log: seq<Entry>, patient: bool, i: nat, j: nat)
    requires Legal(log, patient) && i < j < |log| && log[i].Return?
    ensures PhaseAfter(log[..j], log[i].id).Returned?
    decreases j
  {
    var before := log[..j];
    assert before[..|before| - 1] == log[..j - 1] && before[|before| - 1] == log[j - 1];
    if i < j - 1 {
      ReturnedStays(log, patient, i, j - 1);
      At(log, patient, j - 1, log[i].id);
    }
  }

  /** A caller that gives up later leaves a job that was accepted and runs at most once. */
  lemma SlowRunsAtMostOnce(log: seq<Entry>, patient: bool, i: nat) returns (h: nat)
    requires Legal(log, patient) && i < |log| && log[i].Return? && HandOff(log[i].id) in log[..i]
    ensures h < i && Once(log, HandOff(log[i].id), h)
    ensures Start(log[i].id) in log ==> exists s :: h < s && Once(log, Start(log[i].id), s)
  {
    var id := log[i].id;
    h := Earlier(log, HandOff(id), i);
    OnlyOne(log, patient, h);
    if Start(id) in log {
      var s :| 0 <= s < |log| && log[s] == Start(id);
      OnlyOne(log, patient, s);
      At(log, patient, s, id);
      var g := Earlier(log, HandOff(id), s);
      assert g == h;
      assert h < s && Once(log, Start(id), s);
    }
  }

  /** With a timeout of zero a caller is never turned away. */
  lemma PatientCallersSucceed(log: seq<Entry>, i: nat)
    requires Legal(log, true) && i < |log| && log[i].Return?
    ensures log[i].ok
  {
    PrefixesAreLegal(log, true, i);
  }

  predicate Answered(log: seq<Entry>, id: Id) { Return(id, true) in log || Return(id, false) in log }

  /** Where a caller is, by what happened to its job. */
  lemma {:induction false} PhasesMean(log: seq<Entry>, patient: bool, id: Id)
    requires Legal(log, patient)
    ensures PhaseAfter(log, id) ==
            if Answered(log, id) then Returned
            else if HandOff(id) in log then Waiting
            else if Send(id) in log then Offering else Fresh
    ensures Answered(log, id) || HandOff(id) in log ==> Send(id) in log
  {
    if log != [] {
      var pre, e := log[..|log| - 1], log[|log| - 1];
      PhasesMean(pre, patient, id);
      assert log == pre + [e];
      InLonger(pre, e);
    }
  }

  /** Every call is answered at most once, and only after it was made. */
  lemma AnsweredOnce(log: seq<Entry>, patient: bool, i: nat, j: nat)
    requires Legal(log, patient) && i < j < |log| && log[i].Return? && log[j].Return?
    ensures log[i].id != log[j].id && Send(log[j].id) in log[..j]
  {
    At(log, patient, j, log[j].id);
    PrefixesAreLegal(log, patient, j);
    PhasesMean(log[..j], patient, log[j].id);
    assert log[..j][i] == log[i];
  }

  /** The answer false is possible for an impatient caller whenever its call is open, and for no other. */
  lemma GivingUpIsExact(log: seq<Entry>, patient: bool, id: Id)
    requires Legal(log, patient)
    ensures Legal(log + [Return(id, false)], patient) <==> !patient && Send(id) in log && !Answered(log, id)
  {
    PhasesMean(log, patient, id);
    InLonger(log, Return(id, false));
  }

  /** And the answer true whenever it is open and its job has ended. */
  lemma SuccessIsExact(log: seq<Entry>, patient: bool, id: Id)
    requires Legal(log, patient)
    ensures Legal(log + [Return(id, true)], patient) <==> Finish(id) in log && !Answered(log, id)
  {
    PhasesMean(log, patient, id);
    EveryJobIsConsistent(log, patient, id);
    InLonger(log, Return(id, true));
  }

  lemma OneMore(log: seq<Entry>, e: Entry, patient: bool, id: Id)
    requires Legal(log, patient) && Enabled(log, e, patient)
    ensures Legal(log + [e], patient)
    ensures (e.Start? || e.Finish? || e.Free?) ==> PhaseAfter(log + [e], id) == PhaseAfter(log, id)
    ensures e.Start? ==> WorkerAfter(log + [e]) == Running(e.id)
    ensures e.Finish? ==> WorkerAfter(log + [e]) == Leaving && Finish(e.id) in log + [e]
    ensures e.Free? ==> WorkerAfter(log + [e]) == Ready
  {
    InLonger(log, e);
  }

  /** Once the job at hand ends the worker takes jobs again. */
  lemma WorkerComesBack(log: seq<Entry>, patient: bool, id: Id) returns (later: seq<Entry>)
    requires Legal(log, patient)
    ensures log <= later && Legal(later, patient) && WorkerAfter(later) == Ready
    ensures PhaseAfter(later, id) == PhaseAfter(log, id)
  {
    later := log;
    if WorkerAfter(later).Holding? {
      var e := Start(WorkerAfter(later).id);
      OneMore(later, e, patient, id);
      later := later + [e];
    }
    if WorkerAfter(later).Running? {
      var e := Finish(WorkerAfter(later).id);
      OneMore(later, e, patient, id);
      later := later + [e];
    }
    if WorkerAfter(later).Leaving? {
      OneMore(later, Free, patient, id);
      later := later + [Free];
    }
  }

  lemma JobGoesThrough(log: seq<Entry>, patient: bool, id: Id) returns (later: seq<Entry>)
    requires Legal(log, patient) && WorkerAfter(log) == Ready && PhaseAfter(log, id) == Offering
    ensures log <= later && Legal(later, patient) && Return(id, true) in later
  {
    later := log + [HandOff(id)];
    InLonger(log, HandOff(id));
    assert WorkerAfter(later) == Holding(id) && PhaseAfter(later, id) == Waiting;
    OneMore(later, Start(id), patient, id);
    later := later + [Start(id)];
    OneMore(later, Finish(id), patient, id);
    later := later + [Finish(id)];
    InLonger(later, Return(id, true));
    later := later + [Return(id, true)];
  }

  /** Nobody is shut out: in every run, a call that is not made yet can be made and answered true once the worker is back. */
  lemma CallersGetThrough(log: seq<Entry>, patient: bool, id: Id) returns (later: seq<Entry>)
    requires Legal(log, patient) && Send(id) !in log
    ensures log <= later && Legal(later, patient) && Return(id, true) in later
  {
    PhasesMean(log, patient, id);
    var back := WorkerComesBack(log, patient, id);
    InLonger(back, Send(id));
    later := JobGoesThrough(back + [Send(id)], patient, id);
  }

  // ---------------------------------------------------------------- jobs do not overlap

  /** Before another job starts, one that has started has finished. */
  lemma JobsNeverOverlap(log: seq<Entry>, patient: bool, i: nat, j: nat) returns (f: nat)
    requires Legal(log, patient) && i < j < |log| && log[i].Start? && log[j].Start?
    ensures i < f < j && log[f] == Finish(log[i].id) && log[f] in log
  {
    var id := log[i].id;
    StepsHappenOnce(log, patient, i, j);
    At(log, patient, j, id);
    assert log[..j][i] == Start(id);
    f := Earlier(log, Finish(id), j);
    At(log, patient, f, id);
    var s := Earlier(log, Start(id), f);
    OnlyOne(log, patient, i);
  }

  /** While a job is stuck no later job starts, and every caller still to be answered true had its job run before. */
  lemma StuckJobHoldsTheWorker(log: seq<Entry>, patient: bool, i: nat, j: nat)
    requires Legal(log, patient) && i < j < |log| && log[i].Start? && Finish(log[i].id) !in log
    ensures !log[j].Start?
    ensures log[j].Return? && log[j].ok ==> exists f :: 0 <= f < i && log[f] == Finish(log[j].id)
  {
    if log[j].Start? {
      var f := JobsNeverOverlap(log, patient, i, j);
    } else if log[j].Return? && log[j].ok {
      var s, f := TrueMeansRanOnce(log, patient, j);
      assert log[f] in log;
      if i < s {
        var g := JobsNeverOverlap(log, patient, i, s);
      } else if s < i {
        var g := JobsNeverOverlap(log, patient, s, i);
      }
    }
  }

  // ---------------------------------------------------------------- reporting stalls

  const SECOND: int := 1000000000

  /** Which of the stalls, given by their times, are logged. */
  function Lines(times: seq<int>): seq<int> {
    if times == [] then []
    else
      var before, now := Lines(times[..|times| - 1]), times[|times| - 1];
      if before == [] || now - before[|before| - 1] >= SECOND then before + [now] else before
  }

  predicate Covers(out: seq<int>, t: int) {
    exists l :: l in out && 0 <= t - l < 1000000000
  }

  /** Lines are a second apart, and every stall is within a second of a line. */
  lemma {:induction false} OneLineASecond(times: seq<int>)
    requires forall i, j :: 0 <= i < j < |times| ==> times[i] <= times[j]
    ensures forall i :: 0 < i < |Lines(times)| ==> Lines(times)[i] - Lines(times)[i - 1] >= 1000000000
    ensures forall t :: t in Lines(times) ==> t in times
    ensures forall t :: t in times ==> Covers(Lines(times), t)
  {
    if times != [] {
      var pre, now := times[..|times| - 1], times[|times| - 1];
      OneLineASecond(pre);
      LineForTheLast(Lines(pre), pre, now);
      LastSplit(times);
    }
  }

  lemma LineForTheLast(before: seq<int>, pre: seq<int>, now: int)
    requires forall t :: t in pre ==> t <= now
    requires forall t :: t in before ==> t in pre
    requires forall t :: t in pre ==> Covers(before, t)
    ensures var out := if before == [] || now - before[|before| - 1] >= SECOND then before + [now] else before;
            (forall t :: t in pre + [now] ==> Covers(out, t)) && forall t :: t in out ==> t in pre + [now]
  {
    var out := if before == [] || now - before[|before| - 1] >= SECOND then before + [now] else before;
    forall t | t in pre + [now] ensures Covers(out, t) {
      if t in pre {
        var l :| l in before && 0 <= t - l < 1000000000;
        assert l in out;
      } else {
        assert out[|out| - 1] in out && out[|out| - 1] <= now;
      }
    }
  }

  class Dispatcher {
    var lastWarn: Option<int>
    ghost var stalls: seq<int>
    ghost var lines: seq<int>

    ghost predicate Valid()
      reads this
    {
      && lines == Lines(stalls)
      && lastWarn == (if lines == [] then None else Some(lines[|lines| - 1]))
    }

    constructor ()
      ensures Valid() && stalls == []
    {
      lastWarn, stalls, lines := None, [], [];
    }

    method Report(now: int) returns (logged: bool)
      requires Valid()
      modifies this
      ensures Valid() && stalls == old(stalls) + [now]
      ensures lines == if logged then old(lines) + [now] else old(lines)
    {
      stalls := stalls + [now];
      assert stalls[..|stalls| - 1] == old(stalls);
      logged := lastWarn.None? || now - lastWarn.value >= SECOND;
      if !logged {
        return;
      }
      lastWarn := Some(now);
      lines := lines + [now];
    }
  }
}
