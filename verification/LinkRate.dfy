/** The link-rate estimator of agent/linkrate.go. Times are nanoseconds; the source's floats are reals. */
module LinkRate {
  const MIN_RATE: real := 600000.0
  const MAX_RATE: real := 25000000.0
  const BACKLOGGED: real := 0.10
  const PROBE_WHEN_USING: real := 0.7
  const RX_ALPHA: real := 0.4
  const SHORT_WINDOWS: int := 3
  const WINDOW: int := 1000000000

  function Clamp(v: real): (r: real)
    ensures MIN_RATE <= r <= MAX_RATE && (MIN_RATE <= v <= MAX_RATE ==> r == v)
    ensures v <= MIN_RATE ==> r == MIN_RATE
    ensures v >= MAX_RATE ==> r == MAX_RATE
  {
    if v < MIN_RATE then MIN_RATE else if v > MAX_RATE then MAX_RATE else v
  }

  function Seconds(ns: int): real { ns as real / 1000000000.0 }

  /** Go's conversion of a float to an integer drops the fraction. */
  function Truncated(x: real): (n: int)
    ensures if x >= 0.0 then 0 <= n && n as real <= x < n as real + 1.0 else n <= 0 && n as real - 1.0 < x <= n as real
  {
    if x >= 0.0 then x.Floor else -((-x).Floor)
  }

  datatype Link = Link(
    est: real, rx: real, sentTotal: int, rxTotal: int, sentPrev: int, backlog: real, rxSeen: bool, rxAt: int,
    short: int, bytes: int, blocked: int, windowEnd: int, started: bool)

  function Fresh(start: real): Link {
    Link(Clamp(start), 0.0, 0, 0, 0, 0.0, false, 0, 0, 0, 0, 0, false)
  }

  predicate InRange(l: Link) {
    MIN_RATE <= l.est <= MAX_RATE
  }

  // ---------------------------------------------------------------- one window

  function Elapsed(l: Link, now: int): (e: int)
    ensures e > 0
  {
    var e := WINDOW + (now - l.windowEnd);
    if e <= 0 then WINDOW else e
  }

  function Goodput(l: Link, now: int): real {
    l.bytes as real * 8.0 / Seconds(Elapsed(l, now))
  }

  predicate Busy(l: Link, now: int) {
    Seconds(l.blocked) / Seconds(Elapsed(l, now)) >= BACKLOGGED
  }

  /** The queue is deeper than half a second of the current ceiling. */
  predicate Deep(l: Link) {
    l.rxSeen && l.backlog > l.est * 0.5
  }

  function ShortAfter(l: Link): int {
    if Deep(l) then l.short + 1 else 0
  }

  function Lower(est: real, target: real): real {
    if target < est then target else est
  }

  function Estimate(l: Link, now: int): real
    requires l.est > 0.0
  {
    Clamp(
      if ShortAfter(l) >= SHORT_WINDOWS then Lower(l.est, l.rx * 1.05)
      else if Busy(l, now) then Lower(l.est, Goodput(l, now) * 0.9)
      else if Goodput(l, now) / l.est >= PROBE_WHEN_USING then l.est * 1.08
      else l.est)
  }

  function AfterRoll(l: Link, now: int): Link
    requires l.est > 0.0
  {
    l.(est := Estimate(l, now), short := if ShortAfter(l) >= SHORT_WINDOWS then 0 else ShortAfter(l),
       bytes := 0, blocked := 0, windowEnd := now + WINDOW)
  }

  /** The write is added to the window, which the first write opens. */
  function Counted(l: Link, n: nat, took: int, now: int): Link {
    l.(started := true, windowEnd := if l.started then l.windowEnd else now + WINDOW,
       bytes := l.bytes + n, sentTotal := l.sentTotal + n, blocked := l.blocked + took)
  }

  predicate Rolls(l: Link, n: nat, took: int, now: int) {
    now >= Counted(l, n, took, now).windowEnd
  }

  function AfterObserve(l: Link, n: nat, took: int, now: int): Link
    requires l.est > 0.0
  {
    var c := Counted(l, n, took, now);
    if Rolls(l, n, took, now) then AfterRoll(c, now) else c
  }

  function AfterReceived(l: Link, total: real, now: int): Link {
    var t := Truncated(total);
    var late := (l.sentPrev - t) as real * 8.0;
    var backlog := if !l.rxSeen then l.backlog else if late > 0.0 then late else 0.0;
    var secs := Seconds(now - l.rxAt);
    var rx :=
      if l.rxSeen && t > l.rxTotal && secs > 0.0 then
        var bps := (t - l.rxTotal) as real * 8.0 / secs;
        if l.rx == 0.0 then bps else RX_ALPHA * bps + (1.0 - RX_ALPHA) * l.rx
      else l.rx;
    if t >= l.rxTotal then
      l.(sentPrev := l.sentTotal, backlog := backlog, rx := rx, rxTotal := t, rxSeen := true, rxAt := now)
    else
      l.(sentPrev := 0, backlog := 0.0, rx := 0.0, rxTotal := 0, sentTotal := 0, rxSeen := true, rxAt := now)
  }

  // ---------------------------------------------------------------- the estimator

  class LinkEstimator {
    var est: real
    var rx: real
    var sentTotal: int
    var rxTotal: int
    var sentPrev: int
    var backlog: real
    var rxSeen: bool
    var rxAt: int
    var short: int
    var bytes: int
    var blocked: int
    var windowEnd: int
    var started: bool

    ghost function View(): Link
      reads this
    {
      Link(est, rx, sentTotal, rxTotal, sentPrev, backlog, rxSeen, rxAt, short, bytes, blocked, windowEnd, started)
    }

    constructor (start: real)
      ensures View() == Fresh(start)
    {
      est, rx, sentTotal, rxTotal, sentPrev := Clamp(start), 0.0, 0, 0, 0;
      backlog, rxSeen, rxAt, short, bytes, blocked := 0.0, false, 0, 0, 0, 0;
      windowEnd, started := 0, false;
    }

    method Observe(n: nat, took: int, now: int)
      requires InRange(View())
      modifies this
      ensures View() == AfterObserve(old(View()), n, took, now)
    {
      if !started {
        started := true;
        windowEnd := now + WINDOW;
      }
      bytes := bytes + n;
      sentTotal := sentTotal + n;
      blocked := blocked + took;
      if now < windowEnd {
        return;
      }
      Roll(now);
    }

    method Roll(now: int)
      requires InRange(View())
      modifies this
      ensures View() == AfterRoll(old(View()), now)
    {
      var elapsed := WINDOW + (now - windowEnd);
      if elapsed <= 0 {
        elapsed := WINDOW;
      }
      var secs := Seconds(elapsed);
      var goodput := bytes as real * 8.0 / secs;
      var busy := Seconds(blocked) / secs;
      if rxSeen && backlog > est * 0.5 {
        short := short + 1;
      } else {
        short := 0;
      }
      var used := goodput / est;
      if short >= SHORT_WINDOWS {
        var target := rx * 1.05;
        if target < est {
          est := target;
        }
        short := 0;
      } else if busy >= BACKLOGGED {
        var target := goodput * 0.9;
        if target < est {
          est := target;
        }
      } else if used >= PROBE_WHEN_USING {
        est := est * 1.08;
      }
      est := Clamp(est);
      bytes, blocked := 0, 0;
      windowEnd := now + WINDOW;
    }

    method ObserveReceived(total: real, now: int)
      modifies this
      ensures View() == AfterReceived(old(View()), total, now)
    {
      var t := Truncated(total);
      if rxSeen {
        var b := (sentPrev - t) as real * 8.0;
        if b > 0.0 {
          backlog := b;
        } else {
          backlog := 0.0;
        }
      }
      sentPrev := sentTotal;
      if rxSeen && t > rxTotal {
        var secs := Seconds(now - rxAt);
        if secs > 0.0 {
          var bps := (t - rxTotal) as real * 8.0 / secs;
          if rx == 0.0 {
            rx := bps;
          } else {
            rx := RX_ALPHA * bps + (1.0 - RX_ALPHA) * rx;
          }
        }
      }
      if t >= rxTotal {
        rxTotal := t;
      } else {
        rxTotal, sentTotal, sentPrev, rx, backlog := 0, 0, 0, 0.0, 0.0;
      }
      rxSeen, rxAt := true, now;
    }
  }

  // ---------------------------------------------------------------- runs

  datatype Event = Write(n: nat, took: int, now: int) | Report(total: real, at: int)

  function Step(l: Link, e: Event): (l': Link)
    requires l.est > 0.0
  {
    match e
    case Write(n, took, now) => AfterObserve(l, n, took, now)
    case Report(total, at) => AfterReceived(l, total, at)
  }

  /** After any writes and reports, in any order and at any times, the estimate is within its bounds. */
  function Run(start: real, events: seq<Event>): (l: Link)
    ensures InRange(l)
  {
    if events == [] then Fresh(start) else Step(Run(start, events[..|events| - 1]), events[|events| - 1])
  }

  /** The event closes a measurement window. */
  predicate Closes(l: Link, e: Event) {
    e.Write? && Rolls(l, e.n, e.took, e.now)
  }

  /** The window as the roll sees it. */
  function Window(l: Link, e: Event): Link
    requires e.Write?
  {
    Counted(l, e.n, e.took, e.now)
  }

  /** At every point of the run, p holds of the state and the event about to happen. */
  ghost predicate Throughout(start: real, events: seq<Event>, p: (Link, Event) -> bool) {
    forall i :: 0 <= i < |events| ==> p(Run(start, events[..i]), events[i])
  }

  lemma ThroughoutPrefix(start: real, events: seq<Event>, p: (Link, Event) -> bool)
    requires events != [] && Throughout(start, events, p)
    ensures Throughout(start, events[..|events| - 1], p)
    ensures p(Run(start, events[..|events| - 1]), events[|events| - 1])
  {
    var pre := events[..|events| - 1];
    forall i | 0 <= i < |pre| ensures p(Run(start, pre[..i]), pre[i]) {
      assert pre[..i] == events[..i];
      assert p(Run(start, events[..i]), events[i]);
    }
  }

  // ---------------------------------------------------------------- what a closing window does

  function MaxOf(a: real, b: real): real { if a > b then a else b }

  function MinOf(a: real, b: real): real { if a < b then a else b }

  /**
   * A write of n bytes closes the window that was opened secs seconds ago, in which `rate` bits a second were
   * sent and writes were blocked for `busy` seconds.
   */
  predicate Measures(l: Link, n: nat, took: int, now: int, secs: real, rate: real, busy: real) {
    && l.started && now >= l.windowEnd
    && secs == (1000000000 + now - l.windowEnd) as real / 1000000000.0
    && rate * secs == 8.0 * (l.bytes + n) as real
    && busy == (l.blocked + took) as real / 1000000000.0
  }

  /** The window is the third in a row at whose end more than half a second of the estimate was outstanding. */
  predicate ThirdDeep(l: Link) { l.rxSeen && l.backlog > l.est * 0.5 && l.short >= 2 }

  lemma MeasuredIs(l: Link, n: nat, took: int, now: int, secs: real, rate: real, busy: real)
    requires InRange(l) && Measures(l, n, took, now, secs, rate, busy)
    ensures var e := Write(n, took, now);
            && Closes(l, e) && Goodput(Window(l, e), now) == rate
            && Deep(Window(l, e)) == (l.rxSeen && l.backlog > l.est * 0.5)
            && (Busy(Window(l, e), now) <==> busy >= 0.1 * secs)
  {
    var w := Window(l, Write(n, took, now));
    assert Seconds(Elapsed(w, now)) == secs && Seconds(w.blocked) == busy;
    QuotientIs(8.0 * (l.bytes + n) as real, secs, rate);
    QuotientAtLeast(busy, secs, 0.1);
  }

  lemma QuotientIs(a: real, b: real, q: real)
    requires b > 0.0 && q * b == a
    ensures a / b == q
  {
  }

  lemma QuotientAtLeast(a: real, b: real, q: real)
    requires b > 0.0
    ensures a / b >= q <==> a >= q * b
  {
    var x := a / b;
    assert a == x * b;
    if x >= q { assert (x - q) * b >= 0.0; }
    if x < q { assert (q - x) * b > 0.0; }
  }

  /** Writes that were blocked a tenth of the window cut the estimate below what was sent, at once. */
  lemma BlockedWindowCuts(l: Link, n: nat, took: int, now: int, secs: real, rate: real, busy: real)
    requires InRange(l) && Measures(l, n, took, now, secs, rate, busy) && busy >= 0.1 * secs && !ThirdDeep(l)
    ensures var est := Step(l, Write(n, took, now)).est;
            est <= MaxOf(600000.0, 0.9 * rate) && est == MaxOf(600000.0, MinOf(l.est, 0.9 * rate))
  {
    MeasuredIs(l, n, took, now, secs, rate, busy);
  }

  /** The third deep window in a row cuts it to what the viewer receives, give or take a twentieth. */
  lemma ThirdDeepWindowCuts(l: Link, n: nat, took: int, now: int, secs: real, rate: real, busy: real)
    requires InRange(l) && Measures(l, n, took, now, secs, rate, busy) && ThirdDeep(l)
    ensures var after := Step(l, Write(n, took, now));
            && after.est <= MaxOf(600000.0, 1.05 * l.rx) && after.est == MaxOf(600000.0, MinOf(l.est, 1.05 * l.rx))
            && after.short == 0
  {
    MeasuredIs(l, n, took, now, secs, rate, busy);
  }

  /** A window without blocked writes that used 70% of the estimate raises it by 8%, and one that did not leaves it. */
  lemma UnblockedWindowProbes(l: Link, n: nat, took: int, now: int, secs: real, rate: real, busy: real)
    requires InRange(l) && Measures(l, n, took, now, secs, rate, busy) && busy < 0.1 * secs && !ThirdDeep(l)
    ensures var est := Step(l, Write(n, took, now)).est;
            est == if rate >= 0.7 * l.est then MinOf(25000000.0, 1.08 * l.est) else l.est
  {
    MeasuredIs(l, n, took, now, secs, rate, busy);
    QuotientAtLeast(rate, l.est, 0.7);
  }

  /** Deep windows are counted until there are three or one is not deep. */
  lemma DeepWindowsAreCounted(l: Link, n: nat, took: int, now: int, secs: real, rate: real, busy: real)
    requires InRange(l) && Measures(l, n, took, now, secs, rate, busy) && !ThirdDeep(l)
    ensures Step(l, Write(n, took, now)).short == if l.rxSeen && l.backlog > l.est * 0.5 then l.short + 1 else 0
  {
    MeasuredIs(l, n, took, now, secs, rate, busy);
  }

  /** The next window is empty and a second long; the first of all starts at the first write and does not close with it. */
  lemma WindowsFollowEachOther(l: Link, n: nat, took: int, now: int)
    requires InRange(l)
    ensures var after := Step(l, Write(n, took, now));
            && after.started
            && (if !l.started then
                  after.windowEnd == now + 1000000000 && after.bytes == l.bytes + n && after.blocked == l.blocked + took
                else if now >= l.windowEnd then after.windowEnd == now + 1000000000 && after.bytes == 0 && after.blocked == 0
                else after.windowEnd == l.windowEnd && after.bytes == l.bytes + n && after.blocked == l.blocked + took)
            && (!l.started || now < l.windowEnd ==> after.est == l.est && after.short == l.short)
  {
  }

  /** What was written, and for how long writes were blocked, since a window last closed. */
  function SinceClosing(start: real, events: seq<Event>): (int, int) {
    if events == [] then (0, 0)
    else
      var pre, before := events[..|events| - 1], SinceClosing(start, events[..|events| - 1]);
      match events[|events| - 1]
      case Report(_, _) => before
      case Write(n, took, now) =>
        if Closes(Run(start, pre), Write(n, took, now)) then (0, 0) else (before.0 + n, before.1 + took)
  }

  lemma WindowStep(l: Link, e: Event)
    requires InRange(l)
    ensures var after := Step(l, e);
            && after.started == (l.started || e.Write?)
            && (after.bytes, after.blocked) ==
               match e
               case Report(_, _) => (l.bytes, l.blocked)
               case Write(n, took, _) => if Closes(l, e) then (0, 0) else (l.bytes + n, l.blocked + took)
  {
  }

  /** A window holds exactly the writes since the one before it, and the first write of all opens the first. */
  lemma {:induction false} WindowsHoldTheirWrites(start: real, events: seq<Event>)
    ensures var l := Run(start, events);
            && (l.bytes, l.blocked) == SinceClosing(start, events)
            && (l.started <==> exists e :: e in events && e.Write?)
            && (events == [] ==> l.est == Clamp(start) && l.short == 0)
  {
    if events != [] {
      var pre, e := events[..|events| - 1], events[|events| - 1];
      WindowsHoldTheirWrites(start, pre);
      WindowStep(Run(start, pre), e);
      assert forall x :: x in events <==> x in pre || x == e;
    }
  }

  /** Every window that closes was blocked, and carried no more than the capacity. */
  ghost function BlocksAt(capacity: real): (Link, Event) -> bool {
    (l: Link, e: Event) => Closes(l, e) ==> Busy(Window(l, e), e.now) && Goodput(Window(l, e), e.now) <= capacity
  }

  lemma BlockedStep(l: Link, e: Event, capacity: real)
    requires InRange(l) && BlocksAt(capacity)(l, e)
    ensures var after := Step(l, e);
            if !Closes(l, e) then after.est == l.est && after.short == l.short
            else && (l.short == 0 ==> after.est <= MaxOf(600000.0, 0.9 * capacity))
                 && after.est <= MaxOf(600000.0, l.est)
  {
  }

  predicate AnyCloses(start: real, events: seq<Event>) { exists i :: 0 <= i < |events| && ClosesAt(start, events, i) }

  lemma AnyClosesOneMore(start: real, events: seq<Event>)
    requires events != []
    ensures var pre, e := events[..|events| - 1], events[|events| - 1];
            AnyCloses(start, events) <==> AnyCloses(start, pre) || Closes(Run(start, pre), e)
  {
    var pre := events[..|events| - 1];
    assert forall i :: 0 <= i < |pre| ==> pre[..i] == events[..i];
    assert forall i :: 0 <= i < |pre| ==> ClosesAt(start, pre, i) == ClosesAt(start, events, i);
    assert ClosesAt(start, events, |events| - 1) == Closes(Run(start, pre), events[|events| - 1]);
  }

  /** A link that pushes back brings the estimate below its capacity with the first window, and it stays there. */
  lemma {:induction false} BlockedLinkIsFound(start: real, events: seq<Event>, capacity: real)
    requires Throughout(start, events, BlocksAt(capacity))
    ensures if AnyCloses(start, events) then Run(start, events).est <= MaxOf(600000.0, 0.9 * capacity)
            else Run(start, events).short == 0
  {
    if events != [] {
      var pre, e := events[..|events| - 1], events[|events| - 1];
      ThroughoutPrefix(start, events, BlocksAt(capacity));
      BlockedLinkIsFound(start, pre, capacity);
      AnyClosesOneMore(start, events);
      BlockedStep(Run(start, pre), e, capacity);
    }
  }

  /** Every window that closes was unblocked and not deep, and used 70% of the estimate. */
  ghost function Thrives(): (Link, Event) -> bool {
    (l: Link, e: Event) =>
      Closes(l, e) ==> !Busy(Window(l, e), e.now) && !Deep(Window(l, e)) && l.est > 0.0
                       && Goodput(Window(l, e), e.now) / l.est >= 0.7
  }

  function Closings(start: real, events: seq<Event>): nat {
    if events == [] then 0
    else Closings(start, events[..|events| - 1])
         + if Closes(Run(start, events[..|events| - 1]), events[|events| - 1]) then 1 else 0
  }

  /** The estimate after n probes, as long as it stays below the ceiling. */
  function Probed(est: real, n: nat): real { if n == 0 then est else MinOf(25000000.0, 1.08 * Probed(est, n - 1)) }

  lemma ProbeStep(l: Link, e: Event)
    requires InRange(l) && l.short == 0 && Thrives()(l, e)
    ensures Step(l, e).est == (if Closes(l, e) then MinOf(25000000.0, 1.08 * l.est) else l.est) && Step(l, e).short == 0
  {
  }

  /** A link with room is probed up to the ceiling, 8% a window. */
  lemma {:induction false} ThrivingLinkIsProbed(start: real, events: seq<Event>)
    requires Throughout(start, events, Thrives())
    ensures Run(start, events).est == Probed(Clamp(start), Closings(start, events)) && Run(start, events).short == 0
  {
    if events != [] {
      var pre, e := events[..|events| - 1], events[|events| - 1];
      ThroughoutPrefix(start, events, Thrives());
      ThrivingLinkIsProbed(start, pre);
      ProbeStep(Run(start, pre), e);
    }
  }

  // ---------------------------------------------------------------- the ceiling stays near capacity

  /** The start, the floor, or one probe above what 70% use of the capacity allows. */
  function Ceiling(start: real, capacity: real): real {
    MaxOf(Clamp(start), MaxOf(MIN_RATE, 1.08 * capacity / PROBE_WHEN_USING))
  }

  ghost function WithinCapacity(capacity: real): (Link, Event) -> bool {
    (l: Link, e: Event) => Closes(l, e) ==> Goodput(Window(l, e), e.now) <= capacity
  }

  lemma QuotientBound(a: real, b: real, q: real)
    requires b > 0.0 && a / b >= q
    ensures a >= q * b
  {
    assert a == (a / b) * b;
  }

  lemma ProbesFromUse(l: Link, now: int, capacity: real)
    requires InRange(l) && Goodput(l, now) <= capacity
    ensures Estimate(l, now) <= MaxOf(l.est, MaxOf(MIN_RATE, 1.08 * capacity / PROBE_WHEN_USING))
  {
    if Goodput(l, now) / l.est >= PROBE_WHEN_USING {
      QuotientBound(Goodput(l, now), l.est, PROBE_WHEN_USING);
    }
  }

  /** If no window carries more than the capacity, the estimate never climbs past the ceiling that allows. */
  lemma {:induction false} EstimateStaysNearCapacity(start: real, events: seq<Event>, capacity: real)
    requires Throughout(start, events, WithinCapacity(capacity))
    ensures Run(start, events).est <= Ceiling(start, capacity)
  {
    if events != [] {
      var pre, e := events[..|events| - 1], events[|events| - 1];
      ThroughoutPrefix(start, events, WithinCapacity(capacity));
      EstimateStaysNearCapacity(start, pre, capacity);
      var l := Run(start, pre);
      if Closes(l, e) {
        ProbesFromUse(Window(l, e), e.now, capacity);
      }
    }
  }

  // ---------------------------------------------------------------- cuts need evidence

  /** The window about to close shows neither blocked writes nor a deep queue. */
  ghost function Calm(): (Link, Event) -> bool {
    (l: Link, e: Event) => Closes(l, e) ==> !Busy(Window(l, e), e.now) && !Deep(Window(l, e))
  }

  lemma CalmStep(l: Link, e: Event)
    requires InRange(l) && (Closes(l, e) ==> !Busy(Window(l, e), e.now) && !Deep(Window(l, e)))
    ensures Step(l, e).est >= l.est
  {
  }

  /** In a run of calm windows the estimate only ever grows. */
  lemma {:induction false} CalmNeverCuts(start: real, events: seq<Event>, n: nat)
    requires Throughout(start, events, Calm()) && n <= |events|
    ensures Run(start, events[..n]).est <= Run(start, events).est
    decreases |events|
  {
    if n == |events| {
      assert events[..n] == events;
    } else {
      var pre, e := events[..|events| - 1], events[|events| - 1];
      ThroughoutPrefix(start, events, Calm());
      CalmNeverCuts(start, pre, n);
      assert pre[..n] == events[..n];
      CalmStep(Run(start, pre), e);
    }
  }

  /** A cut happens at a closing window, which shows blocked writes or a deep queue not for the first time. */
  lemma CutsNeedEvidence(l: Link, e: Event)
    requires InRange(l) && Step(l, e).est < l.est
    ensures Closes(l, e) && (Busy(Window(l, e), e.now) || (Deep(Window(l, e)) && l.short >= SHORT_WINDOWS - 1))
  {
  }

  predicate ClosesAt(start: real, events: seq<Event>, i: nat)
    requires i < |events|
  {
    Closes(Run(start, events[..i]), events[i])
  }

  /** Event i closes a window with a deep queue, and no other window closes before n. */
  predicate DeepLast(start: real, events: seq<Event>, i: nat, n: nat)
    requires i < n <= |events|
  {
    && ClosesAt(start, events, i) && Deep(Window(Run(start, events[..i]), events[i]))
    && forall m :: i < m < n ==> !ClosesAt(start, events, m)
  }

  lemma ShortStep(l: Link, e: Event)
    requires InRange(l) && Step(l, e).short >= 1
    ensures if Closes(l, e) then Deep(Window(l, e)) && Step(l, e).short == l.short + 1 else Step(l, e).short == l.short
  {
  }

  /** A count of short windows is owed to the window closed last, and what was counted before to those before. */
  lemma {:induction false} LastShortWindow(start: real, events: seq<Event>, n: nat) returns (i: nat)
    requires n <= |events| && Run(start, events[..n]).short >= 1
    ensures i < n && DeepLast(start, events, i, n)
    ensures Run(start, events[..i]).short == Run(start, events[..n]).short - 1
  {
    var pre := events[..n - 1];
    assert events[..n][..n - 1] == pre && events[..n][n - 1] == events[n - 1];
    ShortStep(Run(start, pre), events[n - 1]);
    if ClosesAt(start, events, n - 1) {
      i := n - 1;
    } else {
      i := LastShortWindow(start, events, n - 1);
    }
  }

  /** In every run, a cut without blocked writes comes at the third window in a row that closes with a deep queue. */
  lemma QuietCutsNeedThreeDeepWindows(start: real, events: seq<Event>, e: Event) returns (i: nat, j: nat)
    requires Step(Run(start, events), e).est < Run(start, events).est
    requires e.Write? ==> !Busy(Window(Run(start, events), e), e.now)
    ensures Closes(Run(start, events), e) && Deep(Window(Run(start, events), e))
    ensures i < j < |events| && DeepLast(start, events, j, |events|) && DeepLast(start, events, i, j)
  {
    CutsNeedEvidence(Run(start, events), e);
    assert events[..|events|] == events;
    j := LastShortWindow(start, events, |events|);
    i := LastShortWindow(start, events, j);
  }

  // ---------------------------------------------------------------- the received rate

  /** A report that counts: the first opens the account, later ones carry more bytes at a later time. */
  predicate Counts(l: Link, e: Event) {
    e.Report? && l.rxSeen && Truncated(e.total) > l.rxTotal && e.at > l.rxAt
  }

  /** The rate between two reports is the bytes between them over the time between them. */
  predicate Shows(l: Link, e: Event, bps: real)
    requires Counts(l, e)
  {
    bps * (e.at - l.rxAt) as real == 8.0 * (Truncated(e.total) - l.rxTotal) as real * 1000000000.0
  }

  /** The first rate is taken as it is, and every later one with a weight of 0.4. */
  lemma ReceivedRateIsSmoothed(l: Link, e: Event, bps: real)
    requires l.est > 0.0 && Counts(l, e) && Shows(l, e, bps)
    ensures Step(l, e).rx == if l.rx == 0.0 then bps else 0.4 * bps + 0.6 * l.rx
  {
    var secs := Seconds(e.at - l.rxAt);
    QuotientIs((Truncated(e.total) - l.rxTotal) as real * 8.0, secs, bps);
  }

  /** Any other report, and any write, leaves the rate as it is, unless the viewer's counter went back. */
  lemma OtherEventsLeaveTheRate(l: Link, e: Event)
    requires l.est > 0.0 && !Counts(l, e) && (e.Report? ==> Truncated(e.total) >= l.rxTotal)
    ensures Step(l, e).rx == l.rx
  {
  }

  /** A report is noted with its time and total, and what was sent until then; it moves neither estimate nor window. */
  lemma ReportsAreNoted(l: Link, e: Event)
    requires l.est > 0.0 && e.Report? && Truncated(e.total) >= l.rxTotal
    ensures var after := Step(l, e);
            && after.rxSeen && after.rxAt == e.at && after.rxTotal == Truncated(e.total)
            && after.sentPrev == after.sentTotal == l.sentTotal
            && after.est == l.est && after.short == l.short && after.started == l.started
            && after.bytes == l.bytes && after.blocked == l.blocked && after.windowEnd == l.windowEnd
  {
  }

  /** A viewer that reconnects starts a new account. */
  lemma ResetStartsAnew(l: Link, e: Event)
    requires l.est > 0.0 && e.Report? && Truncated(e.total) < l.rxTotal
    ensures var after := Step(l, e);
            && after.rx == 0.0 && after.backlog == 0.0 && after.rxTotal == 0 && after.sentTotal == 0 && after.sentPrev == 0
            && after.rxSeen && after.rxAt == e.at && after.est == l.est && after.short == l.short
  {
  }

  /** Between two reports the viewer received at a rate between lo and hi. */
  ghost function ReceivesWithin(lo: real, hi: real): (Link, Event) -> bool {
    (l: Link, e: Event) => Counts(l, e) ==> forall bps :: Shows(l, e, bps) ==> lo <= bps <= hi
  }

  lemma SomeRate(l: Link, e: Event) returns (bps: real)
    requires Counts(l, e)
    ensures Shows(l, e, bps)
  {
    var d := (e.at - l.rxAt) as real;
    bps := 8.0 * (Truncated(e.total) - l.rxTotal) as real * 1000000000.0 / d;
  }

  /** The smoothed rate lies between the rates it was made from. */
  lemma {:induction false} ReceivedRateIsBetween(start: real, events: seq<Event>, lo: real, hi: real)
    requires Throughout(start, events, ReceivesWithin(lo, hi))
    ensures var rx := Run(start, events).rx; rx == 0.0 || lo <= rx <= hi
  {
    if events != [] {
      var l, e := Run(start, events[..|events| - 1]), events[|events| - 1];
      ThroughoutPrefix(start, events, ReceivesWithin(lo, hi));
      ReceivedRateIsBetween(start, events[..|events| - 1], lo, hi);
      if Counts(l, e) {
        var bps := SomeRate(l, e);
        ReceivedRateIsSmoothed(l, e, bps);
      } else if e.Report? && Truncated(e.total) < l.rxTotal {
        ResetStartsAnew(l, e);
      } else {
        OtherEventsLeaveTheRate(l, e);
      }
    }
  }

  // ---------------------------------------------------------------- the backlog is real

  /** The viewer's counter does not go back. */
  ghost function NoReset(): (Link, Event) -> bool {
    (l: Link, e: Event) => e.Report? ==> Truncated(e.total) >= l.rxTotal
  }

  /** What was sent and has not been reported received. */
  function Outstanding(l: Link): int {
    if l.sentTotal > l.rxTotal then l.sentTotal - l.rxTotal else 0
  }

  lemma {:induction false} BacklogIsOutstanding(start: real, events: seq<Event>)
    requires Throughout(start, events, NoReset())
    ensures var l := Run(start, events);
            && l.sentPrev <= l.sentTotal && 0.0 <= l.backlog <= 8.0 * Outstanding(l) as real
            && (!l.rxSeen ==> l.backlog == 0.0)
  {
    if events != [] {
      ThroughoutPrefix(start, events, NoReset());
      BacklogIsOutstanding(start, events[..|events| - 1]);
    }
  }

  /** The bytes written in a run. */
  function BytesWritten(events: seq<Event>): nat {
    if events == [] then 0
    else BytesWritten(events[..|events| - 1]) + match events[|events| - 1] case Write(n, _, _) => n case Report(_, _) => 0
  }

  /** The run up to its last report, without it; nothing if there is none. */
  function BeforeLastReport(events: seq<Event>): seq<Event> {
    if events == [] then []
    else if events[|events| - 1].Report? then events[..|events| - 1]
    else BeforeLastReport(events[..|events| - 1])
  }

  function LastReported(events: seq<Event>): int {
    if events == [] then 0
    else
      match events[|events| - 1]
      case Report(total, _) => Truncated(total)
      case Write(_, _, _) => LastReported(events[..|events| - 1])
  }

  function Reports(events: seq<Event>): nat {
    if events == [] then 0 else Reports(events[..|events| - 1]) + if events[|events| - 1].Report? then 1 else 0
  }

  /** The backlog after a run: sent before the report before the last, and not reported received by the last. */
  function Late(events: seq<Event>): int {
    var owed := BytesWritten(BeforeLastReport(BeforeLastReport(events))) - LastReported(events);
    if Reports(events) < 2 || owed < 0 then 0 else owed
  }

  /** The account is exact: what is outstanding, and for how long. */
  lemma {:induction false} BacklogIsExactlyWhatIsLate(start: real, events: seq<Event>)
    requires Throughout(start, events, NoReset())
    ensures var l := Run(start, events);
            && l.sentTotal == BytesWritten(events) && l.sentPrev == BytesWritten(BeforeLastReport(events))
            && l.rxTotal == LastReported(events) && l.rxSeen == (Reports(events) > 0)
            && l.backlog == 8.0 * Late(events) as real
  {
    if events != [] {
      ThroughoutPrefix(start, events, NoReset());
      BacklogIsExactlyWhatIsLate(start, events[..|events| - 1]);
    }
  }

  /** Each report accounts for everything sent before the previous one. */
  ghost function Delivers(): (Link, Event) -> bool {
    (l: Link, e: Event) => e.Report? ==> Truncated(e.total) >= l.rxTotal && (l.rxSeen ==> Truncated(e.total) >= l.sentPrev)
  }

  /** A link that delivers everything a report later never counts a short window. */
  lemma {:induction false} DeliveringLinkHasNoBacklog(start: real, events: seq<Event>)
    requires Throughout(start, events, Delivers())
    ensures Run(start, events).backlog == 0.0 && Run(start, events).short == 0
  {
    if events != [] {
      ThroughoutPrefix(start, events, Delivers());
      DeliveringLinkHasNoBacklog(start, events[..|events| - 1]);
    }
  }

  /** So on such a link only blocked writes can cut the estimate. */
  lemma OnlyBlockingCutsDeliveringLink(start: real, events: seq<Event>, e: Event)
    requires Throughout(start, events, Delivers())
    requires Run(start, events + [e]).est < Run(start, events).est
    ensures e.Write? && Busy(Window(Run(start, events), e), e.now)
  {
    assert (events + [e])[..|events|] == events;
    DeliveringLinkHasNoBacklog(start, events);
    CutsNeedEvidence(Run(start, events), e);
  }
}
