/** The circular log store of server/syslog.go against the unbounded history it stands for. */
module Syslog {
  import opened Optional
  import opened Sequences

  /** `received` is the hub's clock, in seconds. */
  datatype Msg = Msg(received: int, claimed: int, source: string, severity: int, facility: int, tag: string, text: string)

  const EMPTY_MSG := Msg(0, 0, "", 0, 0, "", "")
  const MAX_AGE: int := 7 * 24 * 3600

  predicate Contains(text: string, part: string) {
    exists i :: 0 <= i <= |text| && part <= text[i..]
  }

  /** `part` is lower-cased already; an empty filter lets everything pass. */
  predicate Passes(m: Msg, source: string, part: string, now: int, lower: string -> string) {
    && m.received >= now - MAX_AGE
    && (source == "" || m.source == source)
    && (part == "" || Contains(lower(m.text + " " + m.tag), part))
  }

  function Filter(source: string, part: string, now: int, lower: string -> string): (Msg, nat) -> Option<Msg> {
    (m: Msg, i: nat) => if Passes(m, source, part, now, lower) then Some(m) else None
  }

  function Matching(msgs: seq<Msg>, source: string, part: string, now: int, lower: string -> string): seq<Msg> {
    Collected(msgs, Filter(source, part, now, lower))
  }

  /** The last n messages, newest first. */
  function Newest(history: seq<Msg>, n: nat): (r: seq<Msg>)
    requires n <= |history|
    ensures |r| == n && forall i :: 0 <= i < n ==> r[i] == history[|history| - 1 - i]
  {
    seq(n, i requires 0 <= i < n => history[|history| - 1 - i])
  }

  function First(msgs: seq<Msg>, limit: nat): seq<Msg> {
    if |msgs| <= limit then msgs else msgs[..limit]
  }

  function Limit(asked: int): (limit: nat)
    ensures 1 <= limit <= 1000 && (1 <= asked <= 1000 ==> limit == asked)
  {
    if asked <= 0 || asked > 1000 then 200 else asked
  }

  /** A scan may stop at the end or when it has as many as it may return. */
  lemma ScannedEnough(msgs: seq<Msg>, i: nat, limit: nat, source: string, part: string, now: int, lower: string -> string)
    requires i <= |msgs|
    requires var out := Matching(msgs[..i], source, part, now, lower); |out| <= limit && (i == |msgs| || |out| == limit)
    ensures Matching(msgs[..i], source, part, now, lower) == First(Matching(msgs, source, part, now, lower), limit)
  {
    CollectedExtends(msgs, i, Filter(source, part, now, lower));
    if i == |msgs| { assert msgs[..i] == msgs; }
  }

  lemma MatchingOneMore(msgs: seq<Msg>, i: nat, source: string, part: string, now: int, lower: string -> string)
    requires i < |msgs|
    ensures Matching(msgs[..i + 1], source, part, now, lower) ==
            Matching(msgs[..i], source, part, now, lower) + if Passes(msgs[i], source, part, now, lower) then [msgs[i]] else []
  {
    CollectedOneMore(msgs, i, Filter(source, part, now, lower));
  }

  /** What matches are the passing messages, all of them, in the order given. */
  lemma MatchingSelects(msgs: seq<Msg>, source: string, part: string, now: int, lower: string -> string)
    returns (of: seq<nat>)
    ensures var out := Matching(msgs, source, part, now, lower);
            && Ascends(of, |msgs|) && |of| == |out| && (forall k :: 0 <= k < |of| ==> msgs[of[k]] == out[k])
    ensures forall i :: 0 <= i < |msgs| ==> (Passes(msgs[i], source, part, now, lower) <==> i in of)
  {
    of := CollectedPicks(msgs, Filter(source, part, now, lower));
  }

  /** `out` lists messages of the window, newer ones first. */
  ghost predicate NewestFirst(of: seq<nat>, history: seq<Msg>, n: nat, out: seq<Msg>) {
    && |of| == |out| && n <= |history|
    && (forall k :: 0 <= k < |of| ==> |history| - n <= of[k] < |history| && history[of[k]] == out[k])
    && (forall j, k :: 0 <= j < k < |of| ==> of[k] < of[j])
  }

  lemma Mirror(at: seq<nat>, history: seq<Msg>, n: nat, all: seq<Msg>, m: nat) returns (of: seq<nat>)
    requires n <= |history| && Ascends(at, n) && m <= |all| == |at|
    requires forall k :: 0 <= k < |at| ==> Newest(history, n)[at[k]] == all[k]
    ensures NewestFirst(of, history, n, all[..m])
    ensures forall k :: 0 <= k < m ==> of[k] == |history| - 1 - at[k]
  {
    of := seq(m, k requires 0 <= k < m => |history| - 1 - at[k]);
  }

  /** An answer cut short by its limit omits only messages that came before every listed one. */
  lemma CutAnswersKeepTheNewest(history: seq<Msg>, n: nat, asked: int, source: string, part: string, now: int,
                                lower: string -> string, i: nat)
    returns (of: seq<nat>)
    requires |history| - n <= i < |history| && n <= |history|
    requires Passes(history[i], source, part, now, lower)
    ensures var out := First(Matching(Newest(history, n), source, part, now, lower), Limit(asked));
            && NewestFirst(of, history, n, out)
            && (i in of || (|out| == Limit(asked) && forall k :: 0 <= k < |of| ==> i < of[k]))
  {
    var msgs := Newest(history, n);
    var at := MatchingSelects(msgs, source, part, now, lower);
    var all := Matching(msgs, source, part, now, lower);
    var m := if |all| <= Limit(asked) then |all| else Limit(asked);
    assert all[..|all|] == all;
    of := Mirror(at, history, n, all, m);
    var p := |history| - 1 - i;
    assert msgs[p] == history[i];
    var k :| 0 <= k < |at| && at[k] == p;
    if k < m {
      assert of[k] == i;
    }
  }

  /** Asked for by its age, its source and a part of its text or tag in any case; empty filters ask for everything. */
  ghost predicate Wanted(m: Msg, source: string, contains: string, now: int, lower: string -> string) {
    && now - m.received <= 604800
    && (source != "" ==> m.source == source)
    && (lower(contains) != "" ==> exists pre, post :: lower(m.text + " " + m.tag) == pre + lower(contains) + post)
  }

  lemma ContainsExactly(text: string, part: string)
    ensures Contains(text, part) <==> exists pre, post :: text == pre + part + post
  {
    if i :| 0 <= i <= |text| && part <= text[i..] {
      assert text == text[..i] + part + text[i + |part|..];
    }
    if pre, post :| text == pre + part + post {
      assert text[|pre|..] == part + post && part <= text[|pre|..];
    }
  }

  lemma PassesExactly(m: Msg, source: string, contains: string, now: int, lower: string -> string)
    ensures Passes(m, source, lower(contains), now, lower) <==> Wanted(m, source, contains, now, lower)
  {
    ContainsExactly(lower(m.text + " " + m.tag), lower(contains));
  }

  /** How many messages an answer may hold. */
  function AtMost(asked: int): nat { if 1 <= asked <= 1000 then asked else 200 }

  /** An answer lists only what is wanted, newest first, and leaves out what is wanted only if it is full of newer ones. */
  lemma AnswersExactly(history: seq<Msg>, n: nat, asked: int, source: string, contains: string, now: int,
                       lower: string -> string)
    returns (of: seq<nat>)
    requires n <= |history|
    ensures var out := First(Matching(Newest(history, n), source, lower(contains), now, lower), Limit(asked));
            && NewestFirst(of, history, n, out) && |out| <= AtMost(asked)
            && (forall k :: 0 <= k < |of| ==> Wanted(history[of[k]], source, contains, now, lower))
            && (forall i :: |history| - n <= i < |history| && Wanted(history[i], source, contains, now, lower) ==>
                  i in of || (|out| == AtMost(asked) && forall k :: 0 <= k < |of| ==> i < of[k]))
  {
    var msgs, part := Newest(history, n), lower(contains);
    var at := MatchingSelects(msgs, source, part, now, lower);
    var all := Matching(msgs, source, part, now, lower);
    var m := if |all| <= Limit(asked) then |all| else Limit(asked);
    assert all[..|all|] == all;
    of := Mirror(at, history, n, all, m);
    forall i | 0 <= i < |history|
      ensures Passes(history[i], source, part, now, lower) <==> Wanted(history[i], source, contains, now, lower)
    {
      PassesExactly(history[i], source, contains, now, lower);
    }
    forall k | 0 <= k < |of| ensures Wanted(history[of[k]], source, contains, now, lower) {
      assert at[k] in at && msgs[at[k]] == history[of[k]];
    }
    forall i | |history| - n <= i < |history| && Wanted(history[i], source, contains, now, lower)
      ensures i in of || (m == AtMost(asked) && forall k :: 0 <= k < |of| ==> i < of[k])
    {
      var p := |history| - 1 - i;
      assert msgs[p] == history[i];
      var k :| 0 <= k < |at| && at[k] == p;
      if k < m { assert of[k] == i; }
    }
  }

  class Store {
    const ring: array<Msg>
    var next: nat
    var full: bool
    ghost var history: seq<Msg>

    /** Where the message i places before the newest one is kept. */
    function Slot(i: nat): int
      reads this
    {
      if next - 1 - i < 0 then next - 1 - i + ring.Length else next - 1 - i
    }

    function Count(): nat
      reads this
    {
      if full then ring.Length else next
    }

    ghost predicate Valid()
      reads this, ring
    {
      && next < ring.Length
      && (if full then |history| >= ring.Length else |history| == next)
      && forall i :: 0 <= i < Count() ==> 0 <= Slot(i) < ring.Length && ring[Slot(i)] == history[|history| - 1 - i]
    }

    /** 20000 messages in the source. */
    constructor (keep: nat)
      requires keep > 0
      ensures Valid() && history == [] && ring.Length == keep && fresh(ring)
    {
      ring := new Msg[keep](_ => EMPTY_MSG);
      next, full, history := 0, false, [];
    }

    method Add(m: Msg)
      requires Valid()
      modifies this, ring
      ensures Valid() && history == old(history) + [m]
    {
      ring[next] := m;
      next := next + 1;
      if next == ring.Length {
        next, full := 0, true;
      }
      history := history + [m];
      forall i | 0 <= i < Count() ensures 0 <= Slot(i) < ring.Length && ring[Slot(i)] == history[|history| - 1 - i] {
        if i > 0 {
          assert Slot(i) == old(Slot(i - 1));
        }
      }
    }

    /** The newest messages that pass, up to the limit, out of the last ring.Length ever received. */
    method Query(source: string, contains: string, asked: int, now: int, lower: string -> string) returns (out: seq<Msg>)
      requires Valid()
      ensures out == First(Matching(Newest(history, if |history| < ring.Length then |history| else ring.Length),
                                    source, lower(contains), now, lower), Limit(asked))
    {
      var limit := asked;
      if limit <= 0 || limit > 1000 {
        limit := 200;
      }
      var cutoff := now - MAX_AGE;
      var part := lower(contains);
      var n := if full then ring.Length else next;
      ghost var msgs := Newest(history, n);
      out := [];
      var i := 0;
      while i < n && |out| < limit
        invariant 0 <= i <= n && |out| <= limit
        invariant out == Matching(msgs[..i], source, part, now, lower)
        decreases n - i
      {
        var idx := next - 1 - i;
        if idx < 0 {
          idx := idx + ring.Length;
        }
        assert idx == Slot(i);
        var m := ring[idx];
        assert m == msgs[i];
        MatchingOneMore(msgs, i, source, part, now, lower);
        i := i + 1;
        if m.received < cutoff {
          continue;
        }
        if source != "" && m.source != source {
          continue;
        }
        if part != "" && !Contains(lower(m.text + " " + m.tag), part) {
          continue;
        }
        out := out + [m];
      }
      ScannedEnough(msgs, i, limit, source, part, now, lower);
    }

    /** Each source heard from within the window, once. */
    method Sources() returns (out: seq<string>)
      requires Valid()
      ensures var window := Newest(history, if |history| < ring.Length then |history| else ring.Length);
              forall s :: s in out <==> s != "" && exists m :: m in window && m.source == s
      ensures forall i, j :: 0 <= i < j < |out| ==> out[i] != out[j]
    {
      out := [];
      var seen: set<string> := {};
      var n := if full then ring.Length else next;
      for i := 0 to n
        invariant Listed(out, seen) && seen == NamedIn(ring[..i])
      {
        assert ring[..i + 1] == ring[..i] + [ring[i]];
        var s := ring[i].source;
        if s != "" && s !in seen {
          seen := seen + {s};
          out := out + [s];
        }
      }
      SameMessages();
    }

    /** The first Count() cells hold exactly the messages of the window. */
    lemma SameMessages()
      requires Valid()
      ensures forall m :: m in ring[..Count()] <==> m in Newest(history, Count())
    {
      var window := Newest(history, Count());
      forall m | m in ring[..Count()] ensures m in window {
        var j :| 0 <= j < Count() && ring[j] == m;
        var i := if j < next then next - 1 - j else next - 1 - j + ring.Length;
        assert Slot(i) == j && window[i] == m;
      }
      forall m | m in window ensures m in ring[..Count()] {
        var i :| 0 <= i < Count() && window[i] == m;
        assert ring[Slot(i)] == m;
      }
    }
  }

  function NamedIn(msgs: seq<Msg>): set<string> {
    set m | m in msgs && m.source != "" :: m.source
  }

  ghost predicate Listed(out: seq<string>, seen: set<string>) {
    (forall s :: s in out <==> s in seen) && forall i, j :: 0 <= i < j < |out| ==> out[i] != out[j]
  }
}
