/** The attempt budget of server/remediate.go: at most three fixes per condition in a sliding window. */
module Remediation {
  const MAX_ATTEMPTS: nat := 3
  const WINDOW: int := 3600 * 1000000000

  /** The attempts still inside the window, oldest first. */
  function Recent(times: seq<int>, now: int): (kept: seq<int>)
    ensures |kept| <= |times|
    ensures forall t :: t in kept ==> t in times && now - t < WINDOW
  {
    if times == [] then []
    else
      var last := times[|times| - 1];
      Recent(times[..|times| - 1], now) + (if now - last < WINDOW then [last] else [])
  }

  function Budget(attempts: map<string, seq<int>>, key: string): seq<int> {
    if key in attempts then attempts[key] else []
  }

  predicate Allows(attempts: map<string, seq<int>>, key: string, now: int) {
    |Recent(Budget(attempts, key), now)| < MAX_ATTEMPTS
  }

  function AfterAllow(attempts: map<string, seq<int>>, key: string, now: int): map<string, seq<int>> {
    var kept := Recent(Budget(attempts, key), now);
    attempts[key := if |kept| < MAX_ATTEMPTS then kept + [now] else kept]
  }

  // ---------------------------------------------------------------- the budget against the full history

  predicate Ascending(times: seq<int>) {
    forall i, j :: 0 <= i < j < |times| ==> times[i] <= times[j]
  }

  /** The stored budget is a tail of the whole history, and everything before it has left the window. */
  predicate TailOf(budget: seq<int>, history: seq<int>, clock: int) {
    && |budget| <= |history|
    && budget == history[|history| - |budget|..]
    && (forall i :: 0 <= i < |history| - |budget| ==> clock - history[i] >= WINDOW)
  }

  lemma TailGrows(kept: seq<int>, times: seq<int>, t: int, now: int)
    requires TailOf(kept, times, now)
    ensures TailOf(kept + [t], times + [t], now)
  {
  }

  lemma {:induction false} NothingRecent(times: seq<int>, now: int)
    requires Ascending(times) && times != [] && now - times[|times| - 1] >= WINDOW
    ensures Recent(times, now) == [] && TailOf([], times, now)
  {
    if |times| > 1 { NothingRecent(times[..|times| - 1], now); }
  }

  lemma {:induction false} RecentKeepsTail(times: seq<int>, now: int)
    requires Ascending(times)
    ensures TailOf(Recent(times, now), times, now)
  {
    if times != [] {
      var pre, last := times[..|times| - 1], times[|times| - 1];
      if now - last >= WINDOW {
        NothingRecent(times, now);
      } else {
        RecentKeepsTail(pre, now);
        TailGrows(Recent(pre, now), pre, last, now);
        assert times == pre + [last];
      }
    }
  }

  /** A history in which no four attempts fall inside one window. */
  predicate WithinBudget(history: seq<int>) {
    forall i :: 0 <= i && i + MAX_ATTEMPTS < |history| ==> history[i + MAX_ATTEMPTS] - history[i] >= WINDOW
  }

  lemma RecentOfTail(budget: seq<int>, history: seq<int>, clock: int, now: int)
    requires Ascending(history) && TailOf(budget, history, clock) && clock <= now
    ensures TailOf(Recent(budget, now), history, now)
  {
    RecentKeepsTail(budget, now);
    var kept := Recent(budget, now);
    var d := |history| - |budget|;
    forall i | 0 <= i < |history| - |kept| ensures now - history[i] >= WINDOW {
      if i >= d {
        assert history[i] == budget[i - d];
      }
    }
  }

  lemma TailDecidesLikeHistory(kept: seq<int>, history: seq<int>, now: int)
    requires TailOf(kept, history, now) && forall t :: t in kept ==> now - t < WINDOW
    ensures |kept| < MAX_ATTEMPTS
            <==> |history| < MAX_ATTEMPTS || now - history[|history| - MAX_ATTEMPTS] >= WINDOW
  {
    if |kept| >= MAX_ATTEMPTS {
      assert history[|history| - MAX_ATTEMPTS] == kept[|kept| - MAX_ATTEMPTS];
      assert kept[|kept| - MAX_ATTEMPTS] in kept;
    }
  }

  /**
   * The in-place filter forgets nothing that matters: the decision it takes is the decision a
   * counter over the whole history would take, and the history stays within budget.
   */
  lemma BudgetDecidesLikeHistory(budget: seq<int>, history: seq<int>, clock: int, now: int)
    requires Ascending(history) && WithinBudget(history) && TailOf(budget, history, clock) && clock <= now
    requires history != [] ==> history[|history| - 1] <= now
    ensures |Recent(budget, now)| < MAX_ATTEMPTS
            <==> |history| < MAX_ATTEMPTS || now - history[|history| - MAX_ATTEMPTS] >= WINDOW
    ensures TailOf(Recent(budget, now), history, now)
    ensures |Recent(budget, now)| < MAX_ATTEMPTS ==>
              && Ascending(history + [now]) && WithinBudget(history + [now])
              && TailOf(Recent(budget, now) + [now], history + [now], now)
  {
    var kept := Recent(budget, now);
    RecentOfTail(budget, history, clock, now);
    TailDecidesLikeHistory(kept, history, now);
    if |kept| < MAX_ATTEMPTS { AppendStaysWithin(kept, history, now); }
  }

  lemma AppendStaysWithin(kept: seq<int>, history: seq<int>, now: int)
    requires Ascending(history) && WithinBudget(history) && TailOf(kept, history, now)
    requires history != [] ==> history[|history| - 1] <= now
    requires |kept| < MAX_ATTEMPTS
    ensures Ascending(history + [now]) && WithinBudget(history + [now])
    ensures TailOf(kept + [now], history + [now], now)
  {
    var longer := history + [now];
    forall i | 0 <= i && i + MAX_ATTEMPTS < |longer|
      ensures longer[i + MAX_ATTEMPTS] - longer[i] >= WINDOW
    {
      assert longer[i] == history[i];
      if i + MAX_ATTEMPTS < |history| {
        assert longer[i + MAX_ATTEMPTS] == history[i + MAX_ATTEMPTS];
      }
    }
    TailGrows(kept, history, now, now);
  }

  /** Attempts a third of the window apart are never refused, however many there are. */
  lemma {:induction false} SpacedAttemptsNeverRefused(attempts: map<string, seq<int>>, key: string, history: seq<int>, now: int)
    requires TailOf(Budget(attempts, key), history, if history == [] then now else history[|history| - 1])
    requires forall i :: 0 <= i < |history| - 1 ==> 3 * (history[i + 1] - history[i]) >= WINDOW
    requires history != [] ==> 3 * (now - history[|history| - 1]) >= WINDOW
    ensures Allows(attempts, key, now)
    ensures TailOf(Budget(AfterAllow(attempts, key, now), key), history + [now], now)
  {
    SpacedIsAscending(history);
    var clock := if history == [] then now else history[|history| - 1];
    forall i | 0 <= i && i + MAX_ATTEMPTS < |history|
      ensures history[i + MAX_ATTEMPTS] - history[i] >= WINDOW
    {
      assert 3 * (history[i + 1] - history[i]) >= WINDOW;
      assert 3 * (history[i + 1 + 1] - history[i + 1]) >= WINDOW;
      assert 3 * (history[i + 2 + 1] - history[i + 2]) >= WINDOW;
    }
    BudgetDecidesLikeHistory(Budget(attempts, key), history, clock, now);
    if |history| >= MAX_ATTEMPTS {
      var n := |history|;
      assert 3 * (history[n - 3 + 1] - history[n - 3]) >= WINDOW;
      assert 3 * (history[n - 2 + 1] - history[n - 2]) >= WINDOW;
    }
  }

  lemma {:induction false} SpacedIsAscending(history: seq<int>)
    requires forall i :: 0 <= i < |history| - 1 ==> 3 * (history[i + 1] - history[i]) >= WINDOW
    ensures Ascending(history)
  {
    if history != [] {
      var pre := history[..|history| - 1];
      SpacedIsAscending(pre);
      if pre != [] {
        var n := |pre|;
        assert 3 * (history[n - 1 + 1] - history[n - 1]) >= WINDOW;
        forall i | 0 <= i < n ensures history[i] <= history[n] {
          assert i < n - 1 ==> pre[i] <= pre[n - 1];
        }
      }
    }
  }

  // ---------------------------------------------------------------- the budget in memory

  /** A Go slice: `len` elements of a backing array. */
  datatype Slice = Slice(arr: array<int>, len: nat)

  class Remediator {
    var slices: map<string, Slice>
    ghost var attempts: map<string, seq<int>>  // what the slices hold
    ghost var Repr: set<object>

    ghost predicate Valid()
      reads this, Repr
    {
      && this in Repr
      && attempts.Keys == slices.Keys
      && (forall k :: k in slices ==>
            && slices[k].arr in Repr && slices[k].len <= slices[k].arr.Length
            && slices[k].arr[..slices[k].len] == attempts[k])
      && (forall j, k :: j in slices && k in slices && j != k ==> slices[j].arr != slices[k].arr)
    }

    constructor ()
      ensures Valid() && fresh(Repr) && attempts == map[]
    {
      slices := map[];
      attempts := map[];
      Repr := {this};
    }

    /** Filters the slice in place, then appends if there is room in the budget. */
    method Allow(key: string, now: int) returns (ok: bool)
      requires Valid()
      modifies Repr
      ensures Valid() && fresh(Repr - old(Repr))
      ensures ok == Allows(old(attempts), key, now)
      ensures attempts == AfterAllow(old(attempts), key, now)
    {
      ghost var recent := Recent(Budget(attempts, key), now);
      var s := Fetch(key);
      var kept := Filter(s.arr, s.len, now);
      ok := kept < MAX_ATTEMPTS;
      var out := Slice(s.arr, kept);
      if ok {
        out := Append(s.arr, kept, now);
      }
      assert out.arr[..out.len] == if ok then recent + [now] else recent;
      Store(key, out);
    }

    /** `m.attempts[key]`, a nil slice when the key is absent. */
    method Fetch(key: string) returns (s: Slice)
      requires Valid()
      ensures s.len <= s.arr.Length && s.arr[..s.len] == Budget(attempts, key)
      ensures if key in slices then s == slices[key] else fresh(s.arr)
    {
      if key in slices {
        s := slices[key];
      } else {
        var none := new int[0];
        s := Slice(none, 0);
      }
    }

    /** `m.attempts[key] = s`, for a slice no other key holds. */
    method Store(key: string, s: Slice)
      requires this in Repr && attempts.Keys == slices.Keys
      requires s.len <= s.arr.Length && forall k :: k in slices && k != key ==> slices[k].arr != s.arr
      requires forall k :: k in slices && k != key ==>
                 && slices[k].arr in Repr && slices[k].len <= slices[k].arr.Length
                 && slices[k].arr[..slices[k].len] == attempts[k]
      requires forall j, k :: j in slices && k in slices && j != k ==> slices[j].arr != slices[k].arr
      modifies this
      ensures Valid() && Repr == old(Repr) + {s.arr}
      ensures slices == old(slices)[key := s]
      ensures attempts == old(attempts)[key := s.arr[..s.len]]
    {
      slices := slices[key := s];
      attempts := attempts[key := s.arr[..s.len]];
      Repr := Repr + {s.arr};
    }

    method Clear(key: string)
      requires Valid()
      modifies this
      ensures Valid() && Repr == old(Repr)
      ensures attempts == old(attempts) - {key}
    {
      slices := slices - {key};
      attempts := attempts - {key};
    }
  }

  /** `kept := times[:0]` and the loop that appends to it while ranging over `times`. */
  method Filter(arr: array<int>, len: nat, now: int) returns (kept: nat)
    requires len <= arr.Length
    modifies arr
    ensures kept <= len && arr[..kept] == Recent(old(arr[..len]), now)
  {
    kept := 0;
    ghost var was := arr[..len];
    for i := 0 to len
      invariant kept <= i
      invariant arr[i..len] == was[i..]
      invariant arr[..kept] == Recent(was[..i], now)
    {
      var t := arr[i];
      assert t == arr[i..len][0] == was[i];
      assert was[..i + 1][..i] == was[..i];
      assert arr[i + 1..len] == arr[i..len][1..];
      if now - t < WINDOW {
        arr[kept] := t;
        kept := kept + 1;
        assert arr[..kept] == Recent(was[..i], now) + [t];
      }
    }
    assert was[..len] == was;
  }

  /** Go's append: in place while the capacity lasts, into a fresh array after that. */
  method Append(arr: array<int>, len: nat, x: int) returns (s: Slice)
    requires len <= arr.Length
    modifies arr
    ensures s.len <= s.arr.Length && s.arr[..s.len] == old(arr[..len]) + [x]
    ensures s.arr == arr || fresh(s.arr)
  {
    if len < arr.Length {
      arr[len] := x;
      s := Slice(arr, len + 1);
    } else {
      var bigger := new int[2 * len + 1];
      for i := 0 to len
        invariant bigger[..i] == arr[..i] && arr[..] == old(arr[..])
      {
        bigger[i] := arr[i];
      }
      bigger[len] := x;
      s := Slice(bigger, len + 1);
    }
  }
}
