/** Facts about splitting sequences at their end, and about what a scan collects. */
module Sequences {
  import opened Optional

  lemma LastSplit<T>(s: seq<T>)
    requires s != []
    ensures s == s[..|s| - 1] + [s[|s| - 1]]
  {
  }

  lemma Regroup<T>(a: seq<T>, b: seq<T>, e: T)
    ensures a + (b + [e]) == (a + b) + [e]
  {
  }

  /** The first place where a predicate holds, or the length. */
  function FirstWhere<T>(s: seq<T>, p: T -> bool): (at: nat)
    ensures at <= |s| && (at < |s| ==> p(s[at]))
  {
    if s == [] || p(s[0]) then 0 else 1 + FirstWhere(s[1..], p)
  }

  lemma {:induction false} FirstWhereIs<T>(s: seq<T>, i: nat, p: T -> bool)
    requires i <= |s| && (i < |s| ==> p(s[i]))
    requires forall j :: 0 <= j < i ==> !p(s[j])
    ensures FirstWhere(s, p) == i
  {
    if i > 0 {
      assert !p(s[0]);
      FirstWhereIs(s[1..], i - 1, p);
    }
  }

  /** What a reader makes of the elements and their places, without those it makes nothing of. */
  function Collected<T, U>(from: seq<T>, read: (T, nat) -> Option<U>): seq<U> {
    if from == [] then []
    else
      var n := |from| - 1;
      var r := read(from[n], n);
      Collected(from[..n], read) + if r.Some? then [r.value] else []
  }

  lemma CollectedOneMore<T, U>(from: seq<T>, i: nat, read: (T, nat) -> Option<U>)
    requires i < |from|
    ensures Collected(from[..i + 1], read) ==
            Collected(from[..i], read) + if read(from[i], i).Some? then [read(from[i], i).value] else []
  {
    assert from[..i + 1][..i] == from[..i];
  }

  /** Reading on only adds at the end. */
  lemma {:induction false} CollectedExtends<T, U>(from: seq<T>, i: nat, read: (T, nat) -> Option<U>)
    requires i <= |from|
    ensures Collected(from[..i], read) <= Collected(from, read)
  {
    if i == |from| {
      assert from[..i] == from;
    } else {
      var pre := from[..|from| - 1];
      assert pre[..i] == from[..i];
      CollectedExtends(pre, i, read);
    }
  }

  predicate Ascends(of: seq<nat>, n: nat) {
    (forall k :: 0 <= k < |of| ==> of[k] < n) && forall j, k :: 0 <= j < k < |of| ==> of[j] < of[k]
  }

  /** `out` consists of what the reader makes of the elements at the given places, which ascend. */
  ghost predicate Picks<T, U>(of: seq<nat>, from: seq<T>, out: seq<U>, read: (T, nat) -> Option<U>) {
    Ascends(of, |from|) && |of| == |out| && forall k :: 0 <= k < |of| ==> read(from[of[k]], of[k]) == Some(out[k])
  }

  lemma PicksOneMore<T, U>(of: seq<nat>, from: seq<T>, out: seq<U>, read: (T, nat) -> Option<U>, last: T)
    requires Picks(of, from, out, read)
    ensures Picks(of, from + [last], out, read)
    ensures var r := read(last, |from|);
            r.Some? ==> Picks(of + [|from|], from + [last], out + [r.value], read)
  {
  }

  /** The places are those of all the elements the reader makes something of. */
  predicate Complete<T, U>(of: seq<nat>, from: seq<T>, read: (T, nat) -> Option<U>) {
    forall i :: 0 <= i < |from| ==> (read(from[i], i).Some? <==> i in of)
  }

  lemma CompleteOneMore<T, U>(of: seq<nat>, from: seq<T>, read: (T, nat) -> Option<U>, last: T)
    requires Ascends(of, |from|) && Complete(of, from, read)
    ensures Complete(if read(last, |from|).Some? then of + [|from|] else of, from + [last], read)
  {
    var n, longer := |from|, from + [last];
    var places := if read(last, n).Some? then of + [n] else of;
    forall i | 0 <= i < |longer| ensures read(longer[i], i).Some? <==> i in places {
      if i < n {
        assert longer[i] == from[i];
      } else {
        assert longer[i] == last && i !in of;
      }
    }
  }

  /** A scan collects from exactly the elements its reader makes something of, in order. */
  lemma {:induction false} CollectedPicks<T, U>(from: seq<T>, read: (T, nat) -> Option<U>) returns (of: seq<nat>)
    ensures Picks(of, from, Collected(from, read), read) && Complete(of, from, read)
  {
    of := [];
    if from != [] {
      var n := |from| - 1;
      var pre, last := from[..n], from[n];
      var before := CollectedPicks(pre, read);
      PicksOneMore(before, pre, Collected(pre, read), read, last);
      CompleteOneMore(before, pre, read, last);
      LastSplit(from);
      of := if read(last, n).Some? then before + [n] else before;
    }
  }
}
