/** Layered per-host settings of server/hostprefs.go, with the selectors of server/targets.go. */
module HostPrefs {
  import opened Optional
  import opened Text
  import Alerts

  /** `until` is the zero time when absent. */
  datatype HostPref = HostPref(cpu: real, mem: real, disk: real, mute: bool, until: Option<int>, note: string,
                               services: seq<string>, remediate: map<string, string>)

  const NO_PREF := HostPref(0.0, 0.0, 0.0, false, None, "", [], map[])

  predicate IsZero(p: HostPref) {
    p.cpu == 0.0 && p.mem == 0.0 && p.disk == 0.0 && !p.mute && p.until.None? && p.note == "" &&
    |p.services| == 0 && |p.remediate| == 0
  }

  /** An entry has no settings exactly if it is the one the source starts from. */
  lemma IsZeroExactly(p: HostPref)
    ensures IsZero(p) <==> p == HostPref(0.0, 0.0, 0.0, false, None, "", [], map[])
  {
  }

  /** Silence ends at the instant the window names. */
  predicate Silenced(p: HostPref, now: int) {
    p.mute || (p.until.Some? && now < p.until.value)
  }

  datatype HostView = HostView(agent: string, os: string, tags: string)

  /** The case rules of the strings package: lower-casing, and comparison under folding. */
  datatype Fold = Fold(lower: string -> string, same: (string, string) -> bool)

  type Prefs = map<string, HostPref>

  // ---------------------------------------------------------------- selectors

  const ALL := "all"
  const OS := "os:"
  const TAG := "tag:"

  predicate IsSelector(key: string) { key == ALL || TAG <= key || OS <= key }

  function Rank(key: string): nat {
    if key == ALL then 0 else if OS <= key then 1 else 2
  }

  predicate Separates(c: char) { c == ',' || c == ' ' || c == ';' }

  /** The pieces between separators; empty ones do not count. */
  function Fields(s: string): seq<string> {
    if s == "" then []
    else
      var k := Run(s);
      if k == 0 then Fields(s[1..]) else [s[..k]] + Fields(s[k..])
  }

  function Run(s: string): (k: nat)
    ensures k <= |s|
  {
    if s == "" || Separates(s[0]) then 0 else 1 + Run(s[1..])
  }

  /** A stretch between separators that holds none itself. */
  predicate IsPiece(s: string, i: nat, j: nat) {
    && i < j <= |s| && (forall k :: i <= k < j ==> !Separates(s[k]))
    && (i == 0 || Separates(s[i - 1])) && (j == |s| || Separates(s[j]))
  }

  lemma {:induction false} RunIs(s: string)
    ensures forall i :: 0 <= i < Run(s) ==> !Separates(s[i])
    ensures Run(s) == |s| || Separates(s[Run(s)])
  {
    if s != "" && !Separates(s[0]) {
      RunIs(s[1..]);
      assert forall i :: 0 < i < Run(s) ==> s[i] == s[1..][i - 1];
    }
  }

  /** What comes before a piece can be cut off. */
  lemma PieceLater(s: string, d: nat, i: nat, j: nat)
    requires d <= i && IsPiece(s, i, j)
    ensures IsPiece(s[d..], i - d, j - d) && s[d..][i - d..j - d] == s[i..j]
  {
    assert forall n :: i - d <= n < j - d ==> s[d..][n] == s[n + d];
    assert i > d ==> s[d..][i - d - 1] == s[i - 1];
    assert j < |s| ==> s[d..][j - d] == s[j];
  }

  lemma PieceEarlier(s: string, d: nat, i: nat, j: nat)
    requires d <= |s| && IsPiece(s[d..], i, j) && (i > 0 || d == 0 || Separates(s[d - 1]))
    ensures IsPiece(s, i + d, j + d) && s[d..][i..j] == s[i + d..j + d]
  {
    assert forall n :: i <= n < j ==> s[d..][n] == s[n + d];
    assert i > 0 ==> s[d..][i - 1] == s[i + d - 1];
    assert j + d < |s| ==> s[d..][j] == s[j + d];
  }

  lemma LaterFields(s: string, f: string)
    requires s != "" && f in Fields(s[if Run(s) == 0 then 1 else Run(s)..])
    ensures f in Fields(s)
  {
  }

  lemma FirstPiece(s: string, j: nat)
    requires IsPiece(s, 0, j)
    ensures j == Run(s) && s[0..j] in Fields(s)
  {
    RunIs(s);
    assert Run(s) >= j;
    assert s[0..j] == s[..Run(s)];
  }

  lemma RunEndsBefore(s: string, i: nat)
    requires 0 < i <= |s| && Separates(s[i - 1])
    ensures Run(s) < i
  {
    RunIs(s);
  }

  lemma {:induction false} PiecesAreFields(s: string, i: nat, j: nat, f: string)
    requires IsPiece(s, i, j) && f == s[i..j]
    ensures f in Fields(s)
    decreases |s|
  {
    if i == 0 {
      FirstPiece(s, j);
    } else {
      RunEndsBefore(s, i);
      var d := if Run(s) == 0 then 1 else Run(s);
      PieceLater(s, d, i, j);
      PiecesAreFields(s[d..], i - d, j - d, f);
      LaterFields(s, f);
    }
  }

  lemma {:induction false} FieldsArePieces(s: string, f: string) returns (i: nat, j: nat)
    requires f in Fields(s)
    ensures IsPiece(s, i, j) && f == s[i..j]
    decreases |s|
  {
    var k := Run(s);
    RunIs(s);
    if k > 0 && f == s[..k] {
      i, j := 0, k;
    } else {
      var d := if k == 0 then 1 else k;
      i, j := FieldsArePieces(s[d..], f);
      PieceEarlier(s, d, i, j);
      i, j := i + d, j + d;
    }
  }

  predicate HasTag(tags: string, tag: string, fold: Fold) {
    var t := Trim(fold.lower(tag));
    t != "" && exists f :: f in Fields(fold.lower(tags)) && Trim(f) == t
  }

  predicate Matches(key: string, v: HostView, fold: Fold) {
    if key == ALL then true
    else if OS <= key then fold.same(v.os, key[|OS|..])
    else if TAG <= key then HasTag(v.tags, key[|TAG|..], fold)
    else false
  }

  /** One of the host's tags is this one, whatever the case and the separators. */
  ghost predicate Tagged(v: HostView, tag: string, fold: Fold) {
    var tags, t := fold.lower(v.tags), Trim(fold.lower(tag));
    t != "" && exists i: nat, j: nat :: IsPiece(tags, i, j) && Trim(tags[i..j]) == t
  }

  lemma HasTagExactly(v: HostView, tag: string, fold: Fold)
    ensures HasTag(v.tags, tag, fold) <==> Tagged(v, tag, fold)
  {
    var tags, t := fold.lower(v.tags), Trim(fold.lower(tag));
    if f :| f in Fields(tags) && Trim(f) == t {
      var i, j := FieldsArePieces(tags, f);
    }
    if i: nat, j: nat :| IsPiece(tags, i, j) && Trim(tags[i..j]) == t {
      PiecesAreFields(tags, i, j, tags[i..j]);
    }
  }

  /** What a key covers: every host, the hosts of one system, or those with one tag; any other key covers none. */
  ghost predicate Applies(key: string, v: HostView, fold: Fold) {
    || key == "all"
    || (exists os :: key == "os:" + os && fold.same(v.os, os))
    || (exists tag :: key == "tag:" + tag && Tagged(v, tag, fold))
  }

  lemma AppliesExactly(key: string, v: HostView, fold: Fold)
    ensures IsSelector(key) && Matches(key, v, fold) <==> Applies(key, v, fold)
  {
    if OS <= key { assert key == "os:" + key[3..]; }
    if TAG <= key {
      assert key == "tag:" + key[4..];
      HasTagExactly(v, key[4..], fold);
    }
    forall os | key == "os:" + os ensures OS <= key && key[3..] == os && key != ALL { assert key[0] == 'o'; }
    forall tag | key == "tag:" + tag ensures TAG <= key && key[4..] == tag && key != ALL && !(OS <= key) {
      assert key[0] == 't';
    }
    assert ALL[0] == 'a' && OS[0] == 'o' && TAG[0] == 't';
  }

  function Covering(m: Prefs, v: HostView, fold: Fold): set<string> {
    set k | k in m && IsSelector(k) && Matches(k, v, fold)
  }

  // ---------------------------------------------------------------- orders on keys

  /** Byte order of two strings. */
  predicate Precedes(a: string, b: string) {
    if b == "" then false
    else if a == "" then true
    else if a[0] != b[0] then a[0] < b[0]
    else Precedes(a[1..], b[1..])
  }

  lemma {:induction false} PrecedesIsTotal(a: string, b: string)
    ensures a == b || Precedes(a, b) || Precedes(b, a)
  {
    if a != "" && b != "" && a[0] == b[0] {
      PrecedesIsTotal(a[1..], b[1..]);
      assert a == [a[0]] + a[1..] && b == [b[0]] + b[1..];
    }
  }

  lemma {:induction false} PrecedesIsTransitive(a: string, b: string, c: string)
    requires Precedes(a, b) && Precedes(b, c)
    ensures Precedes(a, c)
  {
    if a != "" && a[0] == b[0] == c[0] { PrecedesIsTransitive(a[1..], b[1..], c[1..]); }
  }

  lemma {:induction false} PrecedesIsIrreflexive(a: string)
    ensures !Precedes(a, a)
  {
    if a != "" { PrecedesIsIrreflexive(a[1..]); }
  }

  /** Thresholds order keys by rank first; watch lists by name only. */
  predicate Below(a: string, b: string, ranked: bool) {
    if ranked && Rank(a) != Rank(b) then Rank(a) < Rank(b) else Precedes(a, b)
  }

  lemma BelowIsStrict(a: string, b: string, ranked: bool)
    ensures a != b ==> Below(a, b, ranked) || Below(b, a, ranked)
    ensures !Below(a, a, ranked)
    ensures Below(a, b, ranked) ==> !Below(b, a, ranked)
  {
    PrecedesIsTotal(a, b);
    PrecedesIsIrreflexive(a);
    if Precedes(a, b) && Precedes(b, a) { PrecedesIsTransitive(a, b, a); }
  }

  lemma BelowIsTransitive(a: string, b: string, c: string, ranked: bool)
    requires Below(a, b, ranked) && Below(b, c, ranked)
    ensures Below(a, c, ranked)
  {
    if Precedes(a, b) && Precedes(b, c) { PrecedesIsTransitive(a, b, c); }
  }

  predicate Ascending(keys: seq<string>, ranked: bool) {
    forall i, j :: 0 <= i < j < |keys| ==> Below(keys[i], keys[j], ranked)
  }

  ghost predicate Lists(keys: seq<string>, s: set<string>) {
    (forall k :: k in keys <==> k in s) && forall i, j :: 0 <= i < j < |keys| ==> keys[i] != keys[j]
  }

  lemma AscendingIsDistinct(keys: seq<string>, ranked: bool)
    requires Ascending(keys, ranked)
    ensures forall i, j :: 0 <= i < j < |keys| ==> keys[i] != keys[j]
  {
    forall i, j | 0 <= i < j < |keys| ensures keys[i] != keys[j] { BelowIsStrict(keys[i], keys[j], ranked); }
  }

  /** One set has one ascending listing, whatever order its members were met in. */
  lemma {:induction false} OneAscendingListing(a: seq<string>, b: seq<string>, ranked: bool)
    requires Ascending(a, ranked) && Ascending(b, ranked) && forall k :: k in a <==> k in b
    ensures a == b
  {
    if a == [] {
      assert forall i :: 0 <= i < |b| ==> b[i] in b;
    } else {
      assert a[0] in b;
      AscendingIsDistinct(a, ranked);
      AscendingIsDistinct(b, ranked);
      SameHead(a, b, ranked);
      forall k ensures k in a[1..] <==> k in b[1..] {
        assert k in a[1..] <==> k in a && k != a[0];
        assert k in b[1..] <==> k in b && k != b[0];
      }
      OneAscendingListing(a[1..], b[1..], ranked);
      assert a == [a[0]] + a[1..] && b == [b[0]] + b[1..];
    }
  }

  lemma SameHead(a: seq<string>, b: seq<string>, ranked: bool)
    requires Ascending(a, ranked) && Ascending(b, ranked) && a != [] && b != []
    requires a[0] in b && b[0] in a
    ensures a[0] == b[0]
  {
    var i :| 0 <= i < |a| && a[i] == b[0];
    var j :| 0 <= j < |b| && b[j] == a[0];
    BelowIsStrict(a[0], b[0], ranked);
  }

  // ---------------------------------------------------------------- thresholds

  type Field = HostPref -> real

  function Own(m: Prefs, v: HostView): HostPref {
    if v.agent in m then m[v.agent] else NO_PREF
  }

  /** The covering keys that set a field. */
  function Setting(m: Prefs, v: HostView, fold: Fold, f: Field): set<string> {
    set k | k in Covering(m, v, fold) && f(m[k]) > 0.0
  }

  ghost predicate Narrowest(k: string, s: set<string>) {
    k in s && forall j :: j in s && j != k ==> Below(j, k, true)
  }

  /** The layering: the host's own positive value, else that of its narrowest policy that has one, else nothing. */
  ghost predicate Decides(m: Prefs, v: HostView, fold: Fold, f: Field, x: real) {
    if f(Own(m, v)) > 0.0 then x == f(Own(m, v))
    else if Setting(m, v, fold, f) == {} then x == 0.0
    else exists k :: Narrowest(k, Setting(m, v, fold, f)) && x == f(m[k])
  }

  /** The layering leaves no choice, so the order in which a map yields its keys cannot show. */
  lemma LayeringIsUnambiguous(m: Prefs, v: HostView, fold: Fold, f: Field, x: real, y: real)
    requires Decides(m, v, fold, f, x) && Decides(m, v, fold, f, y)
    ensures x == y
  {
    var s := Setting(m, v, fold, f);
    if f(Own(m, v)) <= 0.0 && s != {} {
      var j :| Narrowest(j, s) && x == f(m[j]);
      var k :| Narrowest(k, s) && y == f(m[k]);
      BelowIsStrict(j, k, true);
    }
  }

  /** The value left after the first keys of the list have been applied in turn. */
  function Layered(m: Prefs, keys: seq<string>, f: Field): real
    requires forall k :: k in keys ==> k in m
  {
    if keys == [] then 0.0
    else
      var last := f(m[keys[|keys| - 1]]);
      if last > 0.0 then last else Layered(m, keys[..|keys| - 1], f)
  }

  /** Applying an ascending list leaves the value of its last key that has one. */
  lemma {:induction false} LayersEndAtTheNarrowest(m: Prefs, keys: seq<string>, f: Field)
    requires Ascending(keys, true) && forall k :: k in keys ==> k in m
    ensures var s := set k | k in keys && f(m[k]) > 0.0;
            if s == {} then Layered(m, keys, f) == 0.0
            else exists k :: Narrowest(k, s) && Layered(m, keys, f) == f(m[k])
  {
    var s := set k | k in keys && f(m[k]) > 0.0;
    if keys != [] {
      var n := |keys| - 1;
      var pre, last := keys[..n], keys[n];
      if f(m[last]) > 0.0 {
        assert last in s;
        forall j | j in s && j != last ensures Below(j, last, true) {
          var i :| 0 <= i < |keys| && keys[i] == j;
        }
        assert Narrowest(last, s);
      } else {
        LayersEndAtTheNarrowest(m, pre, f);
        assert s == set k | k in pre && f(m[k]) > 0.0;
      }
    }
  }

  lemma LayersDecide(m: Prefs, v: HostView, fold: Fold, f: Field, keys: seq<string>)
    requires Ascending(keys, true) && Lists(keys, Covering(m, v, fold))
    ensures var x := Layered(m, keys, f);
            Decides(m, v, fold, f, if f(Own(m, v)) > 0.0 then f(Own(m, v)) else x)
  {
    LayersEndAtTheNarrowest(m, keys, f);
    assert Setting(m, v, fold, f) == set k | k in keys && f(m[k]) > 0.0;
  }

  /** This policy covers the host and sets the field. */
  ghost predicate Sets(m: Prefs, key: string, v: HostView, fold: Fold, f: Field) {
    key in m && Applies(key, v, fold) && f(m[key]) > 0.0
  }

  predicate IsTag(key: string) { |key| >= 4 && key[..4] == "tag:" }

  predicate IsOs(key: string) { |key| >= 3 && key[..3] == "os:" }

  lemma RanksOf(key: string)
    requires IsSelector(key)
    ensures IsTag(key) ==> Rank(key) == 2
    ensures IsOs(key) ==> Rank(key) == 1
    ensures !IsTag(key) && !IsOs(key) ==> key == "all" && Rank(key) == 0
    ensures !(IsTag(key) && IsOs(key))
  {
    assert ALL[0] == 'a' && OS[0] == 'o' && TAG[0] == 't';
    assert TAG <= key <==> IsTag(key);
    assert OS <= key <==> IsOs(key);
  }

  /**
   * Who decides a threshold: the host itself; else the last in byte order of the tags that set it; else so of the
   * systems; else the policy for all; else nobody.
   */
  lemma NarrowestPolicyWins(m: Prefs, v: HostView, fold: Fold, f: Field, x: real)
    requires Decides(m, v, fold, f, x)
    ensures if v.agent in m && f(m[v.agent]) > 0.0 then x == f(m[v.agent])
            else if exists k :: Sets(m, k, v, fold, f) && IsTag(k) then
              exists k :: Sets(m, k, v, fold, f) && IsTag(k) && x == f(m[k])
                          && forall j :: Sets(m, j, v, fold, f) && IsTag(j) && j != k ==> Precedes(j, k)
            else if exists k :: Sets(m, k, v, fold, f) && IsOs(k) then
              exists k :: Sets(m, k, v, fold, f) && IsOs(k) && x == f(m[k])
                          && forall j :: Sets(m, j, v, fold, f) && IsOs(j) && j != k ==> Precedes(j, k)
            else x == if "all" in m && f(m["all"]) > 0.0 then f(m["all"]) else 0.0
    requires f(NO_PREF) <= 0.0
  {
    if !(v.agent in m && f(m[v.agent]) > 0.0) {
      var s := Setting(m, v, fold, f);
      forall k ensures k in s <==> Sets(m, k, v, fold, f) { AppliesExactly(k, v, fold); }
      forall k | k in s ensures IsSelector(k) { }
      if s != {} {
        var k :| Narrowest(k, s) && x == f(m[k]);
        forall j | j in s ensures IsSelector(j) && (j != k ==> Below(j, k, true)) { }
        NarrowestIsOfTopRank(s, k);
      } else {
        assert forall k :: !Sets(m, k, v, fold, f);
        assert !Sets(m, "all", v, fold, f);
      }
    }
  }

  lemma NarrowestIsOfTopRank(s: set<string>, k: string)
    requires Narrowest(k, s) && forall j :: j in s ==> IsSelector(j)
    ensures if exists j :: j in s && IsTag(j) then IsTag(k) && forall j :: j in s && IsTag(j) && j != k ==> Precedes(j, k)
            else if exists j :: j in s && IsOs(j) then IsOs(k) && forall j :: j in s && IsOs(j) && j != k ==> Precedes(j, k)
            else k == "all"
  {
    forall j | j in s ensures IsSelector(j) { RanksOf(j); }
    RanksOf(k);
    forall j | j in s && j != k
      ensures (IsTag(j) ==> IsTag(k) && Precedes(j, k)) && (IsOs(j) && !IsTag(k) ==> IsOs(k) && Precedes(j, k))
    {
      RanksOf(j);
      assert Below(j, k, true);
    }
  }

  // ---------------------------------------------------------------- watch lists

  /** What the covering policies and the host ask to watch, policies first. */
  function Wanted(m: Prefs, keys: seq<string>): seq<string>
    requires forall k :: k in keys ==> k in m
  {
    if keys == [] then [] else Wanted(m, keys[..|keys| - 1]) + m[keys[|keys| - 1]].services
  }

  /** The names asked for, lower-cased and without the blank ones. */
  function Heard(names: seq<string>, lower: string -> string): set<string> {
    set o | o in names && Trim(o) != "" :: lower(Trim(o))
  }

  /** The first spelling of every name. */
  function FirstSpellings(names: seq<string>, lower: string -> string): seq<string> {
    if names == [] then []
    else
      var pre, n := names[..|names| - 1], Trim(names[|names| - 1]);
      FirstSpellings(pre, lower) + if n != "" && lower(n) !in Heard(pre, lower) then [n] else []
  }

  lemma HeardOneMore(names: seq<string>, name: string, lower: string -> string)
    ensures var t := Trim(name);
            Heard(names + [name], lower) == Heard(names, lower) + if t != "" then {lower(t)} else {}
  {
    assert forall o :: o in names + [name] <==> o in names || o == name;
  }

  /** Every wanted name is kept in some spelling, and nothing else is. */
  lemma {:induction false} SpellingsCover(names: seq<string>, lower: string -> string)
    ensures var out := FirstSpellings(names, lower);
            && (forall n :: n in out ==> n != "" && exists o :: o in names && Trim(o) == n)
            && Heard(names, lower) == set n | n in out :: lower(n)
  {
    if names != [] {
      var pre, last := names[..|names| - 1], names[|names| - 1];
      SpellingsCover(pre, lower);
      assert names == pre + [last];
      HeardOneMore(pre, last, lower);
    }
  }

  predicate NoTwoAlike(names: seq<string>, lower: string -> string) {
    forall i, j :: 0 <= i < j < |names| ==> lower(names[i]) != lower(names[j])
  }

  /** No name is kept in two spellings. */
  lemma {:induction false} SpellingsDiffer(names: seq<string>, lower: string -> string)
    ensures NoTwoAlike(FirstSpellings(names, lower), lower)
  {
    if names != [] {
      var pre := names[..|names| - 1];
      SpellingsDiffer(pre, lower);
      SpellingsCover(pre, lower);
      assert forall n :: n in FirstSpellings(pre, lower) ==> lower(n) in Heard(pre, lower);
    }
  }

  /** The names of a watch list are distinct, so the rules a host is checked against have names of their own. */
  lemma WatchedRulesAreDistinct(cfg: Alerts.Config, pref: Alerts.Thresholds, silenced: bool, v: Alerts.HostView,
                                names: seq<string>, lower: string -> string, running: map<string, bool>)
    ensures Alerts.DistinctNames(Alerts.RulesFor(cfg, pref, silenced, v, FirstSpellings(names, lower), running))
  {
    SpellingsDiffer(names, lower);
    var out := FirstSpellings(names, lower);
    forall i, j | 0 <= i < j < |out| ensures out[i] != out[j] { assert lower(out[i]) != lower(out[j]); }
    Alerts.RuleNamesAreDistinct(cfg, pref, silenced, v, FirstSpellings(names, lower), running);
  }

  /** The watch list of a host: first spellings, policies in key order and the host's own wishes last. */
  ghost predicate IsWatchList(m: Prefs, v: HostView, fold: Fold, out: seq<string>) {
    exists keys :: Lists(keys, Covering(m, v, fold)) && Ascending(keys, false)
                   && out == FirstSpellings(Wanted(m, keys) + Own(m, v).services, fold.lower)
  }

  /** It does not reshuffle: the order in which a map yields its keys cannot show. */
  lemma WatchListIsUnambiguous(m: Prefs, v: HostView, fold: Fold, a: seq<string>, b: seq<string>)
    requires IsWatchList(m, v, fold, a) && IsWatchList(m, v, fold, b)
    ensures a == b
  {
    var j :| Lists(j, Covering(m, v, fold)) && Ascending(j, false)
             && a == FirstSpellings(Wanted(m, j) + Own(m, v).services, fold.lower);
    var k :| Lists(k, Covering(m, v, fold)) && Ascending(k, false)
             && b == FirstSpellings(Wanted(m, k) + Own(m, v).services, fold.lower);
    OneAscendingListing(j, k, false);
  }

  /** This policy or the host itself asks to watch a name. */
  ghost predicate Asks(m: Prefs, key: string, v: HostView, fold: Fold, name: string) {
    key in m && (key == v.agent || Applies(key, v, fold)) && name in m[key].services
  }

  lemma {:induction false} WantedMembers(m: Prefs, keys: seq<string>, name: string)
    requires forall k :: k in keys ==> k in m
    ensures name in Wanted(m, keys) <==> exists k :: k in keys && name in m[k].services
  {
    if keys != [] {
      var pre, last := keys[..|keys| - 1], keys[|keys| - 1];
      WantedMembers(m, pre, name);
      assert forall k :: k in keys <==> k in pre || k == last;
    }
  }

  /** The watch list is the union of what is asked for, by any policy that covers the host and by the host itself. */
  lemma WatchListIsTheUnion(m: Prefs, v: HostView, fold: Fold, out: seq<string>)
    requires IsWatchList(m, v, fold, out)
    ensures forall n :: n in out ==> n != "" && exists k, o :: Asks(m, k, v, fold, o) && Trim(o) == n
    ensures forall k, o :: Asks(m, k, v, fold, o) && Trim(o) != "" ==>
              exists n :: n in out && fold.lower(n) == fold.lower(Trim(o))
  {
    var keys :| Lists(keys, Covering(m, v, fold)) && Ascending(keys, false)
                && out == FirstSpellings(Wanted(m, keys) + Own(m, v).services, fold.lower);
    var all := Wanted(m, keys) + Own(m, v).services;
    SpellingsCover(all, fold.lower);
    forall o ensures o in all <==> exists k :: Asks(m, k, v, fold, o) {
      WantedMembers(m, keys, o);
      if k :| k in keys && o in m[k].services {
        AppliesExactly(k, v, fold);
        assert Asks(m, k, v, fold, o);
      }
      if o in Own(m, v).services { assert Asks(m, v.agent, v, fold, o); }
      if k :| Asks(m, k, v, fold, o) { AppliesExactly(k, v, fold); }
    }
    forall k, o | Asks(m, k, v, fold, o) && Trim(o) != ""
      ensures exists n :: n in out && fold.lower(n) == fold.lower(Trim(o))
    {
      assert fold.lower(Trim(o)) in Heard(all, fold.lower);
    }
  }

  lemma {:induction false} SpellingsExtend(names: seq<string>, more: seq<string>, lower: string -> string)
    ensures FirstSpellings(names, lower) <= FirstSpellings(names + more, lower)
  {
    if more == [] {
      assert names + more == names;
    } else {
      SpellingsExtend(names, more[..|more| - 1], lower);
      assert (names + more)[..|names + more| - 1] == names + more[..|more| - 1];
    }
  }

  /** What the host asks for itself comes after what the policies ask for, in their spelling. */
  lemma OwnWishesComeLast(m: Prefs, v: HostView, fold: Fold, without: seq<string>, out: seq<string>)
    requires !IsSelector(v.agent) && IsWatchList(m, v, fold, out) && IsWatchList(m - {v.agent}, v, fold, without)
    ensures without <= out
  {
    var keys :| Lists(keys, Covering(m, v, fold)) && Ascending(keys, false)
                && out == FirstSpellings(Wanted(m, keys) + Own(m, v).services, fold.lower);
    var n := m - {v.agent};
    var others :| Lists(others, Covering(n, v, fold)) && Ascending(others, false)
                  && without == FirstSpellings(Wanted(n, others) + Own(n, v).services, fold.lower);
    assert Covering(n, v, fold) == Covering(m, v, fold);
    OneAscendingListing(keys, others, false);
    SameWanted(m, n, keys);
    assert Wanted(n, others) + Own(n, v).services == Wanted(m, keys);
    SpellingsExtend(Wanted(m, keys), Own(m, v).services, fold.lower);
  }

  // ---------------------------------------------------------------- fixes

  /** The covering keys that configure a fix for a rule. */
  function Fixing(m: Prefs, s: set<string>, rule: string): set<string> {
    set k | k in s && k in m && rule in m[k].remediate && m[k].remediate[rule] != ""
  }

  function FixOf(m: Prefs, k: string, rule: string): string
    requires k in m && rule in m[k].remediate
  {
    m[k].remediate[rule]
  }

  /** The fix kept after looking at the keys in order, and its rank; a later key wins only by a higher rank. */
  function BestOf(m: Prefs, keys: seq<string>, rule: string): (string, int) {
    if keys == [] then ("", -1)
    else
      var (best, rank) := BestOf(m, keys[..|keys| - 1], rule);
      var k := keys[|keys| - 1];
      if k in Fixing(m, {k}, rule) && Rank(k) > rank then (FixOf(m, k, rule), Rank(k)) else (best, rank)
  }

  /** A fix of maximal rank. */
  predicate Top(m: Prefs, s: set<string>, rule: string, k: string) {
    k in Fixing(m, s, rule) && forall j :: j in Fixing(m, s, rule) ==> Rank(j) <= Rank(k)
  }

  function Members(keys: seq<string>): set<string> { set k | k in keys }

  lemma FixingGrows(m: Prefs, pre: seq<string>, k: string, rule: string)
    ensures Members(pre + [k]) == Members(pre) + {k}
    ensures Fixing(m, Members(pre + [k]), rule) == Fixing(m, Members(pre), rule) + Fixing(m, {k}, rule)
  {
  }

  ghost predicate IsBest(m: Prefs, s: set<string>, rule: string, best: string, rank: int) {
    if Fixing(m, s, rule) == {} then best == "" && rank == -1
    else exists k :: Top(m, s, rule, k) && best == FixOf(m, k, rule) && rank == Rank(k)
  }

  /** Whatever the order, the fix kept is one of maximal rank. */
  lemma {:induction false} BestIsTop(m: Prefs, keys: seq<string>, rule: string)
    ensures IsBest(m, Members(keys), rule, BestOf(m, keys, rule).0, BestOf(m, keys, rule).1)
  {
    if keys != [] {
      var pre, k := keys[..|keys| - 1], keys[|keys| - 1];
      BestIsTop(m, pre, rule);
      assert keys == pre + [k];
      FixingGrows(m, pre, k, rule);
      BestSoFar(m, Members(pre), k, rule, BestOf(m, pre, rule).0, BestOf(m, pre, rule).1);
    }
  }

  lemma BestSoFar(m: Prefs, s: set<string>, k: string, rule: string, best: string, rank: int)
    requires IsBest(m, s, rule, best, rank)
    requires Fixing(m, s + {k}, rule) == Fixing(m, s, rule) + Fixing(m, {k}, rule)
    ensures if k in Fixing(m, {k}, rule) && Rank(k) > rank
            then IsBest(m, s + {k}, rule, FixOf(m, k, rule), Rank(k))
            else IsBest(m, s + {k}, rule, best, rank)
  {
    if k in Fixing(m, {k}, rule) && Rank(k) > rank {
      assert Top(m, s + {k}, rule, k);
    } else if Fixing(m, s, rule) != {} {
      var j :| Top(m, s, rule, j) && best == FixOf(m, j, rule) && rank == Rank(j);
      assert Top(m, s + {k}, rule, j);
    } else {
      assert k !in Fixing(m, {k}, rule);
    }
  }

  /** A key of maximal rank that is met first decides. */
  lemma {:induction false} FirstTopWins(m: Prefs, keys: seq<string>, rule: string)
    requires keys != [] && Top(m, Members(keys), rule, keys[0])
    ensures BestOf(m, keys, rule) == (FixOf(m, keys[0], rule), Rank(keys[0]))
  {
    var pre, k := keys[..|keys| - 1], keys[|keys| - 1];
    assert keys == pre + [k];
    FixingGrows(m, pre, k, rule);
    if pre == [] {
      assert BestOf(m, pre, rule) == ("", -1) && Fixing(m, {k}, rule) == {k};
    } else {
      assert keys[0] in Members(pre) && keys[0] == pre[0];
      FirstTopWins(m, pre, rule);
    }
  }

  /** Some listing of a set that starts with a given member. */
  lemma {:induction false} ListingFrom(s: set<string>, k: string) returns (keys: seq<string>)
    requires k in s
    ensures keys != [] && keys[0] == k && Lists(keys, s)
    decreases s
  {
    var rest := s - {k};
    if rest == {} {
      keys := [k];
    } else {
      var j :| j in rest;
      var tail := ListingFrom(rest, j);
      keys := [k] + tail;
      assert forall x :: x in keys <==> x == k || x in tail;
    }
  }

  /** The host's own fix, else one of maximal rank, else none. */
  ghost predicate IsFix(m: Prefs, v: HostView, fold: Fold, rule: string, best: string) {
    if v.agent in Fixing(m, {v.agent}, rule) then best == FixOf(m, v.agent, rule)
    else if Fixing(m, Covering(m, v, fold), rule) == {} then best == ""
    else exists k :: Top(m, Covering(m, v, fold), rule, k) && best == FixOf(m, k, rule)
  }

  /** This policy covers the host and has a script for the rule. */
  ghost predicate Offers(m: Prefs, key: string, v: HostView, fold: Fold, rule: string) {
    key in m && Applies(key, v, fold) && rule in m[key].remediate && m[key].remediate[rule] != ""
  }

  lemma OffersExactly(m: Prefs, v: HostView, fold: Fold, rule: string)
    ensures forall k :: k in Fixing(m, Covering(m, v, fold), rule) <==> Offers(m, k, v, fold, rule)
  {
    forall k ensures k in Fixing(m, Covering(m, v, fold), rule) <==> Offers(m, k, v, fold, rule) {
      AppliesExactly(k, v, fold);
    }
  }

  lemma TopIsNarrowest(m: Prefs, s: set<string>, rule: string, k: string)
    requires Top(m, s, rule, k) && forall j :: j in s ==> IsSelector(j)
    ensures if exists j :: j in Fixing(m, s, rule) && IsTag(j) then IsTag(k)
            else if exists j :: j in Fixing(m, s, rule) && IsOs(j) then IsOs(k)
            else k == "all"
  {
    RanksOf(k);
    forall j | j in Fixing(m, s, rule) ensures (IsTag(j) ==> IsTag(k)) && (IsOs(j) && !IsTag(k) ==> IsOs(k)) {
      RanksOf(j);
    }
  }

  /** Whose script is run: the host's own; else that of some tag; else of a system; else of the policy for all; else none. */
  lemma NarrowestFixRuns(m: Prefs, v: HostView, fold: Fold, rule: string, best: string)
    requires IsFix(m, v, fold, rule, best)
    ensures if v.agent in m && rule in m[v.agent].remediate && m[v.agent].remediate[rule] != ""
            then best == m[v.agent].remediate[rule]
            else if exists k :: Offers(m, k, v, fold, rule) && IsTag(k)
            then exists k :: Offers(m, k, v, fold, rule) && IsTag(k) && best == m[k].remediate[rule]
            else if exists k :: Offers(m, k, v, fold, rule) && IsOs(k)
            then exists k :: Offers(m, k, v, fold, rule) && IsOs(k) && best == m[k].remediate[rule]
            else best == if Offers(m, "all", v, fold, rule) then m["all"].remediate[rule] else ""
  {
    OffersExactly(m, v, fold, rule);
    if v.agent !in Fixing(m, {v.agent}, rule) {
      var s := Covering(m, v, fold);
      if Fixing(m, s, rule) != {} {
        var k :| Top(m, s, rule, k) && best == FixOf(m, k, rule);
        TopIsNarrowest(m, s, rule, k);
        assert Offers(m, k, v, fold, rule);
      } else {
        assert forall k :: !Offers(m, k, v, fold, rule);
      }
    }
  }

  ghost predicate OrderDoesNotMatter(m: Prefs, s: set<string>, rule: string) {
    forall a, b :: Lists(a, s) && Lists(b, s) ==> BestOf(m, a, rule).0 == BestOf(m, b, rule).0
  }

  predicate TopsAgree(m: Prefs, s: set<string>, rule: string) {
    forall j, k :: j in s && k in s && Top(m, s, rule, j) && Top(m, s, rule, k) ==> FixOf(m, j, rule) == FixOf(m, k, rule)
  }

  /**
   * Unlike the thresholds, fixes of equal rank are not put in order: what runs is independent of the order in
   * which the map yields its keys exactly when all policies of maximal rank name the same script.
   */
  lemma FixDependsOnOrderExactlyOnTies(m: Prefs, s: set<string>, rule: string)
    ensures OrderDoesNotMatter(m, s, rule) <==> TopsAgree(m, s, rule)
  {
    if TopsAgree(m, s, rule) {
      forall a, b | Lists(a, s) && Lists(b, s) ensures BestOf(m, a, rule).0 == BestOf(m, b, rule).0 {
        assert Members(a) == s && Members(b) == s;
        BestIsTop(m, a, rule);
        BestIsTop(m, b, rule);
      }
    }
    if OrderDoesNotMatter(m, s, rule) {
      forall j, k | j in s && k in s && Top(m, s, rule, j) && Top(m, s, rule, k)
        ensures FixOf(m, j, rule) == FixOf(m, k, rule)
      {
        var a := ListingFrom(s, j);
        var b := ListingFrom(s, k);
        assert Members(a) == s && Members(b) == s;
        FirstTopWins(m, a, rule);
        FirstTopWins(m, b, rule);
      }
    }
  }

  lemma FieldsOfTwo()
    ensures Fields("a b") == ["a", "b"]
  {
    assert Run(" b") == 0 && Run("b") == 1 && Run("a b") == 1;
    assert "a b"[..1] == "a" && "a b"[1..] == " b" && " b"[1..] == "b" && "b"[..1] == "b" && "b"[1..] == "";
    assert Fields("b") == ["b"] + Fields("") && Fields(" b") == Fields("b");
  }

  lemma TagsMatch(v: HostView, fold: Fold)
    requires v.tags == "a b" && fold.lower("a b") == "a b" && fold.lower("a") == "a" && fold.lower("b") == "b"
    ensures Matches("tag:a", v, fold) && Matches("tag:b", v, fold)
  {
    FieldsOfTwo();
    assert "tag:a"[|TAG|..] == "a" && "tag:b"[|TAG|..] == "b";
    assert "tag:a"[0] != ALL[0] && "tag:a"[0] != OS[0] && "tag:b"[0] != ALL[0] && "tag:b"[0] != OS[0];
    assert Trim("a") == "a" && Trim("b") == "b";
    assert "a" in Fields(fold.lower(v.tags)) && "b" in Fields(fold.lower(v.tags));
    assert HasTag(v.tags, "a", fold) && HasTag(v.tags, "b", fold);
  }

  /** Two tags of one host with a fix each: which one runs is up to the order of the map. */
  lemma TwoTagsTie(v: HostView, fold: Fold, fixes: (string, string))
    requires v.tags == "a b" && fold.lower("a b") == "a b" && fold.lower("a") == "a" && fold.lower("b") == "b"
    requires fixes.0 != fixes.1 && fixes.0 != "" && fixes.1 != ""
    ensures var m: Prefs := map["tag:a" := NO_PREF.(remediate := map["cpu" := fixes.0]),
                                "tag:b" := NO_PREF.(remediate := map["cpu" := fixes.1])];
            Covering(m, v, fold) == {"tag:a", "tag:b"} && !OrderDoesNotMatter(m, Covering(m, v, fold), "cpu")
  {
    var m: Prefs := map["tag:a" := NO_PREF.(remediate := map["cpu" := fixes.0]),
                        "tag:b" := NO_PREF.(remediate := map["cpu" := fixes.1])];
    TagsMatch(v, fold);
    var s := Covering(m, v, fold);
    assert TAG <= "tag:a" && TAG <= "tag:b" && s == {"tag:a", "tag:b"};
    assert "tag:a"[0] != "os:"[0] && "tag:b"[0] != "os:"[0] && Rank("tag:a") == 2 == Rank("tag:b");
    assert Fixing(m, s, "cpu") == s && FixOf(m, "tag:a", "cpu") == fixes.0 && FixOf(m, "tag:b", "cpu") == fixes.1;
    assert Top(m, s, "cpu", "tag:a") && Top(m, s, "cpu", "tag:b");
    FixDependsOnOrderExactlyOnTies(m, s, "cpu");
  }

  // ---------------------------------------------------------------- what settings of others cannot change

  /** Two collections of settings that give this host and everything covering it the same. */
  predicate SameFor(m: Prefs, n: Prefs, v: HostView, fold: Fold) {
    && Own(m, v) == Own(n, v) && (v.agent in m <==> v.agent in n) && Covering(m, v, fold) == Covering(n, v, fold)
    && forall k :: k in Covering(m, v, fold) ==> m[k] == n[k]
  }

  lemma {:induction false} SameWanted(m: Prefs, n: Prefs, keys: seq<string>)
    requires forall k :: k in keys ==> k in m && k in n && m[k] == n[k]
    ensures Wanted(m, keys) == Wanted(n, keys)
  {
    if keys != [] {
      assert keys[|keys| - 1] in keys;
      SameWanted(m, n, keys[..|keys| - 1]);
    }
  }

  lemma SameWatchList(m: Prefs, n: Prefs, v: HostView, fold: Fold, out: seq<string>)
    requires SameFor(m, n, v, fold) && IsWatchList(m, v, fold, out)
    ensures IsWatchList(n, v, fold, out)
  {
    var keys :| Lists(keys, Covering(m, v, fold)) && Ascending(keys, false)
                && out == FirstSpellings(Wanted(m, keys) + Own(m, v).services, fold.lower);
    SameWanted(m, n, keys);
  }

  /** What is in force for a host: its thresholds, its watch list and the policies that could fix a rule. */
  lemma SameInForce(m: Prefs, n: Prefs, v: HostView, fold: Fold, f: Field, x: real, out: seq<string>, rule: string)
    requires SameFor(m, n, v, fold)
    ensures Decides(m, v, fold, f, x) <==> Decides(n, v, fold, f, x)
    ensures IsWatchList(m, v, fold, out) <==> IsWatchList(n, v, fold, out)
    ensures Fixing(m, Covering(m, v, fold), rule) == Fixing(n, Covering(n, v, fold), rule)
  {
    assert Setting(m, v, fold, f) == Setting(n, v, fold, f);
    if IsWatchList(m, v, fold, out) { SameWatchList(m, n, v, fold, out); }
    if IsWatchList(n, v, fold, out) { SameWatchList(n, m, v, fold, out); }
  }

  /** Settings under a key that neither is this host nor covers it change nothing that is in force here. */
  lemma OtherKeysDoNotMatter(m: Prefs, v: HostView, fold: Fold, key: string, p: HostPref, f: Field, x: real,
                             out: seq<string>, rule: string)
    requires key != v.agent && !(IsSelector(key) && Matches(key, v, fold))
    ensures SameFor(m[key := p], m, v, fold) && SameFor(m - {key}, m, v, fold)
    ensures Decides(m[key := p], v, fold, f, x) <==> Decides(m, v, fold, f, x)
    ensures IsWatchList(m[key := p], v, fold, out) <==> IsWatchList(m, v, fold, out)
    ensures Fixing(m[key := p], Covering(m[key := p], v, fold), rule) == Fixing(m, Covering(m, v, fold), rule)
  {
    SameInForce(m[key := p], m, v, fold, f, x, out, rule);
  }

  /** An entry without settings decides nothing, which is why storing one may delete it. */
  lemma EmptyEntriesAreClutter(m: Prefs, v: HostView, fold: Fold, key: string, f: Field, x: real)
    requires key in m && IsZero(m[key]) && f(m[key]) <= 0.0 && f(NO_PREF) <= 0.0
    ensures Decides(m - {key}, v, fold, f, x) <==> Decides(m, v, fold, f, x)
    ensures Own(m - {key}, v) == Own(m, v) || (key == v.agent && IsZero(Own(m, v)))
  {
    assert Setting(m - {key}, v, fold, f) == Setting(m, v, fold, f);
  }

  /** Nor does it fix anything. */
  lemma EmptyEntriesFixNothing(m: Prefs, v: HostView, fold: Fold, key: string, rule: string)
    requires key in m && IsZero(m[key])
    ensures Fixing(m - {key}, Covering(m - {key}, v, fold), rule) == Fixing(m, Covering(m, v, fold), rule)
    ensures Fixing(m - {key}, {v.agent}, rule) == Fixing(m, {v.agent}, rule)
  {
    assert forall k :: k in Fixing(m, Covering(m, v, fold), rule) ==> k != key;
  }

  lemma {:induction false} WithoutEmpty(m: Prefs, keys: seq<string>, key: string) returns (rest: seq<string>)
    requires key in m && m[key].services == [] && (forall k :: k in keys ==> k in m) && Ascending(keys, false)
    ensures Ascending(rest, false) && (forall k :: k in rest <==> k in keys && k != key)
    ensures forall k :: k in rest ==> k in m - {key}
    ensures Wanted(m - {key}, rest) == Wanted(m, keys)
  {
    if keys == [] {
      rest := [];
    } else {
      var pre, last := keys[..|keys| - 1], keys[|keys| - 1];
      rest := WithoutEmpty(m, pre, key);
      assert forall k :: k in keys <==> k in pre || k == last;
      if last != key {
        EndAscending(rest, pre, last);
        WantedOneMore(m - {key}, rest, last);
        rest := rest + [last];
      }
    }
  }

  lemma WantedOneMore(m: Prefs, keys: seq<string>, k: string)
    requires k in m && forall x :: x in keys ==> x in m
    ensures Wanted(m, keys + [k]) == Wanted(m, keys) + m[k].services
  {
    assert (keys + [k])[..|keys|] == keys;
  }

  lemma EndAscending(rest: seq<string>, pre: seq<string>, last: string)
    requires Ascending(rest, false) && (forall k :: k in rest ==> k in pre) && Ascending(pre + [last], false)
    ensures Ascending(rest + [last], false)
  {
    forall i | 0 <= i < |rest| ensures Below(rest[i], last, false) {
      assert rest[i] in pre;
      var j :| 0 <= j < |pre| && pre[j] == rest[i];
      assert (pre + [last])[j] == rest[i] && (pre + [last])[|pre|] == last;
    }
  }

  /** Nor does it watch anything: the one watch list is the same without it. */
  lemma EmptyEntriesWatchNothing(m: Prefs, v: HostView, fold: Fold, key: string, out: seq<string>)
    requires key in m && IsZero(m[key]) && IsWatchList(m, v, fold, out)
    ensures IsWatchList(m - {key}, v, fold, out)
  {
    var keys :| Lists(keys, Covering(m, v, fold)) && Ascending(keys, false)
                && out == FirstSpellings(Wanted(m, keys) + Own(m, v).services, fold.lower);
    var rest := WithoutEmpty(m, keys, key);
    AscendingIsDistinct(rest, false);
    assert Lists(rest, Covering(m - {key}, v, fold));
    assert Own(m - {key}, v).services == Own(m, v).services;
  }

  // ---------------------------------------------------------------- the store

  class Store {
    var m: Prefs

    constructor ()
      ensures m == map[]
    {
      m := map[];
    }

    /** Resolved settings: thresholds layered, silence and the note the host's own, nothing else. */
    method Resolve(v: HostView, fold: Fold) returns (out: HostPref)
      ensures Decides(m, v, fold, (p: HostPref) => p.cpu, out.cpu)
      ensures Decides(m, v, fold, (p: HostPref) => p.mem, out.mem)
      ensures Decides(m, v, fold, (p: HostPref) => p.disk, out.disk)
      ensures out.mute == Own(m, v).mute && out.until == Own(m, v).until && out.note == Own(m, v).note
      ensures out.services == [] && out.remediate == map[]
    {
      var found := Keys(v, fold);
      var keys := Sort(found, true);
      out := NO_PREF;
      for i := 0 to |keys|
        invariant forall k :: k in keys[..i] ==> k in m
        invariant out == NO_PREF.(cpu := Layered(m, keys[..i], (p: HostPref) => p.cpu),
                                  mem := Layered(m, keys[..i], (p: HostPref) => p.mem),
                                  disk := Layered(m, keys[..i], (p: HostPref) => p.disk))
      {
        assert keys[..i + 1][..i] == keys[..i] && keys[i] in keys;
        out := Apply(out, m[keys[i]]);
      }
      assert keys[..|keys|] == keys;
      LayersDecide(m, v, fold, (p: HostPref) => p.cpu, keys);
      LayersDecide(m, v, fold, (p: HostPref) => p.mem, keys);
      LayersDecide(m, v, fold, (p: HostPref) => p.disk, keys);
      if v.agent in m {
        var own := m[v.agent];
        out := Apply(out, own);
        out := out.(mute := own.mute, until := own.until, note := own.note);
      }
    }

    /** The covering keys, in whatever order the map yields them. */
    method Keys(v: HostView, fold: Fold) returns (keys: seq<string>)
      ensures Lists(keys, Covering(m, v, fold))
    {
      keys := [];
      var todo := m.Keys;
      while todo != {}
        invariant todo <= m.Keys
        invariant Lists(keys, Covering(m, v, fold) - todo)
      {
        var k :| k in todo;
        todo := todo - {k};
        if IsSelector(k) && Matches(k, v, fold) {
          keys := keys + [k];
        }
      }
    }

    method ResolveServices(v: HostView, fold: Fold) returns (out: seq<string>)
      ensures IsWatchList(m, v, fold, out)
    {
      var found := Keys(v, fold);
      var sorted := Sort(found, false);
      out := [];
      var seen: set<string> := {};
      assert forall k :: k in sorted ==> k in m;
      for i := 0 to |sorted|
        invariant forall k :: k in sorted[..i] ==> k in m
        invariant Spelled(out, seen, Wanted(m, sorted[..i]), fold.lower)
      {
        assert sorted[..i + 1][..i] == sorted[..i] && sorted[i] in sorted;
        out, seen := Add(out, seen, Wanted(m, sorted[..i]), m[sorted[i]].services, fold.lower);
      }
      assert sorted[..|sorted|] == sorted;
      out, seen := Add(out, seen, Wanted(m, sorted), if v.agent in m then m[v.agent].services else [], fold.lower);
    }

    method RemediationFor(v: HostView, fold: Fold, rule: string) returns (best: string)
      ensures IsFix(m, v, fold, rule, best)
    {
      if v.agent in m && rule in m[v.agent].remediate && m[v.agent].remediate[rule] != "" {
        return m[v.agent].remediate[rule];
      }
      var keys := Keys(v, fold);
      var bestRank: int := -1;
      best := "";
      for i := 0 to |keys|
        invariant (best, bestRank) == BestOf(m, keys[..i], rule)
      {
        assert keys[..i + 1][..i] == keys[..i];
        var k := keys[i];
        if k in m && rule in m[k].remediate && m[k].remediate[rule] != "" {
          if Rank(k) > bestRank {
            best, bestRank := m[k].remediate[rule], Rank(k);
          }
        }
      }
      assert keys[..|keys|] == keys && Members(keys) == Covering(m, v, fold);
      BestIsTop(m, keys, rule);
    }

    /** Storing settings; an entry without any is removed. */
    method Set(agent: string, p: HostPref)
      modifies this
      ensures m == if IsZero(p) then old(m) - {agent} else old(m)[agent := p]
      ensures (forall k :: k in old(m) ==> !IsZero(old(m)[k])) ==> forall k :: k in m ==> !IsZero(m[k])
    {
      if IsZero(p) {
        m := m - {agent};
      } else {
        m := m[agent := p];
      }
    }

    method Forget(agent: string)
      modifies this
      ensures m == old(m) - {agent}
    {
      Set(agent, NO_PREF);
    }
  }

  function Apply(out: HostPref, p: HostPref): HostPref {
    out.(cpu := if p.cpu > 0.0 then p.cpu else out.cpu,
         mem := if p.mem > 0.0 then p.mem else out.mem,
         disk := if p.disk > 0.0 then p.disk else out.disk)
  }

  /** The library's sort, as an insertion sort: an ascending listing of the same keys. */
  method Sort(found: seq<string>, ranked: bool) returns (keys: seq<string>)
    requires forall i, j :: 0 <= i < j < |found| ==> found[i] != found[j]
    ensures Ascending(keys, ranked) && Lists(keys, Members(found))
  {
    keys := [];
    for i := 0 to |found|
      invariant Ascending(keys, ranked) && Members(keys) == Members(found[..i])
    {
      assert found[..i + 1] == found[..i] + [found[i]];
      assert found[i] !in found[..i];
      keys := InsertKey(keys, found[i], ranked);
    }
    assert found[..|found|] == found;
    AscendingIsDistinct(keys, ranked);
    assert forall k :: k in keys <==> k in Members(keys);
  }

  method InsertKey(keys: seq<string>, k: string, ranked: bool) returns (out: seq<string>)
    requires Ascending(keys, ranked) && k !in Members(keys)
    ensures Ascending(out, ranked) && Members(out) == Members(keys) + {k}
  {
    var n := 0;
    while n < |keys| && Below(keys[n], k, ranked)
      invariant 0 <= n <= |keys| && forall i :: 0 <= i < n ==> Below(keys[i], k, ranked)
    {
      n := n + 1;
    }
    out := keys[..n] + [k] + keys[n..];
    forall j | n <= j < |keys| ensures Below(k, keys[j], ranked) {
      assert keys[n] in Members(keys);
      BelowIsStrict(keys[n], k, ranked);
      if j > n { BelowIsTransitive(k, keys[n], keys[j], ranked); }
    }
    assert Members(out) == Members(keys) + {k} by {
      assert forall x :: x in keys <==> x in keys[..n] || x in keys[n..];
    }
  }

  /** The list and the set the source keeps, after hearing some names. */
  ghost predicate Spelled(out: seq<string>, seen: set<string>, names: seq<string>, lower: string -> string) {
    out == FirstSpellings(names, lower) && seen == Heard(names, lower)
  }

  lemma SpellOne(out: seq<string>, seen: set<string>, names: seq<string>, name: string, lower: string -> string)
    requires Spelled(out, seen, names, lower)
    ensures var n := Trim(name);
            if n != "" && lower(n) !in seen then Spelled(out + [n], seen + {lower(n)}, names + [name], lower)
            else Spelled(out, seen, names + [name], lower)
  {
    assert (names + [name])[..|names|] == names;
    HeardOneMore(names, name, lower);
    assert out + [] == out;
  }

  lemma OneMoreName(names: seq<string>, more: seq<string>, i: nat)
    requires i < |more|
    ensures names + more[..i + 1] == (names + more[..i]) + [more[i]]
  {
  }

  /** The closure `add` of the source: names join the list in their first spelling. */
  method Add(before: seq<string>, heard: set<string>, ghost names: seq<string>, more: seq<string>,
             lower: string -> string) returns (out: seq<string>, seen: set<string>)
    requires Spelled(before, heard, names, lower)
    ensures Spelled(out, seen, names + more, lower)
  {
    out, seen := before, heard;
    assert names + more[..0] == names;
    for i := 0 to |more|
      invariant Spelled(out, seen, names + more[..i], lower)
    {
      SpellOne(out, seen, names + more[..i], more[i], lower);
      OneMoreName(names, more, i);
      var n := Trim(more[i]);
      if n != "" && lower(n) !in seen {
        out, seen := out + [n], seen + {lower(n)};
      }
    }
    assert more[..|more|] == more;
  }
}
