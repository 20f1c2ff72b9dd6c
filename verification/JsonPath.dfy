/** The path language of server/jsonprobe.go over decoded documents, and probes that read a whole table. */
module JsonPath {
  import opened Optional
  import opened Sequences
  import opened Text

  /** Numbers keep their text: the path language only compares what a value prints as. */
  datatype Json =
    | Null
    | Bool(b: bool)
    | Num(text: string)
    | Str(s: string)
    | Arr(items: seq<Json>)
    | Obj(fields: map<string, Json>)

  /** How a value prints, "%v" in the source. */
  type Render = Json -> string

  // ---------------------------------------------------------------- strings

  const MAX_INT: int := 0x7fff_ffff_ffff_ffff

  /** One more character in front: a dot opens a new segment. */
  function Prepend(c: char, segs: seq<string>): (r: seq<string>)
    requires segs != []
    ensures r != []
  {
    if c == '.' then [""] + segs else [[c] + segs[0]] + segs[1..]
  }

  function Split(s: string): (segs: seq<string>)
    ensures segs != []
  {
    if s == "" then [""] else Prepend(s[0], Split(s[1..]))
  }

  function Join(segs: seq<string>): string {
    if segs == [] then "" else if |segs| == 1 then segs[0] else segs[0] + "." + Join(segs[1..])
  }

  function Find(s: string, c: char): (i: nat)
    ensures i <= |s| && (i < |s| ==> s[i] == c) && forall j :: 0 <= j < i ==> s[j] != c
  {
    if s == "" || s[0] == c then 0 else 1 + Find(s[1..], c)
  }

  predicate IsDigit(c: char) { '0' <= c <= '9' }

  predicate AllDigits(s: string) { forall i :: 0 <= i < |s| ==> IsDigit(s[i]) }

  function Value(s: string): nat
    requires AllDigits(s)
  {
    if s == "" then 0 else Value(s[..|s| - 1]) * 10 + (s[|s| - 1] as int - '0' as int)
  }

  /** strconv.Atoi: an optional sign, digits, and no overflow of the 64-bit int. */
  function Atoi(s: string): Option<int> {
    var signed := s != "" && (s[0] == '-' || s[0] == '+');
    var digits := if signed then s[1..] else s;
    if digits == "" || !AllDigits(digits) then None
    else
      var v: int := if signed && s[0] == '-' then 0 - Value(digits) else Value(digits);
      if -MAX_INT - 1 <= v <= MAX_INT then Some(v) else None
  }

  function Digit(d: nat): char
    requires d < 10
  {
    (d as char - 0 as char) + '0'
  }

  function Itoa(n: nat): string {
    if n < 10 then [Digit(n)] else Itoa(n / 10) + [Digit(n % 10)]
  }

  lemma {:induction false} ItoaDigits(n: nat)
    ensures Itoa(n) != "" && AllDigits(Itoa(n)) && Value(Itoa(n)) == n
  {
    if n < 10 {
      assert Itoa(n)[..0] == "";
    } else {
      ItoaDigits(n / 10);
      assert Itoa(n)[..|Itoa(n)| - 1] == Itoa(n / 10);
    }
  }

  lemma AtoiOfDigits(d: string)
    requires d != "" && AllDigits(d)
    ensures Atoi("-" + d) == if Value(d) <= MAX_INT + 1 then Some(-(Value(d) as int)) else None
    ensures Atoi("+" + d) == if Value(d) <= MAX_INT then Some(Value(d)) else None
    ensures Value(d) > MAX_INT ==> Atoi(d) == None
  {
    assert ("-" + d)[1..] == d && ("+" + d)[1..] == d;
    assert IsDigit(d[0]);
  }

  /** With a sign in front it is read back with that sign; beyond 64 bits, or without digits, not at all. */
  lemma AtoiReadsSigns(n: nat)
    ensures Atoi("-" + Itoa(n)) == if n <= MAX_INT + 1 then Some(-(n as int)) else None
    ensures Atoi("+" + Itoa(n)) == if n <= MAX_INT then Some(n) else None
    ensures n > MAX_INT ==> Atoi(Itoa(n)) == None
    ensures Atoi("") == None && Atoi("-") == None && Atoi("+") == None
  {
    ItoaDigits(n);
    AtoiOfDigits(Itoa(n));
  }

  /** Printing an index and reading it back gives the index. */
  lemma AtoiOfItoa(n: nat)
    requires n <= MAX_INT
    ensures Atoi(Itoa(n)) == Some(n)
  {
    ItoaDigits(n);
    assert IsDigit(Itoa(n)[0]);
  }

  // ---------------------------------------------------------------- one segment

  datatype Cut = Cut(key: string, sel: string, hasSel: bool)

  /** "inputs[name=Tmp]" is the key "inputs" and the selector "name=Tmp". */
  function CutSelector(seg: string): Cut {
    var i := Find(seg, '[');
    if i == |seg| || seg[|seg| - 1] != ']' then Cut(seg, "", false)
    else Cut(seg[..i], seg[i + 1..|seg| - 1], true)
  }

  function FieldOf(item: Json, field: string): Json
    requires item.Obj?
  {
    if field in item.fields then item.fields[field] else Null
  }

  function FirstMatch(items: seq<Json>, field: string, want: string, render: Render): Option<Json> {
    if items == [] then None
    else if items[0].Obj? && render(FieldOf(items[0], field)) == want then Some(items[0])
    else FirstMatch(items[1..], field, want, render)
  }

  function At(items: seq<Json>, i: int): Option<Json> {
    if 0 <= i < |items| then Some(items[i]) else None
  }

  function SelectFrom(cur: Json, sel: string, render: Render): Option<Json> {
    if !cur.Arr? then None
    else if Atoi(sel).Some? then At(cur.items, Atoi(sel).value)
    else
      var eq := Find(sel, '=');
      if eq == |sel| then None
      else FirstMatch(cur.items, Trim(sel[..eq]), Trim(sel[eq + 1..]), render)
  }

  function Enter(cur: Json, raw: string, render: Render): Option<Json> {
    var seg := Trim(raw);
    if seg == "" then Some(cur)
    else
      var c := CutSelector(seg);
      if c.key != "" && cur.Arr? && !c.hasSel then
        if Atoi(c.key).Some? then At(cur.items, Atoi(c.key).value) else None
      else if c.key != "" && !(cur.Obj? && c.key in cur.fields) then None
      else
        var inner := if c.key == "" then cur else cur.fields[c.key];
        if c.hasSel then SelectFrom(inner, c.sel, render) else Some(inner)
  }

  /** Segments are entered one after the other. */
  function Walk(doc: Json, segs: seq<string>, render: Render): Option<Json>
    decreases |segs|
  {
    if segs == [] then Some(doc)
    else
      var next := Enter(doc, segs[0], render);
      if next.None? then None else Walk(next.value, segs[1..], render)
  }

  function PathOf(doc: Json, path: string, render: Render): Option<Json> {
    Walk(doc, Split(path), render)
  }

  // ---------------------------------------------------------------- the interpreter

  method Path(doc: Json, path: string, render: Render) returns (r: Option<Json>)
    ensures r == PathOf(doc, path, render)
  {
    var cur := doc;
    var segs := Split(path);
    for i := 0 to |segs|
      invariant Walk(cur, segs[i..], render) == PathOf(doc, path, render)
    {
      assert segs[i..][1..] == segs[i + 1..];
      var seg := Trim(segs[i]);
      if seg == "" {
        continue;
      }
      var c := CutSelector(seg);
      if c.key != "" {
        if cur.Arr? && !c.hasSel {
          var k := Atoi(c.key);
          if k.None? || k.value < 0 || k.value >= |cur.items| {
            return None;
          }
          cur := cur.items[k.value];
          continue;
        }
        if !cur.Obj? {
          return None;
        }
        if c.key !in cur.fields {
          return None;
        }
        cur := cur.fields[c.key];
      }
      if !c.hasSel {
        continue;
      }
      var next := SelectFrom(cur, c.sel, render);
      if next.None? {
        return None;
      }
      cur := next.value;
    }
    return Some(cur);
  }

  // ---------------------------------------------------------------- paths compose

  lemma PrependAppends(c: char, a: seq<string>, b: seq<string>)
    requires a != []
    ensures Prepend(c, a + b) == Prepend(c, a) + b
  {
    assert (a + b)[1..] == a[1..] + b;
  }

  lemma SplitStep(c: char, s: string)
    ensures Split([c] + s) == Prepend(c, Split(s))
  {
    assert ([c] + s)[1..] == s;
  }

  lemma {:induction false} SplitJoins(p: string, q: string)
    ensures Split(p + "." + q) == Split(p) + Split(q)
  {
    if p == "" {
      assert p + "." + q == ['.'] + q;
      SplitStep('.', q);
    } else {
      var tail := p[1..];
      SplitJoins(tail, q);
      assert p + "." + q == [p[0]] + (tail + "." + q);
      SplitStep(p[0], tail + "." + q);
      PrependAppends(p[0], Split(tail), Split(q));
    }
  }

  function Then(r: Option<Json>, segs: seq<string>, render: Render): Option<Json> {
    if r.None? then None else Walk(r.value, segs, render)
  }

  lemma {:induction false} WalkAppends(doc: Json, a: seq<string>, b: seq<string>, render: Render)
    ensures Walk(doc, a + b, render) == Then(Walk(doc, a, render), b, render)
    decreases |a|
  {
    if a == [] {
      assert a + b == b;
    } else {
      assert (a + b)[1..] == a[1..] + b && (a + b)[0] == a[0];
      var next := Enter(doc, a[0], render);
      if next.Some? {
        WalkAppends(next.value, a[1..], b, render);
      }
    }
  }

  /** Walking two paths joined by a dot is walking the first and then the second. */
  lemma PathsCompose(doc: Json, p: string, q: string, render: Render)
    ensures PathOf(doc, p + "." + q, render) ==
            var first := PathOf(doc, p, render);
            if first.None? then None else PathOf(first.value, q, render)
  {
    SplitJoins(p, q);
    WalkAppends(doc, Split(p), Split(q), render);
  }

  // ---------------------------------------------------------------- what paths read

  /** A segment that is read as it stands: not blank, not cut at a dot or bracket, and with no space at its ends. */
  predicate IsName(s: string) { s != "" && NoDots(s) && '[' !in s && Trim(s) == s }

  /** A name reads the field of that name, in an object that has it. */
  lemma NameReadsField(doc: Json, name: string, render: Render)
    requires IsName(name) && !doc.Arr?
    ensures PathOf(doc, name, render) == if doc.Obj? && name in doc.fields then Some(doc.fields[name]) else None
  {
    SplitOne(name);
    FindNothing(name, '[');
    OneSegment(doc, name, render);
  }

  /** A number reads that element, in an array that is long enough. */
  lemma NumberReadsElement(items: seq<Json>, i: nat, render: Render)
    requires i <= MAX_INT
    ensures PathOf(Arr(items), Itoa(i), render) == if i < |items| then Some(items[i]) else None
  {
    AtoiOfItoa(i);
    ItoaIsName(i);
    SplitOne(Itoa(i));
    FindNothing(Itoa(i), '[');
    OneSegment(Arr(items), Itoa(i), render);
  }

  lemma ItoaIsName(i: nat)
    ensures IsName(Itoa(i))
  {
    ItoaDigits(i);
    assert IsDigit(Itoa(i)[0]) && IsDigit(Itoa(i)[|Itoa(i)| - 1]);
  }

  /** Other names read an element only if they are numbers, with a sign in front, of one that is there. */
  lemma OtherNamesReadNoElement(items: seq<Json>, name: string, render: Render)
    requires IsName(name)
    ensures PathOf(Arr(items), name, render) ==
            if Atoi(name).Some? && 0 <= Atoi(name).value < |items| then Some(items[Atoi(name).value]) else None
    ensures !AllDigits(name) && name[0] != '+' && name[0] != '-' ==> PathOf(Arr(items), name, render) == None
  {
    SplitOne(name);
    FindNothing(name, '[');
    OneSegment(Arr(items), name, render);
  }

  /** The path that picks a row by one of its fields. */
  function RowPath(key: string, field: string, want: string): string { key + "[" + (field + "=" + want) + "]" }

  predicate IsRow(item: Json, field: string, want: string, render: Render) {
    item.Obj? && render(if field in item.fields then item.fields[field] else Null) == want
  }

  lemma EnterRow(doc: Json, key: string, field: string, want: string, render: Render)
    requires IsName(key) && doc.Obj? && key in doc.fields && doc.fields[key].Arr?
    requires '=' !in field && Trim(field) == field && Trim(want) == want
    ensures Enter(doc, RowPath(key, field, want), render) == FirstMatch(doc.fields[key].items, field, want, render)
  {
    var sel := field + "=" + want;
    CutSelected(key, sel);
    SelectorIsNoNumber(field, want);
    assert sel == field + ['='] + want;
    FindSkips(field, want, '=');
    assert sel[..|field|] == field && sel[|field| + 1..] == want;
    assert SelectFrom(doc.fields[key], sel, render) == FirstMatch(doc.fields[key].items, field, want, render);
  }

  lemma RowPathIsOneSegment(key: string, field: string, want: string)
    requires NoDots(key) && NoDots(field) && NoDots(want)
    ensures Split(RowPath(key, field, want)) == [RowPath(key, field, want)]
  {
    SplitOne(RowPath(key, field, want));
  }

  /** "key[field=want]" reads the first row of the table whose field prints as wanted. */
  lemma SelectorReadsFirstRow(doc: Json, key: string, field: string, want: string, render: Render) returns (i: nat)
    requires IsName(key) && doc.Obj? && key in doc.fields && doc.fields[key].Arr?
    requires NoDots(field) && NoDots(want) && '=' !in field && Trim(field) == field && Trim(want) == want
    ensures var items, r := doc.fields[key].items, PathOf(doc, RowPath(key, field, want), render);
            && i <= |items| && (forall j :: 0 <= j < i ==> !IsRow(items[j], field, want, render))
            && (if i < |items| then IsRow(items[i], field, want, render) && r == Some(items[i]) else r == None)
  {
    RowPathIsOneSegment(key, field, want);
    OneSegment(doc, RowPath(key, field, want), render);
    EnterRow(doc, key, field, want, render);
    i := MatchPlace(doc.fields[key].items, field, want, render);
  }

  lemma CutSelected(key: string, sel: string)
    requires IsName(key)
    ensures var seg := key + "[" + sel + "]"; Trim(seg) == seg && CutSelector(seg) == Cut(key, sel, true)
  {
    var seg := key + "[" + sel + "]";
    assert seg == key + ['['] + (sel + "]");
    FindSkips(key, sel + "]", '[');
    NameStarts(key);
    assert seg[|key| + 1..|seg| - 1] == sel && seg[..|key|] == key;
    assert seg[|seg| - 1] == ']' && !IsSpace(seg[0]);
  }

  lemma NameStarts(key: string)
    requires IsName(key)
    ensures !IsSpace(key[0])
  {
    var a, b := TrimCutsBlanks(key);
  }

  lemma SelectorIsNoNumber(field: string, want: string)
    requires '=' !in field
    ensures Atoi(field + "=" + want) == None
  {
    var sel := field + "=" + want;
    assert sel[|field|] == '=' && !IsDigit('=');
    if |field| > 0 { assert sel[1..][|field| - 1] == '='; }
  }

  lemma {:induction false} MatchPlace(items: seq<Json>, field: string, want: string, render: Render) returns (i: nat)
    ensures i <= |items| && (forall j :: 0 <= j < i ==> !IsRow(items[j], field, want, render))
    ensures if i < |items| then IsRow(items[i], field, want, render) && FirstMatch(items, field, want, render) == Some(items[i])
            else FirstMatch(items, field, want, render) == None
  {
    if items == [] || IsRow(items[0], field, want, render) {
      i := 0;
    } else {
      var k := MatchPlace(items[1..], field, want, render);
      i := k + 1;
      assert forall j :: 0 < j < i ==> items[j] == items[1..][j - 1];
    }
  }

  /** Blank segments are passed over. */
  lemma BlankSegmentsReadNothing(doc: Json, seg: string, render: Render)
    requires NoDots(seg) && Trim(seg) == ""
    ensures PathOf(doc, seg, render) == Some(doc)
  {
    SplitOne(seg);
    OneSegment(doc, seg, render);
  }

  // ---------------------------------------------------------------- tables

  datatype Reading = Reading(value: Json, title: string, group: string)

  predicate IsWildcard(raw: string) {
    var c := CutSelector(Trim(raw));
    c.hasSel && c.sel != "" && c.sel[0] == '*'
  }

  /** The first wildcard segment, or the number of segments when there is none. */
  function FirstWildcard(segs: seq<string>): (at: nat)
    ensures at <= |segs|
    ensures at < |segs| ==> IsWildcard(segs[at])
  {
    FirstWhere(segs, IsWildcard)
  }

  /** A probe path taken apart: the segments before the wildcard, its key and label field, and the rest. */
  datatype Probe = Probe(before: seq<string>, key: string, field: string, rest: seq<string>)

  function ProbeOf(path: string): Option<Probe> {
    var segs := Split(path);
    var at := FirstWildcard(segs);
    if at == |segs| then None
    else
      var c := CutSelector(Trim(segs[at]));
      Some(Probe(segs[..at], c.key, Trim(c.sel[1..]), segs[at + 1..]))
  }

  function Table(doc: Json, p: Probe, render: Render): Option<Json> {
    Walk(doc, p.before + [p.key], render)
  }

  function LabelOf(row: Json, i: nat, field: string, render: Render): string {
    var named := if row.Obj? && field != "" && field in row.fields then Trim(render(row.fields[field])) else "";
    if named == "" then Itoa(i + 1) else named
  }

  /** What row i contributes: nothing when the rest of the path does not resolve in it. */
  function RowReading(row: Json, i: nat, p: Probe, group: string, render: Render): Option<Reading> {
    var v := Walk(row, p.rest, render);
    if v.None? then None else Some(Reading(v.value, LabelOf(row, i, p.field, render), group))
  }

  function RowReader(p: Probe, group: string, render: Render): (Json, nat) -> Option<Reading> {
    (row: Json, i: nat) => RowReading(row, i, p, group, render)
  }

  function Readings(rows: seq<Json>, p: Probe, group: string, render: Render): seq<Reading> {
    Collected(rows, RowReader(p, group, render))
  }

  predicate NoDots(s: string) { '.' !in s }

  lemma {:induction false} SplitHasNoDots(s: string)
    ensures forall seg :: seg in Split(s) ==> NoDots(seg)
  {
    if s != "" {
      SplitHasNoDots(s[1..]);
      var rest := Split(s[1..]);
      assert rest[0] in rest && forall seg :: seg in rest[1..] ==> seg in rest;
    }
  }

  lemma {:induction false} SplitOne(s: string)
    requires NoDots(s)
    ensures Split(s) == [s]
  {
    if s != "" {
      assert s[0] in s && forall c :: c in s[1..] ==> c in s;
      SplitOne(s[1..]);
      assert [s[0]] + s[1..] == s;
    }
  }

  lemma {:induction false} SplitOfJoin(segs: seq<string>)
    requires segs != [] && forall seg :: seg in segs ==> NoDots(seg)
    ensures Split(Join(segs)) == segs
  {
    if |segs| == 1 {
      SplitOne(segs[0]);
    } else {
      SplitOfJoin(segs[1..]);
      SplitOne(segs[0]);
      SplitJoins(segs[0], Join(segs[1..]));
    }
  }

  /** Splitting a joined path again loses nothing; the empty path walks nowhere. */
  lemma WalkOfJoin(doc: Json, segs: seq<string>, render: Render)
    requires forall seg :: seg in segs ==> NoDots(seg)
    ensures PathOf(doc, Join(segs), render) == Walk(doc, segs, render)
  {
    if segs == [] {
      assert Split("") == [""] && Walk(doc, [""], render) == Walk(doc, [], render);
    } else {
      SplitOfJoin(segs);
    }
  }

  lemma ProbeHasNoDots(path: string)
    requires ProbeOf(path).Some?
    ensures var p := ProbeOf(path).value;
            NoDots(p.key) && (forall seg :: seg in p.before + p.rest ==> NoDots(seg))
  {
    var segs := Split(path);
    SplitHasNoDots(path);
    var at := FirstWildcard(segs);
    TrimLeftSubset(segs[at]);
    TrimRightSubset(TrimLeft(segs[at]));
    assert segs[at] in segs;
    var p := ProbeOf(path).value;
    assert forall c :: c in p.key ==> c in Trim(segs[at]);
  }

  /** The first wildcard is where none came before. */
  lemma FirstWildcardIs(segs: seq<string>, i: nat)
    requires i <= |segs| && (i < |segs| ==> IsWildcard(segs[i]))
    requires forall j :: 0 <= j < i ==> !IsWildcard(segs[j])
    ensures FirstWildcard(segs) == i
  {
    FirstWhereIs(segs, i, IsWildcard);
  }

  /** The segments as the source rewrites them: the wildcard segment keeps only its key. */
  lemma TakenApart(path: string, i: nat)
    requires i < |Split(path)| && FirstWildcard(Split(path)) == i
    ensures ProbeOf(path).Some?
    ensures var p, segs := ProbeOf(path).value, Split(path);
            var c := CutSelector(Trim(segs[i]));
            var after := segs[i := c.key];
            after[..i + 1] == p.before + [p.key] && after[i + 1..] == p.rest && Trim(c.sel[1..]) == p.field
  {
    var segs := Split(path);
    var c := CutSelector(Trim(segs[i]));
    assert segs[i := c.key][..i + 1] == segs[..i] + [c.key];
    assert segs[i := c.key][i + 1..] == segs[i + 1..];
  }

  method FindWildcard(path: string) returns (segs: seq<string>, at: int, field: string)
    ensures at >= 0 <==> ProbeOf(path).Some?
    ensures at >= 0 ==>
              var p := ProbeOf(path).value;
              at < |segs| && segs[..at + 1] == p.before + [p.key] && segs[at + 1..] == p.rest && field == p.field
  {
    segs := Split(path);
    at, field := -1, "";
    var i := 0;
    while i < |segs|
      invariant 0 <= i <= |segs| && segs == Split(path)
      invariant forall j :: 0 <= j < i ==> !IsWildcard(segs[j])
    {
      var c := CutSelector(Trim(segs[i]));
      if c.hasSel && "*" <= c.sel {
        FirstWildcardIs(segs, i);
        TakenApart(path, i);
        return segs[i := c.key], i, Trim(c.sel[1..]);
      }
      i := i + 1;
    }
    FirstWildcardIs(segs, |segs|);
  }

  /** What a probe reads once its table has been looked up. */
  function Rows(table: Option<Json>, p: Probe, group: string, render: Render): seq<Reading> {
    if table.Some? && table.value.Arr? then Readings(table.value.items, p, group, render) else []
  }

  method ExpandProbe(doc: Json, path: string, group: string, render: Render) returns (out: seq<Reading>, wild: bool)
    ensures wild == ProbeOf(path).Some?
    ensures out == if wild then Rows(Table(doc, ProbeOf(path).value, render), ProbeOf(path).value, group, render) else []
  {
    var segs, at, field := FindWildcard(path);
    if at < 0 {
      return [], false;
    }
    ghost var p := ProbeOf(path).value;
    ProbeHasNoDots(path);
    WalkOfJoin(doc, p.before + [p.key], render);
    var table := Path(doc, Join(segs[..at + 1]), render);
    assert table == Table(doc, p, render);
    if table.None? || !table.value.Arr? {
      return [], true;
    }
    out := ReadRows(table.value.items, p, Join(segs[at + 1..]), field, group, render);
    return out, true;
  }

  /** The loop over the rows of a table. */
  method ReadRows(rows: seq<Json>, ghost p: Probe, rest: string, field: string, group: string, render: Render)
    returns (out: seq<Reading>)
    requires rest == Join(p.rest) && field == p.field && forall seg :: seg in p.rest ==> NoDots(seg)
    ensures out == Readings(rows, p, group, render)
  {
    out := [];
    for i := 0 to |rows|
      invariant out == Readings(rows[..i], p, group, render)
    {
      var row := rows[i];
      CollectedOneMore(rows, i, RowReader(p, group, render));
      WalkOfJoin(row, p.rest, render);
      var v := row;
      if rest != "" {
        var found := Path(row, rest, render);
        if found.None? {
          continue;
        }
        v := found.value;
      } else {
        assert Split("") == [""] && Walk(row, [""], render) == Some(row);
      }
      var title := "";
      if row.Obj? && field != "" {
        if field in row.fields {
          title := Trim(render(row.fields[field]));
        }
      }
      if title == "" {
        title := Itoa(i + 1);
      }
      out := out + [Reading(v, title, group)];
    }
    assert rows[..|rows|] == rows;
  }

  /** The readings are those of the resolving rows, all of them, in row order. */
  lemma ReadingsFollowRows(rows: seq<Json>, p: Probe, group: string, render: Render) returns (of: seq<nat>)
    ensures Picks(of, rows, Readings(rows, p, group, render), RowReader(p, group, render))
    ensures forall i :: 0 <= i < |rows| ==> (RowReading(rows[i], i, p, group, render).Some? <==> i in of)
  {
    of := CollectedPicks(rows, RowReader(p, group, render));
  }

  lemma WildcardSegment(key: string, field: string)
    requires IsName(key) && NoDots(field)
    ensures var wild := key + "[" + ("*" + field) + "]";
            NoDots(wild) && IsWildcard(wild) && CutSelector(Trim(wild)) == Cut(key, "*" + field, true)
  {
    CutSelected(key, "*" + field);
  }

  /** A path with one wildcard segment is taken apart there. */
  lemma ProbesAreTakenApart(before: seq<string>, key: string, field: string, rest: seq<string>)
    requires IsName(key) && NoDots(field) && forall seg :: seg in before + rest ==> NoDots(seg)
    requires forall seg :: seg in before ==> !IsWildcard(seg)
    ensures ProbeOf(Join(before + [key + "[" + ("*" + field) + "]"] + rest)) == Some(Probe(before, key, Trim(field), rest))
  {
    var wild := key + "[" + ("*" + field) + "]";
    WildcardSegment(key, field);
    assert ("*" + field)[1..] == field;
    TakenApartAt(before, wild, rest);
  }

  lemma TakenApartAt(before: seq<string>, wild: string, rest: seq<string>)
    requires NoDots(wild) && IsWildcard(wild) && forall seg :: seg in before + rest ==> NoDots(seg)
    requires forall seg :: seg in before ==> !IsWildcard(seg)
    ensures var c := CutSelector(Trim(wild));
            ProbeOf(Join(before + [wild] + rest)) == Some(Probe(before, c.key, Trim(c.sel[1..]), rest))
  {
    var segs := before + [wild] + rest;
    forall seg | seg in segs ensures NoDots(seg) { assert seg in before + rest || seg == wild; }
    SplitOfJoin(segs);
    assert segs[|before|] == wild && forall j :: 0 <= j < |before| ==> segs[j] == before[j] && before[j] in before;
    FirstWildcardIs(segs, |before|);
    assert segs[..|before|] == before && segs[|before| + 1..] == rest;
  }

  /** A segment without a bracket, or whose selector does not start with a star, is no wildcard. */
  lemma OnlyStarsAreWildcards(key: string, sel: string)
    requires IsName(key)
    ensures !IsWildcard(key)
    ensures (sel == "" || sel[0] != '*') ==> !IsWildcard(key + "[" + sel + "]")
  {
    FindNothing(key, '[');
    CutSelected(key, sel);
  }

  /** What a reading says: the value the rest of the path leads to in its row, under the row's name or number. */
  lemma ReadingsSay(rows: seq<Json>, p: Probe, group: string, render: Render) returns (of: seq<nat>)
    requires forall seg :: seg in p.rest ==> NoDots(seg)
    ensures var out := Readings(rows, p, group, render);
            && |of| == |out| && Ascends(of, |rows|)
            && (forall i :: 0 <= i < |rows| ==> (i in of <==> PathOf(rows[i], Join(p.rest), render).Some?))
            && (forall k :: 0 <= k < |of| ==> Reads(out[k], rows[of[k]], of[k], p, group, render))
  {
    of := ReadingsFollowRows(rows, p, group, render);
    forall i | 0 <= i < |rows| ensures PathOf(rows[i], Join(p.rest), render) == Walk(rows[i], p.rest, render) {
      WalkOfJoin(rows[i], p.rest, render);
    }
    var out := Readings(rows, p, group, render);
    forall k | 0 <= k < |of| ensures Reads(out[k], rows[of[k]], of[k], p, group, render) {
      assert RowReading(rows[of[k]], of[k], p, group, render) == Some(out[k]);
    }
  }

  predicate Reads(r: Reading, row: Json, i: nat, p: Probe, group: string, render: Render) {
    && PathOf(row, Join(p.rest), render) == Some(r.value) && r.group == group
    && (if row.Obj? && p.field != "" && p.field in row.fields && Trim(render(row.fields[p.field])) != ""
        then r.title == Trim(render(row.fields[p.field])) else r.title == Itoa(i + 1))
  }

  // ---------------------------------------------------------------- a table against its indexed paths

  /** The path of one row: the wildcard replaced by the row's number. */
  function IndexedPath(p: Probe, i: nat): string {
    Join(p.before + [p.key + "[" + Itoa(i) + "]"] + p.rest)
  }

  lemma {:induction false} FindSkips(s: string, t: string, c: char)
    requires c !in s
    ensures Find(s + [c] + t, c) == |s|
  {
    if s != "" {
      FindSkips(s[1..], t, c);
      assert (s + [c] + t)[1..] == s[1..] + [c] + t;
    }
  }

  /** A key starts with something that is not a space and holds no bracket. */
  lemma ProbeKey(path: string)
    requires ProbeOf(path).Some?
    ensures var key := ProbeOf(path).value.key; '[' !in key && (key == "" || !IsSpace(key[0]))
  {
    var seg := Split(path)[FirstWildcard(Split(path))];
    TrimmedStart(seg);
    TrimRightPrefix(TrimLeft(seg));
  }

  lemma CutIndexed(key: string, i: nat)
    requires '[' !in key && (key == "" || !IsSpace(key[0]))
    ensures var seg := key + "[" + Itoa(i) + "]";
            Trim(seg) == seg && CutSelector(seg) == Cut(key, Itoa(i), true)
  {
    var seg := key + "[" + Itoa(i) + "]";
    assert seg == key + ['['] + (Itoa(i) + "]");
    FindSkips(key, Itoa(i) + "]", '[');
    assert seg[|key| + 1..|seg| - 1] == Itoa(i) && seg[..|key|] == key;
    assert seg[|seg| - 1] == ']' && !IsSpace(seg[0]);
  }

  lemma {:induction false} FindNothing(s: string, c: char)
    requires c !in s
    ensures Find(s, c) == |s|
  {
    if s != "" { FindNothing(s[1..], c); }
  }

  /** The field named exactly so, spaces and all; without a key the value itself. */
  function FieldTable(d: Json, key: string): Option<Json> {
    if key == "" then Some(d) else if d.Obj? then Lookup(d.fields, key) else None
  }

  function Row(table: Option<Json>, i: nat): Option<Json> {
    if table.Some? && table.value.Arr? then At(table.value.items, i) else None
  }

  /** Entering "key[i]" is taking element i of the field named exactly so. */
  lemma EnterIndexed(d: Json, key: string, i: nat, render: Render)
    requires '[' !in key && (key == "" || !IsSpace(key[0])) && i <= MAX_INT
    ensures Enter(d, key + "[" + Itoa(i) + "]", render) == Row(FieldTable(d, key), i)
  {
    CutIndexed(key, i);
    AtoiOfItoa(i);
  }

  /** Entering a key alone trims it first; against an array it is an index. */
  lemma EnterKey(d: Json, key: string, render: Render)
    requires '[' !in key
    ensures Enter(d, key, render) ==
            if Trim(key) != "" && d.Arr? then (if Atoi(Trim(key)).Some? then At(d.items, Atoi(Trim(key)).value) else None)
            else FieldTable(d, Trim(key))
  {
    TrimLeftSubset(key);
    TrimRightSubset(TrimLeft(key));
    FindNothing(Trim(key), '[');
  }

  /** What a row of the table yields, as the probe reads it. */
  function ProbeRow(doc: Json, p: Probe, i: nat, render: Render): Option<Json> {
    Then(Row(Table(doc, p, render), i), p.rest, render)
  }

  /** For any key: the indexed path of a row reads element i of the field named exactly so, and nothing else. */
  lemma IndexedPathsRead(doc: Json, path: string, i: nat, render: Render)
    requires ProbeOf(path).Some? && i <= MAX_INT
    ensures var p := ProbeOf(path).value;
            var d := Walk(doc, p.before, render);
            PathOf(doc, IndexedPath(p, i), render) ==
            if d.None? then None else Then(Row(FieldTable(d.value, p.key), i), p.rest, render)
  {
    var p := ProbeOf(path).value;
    ProbeHasNoDots(path);
    ProbeKey(path);
    ItoaDigits(i);
    IndexedWalk(doc, p, p.key + "[" + Itoa(i) + "]", render);
    var d := Walk(doc, p.before, render);
    if d.Some? {
      EnterIndexed(d.value, p.key, i, render);
    }
  }

  /** And the probe reads element i of what the key alone leads to. */
  lemma ProbeRowsRead(doc: Json, path: string, i: nat, render: Render)
    requires ProbeOf(path).Some?
    ensures var p := ProbeOf(path).value;
            var d := Walk(doc, p.before, render);
            ProbeRow(doc, p, i, render) ==
            if d.None? then None else Then(Row(Enter(d.value, p.key, render), i), p.rest, render)
  {
    var p := ProbeOf(path).value;
    WalkAppends(doc, p.before, [p.key], render);
    var d := Walk(doc, p.before, render);
    if d.Some? {
      OneSegment(d.value, p.key, render);
    }
  }

  /** Whenever the indexed path of row i resolves, it is to what the probe reads in that row. */
  ghost predicate Agrees(doc: Json, path: string, i: nat, render: Render)
    requires ProbeOf(path).Some?
  {
    var p := ProbeOf(path).value;
    PathOf(doc, IndexedPath(p, i), render).Some? ==> PathOf(doc, IndexedPath(p, i), render) == ProbeRow(doc, p, i, render)
  }

  /** Every probe whose key has no space at its end agrees with its indexed paths, on all documents and rows. */
  lemma TableAgreesWithIndexedPaths(doc: Json, path: string, i: nat, render: Render)
    requires ProbeOf(path).Some? && i <= MAX_INT
    ensures Trim(ProbeOf(path).value.key) == ProbeOf(path).value.key ==> Agrees(doc, path, i, render)
  {
    var p := ProbeOf(path).value;
    IndexedPathsRead(doc, path, i, render);
    ProbeRowsRead(doc, path, i, render);
    ProbeKey(path);
    var d := Walk(doc, p.before, render);
    if d.Some? {
      EnterKey(d.value, p.key, render);
    }
  }

  lemma OneSegment(d: Json, seg: string, render: Render)
    ensures Walk(d, [seg], render) == Enter(d, seg, render)
  {
  }

  lemma IndexedWalk(doc: Json, p: Probe, ix: string, render: Render)
    requires NoDots(p.key) && (forall seg :: seg in p.before + p.rest ==> NoDots(seg)) && NoDots(ix)
    ensures PathOf(doc, Join(p.before + [ix] + p.rest), render) ==
            var d := Walk(doc, p.before, render);
            if d.None? then None else Then(Enter(d.value, ix, render), p.rest, render)
  {
    WalkOfJoin(doc, p.before + [ix] + p.rest, render);
    assert p.before + [ix] + p.rest == p.before + ([ix] + p.rest);
    WalkAppends(doc, p.before, [ix] + p.rest, render);
    var d := Walk(doc, p.before, render);
    if d.Some? {
      WalkAppends(d.value, [ix], p.rest, render);
      OneSegment(d.value, ix, render);
    }
  }

  // ---------------------------------------------------------------- a space before the bracket

  /** What can stand in front of the bracket. */
  predicate IsKey(key: string) { NoDots(key) && '[' !in key && (key == "" || !IsSpace(key[0])) }

  /** Two fields whose names differ only by spaces at the end. */
  function TwoTables(key: string): Json {
    Obj(map[Trim(key) := Arr([Num("1")]), key := Arr([Num("2")])])
  }

  /** The probe "key[*]". */
  lemma WildcardProbe(key: string)
    requires IsKey(key)
    ensures ProbeOf(key + ['['] + "*]") == Some(Probe([], key, "", []))
  {
    var seg := key + ['['] + "*]";
    CutWildcard(key);
    SplitOne(seg);
    FirstWildcardIs([seg], 0);
    assert "*"[1..] == "" && [seg][..0] == [] && [seg][1..] == [];
  }

  lemma CutWildcard(key: string)
    requires IsKey(key)
    ensures var seg := key + ['['] + "*]"; Trim(seg) == seg && CutSelector(seg) == Cut(key, "*", true)
  {
    var seg := key + ['['] + "*]";
    FindSkips(key, "*]", '[');
    assert seg[|key| + 1..|seg| - 1] == "*" && seg[..|key|] == key;
    assert seg[|seg| - 1] == ']' && !IsSpace(seg[0]);
  }

  /**
   * With a space before the bracket the two forms read different fields: the table is found under the key
   * alone, which is trimmed, while the key inside "key[0]" keeps its spaces.
   */
  lemma SpacedKeyReadsAnotherTable(key: string, render: Render) returns (path: string)
    requires IsKey(key) && Trim(key) != key
    ensures ProbeOf(path).Some? && ProbeOf(path).value.key == key
    ensures !Agrees(TwoTables(key), path, 0, render)
  {
    path := key + ['['] + "*]";
    WildcardProbe(key);
    var doc, p := TwoTables(key), Probe([], key, "", []);
    IndexedPathsRead(doc, path, 0, render);
    ProbeRowsRead(doc, path, 0, render);
    EnterKey(doc, key, render);
    assert Walk(doc, [], render) == Some(doc);
    assert FieldTable(doc, key) == Some(Arr([Num("2")]));
    assert FieldTable(doc, Trim(key)) == Some(Arr([Num("1")])) by { TrimmedKeyIsNotEmpty(key); }
  }

  lemma TrimmedKeyIsNotEmpty(key: string)
    requires key != "" && !IsSpace(key[0])
    ensures Trim(key) != ""
  {
    TrimRightStops(key);
  }

  lemma {:induction false} TrimRightStops(s: string)
    requires s != "" && !IsSpace(s[0])
    ensures TrimRight(s) != ""
  {
    if |s| > 1 && IsSpace(s[|s| - 1]) { TrimRightStops(s[..|s| - 1]); }
  }

  /**
   * Probes on a key agree with their indexed paths, on every document and in every row, if and only if no
   * space stands between key and bracket.
   */
  lemma AgreementIsExactlyForTrimmedKeys(key: string, render: Render)
    requires IsKey(key)
    ensures (forall doc, path, i: nat :: i <= MAX_INT && ProbeOf(path).Some? && ProbeOf(path).value.key == key
                                         ==> Agrees(doc, path, i, render))
            <==> Trim(key) == key
  {
    if Trim(key) == key {
      forall doc, path, i: nat | i <= MAX_INT && ProbeOf(path).Some? && ProbeOf(path).value.key == key
        ensures Agrees(doc, path, i, render)
      {
        TableAgreesWithIndexedPaths(doc, path, i, render);
      }
    } else {
      var path := SpacedKeyReadsAnotherTable(key, render);
    }
  }
}
