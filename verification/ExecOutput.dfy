/** The bounded output collector and the registry of running commands of server/exec.go. */
module ExecOutput {
  import opened Bytes

  const MAX_OUTPUT: nat := 0x100000

  /** One message of output, in order of arrival; anything but "stderr" counts as standard output. */
  datatype Chunk = Chunk(stream: string, data: seq<Byte>)

  datatype Tagged = Tagged(err: bool, b: Byte)

  function Tag(c: Chunk): (r: seq<Tagged>)
    ensures |r| == |c.data|
  {
    seq(|c.data|, i requires 0 <= i < |c.data| => Tagged(c.stream == "stderr", c.data[i]))
  }

  /** Everything that arrived, byte by byte. */
  function Arrived(chunks: seq<Chunk>): seq<Tagged> {
    if chunks == [] then [] else Arrived(chunks[..|chunks| - 1]) + Tag(chunks[|chunks| - 1])
  }

  function Kept(chunks: seq<Chunk>): seq<Tagged> {
    if |Arrived(chunks)| <= MAX_OUTPUT then Arrived(chunks) else Arrived(chunks)[..MAX_OUTPUT]
  }

  /** The bytes of one of the two streams. */
  function Side(bytes: seq<Tagged>, err: bool): seq<Byte> {
    if bytes == [] then []
    else
      var last := bytes[|bytes| - 1];
      Side(bytes[..|bytes| - 1], err) + if last.err == err then [last.b] else []
  }

  /** A chunk that arrives when the output is already full. */
  predicate LateChunk(chunks: seq<Chunk>) {
    exists i :: 0 <= i < |chunks| && |Arrived(chunks[..i])| >= MAX_OUTPUT
  }

  predicate Truncated(chunks: seq<Chunk>) {
    |Arrived(chunks)| > MAX_OUTPUT || LateChunk(chunks)
  }

  lemma {:induction false} SideJoins(a: seq<Tagged>, b: seq<Tagged>, err: bool)
    ensures Side(a + b, err) == Side(a, err) + Side(b, err)
  {
    if b == [] {
      assert a + b == a;
    } else {
      var pre, all := b[..|b| - 1], a + b;
      SideJoins(a, pre, err);
      assert all[..|all| - 1] == a + pre && all[|all| - 1] == b[|b| - 1];
    }
  }

  lemma {:induction false} SideOfTag(data: seq<Byte>, n: nat, stream: string, err: bool)
    requires n <= |data|
    ensures Side(Tag(Chunk(stream, data))[..n], err) == if (stream == "stderr") == err then data[..n] else []
  {
    if n > 0 {
      SideOfTag(data, n - 1, stream, err);
      var tags := Tag(Chunk(stream, data))[..n];
      assert tags[..n - 1] == Tag(Chunk(stream, data))[..n - 1];
      assert data[..n] == data[..n - 1] + [data[n - 1]];
    }
  }

  lemma ArrivedOneMore(chunks: seq<Chunk>, c: Chunk)
    ensures Arrived(chunks + [c]) == Arrived(chunks) + Tag(c)
  {
    assert (chunks + [c])[..|chunks|] == chunks;
  }

  lemma LateOneMore(chunks: seq<Chunk>, c: Chunk)
    ensures LateChunk(chunks + [c]) <==> LateChunk(chunks) || |Arrived(chunks)| >= MAX_OUTPUT
  {
    var all := chunks + [c];
    assert forall i :: 0 <= i <= |chunks| ==> all[..i] == chunks[..i];
    assert chunks[..|chunks|] == chunks;
    if |Arrived(chunks)| >= MAX_OUTPUT {
      assert |Arrived(all[..|chunks|])| >= MAX_OUTPUT;
    }
    if LateChunk(chunks) {
      var i :| 0 <= i < |chunks| && |Arrived(chunks[..i])| >= MAX_OUTPUT;
      assert |Arrived(all[..i])| >= MAX_OUTPUT;
    }
  }

  /** What a chunk adds to what is kept: as much of it as still fits. */
  function Room(chunks: seq<Chunk>, c: Chunk): (n: nat)
    ensures n <= |c.data|
  {
    var k := |Kept(chunks)|;
    if |c.data| <= MAX_OUTPUT - k then |c.data| else MAX_OUTPUT - k
  }

  lemma KeptOneMore(chunks: seq<Chunk>, c: Chunk)
    ensures Kept(chunks + [c]) == Kept(chunks) + Tag(c)[..Room(chunks, c)]
    ensures forall err :: Side(Kept(chunks + [c]), err) ==
              Side(Kept(chunks), err) + if (c.stream == "stderr") == err then c.data[..Room(chunks, c)] else []
  {
    ArrivedOneMore(chunks, c);
    var n := Room(chunks, c);
    assert Kept(chunks + [c]) == Kept(chunks) + Tag(c)[..n];
    forall err ensures Side(Kept(chunks + [c]), err) ==
              Side(Kept(chunks), err) + if (c.stream == "stderr") == err then c.data[..n] else []
    {
      SideJoins(Kept(chunks), Tag(c)[..n], err);
      SideOfTag(c.data, n, c.stream, err);
    }
  }

  lemma {:induction false} ArrivedGrows(chunks: seq<Chunk>, i: nat)
    requires i <= |chunks|
    ensures Arrived(chunks[..i]) <= Arrived(chunks)
  {
    if i == |chunks| {
      assert chunks[..i] == chunks;
    } else {
      var pre := chunks[..|chunks| - 1];
      ArrivedGrows(pre, i);
      assert pre[..i] == chunks[..i];
    }
  }

  /**
   * The flag says exactly that bytes were dropped, or that the output filled up to the last byte and an
   * empty message came after that.
   */
  lemma TruncatedExactly(chunks: seq<Chunk>)
    ensures Truncated(chunks) <==> Kept(chunks) != Arrived(chunks) || EmptyAfterFull(chunks)
  {
    if LateChunk(chunks) && |Arrived(chunks)| <= MAX_OUTPUT {
      var i :| 0 <= i < |chunks| && |Arrived(chunks[..i])| >= MAX_OUTPUT;
      LateIsEmpty(chunks, i);
    }
  }

  predicate EmptyAfterFull(chunks: seq<Chunk>) {
    exists i :: 0 <= i < |chunks| && chunks[i].data == [] && |Arrived(chunks[..i])| == MAX_OUTPUT
  }

  lemma LateIsEmpty(chunks: seq<Chunk>, i: nat)
    requires i < |chunks| && |Arrived(chunks[..i])| >= MAX_OUTPUT >= |Arrived(chunks)|
    ensures chunks[i].data == [] && |Arrived(chunks[..i])| == MAX_OUTPUT
  {
    ArrivedGrows(chunks, i);
    ArrivedGrows(chunks, i + 1);
    assert chunks[..i + 1] == chunks[..i] + [chunks[i]];
    ArrivedOneMore(chunks[..i], chunks[i]);
  }

  /** When every message carries some output, that second case does not arise. */
  lemma TruncatedMeansBytesDropped(chunks: seq<Chunk>)
    requires forall c :: c in chunks ==> c.data != []
    ensures Truncated(chunks) <==> Kept(chunks) != Arrived(chunks)
  {
    TruncatedExactly(chunks);
    assert forall i :: 0 <= i < |chunks| ==> chunks[i] in chunks;
  }

  /** A full buffer and then an empty message: the flag is set though nothing was dropped. */
  lemma FlagWithoutLoss(b: Byte)
    ensures var chunks := [Chunk("stdout", seq(MAX_OUTPUT, _ => b)), Chunk("stdout", [])];
            Truncated(chunks) && Kept(chunks) == Arrived(chunks)
  {
    var full := Chunk("stdout", seq(MAX_OUTPUT, _ => b));
    var chunks := [full, Chunk("stdout", [])];
    assert chunks == [full] + [Chunk("stdout", [])] && [full] == [] + [full];
    ArrivedOneMore([], full);
    ArrivedOneMore([full], Chunk("stdout", []));
    assert chunks[..1] == [full] && |Arrived(chunks[..1])| == MAX_OUTPUT;
  }

  /** What a command wrote to one of its streams, in order; anything but "stderr" is standard output. */
  function Said(chunks: seq<Chunk>, err: bool): seq<Byte> {
    if chunks == [] then []
    else
      var c := chunks[|chunks| - 1];
      Said(chunks[..|chunks| - 1], err) + if (c.stream == "stderr") == err then c.data else []
  }

  function Total(chunks: seq<Chunk>): nat {
    if chunks == [] then 0 else Total(chunks[..|chunks| - 1]) + |chunks[|chunks| - 1].data|
  }

  lemma {:induction false} SaidArrives(chunks: seq<Chunk>, err: bool)
    ensures Side(Arrived(chunks), err) == Said(chunks, err) && |Arrived(chunks)| == Total(chunks)
  {
    if chunks != [] {
      var pre, c := chunks[..|chunks| - 1], chunks[|chunks| - 1];
      SaidArrives(pre, err);
      SideJoins(Arrived(pre), Tag(c), err);
      SideOfTag(c.data, |c.data|, c.stream, err);
      assert Tag(c)[..|c.data|] == Tag(c) && c.data[..|c.data|] == c.data && c == Chunk(c.stream, c.data);
    }
  }

  lemma {:induction false} SidesAddUp(bytes: seq<Tagged>)
    ensures |Side(bytes, false)| + |Side(bytes, true)| == |bytes|
  {
    if bytes != [] { SidesAddUp(bytes[..|bytes| - 1]); }
  }

  /** Each stream comes out as it was written, up to where it is cut, and together they are a mebibyte or everything. */
  lemma StreamsComeOut(chunks: seq<Chunk>)
    ensures forall err :: Side(Kept(chunks), err) <= Said(chunks, err)
    ensures |Side(Kept(chunks), false)| + |Side(Kept(chunks), true)|
            == if Total(chunks) <= 1024 * 1024 then Total(chunks) else 1024 * 1024
  {
    forall err ensures Side(Kept(chunks), err) <= Said(chunks, err) {
      SaidArrives(chunks, err);
      var all, n := Arrived(chunks), |Kept(chunks)|;
      assert all == Kept(chunks) + all[n..];
      SideJoins(Kept(chunks), all[n..], err);
    }
    SaidArrives(chunks, false);
    SidesAddUp(Kept(chunks));
  }

  /** What a collector holds. */
  datatype Output = Output(out: seq<Byte>, err: seq<Byte>, n: nat, cut: bool)

  /** The first MAX_OUTPUT bytes of what arrived, each on its own stream, and whether that was all. */
  function Collected(chunks: seq<Chunk>): (o: Output)
    ensures o.n <= MAX_OUTPUT
  {
    Output(Side(Kept(chunks), false), Side(Kept(chunks), true), |Kept(chunks)|, Truncated(chunks))
  }

  /** Bytes written to one of the streams. */
  function Written(o: Output, stream: string, kept: seq<Byte>, cut: bool): Output {
    if stream == "stderr" then Output(o.out, o.err + kept, o.n + |kept|, cut)
    else Output(o.out + kept, o.err, o.n + |kept|, cut)
  }

  lemma CollectedOneMore(chunks: seq<Chunk>, c: Chunk)
    ensures var o, room := Collected(chunks), Room(chunks, c);
            Collected(chunks + [c]) == Written(o, c.stream, c.data[..room], o.cut || o.n == MAX_OUTPUT || room < |c.data|)
  {
    KeptOneMore(chunks, c);
    ArrivedOneMore(chunks, c);
    LateOneMore(chunks, c);
  }

  /** A full collector takes nothing more, one with room takes what fits, and both say when that is not all. */
  function Taken(o: Output, stream: string, data: seq<Byte>): Output {
    if o.n >= MAX_OUTPUT then o.(cut := true)
    else if |data| > MAX_OUTPUT - o.n then Written(o, stream, data[..MAX_OUTPUT - o.n], true)
    else Written(o, stream, data, o.cut)
  }

  lemma TakenIsWritten(o: Output, stream: string, data: seq<Byte>, room: nat)
    requires o.n <= MAX_OUTPUT && room == if |data| <= MAX_OUTPUT - o.n then |data| else MAX_OUTPUT - o.n
    ensures Taken(o, stream, data)
            == Written(o, stream, data[..room], o.cut || o.n == MAX_OUTPUT || room < |data|)
  {
    assert data[..|data|] == data;
    assert data[..0] == [] && o.out + [] == o.out && o.err + [] == o.err;
  }

  /** Taking message by message keeps the collector at the first bytes of everything that arrived. */
  lemma TakingCollects(chunks: seq<Chunk>, c: Chunk)
    ensures Taken(Collected(chunks), c.stream, c.data) == Collected(chunks + [c])
  {
    CollectedOneMore(chunks, c);
    TakenIsWritten(Collected(chunks), c.stream, c.data, Room(chunks, c));
  }

  datatype Outcome = Outcome(code: int, err: string)

  class Collector {
    var stdout: seq<Byte>
    var stderr: seq<Byte>
    var n: nat
    var truncated: bool
    var finished: bool
    var exitCode: int
    var errStr: string
    /** The channel the waiting caller reads; closing it twice would be a panic. */
    var closed: bool
    ghost var chunks: seq<Chunk>
    ghost var outcomes: seq<Outcome>

    ghost predicate Valid()
      reads this
    {
      && Output(stdout, stderr, n, truncated) == Collected(chunks)
      && finished == closed == (outcomes != [])
      && (outcomes != [] ==> Outcome(exitCode, errStr) == outcomes[0])
    }

    constructor ()
      ensures Valid() && chunks == [] && outcomes == []
    {
      stdout, stderr, n, truncated := [], [], 0, false;
      finished, exitCode, errStr, closed := false, 0, "", false;
      chunks, outcomes := [], [];
    }

    method Append(stream: string, data: seq<Byte>)
      requires Valid()
      modifies this
      ensures Valid() && chunks == old(chunks) + [Chunk(stream, data)] && outcomes == old(outcomes)
    {
      TakingCollects(chunks, Chunk(stream, data));
      Take(stream, data);
      chunks := chunks + [Chunk(stream, data)];
    }

    /** The statements of append, without the history. */
    method Take(stream: string, data: seq<Byte>)
      modifies `stdout, `stderr, `n, `truncated
      ensures Output(stdout, stderr, n, truncated) == Taken(old(Output(stdout, stderr, n, truncated)), stream, data)
    {
      if n >= MAX_OUTPUT {
        truncated := true;
        return;
      }
      var kept := data;
      if |data| > MAX_OUTPUT - n {
        kept := data[..MAX_OUTPUT - n];
        truncated := true;
      }
      n := n + |kept|;
      if stream == "stderr" {
        stderr := stderr + kept;
      } else {
        stdout := stdout + kept;
      }
    }

    /** Only the first outcome counts, and it alone closes the channel. */
    method Finish(code: int, err: string)
      requires Valid()
      modifies this
      ensures Valid() && outcomes == old(outcomes) + [Outcome(code, err)] && chunks == old(chunks)
      ensures closed
    {
      outcomes := outcomes + [Outcome(code, err)];
      if !finished {
        finished := true;
        exitCode := code;
        errStr := err;
        assert !closed;
        closed := true;
      }
    }

    method Result() returns (out: seq<Byte>, err: seq<Byte>, code: int, problem: string, cut: bool)
      requires Valid()
      ensures out == Side(Kept(chunks), false) && err == Side(Kept(chunks), true) && cut == Truncated(chunks)
      ensures outcomes != [] ==> Outcome(code, problem) == outcomes[0]
    {
      return stdout, stderr, exitCode, errStr, truncated;
    }
  }

  class Registry {
    var m: map<string, Collector>

    /** Every command has a collector of its own. */
    ghost predicate Valid()
      reads this, m.Values
    {
      && (forall id :: id in m ==> m[id].Valid())
      && (forall a, b :: a in m && b in m && m[a] == m[b] ==> a == b)
    }

    constructor ()
      ensures Valid() && m == map[]
    {
      m := map[];
    }

    method Create(id: string) returns (c: Collector)
      requires Valid()
      modifies this
      ensures Valid() && fresh(c) && c.Valid() && c.chunks == [] && c.outcomes == []
      ensures m == old(m)[id := c]
    {
      c := new Collector();
      m := m[id := c];
    }

    method Remove(id: string)
      requires Valid()
      modifies this
      ensures Valid() && m == old(m) - {id}
    {
      m := m - {id};
    }

    /** A message of output goes to the command it names and to no other; one for no known command is dropped. */
    method Output(id: string, stream: string, data: seq<Byte>)
      requires Valid()
      modifies m.Values
      ensures Valid()
      ensures id in m ==> m[id].chunks == old(m[id].chunks) + [Chunk(stream, data)] && m[id].outcomes == old(m[id].outcomes)
      ensures forall k :: k in m && k != id ==> m[k].chunks == old(m[k].chunks) && m[k].outcomes == old(m[k].outcomes)
    {
      if id in m {
        var c := m[id];
        assert c in m.Values;
        c.Append(stream, data);
      }
    }

    method Done(id: string, code: int, err: string)
      requires Valid()
      modifies m.Values
      ensures Valid()
      ensures id in m ==> m[id].outcomes == old(m[id].outcomes) + [Outcome(code, err)] && m[id].chunks == old(m[id].chunks)
      ensures forall k :: k in m && k != id ==> m[k].chunks == old(m[k].chunks) && m[k].outcomes == old(m[k].outcomes)
    {
      if id in m {
        var c := m[id];
        assert c in m.Values;
        c.Finish(code, err);
      }
    }
  }
}
