/**
 * Incremental frame conversion, internal/capture/dxgi_windows.go: a persistent RGBA buffer refreshed
 * only inside the rectangles the driver reports. What the driver answers is an input.
 */
module DesktopCapture {
  import opened Bytes
  import opened Optional

  datatype Rect = Rect(left: int, top: int, right: int, bottom: int) {
    function Dx(): int { right - left }

    function Dy(): int { bottom - top }

    predicate Empty() { left >= right || top >= bottom }

    predicate Has(x: int, y: int) { left <= x < right && top <= y < bottom }

    /** The rectangle as convert clips it to a frame. */
    function Clipped(w: int, h: int): Rect {
      Rect(if left < 0 then 0 else left, if top < 0 then 0 else top,
           if right > w then w else right, if bottom > h then h else bottom)
    }

    /** Slicing a row panics when the clipped rectangle is inside out and still has rows. */
    predicate Sliceable(w: int, h: int) {
      var c := Clipped(w, h);
      c.left <= c.right || c.top >= c.bottom
    }

    /** image.Rect swaps coordinates that are out of order. */
    function Canonical(): Rect {
      Rect(if left > right then right else left, if top > bottom then bottom else top,
           if left > right then left else right, if top > bottom then top else bottom)
    }
  }

  /** A mapped BGRA texture: rows of `pitch` bytes. */
  datatype Frame = Frame(pitch: nat, data: seq<Byte>)

  // ---------------------------------------------------------------- pixels by position

  /** Where component c of pixel (x, y) lies in an RGBA buffer whose stride is 4 * w. */
  function Pos(w: nat, x: nat, y: nat, c: nat): nat {
    y * (4 * w) + x * 4 + c
  }

  function Size(w: nat, h: nat): nat {
    h * (4 * w)
  }

  lemma RowsApart(s: nat, y: nat, y': nat)
    requires y < y'
    ensures y * s + s <= y' * s
  {
    var d := y' - y - 1;
    assert y' * s == y * s + s + d * s;
  }

  lemma PosInBounds(w: nat, h: nat, x: nat, y: nat, c: nat)
    requires x < w && y < h && c < 4
    ensures Pos(w, x, y, c) < Size(w, h)
  {
    RowsApart(4 * w, y, h);
  }

  lemma PosInjective(w: nat, x: nat, y: nat, c: nat, x': nat, y': nat, c': nat)
    requires x < w && x' < w && c < 4 && c' < 4 && Pos(w, x, y, c) == Pos(w, x', y', c')
    ensures x == x' && y == y' && c == c'
  {
    if y < y' {
      RowsApart(4 * w, y, y');
    } else if y' < y {
      RowsApart(4 * w, y', y);
    }
  }

  /** Every byte of a buffer is some component of some pixel. */
  lemma PosSurjective(w: nat, h: nat, p: nat) returns (x: nat, y: nat, c: nat)
    requires p < Size(w, h)
    ensures x < w && y < h && c < 4 && Pos(w, x, y, c) == p
  {
    assert w > 0;
    var s := 4 * w;
    y := p / s;
    var b := p % s;
    assert p == y * s + b;
    x, c := b / 4, b % 4;
    if h <= y {
      RowsApart(s, h, y + 1);
    }
  }

  predicate Fits(f: Frame, w: nat, h: nat) {
    4 * w <= f.pitch && |f.data| == f.pitch * h
  }

  lemma TexelInBounds(f: Frame, w: nat, h: nat, x: nat, y: nat, c: nat)
    requires Fits(f, w, h) && x < w && y < h && c < 4
    ensures y * f.pitch + x * 4 + c < |f.data|
  {
    RowsApart(f.pitch, y, h);
  }

  /** Component c of pixel (x, y) after the swizzle from BGRA to RGBA with full alpha. */
  function Texel(f: Frame, w: nat, h: nat, x: nat, y: nat, c: nat): Byte
    requires Fits(f, w, h) && x < w && y < h && c < 4
  {
    TexelInBounds(f, w, h, x, y, c);
    TexelInBounds(f, w, h, x, y, 2);
    if c == 3 then 255 else f.data[y * f.pitch + x * 4 + (2 - c)]
  }

  // ---------------------------------------------------------------- what a buffer holds

  function At(buf: seq<Byte>, w: nat, h: nat, x: nat, y: nat, c: nat): Byte
    requires |buf| == Size(w, h) && x < w && y < h && c < 4
  {
    PosInBounds(w, h, x, y, c);
    buf[Pos(w, x, y, c)]
  }

  /** The buffer shows the frame: every pixel is the frame's, converted. */
  ghost predicate Shows(buf: seq<Byte>, f: Frame, w: nat, h: nat)
    requires Fits(f, w, h)
  {
    |buf| == Size(w, h) &&
    forall x: nat, y: nat, c: nat :: x < w && y < h && c < 4 ==> At(buf, w, h, x, y, c) == Texel(f, w, h, x, y, c)
  }

  /** There is one such buffer: showing a frame is being its whole conversion. */
  lemma ShowingIsUnique(a: seq<Byte>, b: seq<Byte>, f: Frame, w: nat, h: nat)
    requires Fits(f, w, h) && Shows(a, f, w, h) && Shows(b, f, w, h)
    ensures a == b
  {
    forall p | 0 <= p < |a| ensures a[p] == b[p] {
      var x, y, c := PosSurjective(w, h, p);
      assert At(a, w, h, x, y, c) == At(b, w, h, x, y, c);
    }
  }

  lemma ShownComponent(buf: seq<Byte>, f: Frame, w: nat, h: nat, x: nat, y: nat, c: nat)
    requires Fits(f, w, h) && Shows(buf, f, w, h) && x < w && y < h && c < 4
    ensures y * (4 * w) + x * 4 + c < |buf| && y * f.pitch + x * 4 + c < |f.data|
    ensures buf[y * (4 * w) + x * 4 + c] == Texel(f, w, h, x, y, c)
  {
    PosInBounds(w, h, x, y, c);
    TexelInBounds(f, w, h, x, y, c);
    assert At(buf, w, h, x, y, c) == Texel(f, w, h, x, y, c);
  }

  /** The bytes of a pixel: a frame's blue, green, red and whatever become red, green, blue and opaque. */
  lemma ShownPixels(buf: seq<Byte>, f: Frame, w: nat, h: nat, x: nat, y: nat)
    requires Fits(f, w, h) && Shows(buf, f, w, h) && x < w && y < h
    ensures var p, q := y * (4 * w) + x * 4, y * f.pitch + x * 4;
            && p + 4 <= |buf| && q + 4 <= |f.data|
            && buf[p] == f.data[q + 2] && buf[p + 1] == f.data[q + 1] && buf[p + 2] == f.data[q] && buf[p + 3] == 255
  {
    ShownComponent(buf, f, w, h, x, y, 0);
    ShownComponent(buf, f, w, h, x, y, 1);
    ShownComponent(buf, f, w, h, x, y, 2);
    ShownComponent(buf, f, w, h, x, y, 3);
  }

  type Area = (nat, nat) -> bool

  /** Inside the area the buffer has become the frame's, outside it is what it was. */
  ghost predicate Refreshed(now: seq<Byte>, was: seq<Byte>, f: Frame, w: nat, h: nat, area: Area)
    requires Fits(f, w, h)
  {
    |now| == |was| == Size(w, h) &&
    forall x: nat, y: nat, c: nat :: x < w && y < h && c < 4 ==>
      At(now, w, h, x, y, c) == if area(x, y) then Texel(f, w, h, x, y, c) else At(was, w, h, x, y, c)
  }

  lemma RefreshedTwice(third: seq<Byte>, second: seq<Byte>, first: seq<Byte>, f: Frame, w: nat, h: nat,
                       a: Area, b: Area, both: Area)
    requires Fits(f, w, h) && Refreshed(second, first, f, w, h, a) && Refreshed(third, second, f, w, h, b)
    requires forall x: nat, y: nat :: x < w && y < h ==> both(x, y) == (a(x, y) || b(x, y))
    ensures Refreshed(third, first, f, w, h, both)
  {
    forall x: nat, y: nat, c: nat | x < w && y < h && c < 4
      ensures At(third, w, h, x, y, c) == if both(x, y) then Texel(f, w, h, x, y, c) else At(first, w, h, x, y, c)
    {
      assert At(second, w, h, x, y, c) == if a(x, y) then Texel(f, w, h, x, y, c) else At(first, w, h, x, y, c);
    }
  }

  ghost predicate Covered(rects: seq<Rect>, x: int, y: int) {
    exists r :: r in rects && r.Has(x, y)
  }

  ghost function CoveredArea(rects: seq<Rect>): Area {
    (x: nat, y: nat) => Covered(rects, x, y)
  }

  // ---------------------------------------------------------------- convert

  /** The innermost loop: one row of one rectangle, BGRA to RGBA. */
  method ConvertRow(buf: array<Byte>, f: Frame, w: nat, h: nat, y: nat, x0: nat, x1: nat)
    requires Fits(f, w, h) && buf.Length == Size(w, h)
    requires y < h && x0 <= x1 <= w
    modifies buf
    ensures Refreshed(buf[..], old(buf[..]), f, w, h, (x: nat, v: nat) => v == y && x0 <= x < x1)
  {
    var n := (x1 - x0) * 4;
    var src, dst := y * f.pitch + x0 * 4, y * (4 * w) + x0 * 4;
    var i := 0;
    ghost var was := buf[..];
    ghost var x := x0;
    while i + 3 < n
      invariant x0 <= x <= x1 && i == (x - x0) * 4
      invariant Refreshed(buf[..], was, f, w, h, (u: nat, v: nat) => v == y && x0 <= u < x)
      decreases n - i
    {
      TexelInBounds(f, w, h, x, y, 3);
      PosInBounds(w, h, x, y, 3);
      ghost var before := buf[..];
      buf[dst + i + 0] := f.data[src + i + 2];
      buf[dst + i + 1] := f.data[src + i + 1];
      buf[dst + i + 2] := f.data[src + i + 0];
      buf[dst + i + 3] := 255;
      OnePixel(buf[..], before, f, w, h, x, y);
      RefreshedTwice(buf[..], before, was, f, w, h,
                     (u: nat, v: nat) => v == y && x0 <= u < x, (u: nat, v: nat) => v == y && u == x,
                     (u: nat, v: nat) => v == y && x0 <= u < x + 1);
      i := i + 4;
      x := x + 1;
    }
  }

  lemma OnePixel(now: seq<Byte>, was: seq<Byte>, f: Frame, w: nat, h: nat, x: nat, y: nat)
    requires Fits(f, w, h) && x < w && y < h && |now| == |was| == Size(w, h)
    requires var p := Pos(w, x, y, 0);
             p + 4 <= |now|
             && now == was[p := Texel(f, w, h, x, y, 0)][p + 1 := Texel(f, w, h, x, y, 1)]
                          [p + 2 := Texel(f, w, h, x, y, 2)][p + 3 := Texel(f, w, h, x, y, 3)]
    ensures Refreshed(now, was, f, w, h, (u: nat, v: nat) => v == y && u == x)
  {
    forall u: nat, v: nat, c: nat | u < w && v < h && c < 4
      ensures At(now, w, h, u, v, c)
           == if v == y && u == x then Texel(f, w, h, u, v, c) else At(was, w, h, u, v, c)
    {
      PosInBounds(w, h, u, v, c);
      if v != y || u != x {
        forall k: nat | k < 4 ensures Pos(w, u, v, c) != Pos(w, x, y, k) {
          if Pos(w, u, v, c) == Pos(w, x, y, k) {
            PosInjective(w, u, v, c, x, y, k);
          }
        }
        assert Pos(w, x, y, 1) == Pos(w, x, y, 0) + 1;
        assert Pos(w, x, y, 2) == Pos(w, x, y, 0) + 2;
        assert Pos(w, x, y, 3) == Pos(w, x, y, 0) + 3;
      }
    }
  }

  /** The rows of one rectangle, clipped to the frame. */
  method ConvertRect(buf: array<Byte>, f: Frame, w: nat, h: nat, rc: Rect)
    requires Fits(f, w, h) && buf.Length == Size(w, h) && rc.Sliceable(w, h)
    modifies buf
    ensures Refreshed(buf[..], old(buf[..]), f, w, h, (x: nat, y: nat) => rc.Has(x, y))
  {
    var x0, y0, x1, y1 := rc.left, rc.top, rc.right, rc.bottom;
    if x0 < 0 {
      x0 := 0;
    }
    if y0 < 0 {
      y0 := 0;
    }
    if x1 > w {
      x1 := w;
    }
    if y1 > h {
      y1 := h;
    }
    ghost var was := buf[..];
    var y := y0;
    while y < y1
      invariant y0 <= y && (if y0 <= y1 then y <= y1 else y == y0)
      invariant Refreshed(buf[..], was, f, w, h, (u: nat, v: nat) => x0 <= u < x1 && y0 <= v < y)
      decreases y1 - y
    {
      ghost var before := buf[..];
      ConvertRow(buf, f, w, h, y, x0, x1);
      RefreshedTwice(buf[..], before, was, f, w, h,
                     (u: nat, v: nat) => x0 <= u < x1 && y0 <= v < y, (u: nat, v: nat) => v == y && x0 <= u < x1,
                     (u: nat, v: nat) => x0 <= u < x1 && y0 <= v < y + 1);
      y := y + 1;
    }
    RefreshedSame(buf[..], was, f, w, h, (u: nat, v: nat) => x0 <= u < x1 && y0 <= v < y, (u: nat, v: nat) => rc.Has(u, v));
  }

  lemma RefreshedSame(now: seq<Byte>, was: seq<Byte>, f: Frame, w: nat, h: nat, a: Area, b: Area)
    requires Fits(f, w, h) && Refreshed(now, was, f, w, h, a)
    requires forall x: nat, y: nat :: x < w && y < h ==> a(x, y) == b(x, y)
    ensures Refreshed(now, was, f, w, h, b)
  {
  }

  /** The loop over the dirty rectangles. */
  method ConvertRects(buf: array<Byte>, f: Frame, w: nat, h: nat, dirty: seq<Rect>)
    requires Fits(f, w, h) && buf.Length == Size(w, h)
    requires forall r :: r in dirty ==> r.Sliceable(w, h)
    modifies buf
    ensures Refreshed(buf[..], old(buf[..]), f, w, h, CoveredArea(dirty))
  {
    ghost var was := buf[..];
    for i := 0 to |dirty|
      invariant Refreshed(buf[..], was, f, w, h, CoveredArea(dirty[..i]))
    {
      ghost var before := buf[..];
      ConvertRect(buf, f, w, h, dirty[i]);
      OneMoreRect(dirty, i);
      RefreshedTwice(buf[..], before, was, f, w, h, CoveredArea(dirty[..i]),
                     (x: nat, y: nat) => dirty[i].Has(x, y), CoveredArea(dirty[..i + 1]));
    }
    assert dirty[..|dirty|] == dirty;
  }

  lemma OneMoreRect(dirty: seq<Rect>, i: nat)
    requires i < |dirty|
    ensures forall x: nat, y: nat ::
              CoveredArea(dirty[..i + 1])(x, y) == (CoveredArea(dirty[..i])(x, y) || dirty[i].Has(x, y))
  {
    assert dirty[..i + 1] == dirty[..i] + [dirty[i]];
    forall x: nat, y: nat
      ensures CoveredArea(dirty[..i + 1])(x, y) == (CoveredArea(dirty[..i])(x, y) || dirty[i].Has(x, y))
    {
      assert dirty[i] in dirty[..i + 1];
    }
  }

  // ---------------------------------------------------------------- one grab, on values

  /** What a source holds; `last` None is nil, "assume everything". */
  datatype State = State(open: bool, region: Rect, buf: Option<seq<Byte>>, last: Option<seq<Rect>>, held: bool)

  datatype Acquire =
    | TimedOut
    | AccessLost
    | Failed
    | Acquired(updates: nat, presented: int, texture: bool, mapped: bool, frame: Frame, rects: Option<seq<Rect>>)

  /** The driver's answers to one call: whether a start succeeds, and what the acquire returns. */
  datatype Answers = Answers(starts: bool, acquire: Acquire)

  datatype Outcome = Image | NoChange | Error

  const CLOSED := State(false, Rect(0, 0, 0, 0), None, None, false)

  function AfterClose(s: State): State {
    s.(open := false, buf := None, held := s.held && !s.open)
  }

  predicate NeedsStart(s: State, region: Rect) {
    !s.open || s.region != region
  }

  /** The state the acquire works on. */
  function Started(s: State, region: Rect): State {
    if NeedsStart(s, region) then AfterClose(s).(open := true, region := region, buf := None) else s
  }

  /** The driver hands over a frame with something new on it. */
  predicate CarriesImage(a: Acquire) {
    a.Acquired? && a.updates != 0 && a.presented != 0
  }

  predicate Presentable(a: Answers, region: Rect) {
    && (a.starts ==> !region.Empty())
    && (a.acquire.Acquired? ==>
          0 <= region.Dx() && 0 <= region.Dy() && Fits(a.acquire.frame, region.Dx(), region.Dy())
          && (a.acquire.rects.Some? ==> forall r :: r in a.acquire.rects.value ==> r.Sliceable(region.Dx(), region.Dy())))
  }

  /** The buffer a successful grab leaves: refreshed where the driver says, or everywhere. */
  ghost predicate Converted(now: seq<Byte>, was: Option<seq<Byte>>, f: Frame, rects: Option<seq<Rect>>, w: nat, h: nat)
    requires Fits(f, w, h)
  {
    if was.None? || rects.None? then Shows(now, f, w, h)
    else Refreshed(now, was.value, f, w, h, CoveredArea(rects.value))
  }

  function Canonicals(rects: seq<Rect>): seq<Rect> {
    seq(|rects|, i requires 0 <= i < |rects| => rects[i].Canonical())
  }

  /** One call of grab, for whatever the driver answers. */
  ghost predicate Grabs(s: State, region: Rect, a: Answers, s': State, out: Outcome)
    requires Presentable(a, region)
  {
    if NeedsStart(s, region) && !a.starts then
      s' == AfterClose(s) && out == Error
    else
      var t := Started(s, region);
      match a.acquire
      case TimedOut => s' == t && out == NoChange
      case AccessLost => s' == AfterClose(t) && out == NoChange
      case Failed => s' == t && out == Error
      case Acquired(updates, presented, texture, mapped, frame, rects) =>
        if updates == 0 || presented == 0 then
          s' == t.(held := false, last := None) && out == NoChange
        else if !texture || !mapped then
          s' == t.(held := false) && out == Error
        else
          && out == Image && s'.buf.Some?
          && s' == t.(held := false, buf := s'.buf,
                      last := if t.buf.None? || rects.None? then None else Some(Canonicals(rects.value)))
          && Converted(s'.buf.value, t.buf, frame, rects, region.Dx(), region.Dy())
  }

  // ---------------------------------------------------------------- the source

  class DxgiSource {
    var open: bool
    var region: Rect
    var buf: array?<Byte>
    var last: Option<seq<Rect>>
    var held: bool

    ghost function View(): State
      reads this, buf
    {
      State(open, region, if buf == null then None else Some(buf[..]), last, held)
    }

    /** A duplication covers a real region, and its buffer is that region's size. */
    ghost predicate Valid()
      reads this, buf
    {
      && (open ==> !region.Empty())
      && (buf != null ==> open && buf.Length == Size(region.Dx(), region.Dy()))
    }

    constructor ()
      ensures Valid() && View() == CLOSED
    {
      open, region, buf, last, held := false, Rect(0, 0, 0, 0), null, None, false;
    }

    method ReleaseFrame()
      modifies `held
      ensures held == (old(held) && !open)
    {
      if held && open {
        held := false;
      }
    }

    method Close()
      modifies this
      ensures Valid() && View() == AfterClose(old(View()))
    {
      ReleaseFrame();
      open := false;
      buf := null;
    }

    method Start(wanted: Rect, works: bool) returns (ok: bool)
      requires !open && buf == null && (works ==> !wanted.Empty())
      modifies this
      ensures Valid() && ok == works
      ensures View() == if works then old(View()).(open := true, region := wanted, buf := None) else AfterClose(old(View()))
    {
      if !works {
        Close();
        return false;
      }
      open := true;
      region := wanted;
      buf := null;
      return true;
    }

    method Convert(f: Frame, dirty: Option<seq<Rect>>)
      requires Valid() && open && Fits(f, region.Dx(), region.Dy())
      requires dirty.Some? ==> forall r :: r in dirty.value ==> r.Sliceable(region.Dx(), region.Dy())
      modifies this, buf
      ensures Valid() && buf != null && (old(buf) != null ==> buf == old(buf))
      ensures View() == old(View()).(buf := View().buf)
      ensures Converted(View().buf.value, old(View().buf), f, dirty, region.Dx(), region.Dy())
    {
      var w: nat, h: nat := region.Dx(), region.Dy();
      var rects := if dirty.Some? then dirty.value else [Rect(0, 0, w, h)];
      ghost var whole := dirty.None?;
      if buf == null {
        var fresh_ := new Byte[Size(w, h)](_ => 0);
        buf := fresh_;
        rects := [Rect(0, 0, w, h)];  // first frame: fill everything
        whole := true;
      }
      ghost var was := buf[..];
      ConvertRects(buf, f, w, h, rects);
      if whole {
        WholeFrame(buf[..], was, f, w, h);
      }
    }

    /** Returns the current desktop image, or says that nothing changed. */
    method Grab(wanted: Rect, a: Answers) returns (out: Outcome, img: array?<Byte>)
      requires Valid() && Presentable(a, wanted)
      modifies this, buf
      ensures Valid() && Grabs(old(View()), wanted, a, View(), out)
      ensures out == Image ==> img == buf && img != null
    {
      img := null;
      if !open || region != wanted {
        Close();
        var ok := Start(wanted, a.starts);
        if !ok {
          return Error, null;
        }
      }
      match a.acquire
      case TimedOut => return NoChange, null;
      case AccessLost =>
        Close();
        return NoChange, null;
      case Failed => return Error, null;
      case Acquired(updates, presented, texture, mapped, frame, rects) =>
        held := true;
        if updates == 0 || presented == 0 {
          last := None;
          ReleaseFrame();
          return NoChange, null;
        }
        if !texture || !mapped {
          ReleaseFrame();
          return Error, null;
        }
        var rebuilt := buf == null;
        Convert(frame, rects);
        last := None;
        if !rebuilt && rects.Some? {
          var changed := ToImageRects(rects.value);
          last := Some(changed);
        }
        ReleaseFrame();
        return Image, buf;
    }
  }

  method ToImageRects(rs: seq<Rect>) returns (out: seq<Rect>)
    ensures out == Canonicals(rs)
  {
    out := [];
    for i := 0 to |rs|
      invariant out == Canonicals(rs[..i])
    {
      out := out + [rs[i].Canonical()];
      assert Canonicals(rs[..i + 1]) == Canonicals(rs[..i]) + [rs[i].Canonical()];
    }
    assert rs[..|rs|] == rs;
  }

  lemma WholeFrame(now: seq<Byte>, was: seq<Byte>, f: Frame, w: nat, h: nat)
    requires Fits(f, w, h) && Refreshed(now, was, f, w, h, CoveredArea([Rect(0, 0, w, h)]))
    ensures Shows(now, f, w, h)
  {
    forall x: nat, y: nat | x < w && y < h ensures CoveredArea([Rect(0, 0, w, h)])(x, y) {
      assert Rect(0, 0, w, h) in [Rect(0, 0, w, h)] && Rect(0, 0, w, h).Has(x, y);
    }
  }

  // ---------------------------------------------------------------- the capturer

  /** screenCapturer of internal/capture/capture_screenshot.go, as far as it uses the accelerated source. */
  class ScreenCapturer {
    var fast: DxgiSource?
    var dirty: Option<seq<Rect>>

    ghost function Repr(): set<object?>
      reads this, fast
    {
      if fast == null then {this} else {this, fast, fast.buf}
    }

    ghost predicate Valid()
      reads this, Repr()
    {
      fast != null ==> fast.Valid()
    }

    constructor ()
      ensures Valid() && fast != null && fresh(fast) && fast.View() == CLOSED
    {
      fast := new DxgiSource();
      dirty := None;
    }

    /** Asks the source while there is one; a failure ends it, and `slow` says that a screenshot is taken instead. */
    method Capture(region: Rect, a: Answers) returns (out: Outcome, img: array?<Byte>, slow: bool)
      requires Valid() && Presentable(a, region)
      modifies Repr()
      ensures Valid() && slow == (fast == null)
      ensures old(fast) == null ==> slow && dirty == None
      ensures old(fast) != null && slow ==>
                dirty == None && exists s :: Grabs(old(fast.View()), region, a, s, Error)
      ensures old(fast) != null && !slow ==>
                && fast == old(fast) && Grabs(old(fast.View()), region, a, fast.View(), out) && out != Error
                && dirty == fast.last && (out == Image ==> img == fast.buf && img != null)
    {
      out, img := Error, null;
      if fast != null {
        out, img := fast.Grab(region, a);
        if out != Error {
          dirty := fast.last;
          return out, img, false;
        }
        assert Grabs(old(fast.View()), region, a, fast.View(), Error);
        fast.Close();
        fast := null;
      }
      dirty := None;
      return Error, null, true;
    }
  }

  // ---------------------------------------------------------------- runs of grabs

  /**
   * A source with what the run has seen: the frame the driver last handed over (on this duplication)
   * and the image last returned.
   */
  datatype Track = Track(s: State, taken: Option<Frame>, image: Option<seq<Byte>>)

  const BEFORE := Track(CLOSED, None, None)

  /** What is still known of the duplication when the acquire is made. */
  function TakenBefore(t: Track, region: Rect): Option<Frame> {
    if NeedsStart(t.s, region) then None else t.taken
  }

  ghost predicate Follows(t: Track, region: Rect, a: Answers, t': Track, out: Outcome)
    requires Presentable(a, region)
  {
    && Grabs(t.s, region, a, t'.s, out)
    && t'.image == (if out == Image then t'.s.buf else t.image)
    && t'.taken == (if (NeedsStart(t.s, region) && !a.starts) || a.acquire.AccessLost? then None
                    else if CarriesImage(a.acquire) then Some(a.acquire.frame)
                    else TakenBefore(t, region))
  }

  /** Wherever two frames differ on screen lies in one of the rectangles. */
  ghost predicate CoversChanges(rects: seq<Rect>, f: Frame, g: Frame, w: nat, h: nat)
    requires Fits(f, w, h) && Fits(g, w, h)
  {
    forall x: nat, y: nat, c: nat ::
      x < w && y < h && c < 4 && Texel(f, w, h, x, y, c) != Texel(g, w, h, x, y, c) ==> Covered(rects, x, y)
  }

  /** The driver's contract: its rectangles cover what changed since the frame it handed over before. */
  ghost predicate Honest(t: Track, region: Rect, a: Answers)
    requires Presentable(a, region)
  {
    CarriesImage(a.acquire) && TakenBefore(t, region).Some? && a.acquire.rects.Some? ==>
      var before := TakenBefore(t, region).value;
      Fits(before, region.Dx(), region.Dy()) ==>
      CoversChanges(a.acquire.rects.value, before, a.acquire.frame, region.Dx(), region.Dy())
  }

  ghost predicate Inv(t: Track) {
    && (t.s.open ==> !t.s.region.Empty())
    && (t.taken.Some? ==> t.s.open && Fits(t.taken.value, t.s.region.Dx(), t.s.region.Dy()))
    && (t.s.buf.Some? ==>
          && t.s.open && t.taken.Some? && t.image == t.s.buf
          && |t.s.buf.value| == Size(t.s.region.Dx(), t.s.region.Dy())
          && Shows(t.s.buf.value, t.taken.value, t.s.region.Dx(), t.s.region.Dy()))
  }

  /** Refreshing only what changed turns a buffer that shows the old frame into one that shows the new. */
  lemma RefreshingChangesIsEnough(now: seq<Byte>, was: seq<Byte>, f: Frame, g: Frame, w: nat, h: nat, rects: seq<Rect>)
    requires Fits(f, w, h) && Fits(g, w, h) && Shows(was, f, w, h) && CoversChanges(rects, f, g, w, h)
    requires Refreshed(now, was, g, w, h, CoveredArea(rects))
    ensures Shows(now, g, w, h)
  {
    forall x: nat, y: nat, c: nat | x < w && y < h && c < 4
      ensures At(now, w, h, x, y, c) == Texel(g, w, h, x, y, c)
    {
      if !CoveredArea(rects)(x, y) {
        assert At(was, w, h, x, y, c) == Texel(f, w, h, x, y, c);
        assert !Covered(rects, x, y);
      }
    }
  }

  /** One grab that does not fail keeps the buffer true to the driver's last frame. */
  lemma GrabKeepsInv(t: Track, region: Rect, a: Answers, t': Track, out: Outcome)
    requires Inv(t) && Presentable(a, region) && Honest(t, region, a) && Follows(t, region, a, t', out)
    requires out != Error
    ensures Inv(t')
    ensures out == Image ==> t'.taken == Some(a.acquire.frame) && t'.s.region == region && t'.image == t'.s.buf
  {
    if out == Image {
      var w, h := region.Dx(), region.Dy();
      var was := Started(t.s, region).buf;
      if was.Some? && a.acquire.rects.Some? {
        RefreshingChangesIsEnough(t'.s.buf.value, was.value, t.taken.value, a.acquire.frame, w, h, a.acquire.rects.value);
      }
    }
  }

  /** Whatever the driver says, the reported damage is nil or covers every change to the returned image. */
  lemma DamageCoversEveryChange(t: Track, region: Rect, a: Answers, t': Track)
    requires Inv(t) && Presentable(a, region) && Follows(t, region, a, t', Image)
    ensures var w, h := region.Dx(), region.Dy();
            t'.s.last.Some? ==>
              && t.image.Some? && t'.image.Some? && |t.image.value| == |t'.image.value| == Size(w, h)
              && (forall x: nat, y: nat, c: nat ::
                    x < w && y < h && c < 4 && At(t'.image.value, w, h, x, y, c) != At(t.image.value, w, h, x, y, c)
                    ==> Covered(t'.s.last.value, x, y))
  {
    var w, h := region.Dx(), region.Dy();
    if t'.s.last.Some? {
      var rects := a.acquire.rects.value;
      forall x: nat, y: nat, c: nat |
        x < w && y < h && c < 4 && At(t'.image.value, w, h, x, y, c) != At(t.image.value, w, h, x, y, c)
        ensures Covered(t'.s.last.value, x, y)
      {
        assert CoveredArea(rects)(x, y);
        var r :| r in rects && r.Has(x, y);
        var i :| 0 <= i < |rects| && rects[i] == r;
        assert Canonicals(rects)[i] == r.Canonical() && r.Canonical().Has(x, y);
      }
    }
  }

  /** The duplication has to be made for this call, and cannot be. */
  predicate CannotStart(s: State, region: Rect, a: Answers) {
    (!s.open || s.region != region) && !a.starts
  }

  /**
   * What a call answers: an error if the source cannot start, the driver fails or the frame is lost on the way, an
   * image if it is not, and otherwise that nothing changed. So neither a timeout nor a lost access ends a source.
   */
  lemma OutcomesExactly(s: State, region: Rect, a: Answers, s': State, out: Outcome)
    requires Presentable(a, region) && Grabs(s, region, a, s', out)
    ensures out == Error <==>
            || CannotStart(s, region, a) || a.acquire.Failed?
            || (CarriesImage(a.acquire) && (!a.acquire.texture || !a.acquire.mapped))
    ensures out == Image <==>
            !CannotStart(s, region, a) && CarriesImage(a.acquire) && a.acquire.texture && a.acquire.mapped
  {
  }

  /**
   * After a call there is a duplication, of the region asked for, unless it could not be made or access was lost;
   * its image is kept by any call that finds the duplication it needs.
   * A frame with nothing new on it clears the damage.
   */
  lemma SourceSurvives(s: State, region: Rect, a: Answers, s': State, out: Outcome)
    requires Presentable(a, region) && Grabs(s, region, a, s', out)
    ensures s'.open <==> !CannotStart(s, region, a) && !a.acquire.AccessLost?
    ensures s'.open ==> s'.region == region
    ensures s.open && s.region == region && !a.acquire.AccessLost? && out != Image ==> s'.buf == s.buf
    ensures !s.open || s.region != region || a.acquire.AccessLost? ==> (s'.buf.Some? <==> out == Image)
    ensures out == NoChange ==> s'.last == if a.acquire.Acquired? then None else s.last
  {
  }

  /** After a lost access the next call that can start and gets a frame returns the whole of it, with unknown damage. */
  lemma LostAccessIsMadeGood(t: Track, region: Rect, lost: Answers, t1: Track, region': Rect, next: Answers, t2: Track,
                             first: Outcome, second: Outcome)
    requires Inv(t) && Presentable(lost, region) && Honest(t, region, lost) && Follows(t, region, lost, t1, first)
    requires lost.acquire.AccessLost? && !CannotStart(t.s, region, lost)
    requires Presentable(next, region') && Follows(t1, region', next, t2, second)
    requires next.starts && CarriesImage(next.acquire) && next.acquire.texture && next.acquire.mapped
    ensures first == NoChange && second == Image && t2.s.last == None
    ensures t2.image.Some? && Shows(t2.image.value, next.acquire.frame, region'.Dx(), region'.Dy())
  {
  }

  datatype Call = Call(region: Rect, answers: Answers, out: Outcome)

  /** The life of one source: the capturer asks it until it fails once, and then never again. */
  ghost predicate IsSession(calls: seq<Call>, ts: seq<Track>) {
    && |ts| == |calls| + 1 && ts[0] == BEFORE
    && (forall i :: 0 <= i < |calls| ==>
          && Presentable(calls[i].answers, calls[i].region) && Honest(ts[i], calls[i].region, calls[i].answers)
          && Follows(ts[i], calls[i].region, calls[i].answers, ts[i + 1], calls[i].out)
          && (calls[i].out == Error ==> i == |calls| - 1))
  }

  /**
   * Over every session with an honest driver, across rebuilds, region changes, lost access and lost frames:
   * each returned image is the whole conversion of the driver's current frame.
   */
  lemma {:induction false} EveryImageIsWhole(calls: seq<Call>, ts: seq<Track>, n: nat)
    requires IsSession(calls, ts) && n <= |calls|
    ensures (n > 0 && calls[n - 1].out == Error) || Inv(ts[n])
    ensures n > 0 && calls[n - 1].out == Image ==>
              var c := calls[n - 1];
              && ts[n].image.Some?
              && Shows(ts[n].image.value, c.answers.acquire.frame, c.region.Dx(), c.region.Dy())
  {
    if n > 0 {
      EveryImageIsWhole(calls, ts, n - 1);
      var c := calls[n - 1];
      if c.out != Error {
        GrabKeepsInv(ts[n - 1], c.region, c.answers, ts[n], c.out);
      }
    }
  }

  /** An image of the region was returned, and since then the region was the same and access was not lost. */
  ghost predicate ImageStands(calls: seq<Call>, n: nat, region: Rect)
    requires n <= |calls|
  {
    exists i :: 0 <= i < n && calls[i].out == Image && StandsSince(calls, i, n, region)
  }

  predicate StandsSince(calls: seq<Call>, i: nat, n: nat, region: Rect)
    requires i <= n <= |calls|
  {
    forall j :: i <= j < n ==> calls[j].region == region && !calls[j].answers.acquire.AccessLost?
  }

  lemma {:induction false} LiveMeansStanding(calls: seq<Call>, ts: seq<Track>, n: nat, region: Rect)
    requires IsSession(calls, ts) && n <= |calls| && (n > 0 ==> calls[n - 1].out != Error)
    ensures ts[n].s.open && ts[n].s.region == region && ts[n].s.buf.Some? <==> ImageStands(calls, n, region)
    ensures !ts[n].s.held
  {
    if n > 0 {
      var c := calls[n - 1];
      LiveMeansStanding(calls, ts, n - 1, region);
      OutcomesExactly(ts[n - 1].s, c.region, c.answers, ts[n].s, c.out);
      SourceSurvives(ts[n - 1].s, c.region, c.answers, ts[n].s, c.out);
      StandingOneMore(calls, n, region);
    }
  }

  lemma StandingOneMore(calls: seq<Call>, n: nat, region: Rect)
    requires 0 < n <= |calls| && (calls[n - 1].out == Image ==> !calls[n - 1].answers.acquire.AccessLost?)
    ensures var c := calls[n - 1];
            ImageStands(calls, n, region) <==>
            c.region == region && !c.answers.acquire.AccessLost? && (c.out == Image || ImageStands(calls, n - 1, region))
  {
    var c := calls[n - 1];
    if c.region == region && !c.answers.acquire.AccessLost? && c.out == Image {
      assert StandsSince(calls, n - 1, n, region);
    }
    if c.region == region && !c.answers.acquire.AccessLost? && ImageStands(calls, n - 1, region) {
      var i :| 0 <= i < n - 1 && calls[i].out == Image && StandsSince(calls, i, n - 1, region);
      assert StandsSince(calls, i, n, region);
    }
    if ImageStands(calls, n, region) {
      var i :| 0 <= i < n && calls[i].out == Image && StandsSince(calls, i, n, region);
      assert c.region == region && !c.answers.acquire.AccessLost?;
      if i < n - 1 { assert StandsSince(calls, i, n - 1, region); }
    }
  }

  /**
   * In every session the damage of an image is what the driver says, if there is an image that still stands to
   * which it applies, and unknown otherwise. No frame is kept from the driver between the calls.
   */
  lemma DamageIsKnownExactly(calls: seq<Call>, ts: seq<Track>, n: nat)
    requires IsSession(calls, ts) && n < |calls| && calls[n].out == Image
    ensures var c := calls[n];
            && ts[n + 1].s.last ==
               (if ImageStands(calls, n, c.region) && c.answers.acquire.rects.Some?
                then Some(Canonicals(c.answers.acquire.rects.value)) else None)
            && !ts[n].s.held && !ts[n + 1].s.held
  {
    LiveMeansStanding(calls, ts, n, calls[n].region);
    LiveMeansStanding(calls, ts, n + 1, calls[n].region);
  }

  /** Canonical rectangles hold the pixels between their corners, whichever way these are given. */
  lemma CanonicalHolds(r: Rect, x: int, y: int)
    ensures r.Canonical().Has(x, y) <==>
            || (r.left <= x < r.right && r.top <= y < r.bottom) || (r.right <= x < r.left && r.top <= y < r.bottom)
            || (r.left <= x < r.right && r.bottom <= y < r.top) || (r.right <= x < r.left && r.bottom <= y < r.top)
  {
  }

  /** A frame that fills its region with one value. */
  function Plain(w: nat, h: nat, v: Byte): Frame {
    Frame(4 * w, seq((4 * w) * h, _ => v))
  }

  /**
   * That the capturer gives up a source that failed is needed: a frame lost in the failing call over a live
   * buffer would be missing from the next image, although the driver is honest and the call succeeds.
   */
  lemma FailedSourceWouldBeStale(t: Track)
    returns (lost: Answers, t1: Track, next: Answers, t2: Track)
    requires Inv(t) && t.s.buf.Some?
    ensures var r := t.s.region;
            && Presentable(lost, r) && Honest(t, r, lost) && CarriesImage(lost.acquire) && Follows(t, r, lost, t1, Error)
            && Presentable(next, r) && Honest(t1, r, next) && Follows(t1, r, next, t2, Image)
            && t2.image.Some? && !Shows(t2.image.value, next.acquire.frame, r.Dx(), r.Dy())
  {
    var r := t.s.region;
    var w: nat, h: nat := r.Dx(), r.Dy();
    PosInBounds(w, h, 0, 0, 0);
    var v: Byte := if At(t.s.buf.value, w, h, 0, 0, 0) == 0 then 1 else 0;
    var f := Plain(w, h, v);
    var nowhere := [Rect(0, 0, 0, 0)];
    lost := Answers(true, Acquired(1, 1, true, false, f, None));
    t1 := Track(t.s.(held := false), Some(f), t.image);
    next := Answers(true, Acquired(1, 1, true, true, f, Some(nowhere)));
    t2 := Track(t.s.(held := false, last := Some(Canonicals(nowhere))), Some(f), t.s.buf);
    NothingRefreshed(t.s.buf.value, f, w, h);
    PlainDiffers(t.s.buf.value, w, h, v);
  }

  lemma NothingRefreshed(buf: seq<Byte>, f: Frame, w: nat, h: nat)
    requires Fits(f, w, h) && |buf| == Size(w, h)
    ensures Refreshed(buf, buf, f, w, h, CoveredArea([Rect(0, 0, 0, 0)]))
  {
    assert forall x: nat, y: nat :: !CoveredArea([Rect(0, 0, 0, 0)])(x, y);
  }

  lemma PlainDiffers(buf: seq<Byte>, w: nat, h: nat, v: Byte)
    requires w > 0 && h > 0 && |buf| == Size(w, h) && At(buf, w, h, 0, 0, 0) != v
    ensures Fits(Plain(w, h, v), w, h) && !Shows(buf, Plain(w, h, v), w, h)
  {
    TexelInBounds(Plain(w, h, v), w, h, 0, 0, 2);
    assert Texel(Plain(w, h, v), w, h, 0, 0, 0) == v;
  }
}
