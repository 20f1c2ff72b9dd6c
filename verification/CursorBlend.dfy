/** A cursor's shape recovered from two renderings of it, internal/capture/cursorblend.go. */
module CursorBlend {
  import opened Bytes
  import opened Optional

  datatype Color = Color(r: Byte, g: Byte, b: Byte)

  /** Colour premultiplied by coverage, as image.RGBA holds it. */
  datatype Pixel = Pixel(r: Byte, g: Byte, b: Byte, a: Byte)

  const CLEAR := Pixel(0, 0, 0, 0)

  predicate Premultiplied(p: Pixel) { p.r <= p.a && p.g <= p.a && p.b <= p.a }

  function MaxOf(a: int, b: int, c: int): (m: int)
    ensures m in {a, b, c} && a <= m && b <= m && c <= m
  {
    var ab := if b > a then b else a;
    if c > ab then c else ab
  }

  /** A device bitmap keeps blue first and its fourth byte unused. */
  function BgraAt(s: seq<Byte>, i: nat): Color
    requires i * 4 + 3 < |s|
  {
    Color(s[i * 4 + 2], s[i * 4 + 1], s[i * 4])
  }

  function RgbaAt(s: seq<Byte>, i: nat): Pixel
    requires i * 4 + 3 < |s|
  {
    Pixel(s[i * 4], s[i * 4 + 1], s[i * 4 + 2], s[i * 4 + 3])
  }

  /** How much lighter the white rendering is, at most and at least nothing. */
  function Lightening(black: Color, white: Color): (d: int)
    ensures 0 <= d <= 255
  {
    var d := MaxOf(white.r as int - black.r as int, white.g as int - black.g as int, white.b as int - black.b as int);
    if d < 0 then 0 else d
  }

  function Blend(black: Color, white: Color): Pixel {
    var a := 255 - Lightening(black, white);
    if a == 0 then CLEAR else Pixel(black.r, black.g, black.b, a as Byte)
  }

  // ---------------------------------------------------------------- rendering

  /** Compositing a pixel onto a background of one grey level, 0 or 255. */
  function OnBlack(p: Pixel): Color { Color(p.r, p.g, p.b) }

  function OnWhite(p: Pixel): Color
    requires Premultiplied(p)
  {
    Color(p.r + (255 - p.a), p.g + (255 - p.a), p.b + (255 - p.a))
  }

  /** Blending undoes rendering. */
  lemma BlendUndoesRendering(p: Pixel)
    requires Premultiplied(p)
    ensures Blend(OnBlack(p), OnWhite(p)) == p
  {
    assert Lightening(OnBlack(p), OnWhite(p)) == 255 - p.a as int;
  }

  /** The three channels agree on one coverage. */
  predicate Agree(black: Color, white: Color) {
    && white.r >= black.r
    && white.r as int - black.r as int == white.g as int - black.g as int == white.b as int - black.b as int
  }

  /**
   * Two colours come from one pixel exactly when the channels agree, and then it is the blended one; where
   * they do not, as under the inverting cursors, blending invents a pixel that renders otherwise.
   */
  lemma RenderingsAreTheAgreeingPairs(black: Color, white: Color)
    ensures Agree(black, white) <==> exists p :: Premultiplied(p) && black == OnBlack(p) && white == OnWhite(p)
    ensures Agree(black, white) ==>
              var p := Blend(black, white); Premultiplied(p) && black == OnBlack(p) && white == OnWhite(p)
  {
    if Agree(black, white) {
      var p := Blend(black, white);
      assert Lightening(black, white) == white.r as int - black.r as int;
      assert Premultiplied(p) && black == OnBlack(p) && white == OnWhite(p);
    }
  }

  /** A pixel that inverts or darkens whatever is behind it comes out opaque. */
  lemma InvertingIsOpaque(black: Color, white: Color)
    ensures Blend(black, white).a == 255 <==> white.r <= black.r && white.g <= black.g && white.b <= black.b
  {
  }

  /** Both bitmaps begin with the renderings of the image. */
  predicate Renders(image: seq<Pixel>, onBlack: seq<Byte>, onWhite: seq<Byte>) {
    && |onBlack| >= |image| * 4 && |onWhite| >= |image| * 4
    && forall i :: 0 <= i < |image| ==>
         Premultiplied(image[i]) && BgraAt(onBlack, i) == OnBlack(image[i]) && BgraAt(onWhite, i) == OnWhite(image[i])
  }

  function BlendAt(onBlack: seq<Byte>, onWhite: seq<Byte>, i: nat): Pixel
    requires i * 4 + 3 < |onBlack| && i * 4 + 3 < |onWhite|
  {
    Blend(BgraAt(onBlack, i), BgraAt(onWhite, i))
  }

  predicate Visible(onBlack: seq<Byte>, onWhite: seq<Byte>, n: nat)
    requires n * 4 <= |onBlack| && n * 4 <= |onWhite|
  {
    exists i :: 0 <= i < n && BlendAt(onBlack, onWhite, i).a != 0
  }

  /** The byte a channel gets lighter by when white is drawn behind it. */
  function Gain(onBlack: seq<Byte>, onWhite: seq<Byte>, at: nat): int
    requires at < |onBlack| && at < |onWhite|
  {
    onWhite[at] as int - onBlack[at] as int
  }

  /**
   * The bytes of a blended pixel: blue, green and red of the black rendering in the other order, and as much
   * coverage as the channel that gains most leaves; a pixel without any is zero throughout.
   */
  lemma BlendedBytes(out: seq<Byte>, onBlack: seq<Byte>, onWhite: seq<Byte>, i: nat)
    requires i * 4 + 3 < |out| && i * 4 + 3 < |onBlack| && i * 4 + 3 < |onWhite|
    requires RgbaAt(out, i) == BlendAt(onBlack, onWhite, i)
    ensures var n, a := i * 4, out[i * 4 + 3];
            && (if a == 0 then out[n] == out[n + 1] == out[n + 2] == 0
                else out[n] == onBlack[n + 2] && out[n + 1] == onBlack[n + 1] && out[n + 2] == onBlack[n])
            && (forall c :: n <= c < n + 3 ==> Gain(onBlack, onWhite, c) <= 255 - a as int)
            && (a < 255 ==> exists c :: n <= c < n + 3 && Gain(onBlack, onWhite, c) == 255 - a as int)
  {
    var n := i * 4;
    var black, white := BgraAt(onBlack, i), BgraAt(onWhite, i);
    var d := MaxOf(white.r as int - black.r as int, white.g as int - black.g as int, white.b as int - black.b as int);
    assert d == Gain(onBlack, onWhite, n) || d == Gain(onBlack, onWhite, n + 1) || d == Gain(onBlack, onWhite, n + 2);
  }

  /** The whole image comes back, and there is nothing to show exactly when all of it is transparent. */
  lemma ImageComesBack(image: seq<Pixel>, onBlack: seq<Byte>, onWhite: seq<Byte>)
    requires Renders(image, onBlack, onWhite)
    ensures forall i :: 0 <= i < |image| ==> BlendAt(onBlack, onWhite, i) == image[i]
    ensures Visible(onBlack, onWhite, |image|) <==> exists i :: 0 <= i < |image| && image[i].a != 0
  {
    forall i | 0 <= i < |image| ensures BlendAt(onBlack, onWhite, i) == image[i] { BlendUndoesRendering(image[i]); }
    if i :| 0 <= i < |image| && image[i].a != 0 {
      assert BlendAt(onBlack, onWhite, i).a != 0;
    }
  }

  // ---------------------------------------------------------------- the loop

  method BlendFromBackgrounds(onBlack: array<Byte>, onWhite: array<Byte>, w: int, h: int)
    returns (img: Option<array<Byte>>)
    ensures w <= 0 || h <= 0 || onBlack.Length < w * h * 4 || onWhite.Length < w * h * 4 ==> img.None?
    ensures w > 0 && h > 0 && onBlack.Length >= w * h * 4 && onWhite.Length >= w * h * 4 ==>
              w * h >= 0 && (img.Some? <==> Visible(onBlack[..], onWhite[..], w * h))
    ensures img.Some? ==> fresh(img.value) && img.value.Length == w * h * 4
    ensures img.Some? ==> forall i :: 0 <= i < w * h ==>
              RgbaAt(img.value[..], i) == BlendAt(onBlack[..], onWhite[..], i)
  {
    if w <= 0 || h <= 0 || onBlack.Length < w * h * 4 || onWhite.Length < w * h * 4 {
      return None;
    }
    Positive(w, h);
    var n: nat := w * h;
    var pix := new Byte[n * 4](_ => 0);
    ghost var k, l := onBlack[..], onWhite[..];
    var any := false;
    for i := 0 to n
      invariant k == onBlack[..] && l == onWhite[..]
      invariant Drawn(pix[..], k, l, i, n)
      invariant any == Visible(k, l, i)
    {
      var bb, bg, br := onBlack[i * 4], onBlack[i * 4 + 1], onBlack[i * 4 + 2];
      var wb, wg, wr := onWhite[i * 4], onWhite[i * 4 + 1], onWhite[i * 4 + 2];
      var d := MaxOf(wr as int - br as int, wg as int - bg as int, wb as int - bb as int);
      if d < 0 {
        d := 0;
      } else if d > 255 {
        d := 255;
      }
      var a := 255 - d;
      VisibleOneMore(k, l, i);
      assert BlendAt(k, l, i) == if a == 0 then CLEAR else Pixel(br, bg, bb, a as Byte);
      if a == 0 {
        continue;
      }
      any := true;
      ghost var before := pix[..];
      SetPixel(pix, i, Pixel(br, bg, bb, a as Byte));
      DrawnOneMore(before, pix[..], k, l, i, n);
    }
    if !any {
      return None;
    }
    return Some(pix);
  }

  /** The first i pixels are blended and the rest still zeroed. */
  ghost predicate Drawn(pix: seq<Byte>, k: seq<Byte>, l: seq<Byte>, i: nat, n: nat)
    requires i <= n && n * 4 <= |k| && n * 4 <= |l|
  {
    && |pix| == n * 4
    && (forall j :: 0 <= j < i ==> RgbaAt(pix, j) == BlendAt(k, l, j))
    && (forall j :: i <= j < n ==> RgbaAt(pix, j) == CLEAR)
  }

  lemma DrawnOneMore(before: seq<Byte>, after: seq<Byte>, k: seq<Byte>, l: seq<Byte>, i: nat, n: nat)
    requires i < n && n * 4 <= |k| && n * 4 <= |l| && |after| == n * 4
    requires Drawn(before, k, l, i, n) && RgbaAt(after, i) == BlendAt(k, l, i)
    requires forall j :: 0 <= j < n && j != i ==> RgbaAt(after, j) == RgbaAt(before, j)
    ensures Drawn(after, k, l, i + 1, n)
  {
  }

  lemma VisibleOneMore(k: seq<Byte>, l: seq<Byte>, i: nat)
    requires i * 4 + 3 < |k| && i * 4 + 3 < |l|
    ensures Visible(k, l, i + 1) <==> Visible(k, l, i) || BlendAt(k, l, i).a != 0
  {
  }

  method SetPixel(pix: array<Byte>, i: nat, p: Pixel)
    requires i * 4 + 3 < pix.Length
    modifies pix
    ensures RgbaAt(pix[..], i) == p
    ensures forall j: nat :: j != i && j * 4 + 3 < pix.Length ==> RgbaAt(pix[..], j) == RgbaAt(old(pix[..]), j)
  {
    ghost var before := pix[..];
    pix[i * 4] := p.r;
    pix[i * 4 + 1] := p.g;
    pix[i * 4 + 2] := p.b;
    pix[i * 4 + 3] := p.a;
    OnePixel(before, pix[..], i);
  }

  lemma Positive(w: int, h: int)
    requires w > 0 && h > 0
    ensures w * h > 0
  {
  }

  lemma OnePixel(before: seq<Byte>, after: seq<Byte>, i: nat)
    requires |before| == |after| && i * 4 + 3 < |before|
    requires forall x :: 0 <= x < |before| && !(i * 4 <= x <= i * 4 + 3) ==> after[x] == before[x]
    ensures forall j: nat :: j != i && j * 4 + 3 < |before| ==> RgbaAt(after, j) == RgbaAt(before, j)
  {
  }
}
