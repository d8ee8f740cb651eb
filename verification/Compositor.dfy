/** Screenshots of displays placed 1:1: pieces of each display with the cursor blended in. */
module Compositor {
  import opened Wrappers
  import opened Arith
  import opened Geometry

  datatype Pixel = Pixel(r: nat, g: nat, b: nat, a: nat)

  /** A premultiplied pixel of the cursor image. */
  datatype Argb = Argb(a: nat, r: nat, g: nat, b: nat)

  /** The cursor image at `x`, `y` (pointer minus hotspot) in its display's pixels. */
  datatype Cursor = Cursor(x: int, y: int, width: nat, height: nat, px: seq<Argb>)

  function Over(top: nat, below: nat, inv: int): nat {
    if inv < 0 then top else Min(top + below * inv / 255, 255)
  }

  /** Source-over of one cursor pixel. */
  function Blend(cur: Argb, p: Pixel): Pixel {
    if cur.a == 0 then p
    else Pixel(Over(cur.r, p.r, 255 - cur.a), Over(cur.g, p.g, 255 - cur.a), Over(cur.b, p.b, 255 - cur.a), 255)
  }

  /** A level of a premultiplied pixel over a level below needs no clamp, and lies between
      its own and that plus the rest of what is below. */
  lemma OverNeedsNoClamp(top: nat, below: nat, a: nat)
    requires top <= a <= 255 && below <= 255
    ensures Over(top, below, 255 - a) == top + below * (255 - a) / 255 <= 255
    ensures a == 255 ==> Over(top, below, 255 - a) == top
    ensures a == 0 ==> Over(top, below, 255 - a) == below
  {
    var inv := 255 - a;
    MulMono(inv, below, 255);
    assert inv * below == below * inv;
  }

  /** Each colour is the cursor's own plus what its alpha leaves of the same colour below; a
      clear cursor pixel leaves all as it is, any other is opaque. */
  lemma BlendMeans(cur: Argb, p: Pixel)
    requires cur.r <= cur.a && cur.g <= cur.a && cur.b <= cur.a && cur.a <= 255
    requires p.r <= 255 && p.g <= 255 && p.b <= 255
    ensures Blend(cur, p).r == cur.r + p.r * (255 - cur.a) / 255 <= 255
    ensures Blend(cur, p).g == cur.g + p.g * (255 - cur.a) / 255 <= 255
    ensures Blend(cur, p).b == cur.b + p.b * (255 - cur.a) / 255 <= 255
    ensures Blend(cur, p).a == if cur.a == 0 then p.a else 255
    ensures cur == Argb(0, 0, 0, 0) ==> Blend(cur, p) == p
    ensures cur.a == 255 ==> Blend(cur, p) == Pixel(cur.r, cur.g, cur.b, 255)
  {
    OverNeedsNoClamp(cur.r, p.r, cur.a);
    OverNeedsNoClamp(cur.g, p.g, cur.a);
    OverNeedsNoClamp(cur.b, p.b, cur.a);
  }

  /** The cursor's pixel at an absolute position. */
  function CursorAt(c: Cursor, x: int, y: int): Option<Argb> {
    if 0 <= x - c.x < c.width && 0 <= y - c.y < c.height then
      var i := (y - c.y) * c.width + (x - c.x);
      if 0 <= i < |c.px| then Some(c.px[i]) else None
    else None
  }

  /** The cursor image lies row by row from its corner, and there is nothing beside it. */
  lemma CursorMeans(c: Cursor, u: int, v: int)
    requires |c.px| == c.height * c.width
    ensures if 0 <= u < c.width && 0 <= v < c.height then
        v * c.width + u < |c.px| && CursorAt(c, c.x + u, c.y + v) == Some(c.px[v * c.width + u])
      else CursorAt(c, c.x + u, c.y + v) == None
  {
    if 0 <= u < c.width && 0 <= v < c.height {
      MulMono(c.width, v + 1, c.height);
      assert c.width * (v + 1) == v * c.width + c.width && c.width * c.height == c.height * c.width;
    }
  }

  /** What a pixel at an absolute position looks like under the cursor. */
  function UnderCursor(c: Cursor, x: int, y: int, p: Pixel): Pixel {
    var cur := CursorAt(c, x, y);
    if cur.None? then p else Blend(cur.value, p)
  }

  /** Blend the cursor into a region's pixels, row by row, leaving out what is off it. */
  method CompositeCursor(img: array2<Pixel>, region: Rect, c: Cursor)
    modifies img
    ensures forall y, x :: 0 <= y < img.Length0 && 0 <= x < img.Length1 ==>
      img[y, x] == UnderCursor(c, region.x + x, region.y + y, old(img[y, x]))
  {
    for row := 0 to c.height
      invariant forall y, x :: 0 <= y < img.Length0 && 0 <= x < img.Length1 ==>
        img[y, x] == if region.y + y - c.y < row then UnderCursor(c, region.x + x, region.y + y, old(img[y, x])) else old(img[y, x])
    {
      var y := c.y + row - region.y;
      if 0 <= y < img.Length0 {
        CompositeRow(img, region, c, row, y);
      }
    }
  }

  /** One row of the cursor image, which falls on row `y` of the region. */
  method CompositeRow(img: array2<Pixel>, region: Rect, c: Cursor, row: nat, y: nat)
    requires row < c.height && y == c.y + row - region.y && y < img.Length0
    modifies img
    ensures forall x :: 0 <= x < img.Length1 ==>
      img[y, x] == UnderCursor(c, region.x + x, region.y + y, old(img[y, x]))
    ensures forall v, x :: 0 <= v < img.Length0 && 0 <= x < img.Length1 && v != y ==> img[v, x] == old(img[v, x])
  {
    for col := 0 to c.width
      invariant forall x :: 0 <= x < img.Length1 ==>
        img[y, x] == if region.x + x - c.x < col then UnderCursor(c, region.x + x, region.y + y, old(img[y, x])) else old(img[y, x])
      invariant forall v, x :: 0 <= v < img.Length0 && 0 <= x < img.Length1 && v != y ==> img[v, x] == old(img[v, x])
    {
      var x := c.x + col - region.x;
      if 0 <= x < img.Length1 {
        var i := row * c.width + col;
        if 0 <= i < |c.px| && c.px[i].a != 0 {
          img[y, x] := Blend(c.px[i], img[y, x]);
        }
      }
    }
  }

  // ---------- grabbing ----------

  /** A display at `place` on the desktop, its scanout and the cursor on it, if it shows one. */
  datatype Head = Head(place: Rect, scanout: (int, int) -> Pixel, cursor: Option<Cursor>)

  const BLANK := Pixel(0, 0, 0, 0)

  /** A display's pixel with its cursor, in its own coordinates. */
  function HeadPixel(h: Head, withCursor: bool, x: int, y: int): Pixel {
    var p := h.scanout(x, y);
    if withCursor && h.cursor.Some? then UnderCursor(h.cursor.value, x, y, p) else p
  }

  /** The desktop's pixel: the last of the first `n` displays that covers it. */
  function DesktopPixel(heads: seq<Head>, n: nat, withCursor: bool, x: int, y: int): Pixel
    requires n <= |heads|
  {
    if n == 0 then BLANK
    else
      var h := heads[n - 1];
      if Inside(h.place, x, y) then HeadPixel(h, withCursor, x - h.place.x, y - h.place.y)
      else DesktopPixel(heads, n - 1, withCursor, x, y)
  }

  /** Display `k` is the last one placed over a pixel, or `k` is -1 and none is. */
  predicate OnTop(heads: seq<Head>, k: int, x: int, y: int) {
    && -1 <= k < |heads|
    && (k >= 0 ==> 0 <= x - heads[k].place.x < heads[k].place.width && 0 <= y - heads[k].place.y < heads[k].place.height)
    && forall j :: k < j < |heads| ==> !Inside(heads[j].place, x, y)
  }

  /** The desktop shows the display on top, counted from its own corner, with that display's
      cursor over it, and nothing where there is none. */
  lemma {:induction false} TopShows(heads: seq<Head>, k: int, withCursor: bool, x: int, y: int)
    requires OnTop(heads, k, x, y)
    ensures var shown := DesktopPixel(heads, |heads|, withCursor, x, y);
      if k == -1 then shown == Pixel(0, 0, 0, 0)
      else
        var u, v := x - heads[k].place.x, y - heads[k].place.y;
        var cursor := if withCursor && heads[k].cursor != None then CursorAt(heads[k].cursor.value, u, v) else None;
        shown == if cursor == None then heads[k].scanout(u, v) else Blend(cursor.value, heads[k].scanout(u, v))
  {
    TopAmong(heads, |heads|, k, withCursor, x, y);
  }

  lemma {:induction false} TopAmong(heads: seq<Head>, n: nat, k: int, withCursor: bool, x: int, y: int)
    requires OnTop(heads, k, x, y) && k < n <= |heads|
    ensures DesktopPixel(heads, n, withCursor, x, y) == if k == -1 then BLANK
      else HeadPixel(heads[k], withCursor, x - heads[k].place.x, y - heads[k].place.y)
  {
    if n - 1 > k {
      TopAmong(heads, n - 1, k, withCursor, x, y);
    }
  }

  /** A piece of one display's scanout. */
  method GrabNative(h: Head, native: Rect) returns (img: array2<Pixel>)
    ensures fresh(img) && img.Length0 == native.height && img.Length1 == native.width
    ensures forall y, x :: 0 <= y < img.Length0 && 0 <= x < img.Length1 ==> img[y, x] == h.scanout(native.x + x, native.y + y)
  {
    img := new Pixel[native.height, native.width]((y, x) => h.scanout(native.x + x, native.y + y));
  }

  /** Paste a piece at (`left`, `top`). */
  method Replace(out: array2<Pixel>, piece: array2<Pixel>, left: nat, top: nat)
    requires out != piece && top + piece.Length0 <= out.Length0 && left + piece.Length1 <= out.Length1
    modifies out
    ensures forall y, x :: 0 <= y < out.Length0 && 0 <= x < out.Length1 ==>
      out[y, x] == if top <= y < top + piece.Length0 && left <= x < left + piece.Length1 then piece[y - top, x - left]
        else old(out[y, x])
  {
    for r := 0 to piece.Length0
      invariant forall y, x :: 0 <= y < out.Length0 && 0 <= x < out.Length1 ==>
        out[y, x] == if top <= y < top + r && left <= x < left + piece.Length1 then piece[y - top, x - left]
          else old(out[y, x])
    {
      for col := 0 to piece.Length1
        invariant forall y, x :: 0 <= y < out.Length0 && 0 <= x < out.Length1 ==>
          out[y, x] == if (top <= y < top + r && left <= x < left + piece.Length1) || (y == top + r && left <= x < left + col)
            then piece[y - top, x - left] else old(out[y, x])
      {
        out[top + r, left + col] := piece[r, col];
      }
    }
  }

  /** A region's pixels, every display placed 1:1. */
  method Grab(heads: seq<Head>, withCursor: bool, region: Rect) returns (out: array2<Pixel>)
    ensures fresh(out) && out.Length0 == region.height && out.Length1 == region.width
    ensures forall y, x :: 0 <= y < out.Length0 && 0 <= x < out.Length1 ==>
      out[y, x] == DesktopPixel(heads, |heads|, withCursor, region.x + x, region.y + y)
  {
    out := new Pixel[region.height, region.width]((y, x) => BLANK);
    for n := 0 to |heads|
      invariant fresh(out)
      invariant forall y, x :: 0 <= y < out.Length0 && 0 <= x < out.Length1 ==>
        out[y, x] == DesktopPixel(heads, n, withCursor, region.x + x, region.y + y)
    {
      var h := heads[n];
      var inter := Intersect(region, h.place);
      if inter.Some? {
        var piece := GrabPiece(h, withCursor, inter.value);
        assert inter.value.x >= region.x && inter.value.y >= region.y;
        Replace(out, piece, inter.value.x - region.x, inter.value.y - region.y);
      }
    }
  }

  /** One display's part of a region, with its cursor. */
  method GrabPiece(h: Head, withCursor: bool, inter: Rect) returns (piece: array2<Pixel>)
    ensures fresh(piece) && piece.Length0 == inter.height && piece.Length1 == inter.width
    ensures forall y, x :: 0 <= y < piece.Length0 && 0 <= x < piece.Length1 ==>
      piece[y, x] == HeadPixel(h, withCursor, inter.x + x - h.place.x, inter.y + y - h.place.y)
  {
    var native := Rect(inter.x - h.place.x, inter.y - h.place.y, inter.width, inter.height);
    piece := GrabNative(h, native);
    if withCursor && h.cursor.Some? {
      CompositeCursor(piece, native, h.cursor.value);
    }
  }

  datatype Shot = Shot(region: Rect, image: array2<Pixel>)

  /** The region asked for, clipped to the desktop; none outside it. */
  function Clipped(desktop: Rect, wanted: Option<Rect>): Option<Rect> {
    if wanted.Some? then Intersect(wanted.value, desktop) else Some(desktop)
  }

  /** An image of what the desktop shows in the clipped region. */
  predicate ShotOf(shot: Shot, heads: seq<Head>, withCursor: bool, desktop: Rect, wanted: Option<Rect>)
    reads shot.image
  {
    && Clipped(desktop, wanted) == Some(shot.region)
    && shot.image.Length0 == shot.region.height && shot.image.Length1 == shot.region.width
    && forall y, x :: 0 <= y < shot.image.Length0 && 0 <= x < shot.image.Length1 ==>
         shot.image[y, x] == DesktopPixel(heads, |heads|, withCursor, shot.region.x + x, shot.region.y + y)
  }

  /** A screenshot of a region, or of the whole desktop. */
  method Shoot(heads: seq<Head>, withCursor: bool, desktop: Rect, wanted: Option<Rect>) returns (shot: Option<Shot>)
    ensures shot.None? <==> Clipped(desktop, wanted).None?
    ensures shot.Some? ==> fresh(shot.value.image) && ShotOf(shot.value, heads, withCursor, desktop, wanted)
  {
    var region := desktop;
    if wanted.Some? {
      var inter := Intersect(wanted.value, desktop);
      if inter.None? {
        return None;
      }
      region := inter.value;
    }
    var image := Grab(heads, withCursor, region);
    shot := Some(Shot(region, image));
  }

  /** An image row by row. */
  function Rows(img: array2<Pixel>): seq<seq<Pixel>>
    reads img
  {
    seq(img.Length0, y requires 0 <= y < img.Length0 reads img =>
      seq(img.Length1, x requires 0 <= x < img.Length1 reads img => img[y, x]))
  }

  /** The rows and columns of a picture from (`left`, `top`). */
  function Crop(picture: seq<seq<Pixel>>, left: nat, top: nat, width: nat, height: nat): seq<seq<Pixel>>
    requires top + height <= |picture| && forall y :: 0 <= y < |picture| ==> left + width <= |picture[y]|
  {
    seq(height, y requires 0 <= y < height => picture[top + y][left..left + width])
  }

  /** Cropping commutes with capture: a screenshot of a region is that part of one of the
      whole desktop, wherever the cursor is. */
  lemma CropCommutes(part: Shot, whole: Shot, heads: seq<Head>, withCursor: bool, desktop: Rect, wanted: Rect)
    requires ShotOf(part, heads, withCursor, desktop, Some(wanted)) && ShotOf(whole, heads, withCursor, desktop, None)
    ensures var r := part.region;
      && 0 <= r.x - desktop.x <= desktop.width - r.width && 0 <= r.y - desktop.y <= desktop.height - r.height
      && Rows(part.image) == Crop(Rows(whole.image), r.x - desktop.x, r.y - desktop.y, r.width, r.height)
  {
    var r := part.region;
    var left, top := r.x - desktop.x, r.y - desktop.y;
    var all, cut := Rows(whole.image), Rows(part.image);
    forall y | 0 <= y < r.height ensures cut[y] == all[top + y][left..left + r.width] {
      forall x | 0 <= x < r.width ensures cut[y][x] == all[top + y][left..left + r.width][x] {
        assert whole.image[top + y, left + x] == DesktopPixel(heads, |heads|, withCursor, desktop.x + (left + x), desktop.y + (top + y));
      }
    }
  }
}
