/** Rectangles on the desktop. */
module Geometry {
  import opened Wrappers

  datatype Rect = Rect(x: int, y: int, width: nat, height: nat)

  predicate Inside(r: Rect, x: int, y: int) {
    r.x <= x < r.x + r.width && r.y <= y < r.y + r.height
  }

  /** The rectangle of all pixels in both, if there are any. */
  function Intersect(a: Rect, b: Rect): (r: Option<Rect>)
    ensures r.Some? ==> r.value.width > 0 && r.value.height > 0
    ensures forall x, y :: Inside(a, x, y) && Inside(b, x, y) <==> r.Some? && Inside(r.value, x, y)
  {
    var x0, y0 := Max(a.x, b.x), Max(a.y, b.y);
    var x1, y1 := Min(a.x + a.width, b.x + b.width), Min(a.y + a.height, b.y + b.height);
    if x1 > x0 && y1 > y0 then Some(Rect(x0, y0, x1 - x0, y1 - y0)) else None
  }

  /** The pixel `u` to the right of the corner and `v` below it is inside when `u` is less than
      the width and `v` less than the height. */
  lemma InsideMeans(r: Rect, u: int, v: int)
    ensures Inside(r, r.x + u, r.y + v) <==> 0 <= u < r.width && 0 <= v < r.height
  {
  }

  /** Two rectangles overlap when each begins before the other ends, both ways; then what
      they share begins at the later edges and ends at the earlier ones. */
  lemma IntersectMeans(a: Rect, b: Rect)
    ensures Intersect(a, b).Some? <==>
      a.x + a.width > b.x && b.x + b.width > a.x && a.y + a.height > b.y && b.y + b.height > a.y
      && a.width > 0 && a.height > 0 && b.width > 0 && b.height > 0
    ensures Intersect(a, b).Some? ==> var r := Intersect(a, b).value;
      && (r.x == a.x || r.x == b.x) && a.x <= r.x && b.x <= r.x
      && (r.y == a.y || r.y == b.y) && a.y <= r.y && b.y <= r.y
      && (r.x + r.width == a.x + a.width || r.x + r.width == b.x + b.width)
      && (r.y + r.height == a.y + a.height || r.y + r.height == b.y + b.height)
      && r.x + r.width <= a.x + a.width && r.x + r.width <= b.x + b.width
      && r.y + r.height <= a.y + a.height && r.y + r.height <= b.y + b.height
  {
  }

  function Clamp(v: int, lo: int, hi: int): int {
    Min(Max(v, lo), hi)
  }

  /** A rectangle clipped to a frame at the origin. */
  function ClampRect(r: Rect, fw: nat, fh: nat): Option<Rect> {
    var x0, y0 := Max(r.x, 0), Max(r.y, 0);
    var x1, y1 := Clamp(r.x + r.width, 0, fw), Clamp(r.y + r.height, 0, fh);
    if x1 <= x0 || y1 <= y0 then None else Some(Rect(x0, y0, x1 - x0, y1 - y0))
  }

  /** Clipping to a frame keeps exactly the frame's pixels of the rectangle. */
  lemma ClampKeepsShared(r: Rect, fw: nat, fh: nat, x: int, y: int)
    ensures var c := ClampRect(r, fw, fh);
      Inside(r, x, y) && 0 <= x < fw && 0 <= y < fh <==> c.Some? && Inside(c.value, x, y)
    ensures ClampRect(r, fw, fh) == Intersect(r, Rect(0, 0, fw, fh))
  {
  }

  predicate Contains(a: Rect, b: Rect) {
    a.x <= b.x && a.y <= b.y && b.x + b.width <= a.x + a.width && b.y + b.height <= a.y + a.height
  }

  /** A rectangle of some pixels is contained when all of them are inside. */
  lemma ContainsMeans(a: Rect, b: Rect)
    requires b.width > 0 && b.height > 0
    ensures Contains(a, b) <==> forall x, y :: Inside(b, x, y) ==> Inside(a, x, y)
  {
    if forall x, y :: Inside(b, x, y) ==> Inside(a, x, y) {
      assert Inside(b, b.x, b.y) && Inside(b, b.x + b.width - 1, b.y + b.height - 1);
    }
  }

  predicate Bounds(b: Rect, rects: seq<Rect>) {
    forall k :: 0 <= k < |rects| ==> Contains(b, rects[k])
  }

  /** Every side is some rectangle's. */
  ghost predicate Tight(r: Rect, rects: seq<Rect>) {
    && (exists k :: 0 <= k < |rects| && rects[k].x == r.x)
    && (exists k :: 0 <= k < |rects| && rects[k].y == r.y)
    && (exists k :: 0 <= k < |rects| && rects[k].x + rects[k].width == r.x + r.width)
    && (exists k :: 0 <= k < |rects| && rects[k].y + rects[k].height == r.y + r.height)
  }

  /** A tight bound is the least one. */
  lemma TightIsLeast(r: Rect, rects: seq<Rect>)
    requires Tight(r, rects)
    ensures forall b :: Bounds(b, rects) ==> Contains(b, r)
  {
    forall b | Bounds(b, rects) ensures Contains(b, r) {
    }
  }

  lemma Widen(r: Rect, rects: seq<Rect>, q: Rect)
    requires Bounds(r, rects) && Tight(r, rects)
    ensures Bounds(Spanned(r, q), rects + [q]) && Tight(Spanned(r, q), rects + [q])
  {
    var all := rects + [q];
    assert all[|rects|] == q;
    var i :| 0 <= i < |rects| && rects[i].x == r.x;
    var j :| 0 <= j < |rects| && rects[j].y == r.y;
    var k :| 0 <= k < |rects| && rects[k].x + rects[k].width == r.x + r.width;
    var l :| 0 <= l < |rects| && rects[l].y + rects[l].height == r.y + r.height;
    assert all[i] == rects[i] && all[j] == rects[j] && all[k] == rects[k] && all[l] == rects[l];
  }

  function Spanned(r: Rect, q: Rect): Rect {
    var x0, y0 := Min(r.x, q.x), Min(r.y, q.y);
    Rect(x0, y0, Max(r.x + r.width, q.x + q.width) - x0, Max(r.y + r.height, q.y + q.height) - y0)
  }

  /** The tight bound of the first `k` rectangles. */
  ghost predicate Hull(r: Rect, rects: seq<Rect>, k: nat)
    requires k <= |rects|
  {
    Bounds(r, rects[..k]) && Tight(r, rects[..k])
  }

  lemma HullOfOne(rects: seq<Rect>)
    requires rects != []
    ensures Hull(rects[0], rects, 1)
  {
  }

  lemma HullNext(r: Rect, rects: seq<Rect>, k: nat)
    requires k < |rects| && Hull(r, rects, k)
    ensures Hull(Spanned(r, rects[k]), rects, k + 1)
  {
    Widen(r, rects[..k], rects[k]);
    assert rects[..k + 1] == rects[..k] + [rects[k]];
  }

  lemma HullIsLeast(r: Rect, rects: seq<Rect>)
    requires Hull(r, rects, |rects|)
    ensures Bounds(r, rects) && Tight(r, rects) && forall b :: Bounds(b, rects) ==> Contains(b, r)
  {
    assert rects[..|rects|] == rects;
    TightIsLeast(r, rects);
  }

  /** The least rectangle around them all; none for no rectangles, or if it is empty. */
  method Union(rects: seq<Rect>) returns (r: Option<Rect>)
    ensures r.Some? ==> r.value.width > 0 && r.value.height > 0 && Bounds(r.value, rects) && Tight(r.value, rects)
    ensures r.Some? ==> forall b :: Bounds(b, rects) ==> Contains(b, r.value)
    ensures (exists k :: 0 <= k < |rects| && rects[k].width > 0 && rects[k].height > 0) ==> r.Some?
  {
    if rects == [] {
      return None;
    }
    var x0, y0 := rects[0].x, rects[0].y;
    var x1, y1 := x0 + rects[0].width, y0 + rects[0].height;
    ghost var hull := rects[0];
    HullOfOne(rects);
    for k := 1 to |rects|
      invariant x0 <= x1 && y0 <= y1 && hull == Rect(x0, y0, x1 - x0, y1 - y0) && Hull(hull, rects, k)
    {
      var q := rects[k];
      HullNext(hull, rects, k);
      hull := Spanned(hull, q);
      x0, y0, x1, y1 := Min(x0, q.x), Min(y0, q.y), Max(x1, q.x + q.width), Max(y1, q.y + q.height);
    }
    HullIsLeast(hull, rects);
    r := if x1 > x0 && y1 > y0 then Some(Rect(x0, y0, x1 - x0, y1 - y0)) else None;
  }
}
