/** Integer box geometry of the bitmap scroller (peppy/lib/bitmapscroller.py):
    boxes with signed widths, their extents, hit tests for the rubber-band
    selection, the resize-handle index, moving a selection inside the image,
    and the zoom limits. */
module BitmapScroller {

  /** `(x, y, w, h)`; a negative width or height extends to the left or up. */
  datatype Box = Box(x: int, y: int, w: int, h: int)

  /** `(x0, y0, x1, y1)`: inclusive corner coordinates. */
  datatype Extent = Extent(x0: int, y0: int, x1: int, y1: int)

  datatype Point = Point(x: int, y: int)

  /** The columns (or rows) a box edge of signed length `size` starting at
      `origin` covers: `size` cells to the right of the origin when `size` is
      non-negative, `-size` cells ending at the origin otherwise. */
  predicate InSpan(p: int, origin: int, size: int)
  {
    if size >= 0 then origin <= p <= origin + size - 1
    else origin + size + 1 <= p <= origin
  }

  /** `normalizeBox`: the same cells with a non-negative width and height. */
  function NormalizeBox(b: Box): (r: Box)
    ensures r.w >= 0 && r.h >= 0
    ensures r.w == if b.w < 0 then -b.w else b.w
    ensures r.h == if b.h < 0 then -b.h else b.h
    ensures b.w >= 0 && b.h >= 0 ==> r == b
    ensures forall p :: InSpan(p, r.x, r.w) <==> InSpan(p, b.x, b.w)
    ensures forall p :: InSpan(p, r.y, r.h) <==> InSpan(p, b.y, b.h)
  {
    var (x, w) := if b.w < 0 then (b.x + (b.w + 1), -b.w) else (b.x, b.w);
    var (y, h) := if b.h < 0 then (b.y + (b.h + 1), -b.h) else (b.y, b.h);
    Box(x, y, w, h)
  }

  lemma NormalizeBoxIdempotent(b: Box)
    ensures NormalizeBox(NormalizeBox(b)) == NormalizeBox(b)
  {
  }

  /** `boxToExtent`: the inclusive corners of the normalised box. */
  function BoxToExtent(b: Box): (e: Extent)
    ensures forall p :: e.x0 <= p <= e.x1 <==> InSpan(p, b.x, b.w)
    ensures forall p :: e.y0 <= p <= e.y1 <==> InSpan(p, b.y, b.h)
  {
    var n := NormalizeBox(b);
    Extent(n.x, n.y, n.x + n.w - 1, n.y + n.h - 1)
  }

  /** `pointInBox`: inclusive containment in the extent. */
  function PointInBox(x: int, y: int, b: Box): (r: bool)
    ensures r <==> InSpan(x, b.x, b.w) && InSpan(y, b.y, b.h)
  {
    var e := BoxToExtent(b);
    x >= e.x0 && x <= e.x1 && y >= e.y0 && y <= e.y1
  }

  /** `pointOnBox`: inside the box but not inside the box shrunk by
      `thickness` on every side. */
  function PointOnBox(x: int, y: int, b: Box, thickness: int): (r: bool)
    ensures r ==> PointInBox(x, y, b)
  {
    var inner := Box(b.x + thickness, b.y + thickness, b.w - thickness * 2, b.h - thickness * 2);
    PointInBox(x, y, b) && !PointInBox(x, y, inner)
  }

  /** For a box at least `2 * thickness` wide and high, a point is on the box
      exactly when it lies inside and within `thickness` of one of its edges. */
  lemma PointOnBoxIsBorder(x: int, y: int, b: Box, thickness: int)
    requires thickness >= 0 && b.w >= 2 * thickness && b.h >= 2 * thickness
    ensures PointOnBox(x, y, b, thickness) <==>
      PointInBox(x, y, b)
      && (x < b.x + thickness || x > b.x + b.w - 1 - thickness
          || y < b.y + thickness || y > b.y + b.h - 1 - thickness)
  {
  }

  // ---------------------------------------------------------------------
  // Resize handles
  // ---------------------------------------------------------------------

  /** Within `t` of coordinate `c`. */
  predicate Near(v: int, c: int, t: int) { v >= c - t && v <= c + t }

  /** `getBorderCursorIndex`: the handle under the point, numbered
          0 1 2
          7   3
          6 5 4
      around the extent of the selection. */
  function BorderCursorIndex(world: Box, x: int, y: int, t: int): (index: int)
    ensures 0 <= index <= 7
  {
    var e := BoxToExtent(world);
    if Near(x, e.x0, t) then
      (if Near(y, e.y0, t) then 0 else if Near(y, e.y1, t) then 6 else 7)
    else if Near(x, e.x1, t) then
      (if Near(y, e.y0, t) then 2 else if Near(y, e.y1, t) then 4 else 3)
    else if Near(y, e.y0, t) then 1
    else 5
  }

  /** The handles of the left column, of the right column and of the top row. */
  predicate LeftHandle(i: int) { i == 0 || i == 7 || i == 6 }
  predicate RightHandle(i: int) { i == 2 || i == 3 || i == 4 }
  predicate TopHandle(i: int) { i == 0 || i == 1 || i == 2 }

  /** The left column wins over the right one, and both over the top and
      bottom rows; the top row wins over the bottom one. */
  lemma BorderCursorIndexLayout(world: Box, x: int, y: int, t: int)
    ensures var e := BoxToExtent(world);
      var i := BorderCursorIndex(world, x, y, t);
      (LeftHandle(i) <==> Near(x, e.x0, t))
      && (RightHandle(i) <==> !Near(x, e.x0, t) && Near(x, e.x1, t))
      && (TopHandle(i) <==> Near(y, e.y0, t))
      && (i == 5 <==> !Near(x, e.x0, t) && !Near(x, e.x1, t) && !Near(y, e.y0, t))
  {
  }

  // ---------------------------------------------------------------------
  // Moving the selection
  // ---------------------------------------------------------------------

  /** The start and last corners with each coordinate pair in order
      (`normalizeImageCoords`). */
  function OrderedCorners(start: Point, last: Point): (r: (Point, Point))
    ensures r.0.x <= r.1.x && r.0.y <= r.1.y
    ensures multiset{r.0.x, r.1.x} == multiset{start.x, last.x}
    ensures multiset{r.0.y, r.1.y} == multiset{start.y, last.y}
  {
    var (x0, x1) := if start.x > last.x then (last.x, start.x) else (start.x, last.x);
    var (y0, y1) := if start.y > last.y then (last.y, start.y) else (start.y, last.y);
    (Point(x0, y0), Point(x1, y1))
  }

  lemma OrderedCornersIdempotent(start: Point, last: Point)
    ensures var r := OrderedCorners(start, last); OrderedCorners(r.0, r.1) == r
  {
  }

  /** The shift `moveWorldCoordsFromImageCoords` applies along one axis to a
      selection spanning `lo..hi` in an image of `size` pixels: the requested
      `d`, or the shift that stops the selection at the near or far edge. */
  function ClampedShift(lo: int, hi: int, d: int, size: int): (r: int)
    ensures r == d || (r == -lo && d < r) || (r == size - hi - 1 && r < d)
    ensures lo + d >= 0 && hi + d < size ==> r == d
    ensures 0 <= lo <= hi < size ==> 0 <= lo + r && hi + r <= size - 1
  {
    if lo + d < 0 then -lo
    else if hi + d >= size then size - hi - 1
    else d
  }

  /** The rubber-band selection's image coordinates. */
  class RubberBand {
    var startImg: Point
    var lastImg: Point
    var moveImg: Point

    /** A selection in a given state: `__init__` itself sets no corners;
        they come from the mouse events (`startEvent`, `handleEvent`), whose
        coordinate scaling is not modelled, so they are inputs here. */
    constructor (start: Point, last: Point, move: Point)
      ensures startImg == start && lastImg == last && moveImg == move
    {
      startImg, lastImg, moveImg := start, last, move;
    }

    /** The selection lies, in order, inside a `width` x `height` image. */
    predicate InsideImage(width: int, height: int)
      reads this
    {
      0 <= startImg.x <= lastImg.x < width && 0 <= startImg.y <= lastImg.y < height
    }

    /** `normalizeImageCoords` */
    method NormalizeImageCoords()
      modifies this`startImg, this`lastImg
      ensures (startImg, lastImg) == OrderedCorners(old(startImg), old(lastImg))
      ensures startImg.x <= lastImg.x && startImg.y <= lastImg.y
    {
      var x0, y0 := startImg.x, startImg.y;
      var x1, y1 := lastImg.x, lastImg.y;
      if x0 > x1 {
        x0, x1 := x1, x0;
      }
      if y0 > y1 {
        y0, y1 := y1, y0;
      }
      startImg := Point(x0, y0);
      lastImg := Point(x1, y1);
    }

    /** `moveWorldCoordsFromImageCoords(x, y)` in an image of the given size:
        the selection follows the mouse but never leaves the image. */
    method MoveWorldCoordsFromImageCoords(x: int, y: int, width: int, height: int)
      modifies this
      ensures moveImg == Point(x, y)
      ensures var dx := ClampedShift(old(startImg.x), old(lastImg.x), x - old(moveImg.x), width);
              var dy := ClampedShift(old(startImg.y), old(lastImg.y), y - old(moveImg.y), height);
              startImg == Point(old(startImg.x) + dx, old(startImg.y) + dy)
              && lastImg == Point(old(lastImg.x) + dx, old(lastImg.y) + dy)
      ensures lastImg.x - startImg.x == old(lastImg.x - startImg.x)
      ensures lastImg.y - startImg.y == old(lastImg.y - startImg.y)
      ensures old(InsideImage(width, height)) ==> InsideImage(width, height)
    {
      var dx := x - moveImg.x;
      var dy := y - moveImg.y;
      moveImg := Point(x, y);
      var x0, y0 := startImg.x, startImg.y;
      var x1, y1 := lastImg.x, lastImg.y;
      if x0 + dx < 0 {
        dx := -x0;
      } else if x1 + dx >= width {
        dx := width - x1 - 1;
      }
      if y0 + dy < 0 {
        dy := -y0;
      } else if y1 + dy >= height {
        dy := height - y1 - 1;
      }
      startImg := Point(x0 + dx, y0 + dy);
      lastImg := Point(x1 + dx, y1 + dy);
    }
  }

  // ---------------------------------------------------------------------
  // Zoom
  // ---------------------------------------------------------------------

  /** The zoom level after `zoomIn(factor)`, capped at `maxZoom`. */
  function ZoomedIn(zoom: real, factor: real, maxZoom: real): (r: real)
    ensures r <= maxZoom
    ensures zoom * factor <= maxZoom ==> r == zoom * factor
    ensures r <= zoom * factor
  {
    if zoom * factor > maxZoom then maxZoom else zoom * factor
  }

  /** The zoom level after `zoomOut(factor)`, floored at `minZoom`. */
  function ZoomedOut(zoom: real, factor: real, minZoom: real): (r: real)
    requires factor != 0.0
    ensures r >= minZoom
    ensures zoom / factor >= minZoom ==> r == zoom / factor
    ensures r >= zoom / factor
  {
    if zoom / factor < minZoom then minZoom else zoom / factor
  }

  /** Zooming in by at least 1 from a level within the limits stays within
      them, and so does zooming out. */
  lemma ZoomStaysInRange(zoom: real, factor: real, minZoom: real, maxZoom: real)
    requires 0.0 < minZoom <= zoom <= maxZoom && factor >= 1.0
    ensures minZoom <= ZoomedIn(zoom, factor, maxZoom) <= maxZoom
    ensures minZoom <= ZoomedOut(zoom, factor, minZoom) <= maxZoom
  {
    var q := zoom / factor;
    assert q * factor == zoom;
    assert zoom * factor - zoom == zoom * (factor - 1.0);
    assert zoom - q == q * (factor - 1.0);
  }

  /** The scroller's zoom state (the image itself is not modelled). */
  class Scroller {
    const maxZoom: real
    const minZoom: real
    var zoom: real

    /** The settings of `BitmapScroller.__init__`. */
    constructor ()
      ensures maxZoom == 16.0 && minZoom == 0.0625 && zoom == 4.0
    {
      maxZoom := 16.0;
      minZoom := 0.0625;
      zoom := 4.0;
    }

    predicate InRange()
      reads this
    {
      0.0 < minZoom <= zoom <= maxZoom
    }

    /** `zoomIn(zoom)` */
    method ZoomIn(factor: real)
      modifies this`zoom
      ensures zoom == ZoomedIn(old(zoom), factor, maxZoom)
      ensures zoom <= maxZoom
      ensures old(InRange()) && factor >= 1.0 ==> InRange()
    {
      zoom := zoom * factor;
      if zoom > maxZoom {
        zoom := maxZoom;
      }
      if old(InRange()) && factor >= 1.0 {
        ZoomStaysInRange(old(zoom), factor, minZoom, maxZoom);
      }
    }

    /** `zoomOut(zoom)`; a zero factor is Python's `ZeroDivisionError`. */
    method ZoomOut(factor: real)
      requires factor != 0.0
      modifies this`zoom
      ensures zoom == ZoomedOut(old(zoom), factor, minZoom)
      ensures zoom >= minZoom
      ensures old(InRange()) && factor >= 1.0 ==> InRange()
    {
      zoom := zoom / factor;
      if zoom < minZoom {
        zoom := minZoom;
      }
      if old(InRange()) && factor >= 1.0 {
        ZoomStaysInRange(old(zoom), factor, minZoom, maxZoom);
      }
    }
  }
}
