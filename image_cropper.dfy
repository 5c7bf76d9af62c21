/** The crop dialog: an image drawn on a 600 x 500 canvas, moved by dragging
    and zoomed by a slider, under a fixed 300-pixel square mask; saving
    re-draws the same view into a 1024 x 1024 output. Coordinates are exact
    reals; drawing calls and pixels are not modelled, only the geometry. */
module ImageCropper {
  import opened Common

  const CanvasWidth: real := 600.0
  const CanvasHeight: real := 500.0
  const MaskSize: real := 300.0
  const OutputSize: real := 1024.0
  /** Output pixels per displayed mask pixel. */
  const Ratio: real := OutputSize / MaskSize

  datatype Point = Point(x: real, y: real)

  /** A `fillRect(x, y, w, h)` rectangle: the points with
      `x <= px < x + w` and `y <= py < y + h`. */
  datatype Rect = Rect(x: real, y: real, w: real, h: real)

  /** The loaded image element; only its intrinsic size matters here. */
  datatype ImageSize = ImageSize(width: real, height: real)

  predicate InRect(r: Rect, p: Point)
  {
    r.x <= p.x < r.x + r.w && r.y <= p.y < r.y + r.h
  }

  /** Two rectangles share no point. */
  predicate Apart(a: Rect, b: Rect)
  {
    a.x + a.w <= b.x || b.x + b.w <= a.x || a.y + a.h <= b.y || b.y + b.h <= a.y
  }

  predicate Within(r: Rect, w: real, h: real)
  {
    0.0 <= r.x && 0.0 <= r.w && r.x + r.w <= w && 0.0 <= r.y && 0.0 <= r.h && r.y + r.h <= h
  }

  // ---------------------------------------------------------------------
  // Mask geometry of the draw effect
  // ---------------------------------------------------------------------

  /** The crop mask on a canvas of size w x h. */
  function Mask(w: real, h: real): (m: Rect)
    ensures m.w == MaskSize && m.h == MaskSize
    ensures m.x + m.w / 2.0 == w / 2.0 && m.y + m.h / 2.0 == h / 2.0
  {
    Rect((w - MaskSize) / 2.0, (h - MaskSize) / 2.0, MaskSize, MaskSize)
  }

  /** The four dimming rectangles around the mask: top, bottom, left, right. */
  function DimRects(w: real, h: real): (dims: seq<Rect>)
    ensures |dims| == 4
    ensures forall i :: 0 <= i < 4 ==> Apart(dims[i], Mask(w, h))
  {
    var m := Mask(w, h);
    [ Rect(0.0, 0.0, w, m.y),
      Rect(0.0, m.y + MaskSize, w, h - (m.y + MaskSize)),
      Rect(0.0, m.y, m.x, MaskSize),
      Rect(m.x + MaskSize, m.y, w - (m.x + MaskSize), MaskSize) ]
  }

  /** The mask is centred on the canvas; on the dialog's 600 x 500 canvas it
      starts at (150, 100). */
  lemma MaskCentred(w: real, h: real)
    ensures Mask(w, h).x + MaskSize / 2.0 == w / 2.0
    ensures Mask(w, h).y + MaskSize / 2.0 == h / 2.0
    ensures Mask(CanvasWidth, CanvasHeight) == Rect(150.0, 100.0, 300.0, 300.0)
  {
  }

  /** The mask and the four dimming rectangles tile the canvas: each lies on
      the canvas, no two overlap, and every canvas point is in one of them. */
  lemma {:induction false} MaskTilesCanvas(w: real, h: real)
    requires MaskSize <= w && MaskSize <= h
    ensures var tiles := [Mask(w, h)] + DimRects(w, h);
      && |tiles| == 5
      && (forall i :: 0 <= i < 5 ==> Within(tiles[i], w, h))
      && (forall i, j :: 0 <= i < j < 5 ==> Apart(tiles[i], tiles[j]))
      && (forall p: Point :: 0.0 <= p.x < w && 0.0 <= p.y < h ==>
            exists i :: 0 <= i < 5 && InRect(tiles[i], p))
  {
    var tiles := [Mask(w, h)] + DimRects(w, h);
    var m := Mask(w, h);
    forall p: Point | 0.0 <= p.x < w && 0.0 <= p.y < h
      ensures exists i :: 0 <= i < 5 && InRect(tiles[i], p)
    {
      if p.y < m.y {
        assert InRect(tiles[1], p);
      } else if p.y >= m.y + MaskSize {
        assert InRect(tiles[2], p);
      } else if p.x < m.x {
        assert InRect(tiles[3], p);
      } else if p.x >= m.x + MaskSize {
        assert InRect(tiles[4], p);
      } else {
        assert InRect(tiles[0], p);
      }
    }
  }

  // ---------------------------------------------------------------------
  // Display and export transforms
  // ---------------------------------------------------------------------

  /** Where image pixel u appears on the canvas: the draw effect translates
      to the canvas centre plus the position, scales, and draws the image
      centred on the origin. */
  function DisplayPoint(img: ImageSize, position: Point, scale: real, u: Point): (p: Point)
    ensures u == Point(img.width / 2.0, img.height / 2.0) ==>
      p == Point(CanvasWidth / 2.0 + position.x, CanvasHeight / 2.0 + position.y)
  {
    Point(CanvasWidth / 2.0 + position.x + scale * (u.x - img.width / 2.0),
          CanvasHeight / 2.0 + position.y + scale * (u.y - img.height / 2.0))
  }

  /** On the canvas, distances in the image are multiplied by the scale,
      and moving the position moves every image point by the same amount. */
  lemma DisplayIsSimilarity(img: ImageSize, position: Point, scale: real, u: Point, v: Point, d: Point)
    ensures DisplayPoint(img, position, scale, u).x - DisplayPoint(img, position, scale, v).x == scale * (u.x - v.x)
    ensures DisplayPoint(img, position, scale, u).y - DisplayPoint(img, position, scale, v).y == scale * (u.y - v.y)
    ensures DisplayPoint(img, Point(position.x + d.x, position.y + d.y), scale, u)
            == Point(DisplayPoint(img, position, scale, u).x + d.x, DisplayPoint(img, position, scale, u).y + d.y)
  {
  }

  /** The drawing `handleSave` performs on the output canvas: a translation,
      a uniform scale, and the image drawn centred on the origin. */
  datatype Export = Export(size: real, translateX: real, translateY: real, factor: real, image: ImageSize)

  /** Where image pixel u lands in an export. */
  function ExportPoint(e: Export, u: Point): Point
  {
    Point(e.translateX + e.factor * (u.x - e.image.width / 2.0),
          e.translateY + e.factor * (u.y - e.image.height / 2.0))
  }

  /** A canvas point's place in the output, magnified about the canvas centre. */
  function DisplayToOutput(p: Point): Point
  {
    Point(OutputSize / 2.0 + Ratio * (p.x - CanvasWidth / 2.0),
          OutputSize / 2.0 + Ratio * (p.y - CanvasHeight / 2.0))
  }

  /** The export of the current view: scale and position are magnified by
      `Ratio`, the view centred on the output's centre. */
  function ExportOf(img: ImageSize, position: Point, scale: real): (e: Export)
    ensures e.size == OutputSize && e.image == img
    ensures forall u :: ExportPoint(e, u) == DisplayToOutput(DisplayPoint(img, position, scale, u))
  {
    var ratio := OutputSize / MaskSize;
    Export(OutputSize, OutputSize / 2.0 + position.x * ratio, OutputSize / 2.0 + position.y * ratio,
           scale * ratio, img)
  }

  /** The mask's corners land on the output's corners, so exactly what is
      shown inside the mask fills the output. */
  lemma MaskMapsOntoOutput(p: Point)
    ensures var m := Mask(CanvasWidth, CanvasHeight);
      DisplayToOutput(Point(m.x, m.y)) == Point(0.0, 0.0)
      && DisplayToOutput(Point(m.x + MaskSize, m.y + MaskSize)) == Point(OutputSize, OutputSize)
    ensures InRect(Mask(CanvasWidth, CanvasHeight), p) <==>
      InRect(Rect(0.0, 0.0, OutputSize, OutputSize), DisplayToOutput(p))
  {
  }

  // ---------------------------------------------------------------------
  // The dialog's state and its handlers
  // ---------------------------------------------------------------------

  class Cropper {
    var scale: real
    var position: Point
    var isDragging: bool
    var dragStart: Point
    var image: Option<ImageSize>

    /** Scale starts at 1, the image centred, no drag in progress. */
    constructor ()
      ensures scale == 1.0 && position == Point(0.0, 0.0)
      ensures !isDragging && dragStart == Point(0.0, 0.0) && image == None
    {
      scale := 1.0;
      position := Point(0.0, 0.0);
      isDragging := false;
      dragStart := Point(0.0, 0.0);
      image := None;
    }

    /** The image finished loading: it is shown centred again; the zoom is
        kept. */
    method ImageLoaded(img: ImageSize)
      modifies this
      ensures image == Some(img) && position == Point(0.0, 0.0)
      ensures scale == old(scale) && isDragging == old(isDragging) && dragStart == old(dragStart)
    {
      image := Some(img);
      position := Point(0.0, 0.0);
    }

    /** The zoom slider's new value, taken as it is: no clamp is applied. */
    method SetScale(value: real)
      modifies this
      ensures scale == value
      ensures position == old(position) && isDragging == old(isDragging)
      ensures dragStart == old(dragStart) && image == old(image)
    {
      scale := value;
    }

    /** A drag starts: the anchor is the pointer relative to the position. */
    method MouseDown(client: Point)
      modifies this
      ensures isDragging
      ensures dragStart == Point(client.x - old(position.x), client.y - old(position.y))
      ensures position == old(position) && scale == old(scale) && image == old(image)
    {
      isDragging := true;
      dragStart := Point(client.x - position.x, client.y - position.y);
    }

    /** While dragging, the position follows the pointer from the anchor;
        otherwise nothing changes. */
    method MouseMove(client: Point)
      modifies this
      ensures old(isDragging) ==> position == Point(client.x - dragStart.x, client.y - dragStart.y)
      ensures !old(isDragging) ==> position == old(position)
      ensures isDragging == old(isDragging) && dragStart == old(dragStart)
      ensures scale == old(scale) && image == old(image)
    {
      if isDragging {
        position := Point(client.x - dragStart.x, client.y - dragStart.y);
      }
    }

    /** Releasing the button or leaving the canvas ends the drag. */
    method MouseUp()
      modifies this
      ensures !isDragging
      ensures position == old(position) && dragStart == old(dragStart)
      ensures scale == old(scale) && image == old(image)
    {
      isDragging := false;
    }

    /** Saving before the image has loaded does nothing; otherwise the view
        is re-drawn into the output so that every image point keeps its
        place relative to the mask, magnified by `Ratio`. */
    method Save() returns (out: Option<Export>)
      ensures out.None? <==> image.None?
      ensures out.Some? ==> out.value.size == OutputSize && out.value.image == image.value
      ensures out.Some? ==> forall u ::
        ExportPoint(out.value, u) == DisplayToOutput(DisplayPoint(image.value, position, scale, u))
    {
      if image.None? {
        return None;
      }
      out := Some(ExportOf(image.value, position, scale));
    }
  }

  /** A whole drag: pressing at `down` and moving to `move` shifts the image
      by exactly the pointer's displacement. */
  method Drag(c: Cropper, down: Point, move: Point)
    modifies c
    ensures c.position == Point(old(c.position.x) + (move.x - down.x), old(c.position.y) + (move.y - down.y))
    ensures c.isDragging && c.scale == old(c.scale) && c.image == old(c.image)
  {
    c.MouseDown(down);
    c.MouseMove(move);
  }
}
