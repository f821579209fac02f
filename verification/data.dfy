/** The annotation representation shared by the adapters: points, polygons,
    images and samples, and the conversion between normalised [0, 1]
    coordinates and pixel coordinates. */
module Data {
  import opened Common

  /** A positive pixel dimension. */
  type Pos = n: int | n > 0 witness 1

  /** One (x, y) keypoint, in normalised or in pixel units. */
  datatype Point = Point(x: real, y: real)

  type Polygon = seq<Point>

  /** A raster image. Its pixels are never inspected: only its size matters. */
  datatype Image = Image(width: Pos, height: Pos, pixels: seq<int>)

  /** `megane.data.Sample`: the image, its polygons, one class per polygon and
      optionally one score per polygon. */
  datatype Sample = Sample(image: Image, boxes: seq<Polygon>, classes: seq<int>, scores: Option<seq<real>>)

  /** The (width, height) pair the scaling helpers take. */
  datatype Size = Size(width: Pos, height: Pos)

  function SizeOf(image: Image): Size
  {
    Size(image.width, image.height)
  }

  /** Normalised to pixel coordinates: x by the width, y by the height. */
  function ScalePoint(p: Point, size: Size): Point
  {
    Point(p.x * size.width as real, p.y * size.height as real)
  }

  /** Pixel to normalised coordinates. */
  function UnscalePoint(p: Point, size: Size): Point
  {
    Point(p.x / size.width as real, p.y / size.height as real)
  }

  /** `simpoly.scale_to` / `utils.denormalize_polygon` on one polygon. */
  function ScalePolygon(poly: Polygon, size: Size): (r: Polygon)
    ensures |r| == |poly|
    ensures forall i :: 0 <= i < |poly| ==> r[i] == ScalePoint(poly[i], size)
  {
    seq(|poly|, i requires 0 <= i < |poly| => ScalePoint(poly[i], size))
  }

  /** `simpoly.scale_from` / `utils.normalize_polygon` on one polygon. */
  function UnscalePolygon(poly: Polygon, size: Size): (r: Polygon)
    ensures |r| == |poly|
    ensures forall i :: 0 <= i < |poly| ==> r[i] == UnscalePoint(poly[i], size)
  {
    seq(|poly|, i requires 0 <= i < |poly| => UnscalePoint(poly[i], size))
  }

  /** Scaling to pixels and back by the same size is the identity over the reals. */
  lemma UnscaleScale(poly: Polygon, size: Size)
    ensures UnscalePolygon(ScalePolygon(poly, size), size) == poly
  {
    var r := UnscalePolygon(ScalePolygon(poly, size), size);
    forall i | 0 <= i < |poly|
      ensures r[i] == poly[i]
    {
      var w := size.width as real;
      var h := size.height as real;
      assert (poly[i].x * w) / w == poly[i].x;
      assert (poly[i].y * h) / h == poly[i].y;
    }
  }

  /** Scaling commutes with concatenation: it is applied point by point. */
  lemma UnscaleAppend(a: Polygon, b: Polygon, size: Size)
    ensures UnscalePolygon(a + b, size) == UnscalePolygon(a, size) + UnscalePolygon(b, size)
  {
  }

  /** `keeps = [len(box) > 2 for box in boxes]`: a polygon survives decoding
      when it still has more than two points. */
  function KeepMask(boxes: seq<Polygon>): (r: seq<bool>)
    ensures |r| == |boxes|
    ensures forall i :: 0 <= i < |boxes| ==> (r[i] <==> |boxes[i]| > 2)
  {
    seq(|boxes|, i requires 0 <= i < |boxes| => |boxes[i]| > 2)
  }
}
