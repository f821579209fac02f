/** `megane2/augments.py`: the later adapter. The annotation is a dictionary
    whose `"polygons"` entry is an array of N polygons of equally many
    normalised points; the points are flattened to keypoints in pixels, handed
    to the transform with the image, scaled back and regrouped as N
    quadrilaterals. */
module Augments {
  import opened Common
  import opened Data
  import opened Keypoints

  /** A value in the annotation dictionary: a polygon array, or a scalar. */
  datatype Field = Polygons(polys: seq<Polygon>) | Scalar(value: int)

  type Annotation = map<string, Field>

  /** What the transform takes and gives back: `image` and `keypoints`. */
  datatype Target = Target(image: Image, keypoints: seq<Point>)

  /** The `Augment` dataclass; `None` means no augmentation. */
  datatype Augment = Augment(transform: Option<Target -> Target>)

  const PolygonsKey: string := "polygons"

  /** `np.array(polygons)` has a regular shape: every polygon has as many
      points as the first one. */
  predicate Rectangular(polys: seq<Polygon>)
  {
    forall i :: 0 <= i < |polys| ==> |polys[i]| == |polys[0]|
  }

  /** The transform's input: the points of all polygons in order
      (`reshape(-1, 2)`), x scaled by the width and y by the height. */
  function TransformInput(image: Image, polys: seq<Polygon>): (r: Target)
    ensures r.image == image
    ensures |r.keypoints| == TotalPoints(polys)
  {
    Target(image, ScalePolygon(Flatten(polys).keypoints, SizeOf(image)))
  }

  /** `reshape(n, 4, 2)`: consecutive runs of four points. */
  function Quads(kps: seq<Point>, n: nat): (r: seq<Polygon>)
    requires |kps| == 4 * n
    ensures |r| == n
    ensures forall i :: 0 <= i < n ==> |r[i]| == 4
    ensures forall i, t :: 0 <= i < n && 0 <= t < 4 ==> r[i][t] == kps[4 * i + t]
  {
    seq(n, i requires 0 <= i < n => kps[4 * i..4 * i + 4])
  }

  /** `Augment.__call__`. With no transform the inputs come back untouched.
      Otherwise the failures are, in order: no `"polygons"` entry (KeyError);
      a scalar there, whose array has no first dimension (IndexError); polygons
      of different sizes, which numpy refuses to stack (ValueError); no
      keypoints in the transform's output, whose array is then
      one-dimensional (IndexError); and an output that is not four points per
      input polygon (ValueError). On success only the `"polygons"` entry
      changes, to one quadrilateral per input polygon whose corners are the
      transform's keypoints in order, normalised by the INPUT image's size. */
  function Call(aug: Augment, image: Image, annotation: Annotation): (r: Result<(Image, Annotation)>)
    ensures aug.transform.None? ==> r == Ok((image, annotation))
    ensures aug.transform.Some? ==> (r == Err(KeyError) <==> PolygonsKey !in annotation)
    ensures aug.transform.Some? && r.Ok? ==>
      && PolygonsKey in annotation && annotation[PolygonsKey].Polygons?
      && var polys := annotation[PolygonsKey].polys;
         var out := aug.transform.value(TransformInput(image, polys));
         && Rectangular(polys)
         && |out.keypoints| == 4 * |polys| > 0
         && r.value.0 == out.image
         && r.value.1.Keys == annotation.Keys
         && (forall k :: k in annotation && k != PolygonsKey ==> r.value.1[k] == annotation[k])
         && r.value.1[PolygonsKey].Polygons?
         && |r.value.1[PolygonsKey].polys| == |polys|
         && (forall i, t :: 0 <= i < |polys| && 0 <= t < 4 ==>
               |r.value.1[PolygonsKey].polys[i]| == 4 &&
               r.value.1[PolygonsKey].polys[i][t] == UnscalePoint(out.keypoints[4 * i + t], SizeOf(image)))
    ensures aug.transform.Some? && PolygonsKey in annotation && annotation[PolygonsKey].Polygons? ==>
      var polys := annotation[PolygonsKey].polys;
      var out := aug.transform.value(TransformInput(image, polys));
      (r.Ok? <==> Rectangular(polys) && |out.keypoints| == 4 * |polys| > 0)
  {
    match aug.transform
    case None => Ok((image, annotation))
    case Some(transform) =>
      if PolygonsKey !in annotation then Err(KeyError)
      else
        match annotation[PolygonsKey]
        case Scalar(_) => Err(IndexError)
        case Polygons(polys) =>
          if !Rectangular(polys) then Err(ValueError)
          else
            var out := transform(TransformInput(image, polys));
            if |out.keypoints| == 0 then Err(IndexError)
            else if |out.keypoints| != 4 * |polys| then Err(ValueError)
            else
              var quads := Quads(UnscalePolygon(out.keypoints, SizeOf(image)), |polys|);
              Ok((out.image, annotation[PolygonsKey := Polygons(quads)]))
  }

  /** In a regular array of polygons of `k` points each, polygon `i` starts at
      keypoint `k * i`. */
  lemma {:induction false} RectangularOffset(polys: seq<Polygon>, k: nat, i: nat)
    requires forall j :: 0 <= j < |polys| ==> |polys[j]| == k
    requires i <= |polys|
    ensures Offset(polys, i) == k * i
  {
    if i > 0 {
      RectangularOffset(polys, k, i - 1);
      OffsetNext(polys, i - 1);
    }
  }

  /** The transform sees point `t` of polygon `i` as keypoint `k * i + t`, in
      pixels. */
  lemma TransformInputPlace(image: Image, polys: seq<Polygon>, k: nat, i: nat, t: nat)
    requires forall j :: 0 <= j < |polys| ==> |polys[j]| == k
    requires i < |polys| && t < k
    ensures |TransformInput(image, polys).keypoints| == k * |polys|
    ensures k * i + t < k * |polys|
    ensures TransformInput(image, polys).keypoints[k * i + t] == ScalePoint(polys[i][t], SizeOf(image))
  {
    RectangularOffset(polys, k, i);
    RectangularOffset(polys, k, |polys|);
    assert polys[..|polys|] == polys;
    FlattenPlace(polys, i, t);
  }

  /** Corner `t` of quadrilateral `i` is flattened point `4 * i + t`. */
  lemma QuadCorner(polys: seq<Polygon>, i: nat, t: nat)
    requires forall j :: 0 <= j < |polys| ==> |polys[j]| == 4
    requires i < |polys| && t < 4
    ensures 4 * i + t < |Flatten(polys).keypoints|
    ensures Flatten(polys).keypoints[4 * i + t] == polys[i][t]
  {
    RectangularOffset(polys, 4, i);
    FlattenPlace(polys, i, t);
  }

  /** Regrouping the flattened points of quadrilaterals gives them back. */
  lemma QuadsFlatten(polys: seq<Polygon>)
    requires forall j :: 0 <= j < |polys| ==> |polys[j]| == 4
    ensures |Flatten(polys).keypoints| == 4 * |polys|
    ensures Quads(Flatten(polys).keypoints, |polys|) == polys
  {
    RectangularOffset(polys, 4, |polys|);
    assert polys[..|polys|] == polys;
    var q := Quads(Flatten(polys).keypoints, |polys|);
    forall i, t | 0 <= i < |polys| && 0 <= t < 4
      ensures q[i][t] == polys[i][t]
    {
      QuadCorner(polys, i, t);
    }
    assert forall i :: 0 <= i < |polys| ==> q[i] == polys[i];
  }

  /** With a transform that changes nothing, a non-empty annotation of
      quadrilaterals comes back as it was. */
  lemma IdentityRoundTrip(image: Image, annotation: Annotation)
    requires PolygonsKey in annotation && annotation[PolygonsKey].Polygons?
    requires |annotation[PolygonsKey].polys| > 0
    requires forall j :: 0 <= j < |annotation[PolygonsKey].polys| ==> |annotation[PolygonsKey].polys[j]| == 4
    ensures Call(Augment(Some((t: Target) => t)), image, annotation) == Ok((image, annotation))
  {
    var polys := annotation[PolygonsKey].polys;
    QuadsFlatten(polys);
    UnscaleScale(Flatten(polys).keypoints, SizeOf(image));
    assert annotation[PolygonsKey := Polygons(polys)] == annotation;
  }

  /** `Augment.from_string`: `"default"` and `"yes"` select the default
      pipeline, `"none"` and `"no"` select no augmentation, anything else is
      a missing dictionary key. */
  function FromString(name: string, defaultPipeline: Target -> Target): (r: Result<Augment>)
    ensures r.Ok? <==> name in {"default", "yes", "none", "no"}
    ensures r.Ok? ==> (r.value.transform.None? <==> name in {"none", "no"})
    ensures r.Ok? && r.value.transform.Some? ==> r.value.transform.value == defaultPipeline
    ensures r.Err? ==> r.error == KeyError
  {
    if name == "default" || name == "yes" then Ok(Augment(Some(defaultPipeline)))
    else if name == "none" || name == "no" then Ok(Augment(None))
    else Err(KeyError)
  }

  /** A string-selected "no augmentation" leaves every input untouched. */
  lemma NoAugmentIsIdentity(name: string, defaultPipeline: Target -> Target, image: Image, annotation: Annotation)
    requires name == "none" || name == "no"
    ensures FromString(name, defaultPipeline).Ok?
    ensures Call(FromString(name, defaultPipeline).value, image, annotation) == Ok((image, annotation))
  {
  }
}
