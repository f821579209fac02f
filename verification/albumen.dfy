/** `megane/augment/albumen.py`: the adapter between a `Sample` and the
    inputs and outputs of a keypoint-based augmentation transform. Encode
    flattens the polygons into pixel keypoints with a parallel `box_mapping`;
    decode regroups the transformed keypoints by owner with `groupby`, drops
    polygons left with two points or fewer, and realigns the classes. */
module Albumen {
  import opened Common
  import opened Data
  import opened Keypoints

  /** The transform's keyword arguments and results: `image`, `keypoints`,
      `box_mapping` and `classes`. */
  datatype Encoded = Encoded(image: Image, keypoints: seq<Point>, boxMapping: seq<int>, classes: seq<int>)

  /** `idendity(**kw)`: the transform that hands back its inputs. */
  function Identity(e: Encoded): Encoded
  {
    e
  }

  /** `encode(sample)`. The keypoints are in pixels of the sample's own image.
      `max(masks)` fails on an empty mapping; the assertion fails unless the
      last polygon with a point is the last class. */
  function Encode(sample: Sample): (r: Result<Encoded>)
    ensures r.Ok? <==> 0 <= LastNonEmpty(sample.boxes) == |sample.classes| - 1
    ensures r == Err(ValueError) <==> LastNonEmpty(sample.boxes) == -1
    ensures r == Err(AssertionError) <==> 0 <= LastNonEmpty(sample.boxes) != |sample.classes| - 1
    ensures r.Ok? ==> r.value.image == sample.image && r.value.classes == sample.classes
    ensures r.Ok? ==> |r.value.keypoints| == |r.value.boxMapping| == TotalPoints(sample.boxes)
  {
    var scaled := ScaledBoxes(sample.boxes, SizeOf(sample.image));
    var flat := Flatten(scaled);
    FlattenMax(scaled);
    LastNonEmptyShape(scaled, sample.boxes);
    TotalPointsShape(scaled, sample.boxes);
    if |flat.boxMapping| == 0 then Err(ValueError)
    else if Max(flat.boxMapping) != |sample.classes| - 1 then Err(AssertionError)
    else Ok(Encoded(sample.image, flat.keypoints, flat.boxMapping, sample.classes))
  }

  /** Point `t` of polygon `i` becomes keypoint `Offset(boxes, i) + t`, in
      pixels, tagged with `i`. */
  lemma EncodePlace(sample: Sample, i: nat, t: nat)
    requires Encode(sample).Ok?
    requires i < |sample.boxes| && t < |sample.boxes[i]|
    ensures Offset(sample.boxes, i) + t < TotalPoints(sample.boxes)
    ensures Encode(sample).value.boxMapping[Offset(sample.boxes, i) + t] == i
    ensures Encode(sample).value.keypoints[Offset(sample.boxes, i) + t] ==
      ScalePoint(sample.boxes[i][t], SizeOf(sample.image))
  {
    ScaledPlace(sample.boxes, SizeOf(sample.image), i, t);
  }

  /** In an encoded sample the box mapping never decreases, and polygon `i`
      owns exactly as many keypoints as it has points. */
  lemma EncodeMapping(sample: Sample)
    requires Encode(sample).Ok?
    ensures forall a, b :: 0 <= a <= b < |Encode(sample).value.boxMapping| ==>
      Encode(sample).value.boxMapping[a] <= Encode(sample).value.boxMapping[b]
    ensures forall i :: 0 <= i < |sample.boxes| ==>
      multiset(Encode(sample).value.boxMapping)[i] == |sample.boxes[i]|
  {
    var scaled := ScaledBoxes(sample.boxes, SizeOf(sample.image));
    TotalPointsShape(scaled, sample.boxes);
    FlattenSorted(scaled);
    FlattenCounts(scaled);
  }

  /** `[xy[j] for j in idx]`: fails when an index is past the keypoints. */
  function Gather(xy: seq<Point>, idx: seq<nat>): (r: Option<seq<Point>>)
    ensures r.Some? <==> forall t :: 0 <= t < |idx| ==> idx[t] < |xy|
    ensures r.Some? ==> |r.value| == |idx| && forall t :: 0 <= t < |idx| ==> r.value[t] == xy[idx[t]]
  {
    if |idx| == 0 then Some([])
    else
      var n := |idx| - 1;
      match Gather(xy, idx[..n])
      case None => None
      case Some(pts) => if idx[n] < |xy| then Some(pts + [xy[idx[n]]]) else None
  }

  /** The decode loop over the groups, in order: each group's points are
      gathered and scaled back; a box with more than two points is kept
      together with `classes[i]` for its box index `i`. */
  function DecodeGroups(groups: seq<Group>, xy: seq<Point>, classes: seq<int>, size: Size)
    : Result<(seq<Polygon>, seq<int>)>
  {
    if |groups| == 0 then Ok(([], []))
    else
      var n := |groups| - 1;
      match DecodeGroups(groups[..n], xy, classes, size)
      case Err(e) => Err(e)
      case Ok((boxes, outClasses)) =>
        match Gather(xy, groups[n].members)
        case None => Err(IndexError)
        case Some(pts) =>
          var box := UnscalePolygon(pts, size);
          if |box| > 2 then
            match PyIndex(classes, groups[n].key)
            case None => Err(IndexError)
            case Some(c) => Ok((boxes + [box], outClasses + [c]))
          else Ok((boxes, outClasses))
  }

  /** `decode(outputs)`: scales by the size of the transform's OUTPUT image;
      the result carries no scores. */
  function Decode(outputs: Encoded): Result<Sample>
  {
    match DecodeGroups(GroupBy(outputs.boxMapping), outputs.keypoints, outputs.classes, SizeOf(outputs.image))
    case Err(e) => Err(e)
    case Ok((boxes, outClasses)) => Ok(Sample(outputs.image, boxes, outClasses, None))
  }

  /** The groups that produce a box: those with more than two keypoints. */
  function Survivors(groups: seq<Group>): seq<Group>
  {
    if |groups| == 0 then []
    else
      var n := |groups| - 1;
      Survivors(groups[..n]) + (if |groups[n].members| > 2 then [groups[n]] else [])
  }

  lemma SurvivorsSnoc(groups: seq<Group>, g: Group)
    ensures Survivors(groups + [g]) == Survivors(groups) + (if |g.members| > 2 then [g] else [])
  {
    assert (groups + [g])[..|groups|] == groups;
  }

  lemma DecodeGroupsSnoc(groups: seq<Group>, g: Group, xy: seq<Point>, classes: seq<int>, size: Size)
    ensures DecodeGroups(groups + [g], xy, classes, size) ==
      match DecodeGroups(groups, xy, classes, size)
      case Err(e) => Err(e)
      case Ok((boxes, outClasses)) =>
        match Gather(xy, g.members)
        case None => Err(IndexError)
        case Some(pts) =>
          if |pts| > 2 then
            match PyIndex(classes, g.key)
            case None => Err(IndexError)
            case Some(c) => Ok((boxes + [UnscalePolygon(pts, size)], outClasses + [c]))
          else Ok((boxes, outClasses))
  {
    assert (groups + [g])[..|groups|] == groups;
  }

  /** What the decode loop computes: it fails exactly when a group reaches
      past the keypoints or a surviving group's box index is not a valid class
      index; otherwise box `j` and class `j` both come from the `j`-th
      surviving group. */
  predicate DecodeGroupsMeets(groups: seq<Group>, xy: seq<Point>, classes: seq<int>, size: Size)
  {
    DecodeGroupsFails(groups, xy, classes, size) && DecodeGroupsYields(groups, xy, classes, size)
  }

  predicate DecodeGroupsFails(groups: seq<Group>, xy: seq<Point>, classes: seq<int>, size: Size)
  {
    var s := Survivors(groups);
    DecodeGroups(groups, xy, classes, size).Ok? <==>
      (forall u :: 0 <= u < |groups| ==> Gather(xy, groups[u].members).Some?) &&
      (forall u :: 0 <= u < |s| ==> PyIndex(classes, s[u].key).Some?)
  }

  predicate DecodeGroupsYields(groups: seq<Group>, xy: seq<Point>, classes: seq<int>, size: Size)
  {
    var r := DecodeGroups(groups, xy, classes, size);
    var s := Survivors(groups);
    r.Ok? ==>
      |r.value.0| == |r.value.1| == |s| &&
      forall j :: 0 <= j < |s| ==>
        Gather(xy, s[j].members).Some? &&
        r.value.0[j] == UnscalePolygon(Gather(xy, s[j].members).value, size) &&
        PyIndex(classes, s[j].key).Some? &&
        r.value.1[j] == PyIndex(classes, s[j].key).value
  }

  lemma {:induction false} DecodeGroupsSpec(groups: seq<Group>, xy: seq<Point>, classes: seq<int>, size: Size)
    ensures DecodeGroupsMeets(groups, xy, classes, size)
  {
    if |groups| > 0 {
      var n := |groups| - 1;
      assert groups == groups[..n] + [groups[n]];
      DecodeGroupsSpec(groups[..n], xy, classes, size);
      DecodeGroupsFailsStep(groups[..n], groups[n], xy, classes, size);
      DecodeGroupsYieldsStep(groups[..n], groups[n], xy, classes, size);
    }
  }

  lemma DecodeGroupsFailsStep(p: seq<Group>, g: Group, xy: seq<Point>, classes: seq<int>, size: Size)
    requires DecodeGroupsFails(p, xy, classes, size)
    ensures DecodeGroupsFails(p + [g], xy, classes, size)
  {
    var groups := p + [g];
    assert groups[..|p|] == p;
    DecodeGroupsSnoc(p, g, xy, classes, size);
    SurvivorsSnoc(p, g);
    var s' := Survivors(p);
    var s := Survivors(groups);
    var gathered := forall u :: 0 <= u < |groups| ==> Gather(xy, groups[u].members).Some?;
    var gathered' := forall u :: 0 <= u < |p| ==> Gather(xy, p[u].members).Some?;
    assert gathered <==> gathered' && Gather(xy, g.members).Some?;
    var indexed := forall u :: 0 <= u < |s| ==> PyIndex(classes, s[u].key).Some?;
    var indexed' := forall u :: 0 <= u < |s'| ==> PyIndex(classes, s'[u].key).Some?;
    if |g.members| > 2 {
      assert s == s' + [g];
      assert s[|s'|] == g;
      assert forall u :: 0 <= u < |s'| ==> s[u] == s'[u];
    } else {
      assert s == s';
    }
    assert indexed <==> indexed' && (|g.members| > 2 ==> PyIndex(classes, g.key).Some?);
  }

  lemma DecodeGroupsYieldsStep(p: seq<Group>, g: Group, xy: seq<Point>, classes: seq<int>, size: Size)
    requires DecodeGroupsYields(p, xy, classes, size)
    ensures DecodeGroupsYields(p + [g], xy, classes, size)
  {
    var groups := p + [g];
    assert groups[..|p|] == p;
    DecodeGroupsSnoc(p, g, xy, classes, size);
    SurvivorsSnoc(p, g);
    var s' := Survivors(p);
    var s := Survivors(groups);
    if |g.members| > 2 {
      assert s == s' + [g];
      assert s[|s'|] == g;
    } else {
      assert s == s';
    }
  }

  /** Box index `k` yields a box exactly when it occurs in the mapping more
      than twice; an index with no keypoints forms no group at all. The
      surviving indices are listed once each, in order of first appearance. */
  lemma {:induction false} SurvivingKeys(masks: seq<int>)
    ensures forall u :: 0 <= u < |Survivors(Grouping(masks))| ==>
      Survivors(Grouping(masks))[u] == Group(Survivors(Grouping(masks))[u].key,
                                             Positions(masks, Survivors(Grouping(masks))[u].key))
    ensures forall k :: k in Keys(Survivors(Grouping(masks))) <==> k in masks && |Positions(masks, k)| > 2
  {
    var keys := FirstAppearances(masks);
    FirstAppearancesSpec(masks);
    SurvivorsOfKeys(keys, masks);
  }

  /** Survivors of a grouping built from a list of keys. */
  lemma {:induction false} SurvivorsOfKeys(keys: seq<int>, masks: seq<int>)
    ensures var gs := seq(|keys|, t requires 0 <= t < |keys| => Group(keys[t], Positions(masks, keys[t])));
      (forall u :: 0 <= u < |Survivors(gs)| ==>
         Survivors(gs)[u] == Group(Survivors(gs)[u].key, Positions(masks, Survivors(gs)[u].key))) &&
      (forall k :: k in Keys(Survivors(gs)) <==> k in keys && |Positions(masks, k)| > 2)
  {
    var gs := seq(|keys|, t requires 0 <= t < |keys| => Group(keys[t], Positions(masks, keys[t])));
    if |keys| > 0 {
      var n := |keys| - 1;
      var gs' := seq(n, t requires 0 <= t < n => Group(keys[t], Positions(masks, keys[t])));
      assert gs[..n] == gs';
      SurvivorsOfKeys(keys[..n], masks);
      assert seq(|keys[..n]|, t requires 0 <= t < |keys[..n]| => Group(keys[..n][t], Positions(masks, keys[..n][t]))) == gs';
      assert keys == keys[..n] + [keys[n]];
      var s' := Survivors(gs');
      var s := Survivors(gs);
      assert s == s' + (if |Positions(masks, keys[n])| > 2 then [gs[n]] else []);
      assert Keys(s) == Keys(s') + (if |Positions(masks, keys[n])| > 2 then [keys[n]] else []);
    }
  }

  /** Every position of the mapping lies in some group, so the gathers all
      succeed exactly when there are at least as many keypoints as tags. */
  lemma GatherAll(masks: seq<int>, xy: seq<Point>)
    ensures (forall u :: 0 <= u < |Grouping(masks)| ==> Gather(xy, Grouping(masks)[u].members).Some?)
      <==> |masks| <= |xy|
  {
    var gs := Grouping(masks);
    var keys := FirstAppearances(masks);
    if |masks| > |xy| {
      var j := |masks| - 1;
      FirstAppearancesSpec(masks);
      assert masks[j] in keys;
      var u :| 0 <= u < |keys| && keys[u] == masks[j];
      PositionsSpec(masks, masks[j]);
      assert j in gs[u].members;
      var t :| 0 <= t < |gs[u].members| && gs[u].members[t] == j;
      assert Gather(xy, gs[u].members).None?;
    } else {
      forall u | 0 <= u < |gs|
        ensures Gather(xy, gs[u].members).Some?
      {
        PositionsSpec(masks, keys[u]);
        var ms := gs[u].members;
        assert forall t :: 0 <= t < |ms| ==> ms[t] in ms;
      }
    }
  }

  /** `decode` characterised by the reference grouping: it fails exactly when
      there are fewer keypoints than tags or a surviving box index is not a
      class index; otherwise box `j` is the `j`-th surviving index's keypoints
      in keypoint order, scaled back by the output image, with that index's class. */
  lemma DecodeSpec(outputs: Encoded)
    ensures var r := Decode(outputs);
      var s := Survivors(Grouping(outputs.boxMapping));
      var size := SizeOf(outputs.image);
      && (r.Ok? <==>
            |outputs.boxMapping| <= |outputs.keypoints| &&
            forall u :: 0 <= u < |s| ==> PyIndex(outputs.classes, s[u].key).Some?)
      && (r.Ok? ==>
            r.value.image == outputs.image && r.value.scores == None &&
            |r.value.boxes| == |r.value.classes| == |s| &&
            forall j :: 0 <= j < |s| ==>
              |r.value.boxes[j]| == |s[j].members| > 2 &&
              (forall t :: 0 <= t < |s[j].members| ==>
                 s[j].members[t] < |outputs.keypoints| &&
                 r.value.boxes[j][t] == UnscalePoint(outputs.keypoints[s[j].members[t]], size)) &&
              r.value.classes[j] == PyIndex(outputs.classes, s[j].key).value)
  {
    var m := outputs.boxMapping;
    GroupByFirstAppearance(m);
    DecodeGroupsSpec(Grouping(m), outputs.keypoints, outputs.classes, SizeOf(outputs.image));
    GatherAll(m, outputs.keypoints);
    SurvivorsMembers(Grouping(m));
  }

  lemma {:induction false} SurvivorsMembers(groups: seq<Group>)
    ensures forall u :: 0 <= u < |Survivors(groups)| ==> |Survivors(groups)[u].members| > 2
    ensures forall u :: 0 <= u < |Survivors(groups)| ==> Survivors(groups)[u] in groups
  {
    if |groups| > 0 {
      SurvivorsMembers(groups[..|groups| - 1]);
    }
  }

  lemma GatherRange(xy: seq<Point>, lo: nat, hi: nat)
    requires lo <= hi <= |xy|
    ensures Gather(xy, Range(lo, hi)) == Some(xy[lo..hi])
  {
    var idx := Range(lo, hi);
    var g := Gather(xy, idx);
    assert g.Some?;
    assert g.value == xy[lo..hi];
  }

  lemma SliceOfPrefix(a: seq<Point>, b: seq<Point>, xy: seq<Point>)
    requires a + b <= xy
    ensures xy[|a|..|a| + |b|] == b
  {
    assert (a + b)[|a|..|a| + |b|] == b;
  }

  /** One more polygon's stretch of keypoints, decoded. */
  lemma DecodeOwnedLast(groups: seq<Group>, n: nat, lo: nat, box: Polygon, classes: seq<int>, size: Size,
                        xy: seq<Point>, boxes: seq<Polygon>, outClasses: seq<int>)
    requires DecodeGroups(groups, xy, classes, size) == Ok((boxes, outClasses))
    requires lo + |box| <= |xy| && xy[lo..lo + |box|] == ScalePolygon(box, size)
    requires |box| > 2 ==> n < |classes|
    ensures DecodeGroups(groups + (if |box| > 0 then [Group(n, Range(lo, lo + |box|))] else []), xy, classes, size) ==
      Ok((boxes + (if |box| > 2 then [box] else []), outClasses + (if |box| > 2 then [classes[n]] else [])))
  {
    if |box| > 0 {
      var g := Group(n, Range(lo, lo + |box|));
      DecodeGroupsSnoc(groups, g, xy, classes, size);
      GatherRange(xy, lo, lo + |box|);
      UnscaleScale(box, size);
      if |box| > 2 {
        assert PyIndex(classes, n) == Some(classes[n]);
      } else {
        assert boxes + [] == boxes;
        assert outClasses + [] == outClasses;
      }
    } else {
      assert groups + [] == groups;
      assert boxes + [] == boxes;
      assert outClasses + [] == outClasses;
    }
  }

  /** Keeping the polygons with more than two points, and their classes, one polygon further. */
  lemma KeptSnoc(boxes: seq<Polygon>, classes: seq<int>)
    requires |boxes| > 0
    ensures var n := |boxes| - 1;
      var keep := |boxes[n]| > 2;
      && Compress(boxes, KeepMask(boxes)) == Compress(boxes[..n], KeepMask(boxes[..n])) + (if keep then [boxes[n]] else [])
      && Compress(classes, KeepMask(boxes)) ==
           Compress(classes, KeepMask(boxes[..n])) + (if keep && n < |classes| then [classes[n]] else [])
  {
    var n := |boxes| - 1;
    var b' := boxes[..n];
    var keep := |boxes[n]| > 2;
    assert KeepMask(boxes) == KeepMask(b') + [keep];
    CompressSnoc(boxes, KeepMask(b'), keep);
    CompressSnoc(classes, KeepMask(b'), keep);
    CompressTruncateList(boxes, KeepMask(b'), n);
  }

  /** Decoding the groups of an untouched encoding returns the polygons with
      more than two points, in order, each with its class. */
  lemma {:induction false} DecodeOwned(boxes: seq<Polygon>, classes: seq<int>, size: Size, xy: seq<Point>)
    requires Flatten(ScaledBoxes(boxes, size)).keypoints <= xy
    requires forall i :: 0 <= i < |boxes| && |boxes[i]| > 0 ==> i < |classes|
    ensures DecodeGroups(OwnedGroups(ScaledBoxes(boxes, size)), xy, classes, size) ==
      Ok((Compress(boxes, KeepMask(boxes)), Compress(classes, KeepMask(boxes))))
  {
    if |boxes| == 0 {
      assert KeepMask(boxes) == [];
    } else {
      var n := |boxes| - 1;
      var scaled := ScaledBoxes(boxes, size);
      BatchPrefix(boxes, size, n);
      assert Flatten(scaled).keypoints == Flatten(scaled[..n]).keypoints + scaled[n];
      DecodeOwned(boxes[..n], classes, size, xy);
      DecodeOwnedStep(boxes, classes, size, xy);
    }
  }

  lemma DecodeOwnedStep(boxes: seq<Polygon>, classes: seq<int>, size: Size, xy: seq<Point>)
    requires |boxes| > 0
    requires Flatten(ScaledBoxes(boxes, size)).keypoints <= xy
    requires forall i :: 0 <= i < |boxes| && |boxes[i]| > 0 ==> i < |classes|
    requires var b' := boxes[..|boxes| - 1];
      DecodeGroups(OwnedGroups(ScaledBoxes(b', size)), xy, classes, size) ==
        Ok((Compress(b', KeepMask(b')), Compress(classes, KeepMask(b'))))
    ensures DecodeGroups(OwnedGroups(ScaledBoxes(boxes, size)), xy, classes, size) ==
      Ok((Compress(boxes, KeepMask(boxes)), Compress(classes, KeepMask(boxes))))
  {
    var n := |boxes| - 1;
    var b' := boxes[..n];
    OwnedSplit(boxes, size, xy);
    DecodeOwnedLast(OwnedGroups(ScaledBoxes(b', size)), n, TotalPoints(ScaledBoxes(b', size)), boxes[n], classes, size, xy,
                    Compress(b', KeepMask(b')), Compress(classes, KeepMask(b')));
    KeptSnoc(boxes, classes);
  }

  /** The groups of an encoding are those of all but the last polygon, plus
      the last polygon's stretch of keypoints when it has points. */
  lemma OwnedSplit(boxes: seq<Polygon>, size: Size, xy: seq<Point>)
    requires |boxes| > 0
    requires Flatten(ScaledBoxes(boxes, size)).keypoints <= xy
    ensures var n := |boxes| - 1;
      var lo := TotalPoints(ScaledBoxes(boxes[..n], size));
      && OwnedGroups(ScaledBoxes(boxes, size)) ==
           OwnedGroups(ScaledBoxes(boxes[..n], size)) +
           (if |boxes[n]| > 0 then [Group(n, Range(lo, lo + |boxes[n]|))] else [])
      && lo + |boxes[n]| <= |xy|
      && xy[lo..lo + |boxes[n]|] == ScalePolygon(boxes[n], size)
  {
    var n := |boxes| - 1;
    var scaled := ScaledBoxes(boxes, size);
    BatchPrefix(boxes, size, n);
    var s' := scaled[..n];
    var prevKp := Flatten(s').keypoints;
    assert Flatten(scaled).keypoints == prevKp + scaled[n];
    assert Offset(scaled, n) == |prevKp|;
    assert scaled[n] == ScalePolygon(boxes[n], size);
    SliceOfPrefix(prevKp, scaled[n], xy);
  }

  /** Encoding, the identity transform and decoding give back exactly the
      polygons with more than two points, in their original order, each with
      its class; scores are not carried. */
  lemma RoundTrip(sample: Sample)
    requires Encode(sample).Ok?
    ensures Decode(Identity(Encode(sample).value)) ==
      Ok(Sample(sample.image,
                Compress(sample.boxes, KeepMask(sample.boxes)),
                Compress(sample.classes, KeepMask(sample.boxes)),
                None))
  {
    var size := SizeOf(sample.image);
    var scaled := ScaledBoxes(sample.boxes, SizeOf(sample.image));
    GroupByFlatten(scaled);
    DecodeOwned(sample.boxes, sample.classes, size, Flatten(scaled).keypoints);
  }
}
