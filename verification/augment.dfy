/** `megane/augment.py`: the earlier adapter. Encode denormalises the polygons
    with the sample's image size and flattens them; decode distributes the
    transformed keypoints into one list per box, keeps the boxes with more
    than two points and filters classes and scores with the same mask.

    The per-box lists are created with `[[]] * len(sample.boxes)`, which makes
    every entry the SAME list object. The model keeps the list objects
    explicit (`Slots`) so that this aliasing is reproduced, not assumed:
    `Decode` is the code as written, `DecodeFresh` the version with one new
    list per box. */
module Augment {
  import opened Common
  import opened Data
  import opened Keypoints
  import Misc

  /** The transform's keyword arguments and results: `image`, `keypoints`, `box_mapping`. */
  datatype Encoded = Encoded(image: Image, keypoints: seq<Point>, boxMapping: seq<int>)

  /** The transform that hands back its inputs. */
  function Identity(e: Encoded): Encoded
  {
    e
  }

  /** `encode(sample)`: the boxes are denormalised in batch mode with the
      sample image's size, then flattened. It cannot fail. */
  function Encode(sample: Sample): (r: Encoded)
    ensures r.image == sample.image
    ensures |r.keypoints| == |r.boxMapping| == TotalPoints(sample.boxes)
    ensures forall k :: 0 <= k < |r.boxMapping| ==> 0 <= r.boxMapping[k] < |sample.boxes|
  {
    var scaled := ScaledBoxes(sample.boxes, SizeOf(sample.image));
    var flat := Flatten(scaled);
    TotalPointsShape(scaled, sample.boxes);
    FlattenTags(scaled);
    Encoded(sample.image, flat.keypoints, flat.boxMapping)
  }

  /** Point `t` of box `i` becomes keypoint `Offset(boxes, i) + t`, in pixels,
      tagged with `i`: the keypoints are the denormalised boxes in order. */
  lemma EncodePlace(sample: Sample, i: nat, t: nat)
    requires i < |sample.boxes| && t < |sample.boxes[i]|
    ensures Offset(sample.boxes, i) + t < TotalPoints(sample.boxes)
    ensures Encode(sample).boxMapping[Offset(sample.boxes, i) + t] == i
    ensures Encode(sample).keypoints[Offset(sample.boxes, i) + t] ==
      ScalePoint(sample.boxes[i][t], SizeOf(sample.image))
  {
    ScaledPlace(sample.boxes, SizeOf(sample.image), i, t);
  }

  /** The box mapping never decreases, and box `i` owns exactly as many
      keypoints as it has points. */
  lemma EncodeMapping(sample: Sample)
    ensures forall a, b :: 0 <= a <= b < |Encode(sample).boxMapping| ==>
      Encode(sample).boxMapping[a] <= Encode(sample).boxMapping[b]
    ensures forall i :: 0 <= i < |sample.boxes| ==> multiset(Encode(sample).boxMapping)[i] == |sample.boxes[i]|
  {
    var scaled := ScaledBoxes(sample.boxes, SizeOf(sample.image));
    TotalPointsShape(scaled, sample.boxes);
    FlattenSorted(scaled);
    FlattenCounts(scaled);
  }

  // ---------------------------------------------------------------------
  // The per-box lists of decode, with their list objects made explicit
  // ---------------------------------------------------------------------

  /** `boxes[i]` is the list object `lists[refs[i]]`. */
  datatype Slots = Slots(refs: seq<nat>, lists: seq<seq<Point>>)

  predicate Valid(s: Slots)
  {
    forall i :: 0 <= i < |s.refs| ==> s.refs[i] < |s.lists|
  }

  /** `[[]] * n`: n references to one and the same empty list. */
  function SharedSlots(n: nat): (s: Slots)
    ensures Valid(s) && |s.refs| == n
  {
    Slots(seq(n, _ => 0), [[]])
  }

  /** `[[] for _ in range(n)]`: n distinct empty lists. */
  function FreshSlots(n: nat): (s: Slots)
    ensures Valid(s) && |s.refs| == n
  {
    Slots(seq(n, i requires 0 <= i < n => i), seq(n, _ => []))
  }

  /** `boxes[slot].append(p)`: appends to the list object that slot refers to. */
  function Append(s: Slots, slot: nat, p: Point): (r: Slots)
    requires Valid(s) && slot < |s.refs|
    ensures Valid(r) && r.refs == s.refs
  {
    Slots(s.refs, s.lists[s.refs[slot] := s.lists[s.refs[slot]] + [p]])
  }

  /** The first `n` iterations of `for mask, xy in zip(box_mapping, keypoints)`;
      an index outside the list raises IndexError. */
  function Fill(s: Slots, masks: seq<int>, kps: seq<Point>, n: nat): (r: Result<Slots>)
    requires Valid(s) && n <= |masks| && n <= |kps|
    ensures r.Ok? ==> Valid(r.value) && r.value.refs == s.refs
  {
    if n == 0 then Ok(s)
    else
      match Fill(s, masks, kps, n - 1)
      case Err(e) => Err(e)
      case Ok(s') =>
        match Wrap(masks[n - 1], |s'.refs|)
        case None => Err(IndexError)
        case Some(i) => Ok(Append(s', i, kps[n - 1]))
  }

  /** The lists as the code sees them after the loop. */
  function Contents(s: Slots): (r: seq<seq<Point>>)
    requires Valid(s)
    ensures |r| == |s.refs|
    ensures forall i :: 0 <= i < |s.refs| ==> r[i] == s.lists[s.refs[i]]
  {
    seq(|s.refs|, i requires 0 <= i < |s.refs| => s.lists[s.refs[i]])
  }

  /** The loop fails exactly when one of the first `n` tags is not a valid
      (possibly negative) index into the box list. */
  lemma {:induction false} FillOk(s: Slots, masks: seq<int>, kps: seq<Point>, n: nat)
    requires Valid(s) && n <= |masks| && n <= |kps|
    ensures Fill(s, masks, kps, n).Ok? <==> forall k :: 0 <= k < n ==> Wrap(masks[k], |s.refs|).Some?
  {
    if n > 0 {
      FillOk(s, masks, kps, n - 1);
    }
  }

  /** As written: every append goes to the one shared list, so after the loop
      that list holds all the zipped keypoints, in order, and every box sees it. */
  lemma {:induction false} FillShared(count: nat, masks: seq<int>, kps: seq<Point>, n: nat)
    requires n <= |masks| && n <= |kps|
    ensures Fill(SharedSlots(count), masks, kps, n).Ok? ==>
      Fill(SharedSlots(count), masks, kps, n).value == Slots(seq(count, _ => 0), [kps[..n]])
  {
    if n > 0 {
      FillShared(count, masks, kps, n - 1);
      assert kps[..n - 1] + [kps[n - 1]] == kps[..n];
    }
  }

  /** The keypoints whose tag designates box `i` among `count` boxes, in
      keypoint order, over the first `n` zipped pairs. */
  function Owned(masks: seq<int>, kps: seq<Point>, n: nat, count: nat, i: nat): seq<Point>
    requires n <= |masks| && n <= |kps|
  {
    if n == 0 then []
    else Owned(masks, kps, n - 1, count, i) + (if Wrap(masks[n - 1], count) == Some(i) then [kps[n - 1]] else [])
  }

  /** The lists `decode` with one list per box ends up with: box `i` holds the
      zipped keypoints tagged `i`. */
  function Distributed(outputs: Encoded, count: nat): (r: seq<Polygon>)
    ensures |r| == count
  {
    var m := Min(|outputs.boxMapping|, |outputs.keypoints|);
    seq(count, i requires 0 <= i < count => Owned(outputs.boxMapping, outputs.keypoints, m, count, i))
  }

  /** With one list per box, box `i` collects exactly the keypoints tagged `i`. */
  lemma {:induction false} FillFresh(count: nat, masks: seq<int>, kps: seq<Point>, n: nat)
    requires n <= |masks| && n <= |kps|
    ensures Fill(FreshSlots(count), masks, kps, n).Ok? ==>
      Fill(FreshSlots(count), masks, kps, n).value ==
        Slots(seq(count, i requires 0 <= i < count => i), seq(count, i requires 0 <= i < count => Owned(masks, kps, n, count, i)))
  {
    if n > 0 {
      FillFresh(count, masks, kps, n - 1);
      var f := Fill(FreshSlots(count), masks, kps, n - 1);
      if f.Ok? && Wrap(masks[n - 1], count).Some? {
        var i := Wrap(masks[n - 1], count).value;
        var after := Append(f.value, i, kps[n - 1]);
        assert after.lists == f.value.lists[i := f.value.lists[i] + [kps[n - 1]]];
        forall j | 0 <= j < count
          ensures after.lists[j] == Owned(masks, kps, n, count, j)
        {
        }
      }
    }
  }

  // ---------------------------------------------------------------------
  // decode
  // ---------------------------------------------------------------------

  /** `decode(sample, outputs)` from line 61 on, given the per-box lists the
      code starts from. The keypoints are normalised with the ORIGINAL
      sample's image size; the image is the transform's output. When classes
      (and scores) line up with the boxes, the outputs line up too. */
  function DecodeWith(slots: Slots, sample: Sample, outputs: Encoded): (r: Result<Sample>)
    requires Valid(slots) && |slots.refs| == |sample.boxes|
    ensures r.Ok? ==> r.value.image == outputs.image
    ensures r.Ok? ==> (sample.scores.None? <==> r.value.scores.None?)
    ensures r.Ok? && |sample.classes| == |sample.boxes| ==> |r.value.classes| == |r.value.boxes|
    ensures r.Ok? && sample.scores.Some? && |sample.scores.value| == |sample.boxes| ==>
      |r.value.scores.value| == |r.value.boxes|
  {
    var size := SizeOf(sample.image);
    var m := Min(|outputs.boxMapping|, |outputs.keypoints|);
    match Fill(slots, outputs.boxMapping, outputs.keypoints, m)
    case Err(e) => Err(e)
    case Ok(filled) =>
      var boxes := Contents(filled);
      var keeps := KeepMask(boxes);
      var normalized := Misc.Batch(UnscalePolygon, boxes, size);
      CompressLockstep(normalized, sample.classes, keeps);
      if sample.scores.Some? then
        CompressLockstep(normalized, sample.scores.value, keeps);
        Ok(Sample(outputs.image, Compress(normalized, keeps), Compress(sample.classes, keeps), FilterScores(sample.scores, keeps)))
      else
        Ok(Sample(outputs.image, Compress(normalized, keeps), Compress(sample.classes, keeps), FilterScores(sample.scores, keeps)))
  }

  /** The scores, when there are any, filtered with the boxes' mask. */
  function FilterScores(scores: Option<seq<real>>, keeps: seq<bool>): (r: Option<seq<real>>)
    ensures r.Some? <==> scores.Some?
    ensures r.Some? ==> r.value == Compress(scores.value, keeps)
  {
    match scores
    case None => None
    case Some(s) => Some(Compress(s, keeps))
  }

  /** `decode` as written: the lists come from `[[]] * len(sample.boxes)`. */
  function Decode(sample: Sample, outputs: Encoded): Result<Sample>
  {
    DecodeWith(SharedSlots(|sample.boxes|), sample, outputs)
  }

  /** `decode` with one new list per box. */
  function DecodeFresh(sample: Sample, outputs: Encoded): Result<Sample>
  {
    DecodeWith(FreshSlots(|sample.boxes|), sample, outputs)
  }

  /** `Augmentation.__call__`: encode, transform, decode against the original sample. */
  function Call(transform: Encoded -> Encoded, sample: Sample): Result<Sample>
  {
    Decode(sample, transform(Encode(sample)))
  }

  /** `Augmentation.__call__` over the corrected decode. */
  function CallFresh(transform: Encoded -> Encoded, sample: Sample): Result<Sample>
  {
    DecodeFresh(sample, transform(Encode(sample)))
  }

  lemma BatchUniform(poly: Polygon, count: nat, size: Size)
    ensures Misc.Batch(UnscalePolygon, seq(count, _ => poly), size) == seq(count, _ => UnscalePolygon(poly, size))
  {
  }

  /** `decode` as written: it fails exactly when a zipped tag is not a valid
      index into the sample's boxes; otherwise EVERY box is the whole list of
      zipped keypoints, normalised, so either all boxes survive (more than two
      keypoints in all) or none does, and classes and scores are cut to the
      number of boxes or emptied accordingly. */
  lemma DecodeAliased(sample: Sample, outputs: Encoded)
    ensures var r := Decode(sample, outputs);
      var count := |sample.boxes|;
      var m := Min(|outputs.boxMapping|, |outputs.keypoints|);
      var all := UnscalePolygon(outputs.keypoints[..m], SizeOf(sample.image));
      var keep := m > 2;
      && (r.Ok? <==> forall k :: 0 <= k < m ==> Wrap(outputs.boxMapping[k], count).Some?)
      && (r.Ok? ==>
            r.value.image == outputs.image &&
            r.value.boxes == (if keep then seq(count, _ => all) else []) &&
            r.value.classes == (if keep then sample.classes[..Min(|sample.classes|, count)] else []) &&
            r.value.scores == match sample.scores
              case None => None
              case Some(s) => Some(if keep then s[..Min(|s|, count)] else []))
  {
    var count := |sample.boxes|;
    var size := SizeOf(sample.image);
    var m := Min(|outputs.boxMapping|, |outputs.keypoints|);
    var keep := m > 2;
    FillOk(SharedSlots(count), outputs.boxMapping, outputs.keypoints, m);
    SharedContents(count, outputs.boxMapping, outputs.keypoints, m);
    var list := outputs.keypoints[..m];
    UniformBoxes(list, count, size);
    CompressUniform(sample.classes, keep, count);
    if sample.scores.Some? {
      CompressUniform(sample.scores.value, keep, count);
    }
  }

  /** As written, every box sees the whole list of zipped keypoints. */
  lemma SharedContents(count: nat, masks: seq<int>, kps: seq<Point>, m: nat)
    requires m <= |masks| && m <= |kps|
    ensures Fill(SharedSlots(count), masks, kps, m).Ok? ==>
      Contents(Fill(SharedSlots(count), masks, kps, m).value) == seq(count, _ => kps[..m])
  {
    FillShared(count, masks, kps, m);
  }

  /** `count` copies of one list are kept all together or dropped all together. */
  lemma UniformBoxes(list: Polygon, count: nat, size: Size)
    ensures var boxes := seq(count, _ => list);
      var keep := |list| > 2;
      && KeepMask(boxes) == seq(count, _ => keep)
      && Compress(Misc.Batch(UnscalePolygon, boxes, size), KeepMask(boxes)) ==
           if keep then seq(count, _ => UnscalePolygon(list, size)) else []
  {
    var keep := |list| > 2;
    assert KeepMask(seq(count, _ => list)) == seq(count, _ => keep);
    BatchUniform(list, count, size);
    CompressUniform(seq(count, _ => UnscalePolygon(list, size)), keep, count);
    assert seq(count, _ => UnscalePolygon(list, size))[..Min(count, count)] == seq(count, _ => UnscalePolygon(list, size));
  }

  /** `decode` with one list per box: box `i` is built from exactly the
      keypoints tagged `i`, in keypoint order; a box survives when it has more
      than two of them, and classes and scores follow the same mask. */
  lemma DecodeFreshSpec(sample: Sample, outputs: Encoded)
    ensures var r := DecodeFresh(sample, outputs);
      var count := |sample.boxes|;
      var m := Min(|outputs.boxMapping|, |outputs.keypoints|);
      var owned := Distributed(outputs, count);
      var keeps := KeepMask(owned);
      && (r.Ok? <==> forall k :: 0 <= k < m ==> Wrap(outputs.boxMapping[k], count).Some?)
      && (r.Ok? ==>
            r.value == Sample(outputs.image,
                              Compress(Misc.Batch(UnscalePolygon, owned, SizeOf(sample.image)), keeps),
                              Compress(sample.classes, keeps),
                              FilterScores(sample.scores, keeps)))
  {
    var count := |sample.boxes|;
    var m := Min(|outputs.boxMapping|, |outputs.keypoints|);
    FillOk(FreshSlots(count), outputs.boxMapping, outputs.keypoints, m);
    FillFresh(count, outputs.boxMapping, outputs.keypoints, m);
    var f := Fill(FreshSlots(count), outputs.boxMapping, outputs.keypoints, m);
    if f.Ok? {
      assert Contents(f.value) == Distributed(outputs, count);
    }
  }

  // ---------------------------------------------------------------------
  // Round trips through the identity transform
  // ---------------------------------------------------------------------

  /** `Owned` over the first `n` pairs depends only on those pairs. */
  lemma {:induction false} OwnedPrefix(a: seq<int>, b: seq<Point>, a': seq<int>, b': seq<Point>, n: nat, count: nat, i: nat)
    requires n <= |a| && n <= |b| && n <= |a'| && n <= |b'|
    requires forall k :: 0 <= k < n ==> a[k] == a'[k] && b[k] == b'[k]
    ensures Owned(a, b, n, count, i) == Owned(a', b', n, count, i)
  {
    if n > 0 {
      OwnedPrefix(a, b, a', b', n - 1, count, i);
    }
  }

  /** Appending a run of keypoints all tagged `t` adds them to box `t` only. */
  lemma {:induction false} OwnedRun(masks: seq<int>, kps: seq<Point>, t: nat, ys: seq<Point>, count: nat, i: nat, k: nat)
    requires |masks| == |kps| && t < count && k <= |ys|
    ensures Owned(masks + Repeat(t, |ys|), kps + ys, |masks| + k, count, i) ==
      Owned(masks, kps, |masks|, count, i) + (if i == t then ys[..k] else [])
  {
    var a := masks + Repeat(t, |ys|);
    var b := kps + ys;
    if k == 0 {
      OwnedPrefix(a, b, masks, kps, |masks|, count, i);
      assert ys[..0] == [];
    } else {
      OwnedRun(masks, kps, t, ys, count, i, k - 1);
      assert a[|masks| + k - 1] == t;
      assert b[|masks| + k - 1] == ys[k - 1];
      assert ys[..k - 1] + [ys[k - 1]] == ys[..k];
    }
  }

  lemma OwnedRunFull(masks: seq<int>, kps: seq<Point>, t: nat, ys: seq<Point>, count: nat, i: nat)
    requires |masks| == |kps| && t < count
    ensures Owned(masks + Repeat(t, |ys|), kps + ys, |masks| + |ys|, count, i) ==
      Owned(masks, kps, |masks|, count, i) + (if i == t then ys else [])
  {
    OwnedRun(masks, kps, t, ys, count, i, |ys|);
    assert ys[..|ys|] == ys;
  }

  /** Distributing a flattened polygon list back by tag, with one list per
      box, gives every polygon back; boxes beyond the list get nothing. */
  lemma {:induction false} OwnedFlatten(polys: seq<Polygon>, count: nat, i: nat)
    requires |polys| <= count
    ensures Owned(Flatten(polys).boxMapping, Flatten(polys).keypoints, TotalPoints(polys), count, i) ==
      if i < |polys| then polys[i] else []
  {
    if |polys| > 0 {
      var n := |polys| - 1;
      var p := polys[..n];
      var prev := Flatten(p);
      OwnedFlatten(p, count, i);
      OwnedRunFull(prev.boxMapping, prev.keypoints, n, polys[n], count, i);
      assert Flatten(polys) == Flat(prev.keypoints + polys[n], prev.boxMapping + Repeat(n, |polys[n]|));
      assert i < n ==> p[i] == polys[i];
    }
  }

  /** The identity transform through `decode` as written: it succeeds, and
      when there are more than two points in all, EVERY box comes back as the
      concatenation of all the polygons; otherwise no box survives. */
  lemma AliasedRoundTrip(sample: Sample)
    ensures var total := TotalPoints(sample.boxes);
      var count := |sample.boxes|;
      var all := Flatten(sample.boxes).keypoints;
      var keep := total > 2;
      Call(Identity, sample) == Ok(Sample(
        sample.image,
        if keep then seq(count, _ => all) else [],
        if keep then sample.classes[..Min(|sample.classes|, count)] else [],
        match sample.scores
        case None => None
        case Some(s) => Some(if keep then s[..Min(|s|, count)] else [])))
  {
    var e := Encode(sample);
    var size := SizeOf(sample.image);
    assert e.keypoints[..|e.keypoints|] == e.keypoints;
    UnscaleFlatten(sample.boxes, size);
    DecodeAliased(sample, e);
  }

  /** The identity transform through the corrected `decode` gives the sample
      back, minus the polygons of at most two points, with classes and scores
      filtered alongside. */
  lemma FreshRoundTrip(sample: Sample)
    ensures var keeps := KeepMask(sample.boxes);
      CallFresh(Identity, sample) == Ok(Sample(
        sample.image,
        Compress(sample.boxes, keeps),
        Compress(sample.classes, keeps),
        FilterScores(sample.scores, keeps)))
  {
    var size := SizeOf(sample.image);
    var e := Encode(sample);
    var count := |sample.boxes|;
    var m := Min(|e.boxMapping|, |e.keypoints|);
    assert forall k :: 0 <= k < m ==> Wrap(e.boxMapping[k], count).Some?;
    DistributedEncode(sample);
    UnscaleScaled(sample.boxes, size);
    var owned := Distributed(e, count);
    assert KeepMask(owned) == KeepMask(sample.boxes);
    assert Misc.Batch(UnscalePolygon, owned, size) == sample.boxes;
    DecodeFreshSpec(sample, e);
  }

  /** With one list per box, the identity transform's keypoints are
      distributed back into exactly the denormalised polygons. */
  lemma DistributedEncode(sample: Sample)
    ensures Distributed(Encode(sample), |sample.boxes|) == ScaledBoxes(sample.boxes, SizeOf(sample.image))
  {
    var e := Encode(sample);
    var count := |sample.boxes|;
    var scaled := ScaledBoxes(sample.boxes, SizeOf(sample.image));
    TotalPointsShape(scaled, sample.boxes);
    var owned := Distributed(e, count);
    forall i | 0 <= i < count
      ensures owned[i] == scaled[i]
    {
      OwnedFlatten(scaled, count, i);
    }
  }

  /** Normalising the denormalised polygons gives them back. */
  lemma UnscaleScaled(boxes: seq<Polygon>, size: Size)
    ensures Misc.Batch(UnscalePolygon, ScaledBoxes(boxes, size), size) == boxes
  {
    forall i | 0 <= i < |boxes|
      ensures Misc.Batch(UnscalePolygon, ScaledBoxes(boxes, size), size)[i] == boxes[i]
    {
      UnscaleScale(boxes[i], size);
    }
  }

  /** A unit triangle. */
  function Triangle(): Polygon
  {
    [Point(0.0, 0.0), Point(1.0, 0.0), Point(0.0, 1.0)]
  }

  /** Two triangles of classes 0 and 1 on a one-pixel image, without scores. */
  function TwoTriangles(): Sample
  {
    Sample(Image(1, 1, []), [Triangle(), Triangle()], [0, 1], None)
  }

  lemma TwoTrianglesFlat()
    ensures Flatten(TwoTriangles().boxes).keypoints == Triangle() + Triangle()
    ensures TotalPoints(TwoTriangles().boxes) == 6
  {
    var boxes := TwoTriangles().boxes;
    assert boxes[..1] == [Triangle()];
    assert boxes[..1][..0] == [];
  }

  /** As written, the identity transform gives BOTH boxes back as the six
      points of both triangles. */
  lemma AliasingCounterexample()
    ensures Call(Identity, TwoTriangles()) ==
      Ok(Sample(Image(1, 1, []), [Triangle() + Triangle(), Triangle() + Triangle()], [0, 1], None))
  {
    var tri := Triangle();
    var sample := TwoTriangles();
    TwoTrianglesFlat();
    AliasedRoundTrip(sample);
    assert seq(2, _ => tri + tri) == [tri + tri, tri + tri];
    assert sample.classes[..2] == [0, 1];
  }

  /** The corrected decode gives the same sample back unchanged. */
  lemma AliasingFixed()
    ensures CallFresh(Identity, TwoTriangles()) == Ok(TwoTriangles())
  {
    FreshRoundTrip(TwoTriangles());
    TwoTrianglesKept();
  }

  lemma TwoTrianglesKept()
    ensures var boxes := TwoTriangles().boxes;
      && Compress(boxes, KeepMask(boxes)) == boxes
      && Compress(TwoTriangles().classes, KeepMask(boxes)) == TwoTriangles().classes
  {
    var sample := TwoTriangles();
    assert KeepMask(sample.boxes) == seq(2, _ => true);
    CompressUniform(sample.boxes, true, 2);
    CompressUniform(sample.classes, true, 2);
    assert sample.boxes[..2] == sample.boxes;
    assert sample.classes[..2] == sample.classes;
  }
}
