/** The two list manipulations both augmentation adapters are built from:
    flattening polygons into keypoints tagged with their owning polygon's index
    (`box_mapping`), and `toolz.groupby` regrouping indices by owner. */
module Keypoints {
  import opened Common
  import opened Data
  import Misc

  /** `[i] * n` */
  function Repeat(i: int, n: nat): (r: seq<int>)
    ensures |r| == n
    ensures forall k :: 0 <= k < n ==> r[k] == i
  {
    seq(n, _ => i)
  }

  /** The indices `lo, lo + 1, ..., hi - 1`. */
  function Range(lo: nat, hi: nat): (r: seq<nat>)
    requires lo <= hi
    ensures |r| == hi - lo
    ensures forall k :: 0 <= k < |r| ==> r[k] == lo + k
  {
    seq(hi - lo, k requires 0 <= k < hi - lo => lo + k)
  }

  /** Number of points over all polygons. */
  function TotalPoints(polys: seq<Polygon>): nat
  {
    if |polys| == 0 then 0 else TotalPoints(polys[..|polys| - 1]) + |polys[|polys| - 1]|
  }

  /** Where the keypoints of polygon `i` start: the points of the polygons before it. */
  function Offset(polys: seq<Polygon>, i: nat): nat
    requires i <= |polys|
  {
    TotalPoints(polys[..i])
  }

  /** Two polygon lists of the same shape: same count, same per-polygon sizes. */
  predicate SameShape(a: seq<Polygon>, b: seq<Polygon>)
  {
    |a| == |b| && forall i :: 0 <= i < |a| ==> |a[i]| == |b[i]|
  }

  /** The flat keypoint list and the parallel owner list. */
  datatype Flat = Flat(keypoints: seq<Point>, boxMapping: seq<int>)

  /** The encode loop: for each polygon `i` in turn, append its points to the
      keypoints and `[i] * len(polygon)` to the box mapping. */
  function Flatten(polys: seq<Polygon>): (r: Flat)
    ensures |r.keypoints| == |r.boxMapping| == TotalPoints(polys)
  {
    if |polys| == 0 then Flat([], [])
    else
      var n := |polys| - 1;
      var prev := Flatten(polys[..n]);
      Flat(prev.keypoints + polys[n], prev.boxMapping + Repeat(n, |polys[n]|))
  }

  lemma {:induction false} TotalPointsShape(a: seq<Polygon>, b: seq<Polygon>)
    requires SameShape(a, b)
    ensures TotalPoints(a) == TotalPoints(b)
  {
    if |a| > 0 {
      var n := |a| - 1;
      assert SameShape(a[..n], b[..n]);
      TotalPointsShape(a[..n], b[..n]);
    }
  }

  /** Offsets grow by the size of each polygon. */
  lemma OffsetNext(polys: seq<Polygon>, i: nat)
    requires i < |polys|
    ensures Offset(polys, i + 1) == Offset(polys, i) + |polys[i]|
  {
    assert polys[..i + 1][..i] == polys[..i];
  }

  lemma {:induction false} OffsetMonotone(polys: seq<Polygon>, i: nat, j: nat)
    requires i <= j <= |polys|
    ensures Offset(polys, i) <= Offset(polys, j)
    decreases j - i
  {
    if i < j {
      OffsetNext(polys, i);
      OffsetMonotone(polys, i + 1, j);
    }
  }

  /** Polygon `i` owns the keypoints from `Offset(polys, i)` on: point `t` of
      polygon `i` is keypoint `Offset(polys, i) + t`, tagged `i`. */
  lemma {:induction false} FlattenPlace(polys: seq<Polygon>, i: nat, t: nat)
    requires i < |polys| && t < |polys[i]|
    ensures Offset(polys, i) + t < TotalPoints(polys)
    ensures Flatten(polys).boxMapping[Offset(polys, i) + t] == i
    ensures Flatten(polys).keypoints[Offset(polys, i) + t] == polys[i][t]
  {
    var n := |polys| - 1;
    var p := polys[..n];
    var f := Flatten(polys);
    var prev := Flatten(p);
    assert TotalPoints(polys) == TotalPoints(p) + |polys[n]|;
    if i < n {
      FlattenPlace(p, i, t);
      assert polys[..i] == p[..i];
      var k := Offset(p, i) + t;
      assert f.boxMapping[k] == prev.boxMapping[k];
      assert f.keypoints[k] == prev.keypoints[k];
    } else {
      var k := TotalPoints(p) + t;
      assert f.boxMapping[k] == Repeat(n, |polys[n]|)[t];
      assert f.keypoints[k] == polys[n][t];
    }
  }

  /** Every keypoint can be traced back: its tag `i` is a polygon index, the
      keypoint lies in polygon `i`'s stretch and is that polygon's point. */
  lemma {:induction false} FlattenTraceable(polys: seq<Polygon>)
    ensures forall k :: 0 <= k < TotalPoints(polys) ==>
      var i := Flatten(polys).boxMapping[k];
      0 <= i < |polys| &&
      Offset(polys, i) <= k < Offset(polys, i) + |polys[i]| &&
      Flatten(polys).keypoints[k] == polys[i][k - Offset(polys, i)]
  {
    if |polys| > 0 {
      var n := |polys| - 1;
      var p := polys[..n];
      FlattenTraceable(p);
      var f := Flatten(polys);
      var prev := Flatten(p);
      forall k | 0 <= k < TotalPoints(polys)
        ensures 0 <= f.boxMapping[k] < |polys|
        ensures Offset(polys, f.boxMapping[k]) <= k < Offset(polys, f.boxMapping[k]) + |polys[f.boxMapping[k]]|
        ensures f.keypoints[k] == polys[f.boxMapping[k]][k - Offset(polys, f.boxMapping[k])]
      {
        if k < TotalPoints(p) {
          var i := prev.boxMapping[k];
          assert f.boxMapping[k] == i;
          assert polys[..i] == p[..i];
        } else {
          assert f.boxMapping[k] == n;
        }
      }
    }
  }

  /** The box mapping never decreases. */
  lemma FlattenSorted(polys: seq<Polygon>)
    ensures forall a, b :: 0 <= a <= b < TotalPoints(polys) ==>
      Flatten(polys).boxMapping[a] <= Flatten(polys).boxMapping[b]
  {
    var f := Flatten(polys);
    FlattenTraceable(polys);
    forall a, b | 0 <= a <= b < TotalPoints(polys)
      ensures f.boxMapping[a] <= f.boxMapping[b]
    {
      var i, j := f.boxMapping[a], f.boxMapping[b];
      if j < i {
        OffsetNext(polys, j);
        OffsetMonotone(polys, j + 1, i);
      }
    }
  }

  lemma {:induction false} RepeatCount(v: int, n: nat, x: int)
    ensures multiset(Repeat(v, n))[x] == if x == v then n else 0
  {
    if n > 0 {
      assert Repeat(v, n) == Repeat(v, n - 1) + [v];
      RepeatCount(v, n - 1, x);
    }
  }

  /** Index `i` occurs exactly `len(boxes[i])` times in the box mapping, and
      nothing that is not a polygon index occurs at all. */
  lemma {:induction false} FlattenCounts(polys: seq<Polygon>)
    ensures forall i :: 0 <= i < |polys| ==> multiset(Flatten(polys).boxMapping)[i] == |polys[i]|
    ensures forall x :: (x < 0 || x >= |polys|) ==> multiset(Flatten(polys).boxMapping)[x] == 0
  {
    if |polys| > 0 {
      var n := |polys| - 1;
      var p := polys[..n];
      FlattenCounts(p);
      var prev := Flatten(p).boxMapping;
      var m := Flatten(polys).boxMapping;
      assert multiset(m) == multiset(prev) + multiset(Repeat(n, |polys[n]|));
      forall x
        ensures multiset(m)[x] == multiset(prev)[x] + (if x == n then |polys[n]| else 0)
      {
        RepeatCount(n, |polys[n]|, x);
      }
    }
  }

  /** The largest index of a polygon that has at least one point, or -1. */
  function LastNonEmpty(polys: seq<Polygon>): (r: int)
    ensures -1 <= r < |polys|
    ensures r >= 0 ==> |polys[r]| > 0
    ensures forall i :: r < i < |polys| ==> |polys[i]| == 0
  {
    if |polys| == 0 then -1
    else if |polys[|polys| - 1]| > 0 then |polys| - 1
    else LastNonEmpty(polys[..|polys| - 1])
  }

  /** `max(xs)`, defined for non-empty lists only. */
  function Max(xs: seq<int>): (r: int)
    requires |xs| > 0
    ensures r in xs
    ensures forall k :: 0 <= k < |xs| ==> xs[k] <= r
  {
    if |xs| == 1 then xs[0]
    else
      var m := Max(xs[..|xs| - 1]);
      if xs[|xs| - 1] > m then xs[|xs| - 1] else m
  }

  /** The box mapping is empty exactly when no polygon has a point, and then
      its maximum is the last polygon that does. */
  lemma {:induction false} FlattenMax(polys: seq<Polygon>)
    ensures |Flatten(polys).boxMapping| == 0 <==> LastNonEmpty(polys) == -1
    ensures |Flatten(polys).boxMapping| > 0 ==> Max(Flatten(polys).boxMapping) == LastNonEmpty(polys)
  {
    if |polys| > 0 {
      var n := |polys| - 1;
      var p := polys[..n];
      FlattenMax(p);
      FlattenTraceable(p);
      var prev := Flatten(p).boxMapping;
      var m := Flatten(polys).boxMapping;
      if |polys[n]| > 0 {
        var mx := Max(m);
        assert m[|m| - 1] == n;
        forall k | 0 <= k < |m|
          ensures m[k] <= n
        {
          if k < |prev| {
            assert m[k] == prev[k];
          }
        }
        assert mx in m;
      } else {
        assert m == prev;
        if |prev| > 0 {
          assert LastNonEmpty(polys) == LastNonEmpty(p);
        }
      }
    }
  }

  lemma {:induction false} LastNonEmptyShape(a: seq<Polygon>, b: seq<Polygon>)
    requires SameShape(a, b)
    ensures LastNonEmpty(a) == LastNonEmpty(b)
  {
    if |a| > 0 {
      var n := |a| - 1;
      assert SameShape(a[..n], b[..n]);
      LastNonEmptyShape(a[..n], b[..n]);
    }
  }

  // ---------------------------------------------------------------------
  // toolz.groupby over enumerate(box_mapping)
  // ---------------------------------------------------------------------

  /** The keypoint indices carrying one box index, in the order collected. */
  datatype Group = Group(key: int, members: seq<nat>)

  /** One step of `groupby`: append `j` to `key`'s group, or open a new group
      for `key` at the end (dictionaries keep insertion order). */
  function Insert(groups: seq<Group>, key: int, j: nat): seq<Group>
  {
    if |groups| == 0 then [Group(key, [j])]
    else if groups[0].key == key then [Group(key, groups[0].members + [j])] + groups[1..]
    else [groups[0]] + Insert(groups[1..], key, j)
  }

  /** `toolz.groupby(lambda i: i[1], enumerate(masks))`, keeping only the
      positions of each group. */
  function GroupBy(masks: seq<int>): seq<Group>
  {
    if |masks| == 0 then []
    else
      var n := |masks| - 1;
      Insert(GroupBy(masks[..n]), masks[n], n)
  }

  /** Reference definition: the positions holding `key`, ascending. */
  function Positions(masks: seq<int>, key: int): seq<nat>
  {
    if |masks| == 0 then []
    else
      var n := |masks| - 1;
      Positions(masks[..n], key) + (if masks[n] == key then [n] else [])
  }

  /** Reference definition: the distinct values, in order of first appearance. */
  function FirstAppearances(masks: seq<int>): seq<int>
  {
    if |masks| == 0 then []
    else
      var n := |masks| - 1;
      FirstAppearances(masks[..n]) + (if masks[n] in masks[..n] then [] else [masks[n]])
  }

  /** `key`'s positions are exactly the indices where it occurs, in increasing order. */
  lemma {:induction false} PositionsSpec(masks: seq<int>, key: int)
    ensures forall j :: j in Positions(masks, key) <==> 0 <= j < |masks| && masks[j] == key
    ensures forall a, b :: 0 <= a < b < |Positions(masks, key)| ==>
      Positions(masks, key)[a] < Positions(masks, key)[b]
  {
    if |masks| > 0 {
      var n := |masks| - 1;
      PositionsSpec(masks[..n], key);
      var prev := Positions(masks[..n], key);
      assert forall a :: 0 <= a < |prev| ==> prev[a] in prev;
      assert forall a :: 0 <= a < |prev| ==> prev[a] < n;
    }
  }

  lemma {:induction false} PositionsAbsent(masks: seq<int>, key: int)
    requires key !in masks
    ensures Positions(masks, key) == []
  {
    if |masks| > 0 {
      var n := |masks| - 1;
      assert key !in masks[..n];
      PositionsAbsent(masks[..n], key);
    }
  }

  /** Each value occurs once in the first-appearance list, and exactly the
      values of `masks` occur there. */
  lemma {:induction false} FirstAppearancesSpec(masks: seq<int>)
    ensures forall x :: x in FirstAppearances(masks) <==> x in masks
    ensures forall a, b :: 0 <= a < b < |FirstAppearances(masks)| ==>
      FirstAppearances(masks)[a] != FirstAppearances(masks)[b]
  {
    if |masks| > 0 {
      var n := |masks| - 1;
      FirstAppearancesSpec(masks[..n]);
      assert masks == masks[..n] + [masks[n]];
    }
  }

  lemma {:induction false} InsertNew(groups: seq<Group>, key: int, j: nat)
    requires forall u :: 0 <= u < |groups| ==> groups[u].key != key
    ensures Insert(groups, key, j) == groups + [Group(key, [j])]
  {
    if |groups| > 0 {
      InsertNew(groups[1..], key, j);
    }
  }

  lemma {:induction false} InsertExisting(groups: seq<Group>, key: int, j: nat, t: nat)
    requires t < |groups| && groups[t].key == key
    requires forall u :: 0 <= u < t ==> groups[u].key != key
    ensures Insert(groups, key, j) == groups[t := Group(key, groups[t].members + [j])]
  {
    if t > 0 {
      InsertExisting(groups[1..], key, j, t - 1);
    }
  }

  /** The reference grouping: one group per distinct value, in order of first
      appearance, holding that value's positions. */
  function Grouping(masks: seq<int>): (r: seq<Group>)
    ensures |r| == |FirstAppearances(masks)|
  {
    var keys := FirstAppearances(masks);
    seq(|keys|, t requires 0 <= t < |keys| => Group(keys[t], Positions(masks, keys[t])))
  }

  lemma GroupBySnoc(masks: seq<int>, x: int)
    ensures GroupBy(masks + [x]) == Insert(GroupBy(masks), x, |masks|)
  {
    assert (masks + [x])[..|masks|] == masks;
  }

  lemma PositionsSnoc(masks: seq<int>, x: int, k: int)
    ensures Positions(masks + [x], k) == Positions(masks, k) + (if x == k then [|masks|] else [])
  {
    assert (masks + [x])[..|masks|] == masks;
  }

  lemma FirstAppearancesSnoc(masks: seq<int>, x: int)
    ensures FirstAppearances(masks + [x]) == FirstAppearances(masks) + (if x in masks then [] else [x])
  {
    assert (masks + [x])[..|masks|] == masks;
  }

  /** Step of the grouping when the value was seen before: its group grows. */
  lemma {:induction false} GroupingSeen(p: seq<int>, x: int)
    requires x in p
    ensures Grouping(p + [x]) == Insert(Grouping(p), x, |p|)
  {
    FirstAppearancesSpec(p);
    FirstAppearancesSnoc(p, x);
    var d := FirstAppearances(p);
    var gs := Grouping(p);
    assert x in d;
    var t :| 0 <= t < |d| && d[t] == x;
    assert forall u :: 0 <= u < t ==> gs[u].key == d[u] != x;
    InsertExisting(gs, x, |p|, t);
    var r := Insert(gs, x, |p|);
    var g := Grouping(p + [x]);
    forall u | 0 <= u < |d|
      ensures r[u] == g[u]
    {
      PositionsSnoc(p, x, d[u]);
      if u != t {
        assert d[u] != x;
      }
    }
  }

  /** Step of the grouping when the value is new: a group opens at the end. */
  lemma {:induction false} GroupingNew(p: seq<int>, x: int)
    requires x !in p
    ensures Grouping(p + [x]) == Insert(Grouping(p), x, |p|)
  {
    FirstAppearancesSpec(p);
    FirstAppearancesSnoc(p, x);
    var d := FirstAppearances(p);
    var gs := Grouping(p);
    assert forall u :: 0 <= u < |gs| ==> gs[u].key == d[u] != x;
    InsertNew(gs, x, |p|);
    var r := Insert(gs, x, |p|);
    var g := Grouping(p + [x]);
    forall u | 0 <= u < |d| + 1
      ensures r[u] == g[u]
    {
      if u < |d| {
        PositionsSnoc(p, x, d[u]);
        assert d[u] != x;
      } else {
        PositionsSnoc(p, x, x);
        PositionsAbsent(p, x);
      }
    }
  }

  /** `groupby` visits the box indices in order of first appearance, and each
      group lists its keypoint positions in keypoint order. */
  lemma {:induction false} GroupByFirstAppearance(masks: seq<int>)
    ensures GroupBy(masks) == Grouping(masks)
  {
    if |masks| > 0 {
      var n := |masks| - 1;
      var p := masks[..n];
      var x := masks[n];
      assert masks == p + [x];
      GroupByFirstAppearance(p);
      GroupBySnoc(p, x);
      if x in p {
        GroupingSeen(p, x);
      } else {
        GroupingNew(p, x);
      }
    }
  }

  /** The group keys are exactly the values of the mapping. */
  lemma GroupByKeys(masks: seq<int>)
    ensures forall u :: 0 <= u < |GroupBy(masks)| ==> GroupBy(masks)[u].key in masks
    ensures forall x :: x in masks ==> x in Keys(GroupBy(masks))
  {
    GroupByFirstAppearance(masks);
    FirstAppearancesSpec(masks);
    var keys := FirstAppearances(masks);
    forall x | x in masks
      ensures x in Keys(GroupBy(masks))
    {
      var t :| 0 <= t < |keys| && keys[t] == x;
      assert Keys(GroupBy(masks))[t] == x;
    }
  }

  /** The keys of the groups, in order. */
  function Keys(groups: seq<Group>): (r: seq<int>)
    ensures |r| == |groups|
    ensures forall t :: 0 <= t < |groups| ==> r[t] == groups[t].key
  {
    seq(|groups|, t requires 0 <= t < |groups| => groups[t].key)
  }

  /** Reference grouping of a flattened polygon list: one group per polygon
      that has points, in polygon order, holding that polygon's keypoint range. */
  function OwnedGroups(polys: seq<Polygon>): seq<Group>
  {
    if |polys| == 0 then []
    else
      var n := |polys| - 1;
      OwnedGroups(polys[..n]) +
        (if |polys[n]| > 0 then [Group(n, Range(Offset(polys, n), Offset(polys, n) + |polys[n]|))] else [])
  }

  /** Grouping a run of `c` copies of a value not seen before adds one group
      holding the run's positions (or nothing, for an empty run). */
  lemma {:induction false} GroupByRun(masks: seq<int>, v: int, c: nat)
    requires v !in masks
    ensures GroupBy(masks + Repeat(v, c)) ==
      GroupBy(masks) + (if c > 0 then [Group(v, Range(|masks|, |masks| + c))] else [])
  {
    if c == 0 {
      assert masks + Repeat(v, c) == masks;
    } else {
      var m' := masks + Repeat(v, c - 1);
      assert masks + Repeat(v, c) == m' + [v];
      GroupBySnoc(m', v);
      GroupByRun(masks, v, c - 1);
      GroupByKeys(masks);
      RunGrows(GroupBy(masks), v, |masks|, c - 1);
    }
  }

  lemma RunGrows(gs: seq<Group>, v: int, lo: nat, c: nat)
    requires forall u :: 0 <= u < |gs| ==> gs[u].key != v
    ensures Insert(gs + (if c > 0 then [Group(v, Range(lo, lo + c))] else []), v, lo + c) ==
      gs + [Group(v, Range(lo, lo + c + 1))]
  {
    if c == 0 {
      assert gs + [] == gs;
      InsertNew(gs, v, lo);
      assert [lo] == Range(lo, lo + 1);
    } else {
      var run := Range(lo, lo + c);
      InsertExisting(gs + [Group(v, run)], v, lo + c, |gs|);
      assert run + [lo + c] == Range(lo, lo + c + 1);
    }
  }

  /** Grouping the box mapping of a flattened polygon list yields one group per
      polygon that has points, in polygon order, holding exactly its keypoints. */
  lemma {:induction false} GroupByFlatten(polys: seq<Polygon>)
    ensures GroupBy(Flatten(polys).boxMapping) == OwnedGroups(polys)
  {
    if |polys| > 0 {
      var n := |polys| - 1;
      var p := polys[..n];
      GroupByFlatten(p);
      FlattenTraceable(p);
      var prev := Flatten(p).boxMapping;
      assert n !in prev;
      GroupByRun(prev, n, |polys[n]|);
    }
  }

  // ---------------------------------------------------------------------
  // Scaling a whole polygon list
  // ---------------------------------------------------------------------

  /** Every polygon scaled to pixels, one call per polygon. */
  function ScaledBoxes(boxes: seq<Polygon>, size: Size): (r: seq<Polygon>)
    ensures SameShape(r, boxes)
  {
    Misc.Batch(ScalePolygon, boxes, size)
  }

  lemma BatchPrefix(boxes: seq<Polygon>, size: Size, n: nat)
    requires n <= |boxes|
    ensures ScaledBoxes(boxes, size)[..n] == ScaledBoxes(boxes[..n], size)
  {
  }

  lemma {:induction false} OffsetShape(a: seq<Polygon>, b: seq<Polygon>, i: nat)
    requires SameShape(a, b) && i <= |a|
    ensures Offset(a, i) == Offset(b, i)
  {
    assert SameShape(a[..i], b[..i]);
    TotalPointsShape(a[..i], b[..i]);
  }

  /** Point `t` of polygon `i` becomes keypoint `Offset(boxes, i) + t`, in
      pixels, tagged with `i`. */
  lemma ScaledPlace(boxes: seq<Polygon>, size: Size, i: nat, t: nat)
    requires i < |boxes| && t < |boxes[i]|
    ensures TotalPoints(ScaledBoxes(boxes, size)) == TotalPoints(boxes)
    ensures Offset(boxes, i) + t < TotalPoints(boxes)
    ensures Flatten(ScaledBoxes(boxes, size)).boxMapping[Offset(boxes, i) + t] == i
    ensures Flatten(ScaledBoxes(boxes, size)).keypoints[Offset(boxes, i) + t] == ScalePoint(boxes[i][t], size)
  {
    var scaled := ScaledBoxes(boxes, size);
    FlattenPlace(scaled, i, t);
    OffsetShape(scaled, boxes, i);
    TotalPointsShape(scaled, boxes);
  }

  /** Every tag of a flattened list is a polygon index. */
  lemma {:induction false} FlattenTags(polys: seq<Polygon>)
    ensures forall k :: 0 <= k < |Flatten(polys).boxMapping| ==> 0 <= Flatten(polys).boxMapping[k] < |polys|
  {
    FlattenTraceable(polys);
  }

  /** Scaling the flattened pixel keypoints back gives the flattened polygons. */
  lemma {:induction false} UnscaleFlatten(boxes: seq<Polygon>, size: Size)
    ensures UnscalePolygon(Flatten(ScaledBoxes(boxes, size)).keypoints, size) == Flatten(boxes).keypoints
  {
    if |boxes| > 0 {
      var n := |boxes| - 1;
      var scaled := ScaledBoxes(boxes, size);
      BatchPrefix(boxes, size, n);
      UnscaleFlatten(boxes[..n], size);
      UnscaleAppend(Flatten(scaled[..n]).keypoints, scaled[n], size);
      UnscaleScale(boxes[n], size);
    }
  }
}
