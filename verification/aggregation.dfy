/**
 The single pass over the annotations: a left fold into a map from image id
 to that image's aggregate (class-name sets and coordinate lists), and an
 independent per-image description of what the fold must produce.
 */
module Aggregation {
  import opened Coco
  import opened Keypoints

  /** What the converter accumulates for one image. */
  datatype Aggregate = Aggregate(
    cls: set<string>, clsOff: set<string>, clsDef: set<string>,
    xDef: seq<int>, yDef: seq<int>, xOff: seq<int>, yOff: seq<int>)

  /** The aggregate of an image no annotation has touched yet. */
  const Empty: Aggregate := Aggregate({}, {}, {}, [], [], [], [])

  /** One side's share of an aggregate: its class names, xs and ys. */
  datatype Part = Part(names: set<string>, xs: seq<int>, ys: seq<int>)

  function DefensePart(a: Aggregate): Part {
    Part(a.clsDef, a.xDef, a.yDef)
  }

  function OffensePart(a: Aggregate): Part {
    Part(a.clsOff, a.xOff, a.yOff)
  }

  /** A side's share after one annotation with class `name` and keypoint
      pairs `pts` has been added to it. */
  function Extend(p: Part, name: string, pts: seq<Point>): Part {
    Part(p.names + {name}, p.xs + Xs(pts), p.ys + Ys(pts))
  }

  /** One x per y on each side, and the side sets inside `cls`. */
  predicate Consistent(a: Aggregate) {
    && |a.xDef| == |a.yDef|
    && |a.xOff| == |a.yOff|
    && a.clsDef <= a.cls
    && a.clsOff <= a.cls
  }

  /** No annotation would make the keypoint comprehension fail. */
  predicate AllDecodable(anns: seq<Annotation>) {
    forall i :: 0 <= i < |anns| ==> Decodable(anns[i].keypoints)
  }

  /** The loop body for one annotation, applied to its image's aggregate:
      the class name always joins `cls`, and the annotation feeds exactly one
      of the defense part (ids 1..13, known or not), the offense part (known
      ids from 14 on) or nothing else. */
  function Add(lookup: map<int, string>, agg: Aggregate, ann: Annotation): (r: Aggregate)
    requires Decodable(ann.keypoints)
    ensures r.cls == agg.cls + {ClassName(lookup, ann.categoryId)}
    ensures DefensePart(r) ==
      if 1 <= ann.categoryId <= 13
      then Extend(DefensePart(agg), ClassName(lookup, ann.categoryId), Decode(ann.keypoints))
      else DefensePart(agg)
    ensures OffensePart(r) ==
      if ann.categoryId >= 14 && ann.categoryId in lookup
      then Extend(OffensePart(agg), ClassName(lookup, ann.categoryId), Decode(ann.keypoints))
      else OffensePart(agg)
    ensures Consistent(agg) ==> Consistent(r)
  {
    var name := ClassName(lookup, ann.categoryId);
    var pts := Decode(ann.keypoints);
    var named := agg.(cls := agg.cls + {name});
    match SideOf(lookup, ann.categoryId)
    case Defense => named.(clsDef := agg.clsDef + {name}, xDef := agg.xDef + Xs(pts), yDef := agg.yDef + Ys(pts))
    case Offense => named.(clsOff := agg.clsOff + {name}, xOff := agg.xOff + Xs(pts), yOff := agg.yOff + Ys(pts))
    case Neither => named
  }

  /** The aggregate of an image, or the empty one when no annotation has
      created it. */
  function AggregateFor(groups: map<int, Aggregate>, imageId: int): Aggregate {
    if imageId in groups then groups[imageId] else Empty
  }

  /** One iteration of the loop: create the image's entry if needed, then
      add the annotation to it; every other image keeps its aggregate. */
  function Step(lookup: map<int, string>, groups: map<int, Aggregate>, ann: Annotation): (r: map<int, Aggregate>)
    requires Decodable(ann.keypoints)
    ensures r.Keys == groups.Keys + {ann.imageId}
    ensures AggregateFor(r, ann.imageId) == Add(lookup, AggregateFor(groups, ann.imageId), ann)
    ensures forall id :: id != ann.imageId ==> AggregateFor(r, id) == AggregateFor(groups, id)
  {
    groups[ann.imageId := Add(lookup, AggregateFor(groups, ann.imageId), ann)]
  }

  /** The whole loop: a left fold of `Step` over the annotations. */
  function Group(lookup: map<int, string>, anns: seq<Annotation>): (r: map<int, Aggregate>)
    requires AllDecodable(anns)
    ensures r.Keys == ImageIds(anns)
    ensures forall id :: id in r ==> Consistent(r[id])
    decreases |anns|
  {
    if |anns| == 0 then map[]
    else
      var init := anns[..|anns| - 1];
      var last := anns[|anns| - 1];
      assert anns == init + [last];
      ImageIdsSnoc(init, last);
      var r := Step(lookup, Group(lookup, init), last);
      assert forall id :: id in r ==> r[id] == AggregateFor(r, id);
      r
  }

  /** The image ids of a list of annotations. */
  function ImageIds(anns: seq<Annotation>): set<int> {
    set i | 0 <= i < |anns| :: anns[i].imageId
  }

  lemma ImageIdsSnoc(anns: seq<Annotation>, a: Annotation)
    ensures ImageIds(anns + [a]) == ImageIds(anns) + {a.imageId}
  {
    var all := anns + [a];
    forall id | id in ImageIds(all) ensures id in ImageIds(anns) + {a.imageId} {
      var i :| 0 <= i < |all| && all[i].imageId == id;
      if i < |anns| {
        assert anns[i] == all[i];
      }
    }
    forall i | 0 <= i < |anns| ensures anns[i].imageId in ImageIds(all) {
      assert all[i] == anns[i];
    }
    assert all[|anns|] == a;
  }

  // ---------------------------------------------------------------------------
  // The per-image reference: what an image's aggregate must hold, stated over
  // the whole annotation list without the map or the fold.

  datatype Axis = X | Y

  /** One coordinate of every decoded keypoint pair of `kp`, in order. */
  function Coords(kp: seq<int>, axis: Axis): seq<int>
    requires Decodable(kp)
  {
    if axis == X then Xs(Decode(kp)) else Ys(Decode(kp))
  }

  /** The annotation is on image `imageId` and feeds side `side`. */
  predicate OnSide(lookup: map<int, string>, ann: Annotation, imageId: int, side: Side) {
    ann.imageId == imageId && SideOf(lookup, ann.categoryId) == side
  }

  /** The class names of all annotations of image `imageId`. */
  function ClassSet(lookup: map<int, string>, anns: seq<Annotation>, imageId: int): set<string> {
    set i | 0 <= i < |anns| && anns[i].imageId == imageId :: ClassName(lookup, anns[i].categoryId)
  }

  /** The class names of the annotations of image `imageId` on side `side`. */
  function SideClassSet(lookup: map<int, string>, anns: seq<Annotation>, imageId: int, side: Side): set<string> {
    set i | 0 <= i < |anns| && OnSide(lookup, anns[i], imageId, side) :: ClassName(lookup, anns[i].categoryId)
  }

  /** The concatenation, in annotation order, of one coordinate of the
      keypoints of the annotations of image `imageId` on side `side`. */
  function SideCoords(lookup: map<int, string>, anns: seq<Annotation>, imageId: int, side: Side, axis: Axis): seq<int>
    requires AllDecodable(anns)
  {
    Concat(Shares(lookup, anns, imageId, side, axis))
  }

  /** What each annotation adds to `SideCoords`, in order. */
  function Shares(lookup: map<int, string>, anns: seq<Annotation>, imageId: int, side: Side, axis: Axis): seq<seq<int>>
    requires AllDecodable(anns)
  {
    seq(|anns|, k requires 0 <= k < |anns| && Decodable(anns[k].keypoints) =>
      Share(lookup, anns[k], imageId, side, axis))
  }

  /** What one annotation adds to `SideCoords`. */
  function Share(lookup: map<int, string>, ann: Annotation, imageId: int, side: Side, axis: Axis): seq<int>
    requires Decodable(ann.keypoints)
  {
    if OnSide(lookup, ann, imageId, side) then Coords(ann.keypoints, axis) else []
  }

  /** The concatenation of a list of lists, in order. */
  function Concat(xss: seq<seq<int>>): seq<int>
    decreases |xss|
  {
    if |xss| == 0 then [] else xss[0] + Concat(xss[1..])
  }

  lemma {:induction false} ConcatSnoc(xss: seq<seq<int>>, xs: seq<int>)
    ensures Concat(xss + [xs]) == Concat(xss) + xs
    decreases |xss|
  {
    if |xss| > 0 {
      assert (xss + [xs])[1..] == xss[1..] + [xs];
      ConcatSnoc(xss[1..], xs);
    } else {
      assert (xss + [xs])[1..] == [];
    }
  }

  /** What image `imageId`'s aggregate must be after all of `anns`. */
  function Expected(lookup: map<int, string>, anns: seq<Annotation>, imageId: int): Aggregate
    requires AllDecodable(anns)
  {
    Aggregate(
      ClassSet(lookup, anns, imageId),
      SideClassSet(lookup, anns, imageId, Offense),
      SideClassSet(lookup, anns, imageId, Defense),
      SideCoords(lookup, anns, imageId, Defense, X),
      SideCoords(lookup, anns, imageId, Defense, Y),
      SideCoords(lookup, anns, imageId, Offense, X),
      SideCoords(lookup, anns, imageId, Offense, Y))
  }

  lemma ClassSetSnoc(lookup: map<int, string>, anns: seq<Annotation>, a: Annotation, imageId: int)
    ensures ClassSet(lookup, anns + [a], imageId) ==
      ClassSet(lookup, anns, imageId) + (if a.imageId == imageId then {ClassName(lookup, a.categoryId)} else {})
  {
    var all := anns + [a];
    forall x | x in ClassSet(lookup, all, imageId)
      ensures x in ClassSet(lookup, anns, imageId) + (if a.imageId == imageId then {ClassName(lookup, a.categoryId)} else {})
    {
      var i :| 0 <= i < |all| && all[i].imageId == imageId && ClassName(lookup, all[i].categoryId) == x;
      if i < |anns| {
        assert anns[i] == all[i];
      }
    }
    forall i | 0 <= i < |anns| && anns[i].imageId == imageId
      ensures ClassName(lookup, anns[i].categoryId) in ClassSet(lookup, all, imageId)
    {
      assert all[i] == anns[i];
    }
    if a.imageId == imageId {
      assert all[|anns|] == a;
    }
  }

  lemma SideClassSetSnoc(lookup: map<int, string>, anns: seq<Annotation>, a: Annotation, imageId: int, side: Side)
    ensures SideClassSet(lookup, anns + [a], imageId, side) ==
      SideClassSet(lookup, anns, imageId, side)
      + (if OnSide(lookup, a, imageId, side) then {ClassName(lookup, a.categoryId)} else {})
  {
    var all := anns + [a];
    forall x | x in SideClassSet(lookup, all, imageId, side)
      ensures x in SideClassSet(lookup, anns, imageId, side)
        + (if OnSide(lookup, a, imageId, side) then {ClassName(lookup, a.categoryId)} else {})
    {
      var i :| 0 <= i < |all| && OnSide(lookup, all[i], imageId, side) && ClassName(lookup, all[i].categoryId) == x;
      if i < |anns| {
        assert anns[i] == all[i];
      }
    }
    forall i | 0 <= i < |anns| && OnSide(lookup, anns[i], imageId, side)
      ensures ClassName(lookup, anns[i].categoryId) in SideClassSet(lookup, all, imageId, side)
    {
      assert all[i] == anns[i];
    }
    if OnSide(lookup, a, imageId, side) {
      assert all[|anns|] == a;
    }
  }

  lemma AllDecodableSnoc(anns: seq<Annotation>, a: Annotation)
    requires AllDecodable(anns) && Decodable(a.keypoints)
    ensures AllDecodable(anns + [a])
  {
  }

  lemma AllDecodableParts(anns: seq<Annotation>)
    requires AllDecodable(anns) && |anns| > 0
    ensures AllDecodable(anns[1..]) && AllDecodable(anns[..|anns| - 1])
    ensures Decodable(anns[0].keypoints) && Decodable(anns[|anns| - 1].keypoints)
  {
  }

  lemma SideCoordsSnoc(lookup: map<int, string>, anns: seq<Annotation>, a: Annotation, imageId: int, side: Side, axis: Axis)
    requires AllDecodable(anns) && Decodable(a.keypoints)
    ensures AllDecodable(anns + [a])
    ensures SideCoords(lookup, anns + [a], imageId, side, axis) ==
      SideCoords(lookup, anns, imageId, side, axis) + Share(lookup, a, imageId, side, axis)
  {
    var all := anns + [a];
    AllDecodableSnoc(anns, a);
    var shares := Shares(lookup, anns, imageId, side, axis);
    var allShares := Shares(lookup, all, imageId, side, axis);
    assert allShares == shares + [Share(lookup, a, imageId, side, axis)];
    ConcatSnoc(shares, Share(lookup, a, imageId, side, axis));
  }

  /** Adding one annotation at the end of the list changes the reference of
      its own image exactly as `Add` does, and no other image's. */
  lemma ExpectedSnoc(lookup: map<int, string>, init: seq<Annotation>, a: Annotation, imageId: int)
    requires AllDecodable(init) && Decodable(a.keypoints)
    ensures AllDecodable(init + [a])
    ensures Expected(lookup, init + [a], imageId) ==
      if a.imageId == imageId then Add(lookup, Expected(lookup, init, imageId), a)
      else Expected(lookup, init, imageId)
  {
    var all := init + [a];
    AllDecodableSnoc(init, a);
    var before := Expected(lookup, init, imageId);
    var after := Expected(lookup, all, imageId);
    ClassSetSnoc(lookup, init, a, imageId);
    PartSnoc(lookup, init, a, imageId, Defense);
    PartSnoc(lookup, init, a, imageId, Offense);
    if a.imageId == imageId {
      var r := Add(lookup, before, a);
      assert after.cls == r.cls;
      assert DefensePart(after) == DefensePart(r);
      assert OffensePart(after) == OffensePart(r);
    } else {
      assert DefensePart(after) == DefensePart(before);
      assert OffensePart(after) == OffensePart(before);
    }
  }

  /** One side's part of the reference: its class names, xs and ys. */
  function SidePart(lookup: map<int, string>, anns: seq<Annotation>, imageId: int, side: Side): Part
    requires AllDecodable(anns)
  {
    Part(SideClassSet(lookup, anns, imageId, side),
         SideCoords(lookup, anns, imageId, side, X),
         SideCoords(lookup, anns, imageId, side, Y))
  }

  /** Adding one annotation at the end of the list extends one side's part
      of the reference exactly when the annotation is on that side. */
  lemma PartSnoc(lookup: map<int, string>, init: seq<Annotation>, a: Annotation, imageId: int, side: Side)
    requires AllDecodable(init) && Decodable(a.keypoints)
    ensures AllDecodable(init + [a])
    ensures SidePart(lookup, init + [a], imageId, side) ==
      if OnSide(lookup, a, imageId, side)
      then Extend(SidePart(lookup, init, imageId, side), ClassName(lookup, a.categoryId), Decode(a.keypoints))
      else SidePart(lookup, init, imageId, side)
  {
    SideClassSetSnoc(lookup, init, a, imageId, side);
    SideCoordsSnoc(lookup, init, a, imageId, side, X);
    SideCoordsSnoc(lookup, init, a, imageId, side, Y);
    if OnSide(lookup, a, imageId, side) {
      assert Share(lookup, a, imageId, side, X) == Xs(Decode(a.keypoints));
      assert Share(lookup, a, imageId, side, Y) == Ys(Decode(a.keypoints));
    } else {
      var p := SidePart(lookup, init, imageId, side);
      assert Share(lookup, a, imageId, side, X) == [];
      assert Share(lookup, a, imageId, side, Y) == [];
      assert p.names + {} == p.names && p.xs + [] == p.xs && p.ys + [] == p.ys;
    }
  }

  /** The fold computes the reference: for every image id, the aggregate the
      loop leaves (or the empty default) is `Expected`. In particular `cls` is
      exactly the set of class names of the image's annotations, and each
      side's coordinates are its annotations' keypoints in input order. */
  lemma {:induction false} GroupMatchesExpected(lookup: map<int, string>, anns: seq<Annotation>, imageId: int)
    requires AllDecodable(anns)
    ensures AggregateFor(Group(lookup, anns), imageId) == Expected(lookup, anns, imageId)
    decreases |anns|
  {
    if |anns| == 0 {
      assert ClassSet(lookup, anns, imageId) == {};
      assert SideClassSet(lookup, anns, imageId, Offense) == {};
      assert SideClassSet(lookup, anns, imageId, Defense) == {};
    } else {
      var init := anns[..|anns| - 1];
      var a := anns[|anns| - 1];
      assert anns == init + [a];
      AllDecodableParts(anns);
      GroupMatchesExpected(lookup, init, imageId);
      ExpectedSnoc(lookup, init, a, imageId);
    }
  }
}
