/**
 The converter as a whole: from a parsed COCO document to the list of
 (output file name, record) pairs it writes, one per image in input order,
 or the IndexError the keypoint comprehension raises.
 */
module Converter {
  import opened Coco
  import opened Keypoints
  import opened Aggregation
  import opened StringOrder
  import Paths
  import Dicts

  /** The JSON object written for one image. */
  datatype Record = Record(
    imagePath: string,
    xOff: seq<int>, yOff: seq<int>, xDef: seq<int>, yDef: seq<int>,
    cls: seq<string>, clsOff: seq<string>, clsDef: seq<string>)

  /** The exception that aborts a run before any file is written: the
      keypoint list of the annotation at this index has a last group of a
      single value. */
  datatype ConvertError = KeypointIndexError(annotation: nat)

  datatype Result<T> = Ok(value: T) | Err(error: ConvertError)

  /** One written file: its name and its content. */
  type Output = (string, Record)

  /** The record of an image: coordinates passed through, class sets as
      sorted lists. */
  function Render(fileName: string, agg: Aggregate): Record {
    Record(fileName, agg.xOff, agg.yOff, agg.xDef, agg.yDef,
           SortedList(agg.cls), SortedList(agg.clsOff), SortedList(agg.clsDef))
  }

  /** The output of one image, looked up among the aggregates. */
  function Emit(img: Image, groups: map<int, Aggregate>): Output {
    (Paths.OutName(img.fileName), Render(img.fileName, AggregateFor(groups, img.id)))
  }

  /** Index of the first annotation whose keypoints cannot be decoded, or
      the number of annotations when all of them can. */
  function FirstUndecodable(anns: seq<Annotation>): (r: nat)
    ensures r <= |anns|
    ensures forall j :: 0 <= j < r ==> Decodable(anns[j].keypoints)
    ensures r < |anns| ==> !Decodable(anns[r].keypoints)
    decreases |anns|
  {
    if |anns| == 0 then 0
    else if !Decodable(anns[0].keypoints) then 0
    else
      var r := 1 + FirstUndecodable(anns[1..]);
      assert forall j :: 1 <= j < r ==> anns[j] == anns[1..][j - 1];
      r
  }

  /** The whole transformation: build the lookup, fold the annotations,
      then emit one output per image. */
  function Convert(doc: Document): (r: Result<seq<Output>>)
    ensures r.Err? <==> !AllDecodable(doc.annotations)
    ensures r.Err? ==>
      && r.error.annotation < |doc.annotations|
      && !Decodable(doc.annotations[r.error.annotation].keypoints)
      && forall j :: 0 <= j < r.error.annotation ==> Decodable(doc.annotations[j].keypoints)
    ensures r.Ok? ==> |r.value| == |doc.images|
    ensures r.Ok? ==> forall i :: 0 <= i < |doc.images| ==>
      && r.value[i].0 == Paths.OutName(doc.images[i].fileName)
      && r.value[i].1.imagePath == doc.images[i].fileName
  {
    var bad := FirstUndecodable(doc.annotations);
    if bad < |doc.annotations| then Err(KeypointIndexError(bad))
    else
      var groups := Group(Lookup(doc.categories), doc.annotations);
      Ok(seq(|doc.images|, i requires 0 <= i < |doc.images| => Emit(doc.images[i], groups)))
  }

  /** The record of image `i`, stated over the input alone: its coordinates
      are the keypoints of the image's defense and offense annotations in
      input order, and its class lists are the sorted class names of all,
      offense and defense annotations of the image. */
  lemma ConvertRecord(doc: Document, i: int)
    requires AllDecodable(doc.annotations)
    requires 0 <= i < |doc.images|
    ensures Convert(doc).Ok?
    ensures
      var lookup := Lookup(doc.categories);
      var anns := doc.annotations;
      var id := doc.images[i].id;
      Convert(doc).value[i].1 == Record(
        doc.images[i].fileName,
        SideCoords(lookup, anns, id, Offense, X), SideCoords(lookup, anns, id, Offense, Y),
        SideCoords(lookup, anns, id, Defense, X), SideCoords(lookup, anns, id, Defense, Y),
        SortedList(ClassSet(lookup, anns, id)),
        SortedList(SideClassSet(lookup, anns, id, Offense)),
        SortedList(SideClassSet(lookup, anns, id, Defense)))
  {
    GroupMatchesExpected(Lookup(doc.categories), doc.annotations, doc.images[i].id);
  }

  /** Every record has one x per y on each side. */
  lemma RecordBalanced(doc: Document, i: int)
    requires AllDecodable(doc.annotations)
    requires 0 <= i < |doc.images|
    ensures Convert(doc).Ok?
    ensures |Convert(doc).value[i].1.xDef| == |Convert(doc).value[i].1.yDef|
    ensures |Convert(doc).value[i].1.xOff| == |Convert(doc).value[i].1.yOff|
  {
    var groups := Group(Lookup(doc.categories), doc.annotations);
    assert Convert(doc).value[i] == Emit(doc.images[i], groups);
  }

  /** The class lists of a record are strictly sorted; `cls` holds exactly
      the class names of the image's annotations, with "unknown" for ids no
      category carries, and both side lists are contained in it. */
  lemma RecordClassLists(doc: Document, i: int)
    requires AllDecodable(doc.annotations)
    requires 0 <= i < |doc.images|
    ensures Convert(doc).Ok?
    ensures StrictlySorted(Convert(doc).value[i].1.cls)
    ensures StrictlySorted(Convert(doc).value[i].1.clsOff)
    ensures StrictlySorted(Convert(doc).value[i].1.clsDef)
    ensures forall x :: x in Convert(doc).value[i].1.cls <==>
      exists j :: 0 <= j < |doc.annotations| && doc.annotations[j].imageId == doc.images[i].id
        && x == ClassName(Lookup(doc.categories), doc.annotations[j].categoryId)
    ensures forall x :: x in Convert(doc).value[i].1.clsOff ==> x in Convert(doc).value[i].1.cls
    ensures forall x :: x in Convert(doc).value[i].1.clsDef ==> x in Convert(doc).value[i].1.cls
  {
    ConvertRecord(doc, i);
  }

  /** Defense and offense class lists need not be disjoint: two annotations
      of an image, one with a defense id and one with a known offense id
      whose categories share a name, put that name in both lists. */
  lemma NameOnBothSides(doc: Document, i: int, d: int, o: int)
    requires AllDecodable(doc.annotations)
    requires 0 <= i < |doc.images|
    requires 0 <= d < |doc.annotations| && 0 <= o < |doc.annotations|
    requires doc.annotations[d].imageId == doc.images[i].id && doc.annotations[o].imageId == doc.images[i].id
    requires 1 <= doc.annotations[d].categoryId <= 13
    requires doc.annotations[o].categoryId >= 14 && doc.annotations[o].categoryId in Lookup(doc.categories)
    requires ClassName(Lookup(doc.categories), doc.annotations[d].categoryId)
          == ClassName(Lookup(doc.categories), doc.annotations[o].categoryId)
    ensures Convert(doc).Ok?
    ensures ClassName(Lookup(doc.categories), doc.annotations[d].categoryId) in Convert(doc).value[i].1.clsDef
    ensures ClassName(Lookup(doc.categories), doc.annotations[d].categoryId) in Convert(doc).value[i].1.clsOff
  {
    var lookup := Lookup(doc.categories);
    var anns := doc.annotations;
    var id := doc.images[i].id;
    ConvertRecord(doc, i);
    assert OnSide(lookup, anns[d], id, Defense);
    assert OnSide(lookup, anns[o], id, Offense);
  }

  /** The concatenation of lists that are all empty is empty. */
  lemma {:induction false} ConcatOfEmpties(xss: seq<seq<int>>)
    requires forall k :: 0 <= k < |xss| ==> xss[k] == []
    ensures Concat(xss) == []
    decreases |xss|
  {
    if |xss| > 0 {
      ConcatOfEmpties(xss[1..]);
    }
  }

  /** An image without annotations gets a record whose seven lists are all
      empty. */
  lemma EmptyImageRecord(doc: Document, i: int)
    requires AllDecodable(doc.annotations)
    requires 0 <= i < |doc.images|
    requires forall j :: 0 <= j < |doc.annotations| ==> doc.annotations[j].imageId != doc.images[i].id
    ensures Convert(doc).Ok?
    ensures Convert(doc).value[i].1 == Record(doc.images[i].fileName, [], [], [], [], [], [], [])
  {
    var lookup := Lookup(doc.categories);
    var id := doc.images[i].id;
    NoAnnotationsEmpty(lookup, doc.annotations, id);
    ConvertRecord(doc, i);
  }

  /** The reference of an image no annotation mentions is all empty. */
  lemma NoAnnotationsEmpty(lookup: map<int, string>, anns: seq<Annotation>, id: int)
    requires AllDecodable(anns)
    requires forall j :: 0 <= j < |anns| ==> anns[j].imageId != id
    ensures ClassSet(lookup, anns, id) == {}
    ensures SideClassSet(lookup, anns, id, Offense) == {}
    ensures SideClassSet(lookup, anns, id, Defense) == {}
    ensures forall side, axis :: SideCoords(lookup, anns, id, side, axis) == []
  {
    forall side, axis ensures SideCoords(lookup, anns, id, side, axis) == [] {
      ConcatOfEmpties(Shares(lookup, anns, id, side, axis));
    }
  }

  /** The output directory after the run: a later file with the same name
      replaces an earlier one. */
  function Directory(outs: seq<Output>): (d: map<string, Record>)
    ensures d.Keys == set i | 0 <= i < |outs| :: outs[i].0
  {
    Dicts.FromPairs(outs)
  }

  /** The directory holds exactly the names written, and each name holds the
      record of the last output with that name. */
  lemma DirectoryLastWins(outs: seq<Output>, i: int)
    requires 0 <= i < |outs|
    requires forall j :: i < j < |outs| ==> outs[j].0 != outs[i].0
    ensures outs[i].0 in Directory(outs)
    ensures Directory(outs)[outs[i].0] == outs[i].1
  {
    Dicts.FromPairsLastWins(outs, i);
  }

  /** The names of the files a successful run writes are exactly the output
      names of the images. */
  lemma DirectoryNames(doc: Document)
    requires AllDecodable(doc.annotations)
    ensures Convert(doc).Ok?
    ensures forall x :: x in Directory(Convert(doc).value) <==>
      exists k :: 0 <= k < |doc.images| && Paths.OutName(doc.images[k].fileName) == x
  {
    var outs := Convert(doc).value;
    forall x ensures x in Directory(outs) <==> exists k :: 0 <= k < |doc.images| && Paths.OutName(doc.images[k].fileName) == x {
      NamesOfOutputs(outs, doc.images, x);
    }
  }

  lemma NamesOfOutputs(outs: seq<Output>, images: seq<Image>, x: string)
    requires |outs| == |images|
    requires forall k :: 0 <= k < |images| ==> outs[k].0 == Paths.OutName(images[k].fileName)
    ensures x in Directory(outs) <==> exists k :: 0 <= k < |images| && Paths.OutName(images[k].fileName) == x
  {
    if x in Directory(outs) {
      var k :| 0 <= k < |outs| && outs[k].0 == x;
      assert Paths.OutName(images[k].fileName) == x;
    }
    if exists k :: 0 <= k < |images| && Paths.OutName(images[k].fileName) == x {
      var k :| 0 <= k < |images| && Paths.OutName(images[k].fileName) == x;
      assert outs[k].0 == x;
    }
  }

  lemma SideCoordsOfOne(lookup: map<int, string>, anns: seq<Annotation>, id: int, side: Side, axis: Axis)
    requires AllDecodable(anns) && |anns| == 1
    ensures SideCoords(lookup, anns, id, side, axis) == Share(lookup, anns[0], id, side, axis)
  {
    var shares := Shares(lookup, anns, id, side, axis);
    assert shares[1..] == [];
    assert Concat(shares) == shares[0] + Concat(shares[1..]);
  }

  lemma SideCoordsOfTwo(lookup: map<int, string>, anns: seq<Annotation>, id: int, side: Side, axis: Axis)
    requires AllDecodable(anns) && |anns| == 2
    ensures SideCoords(lookup, anns, id, side, axis) ==
      Share(lookup, anns[0], id, side, axis) + Share(lookup, anns[1], id, side, axis)
  {
    var shares := Shares(lookup, anns, id, side, axis);
    assert shares[1..][1..] == [];
    assert Concat(shares[1..]) == shares[1] + Concat(shares[1..][1..]);
    assert Concat(shares) == shares[0] + Concat(shares[1..]);
  }

  /** One image, one defense and one offense category with names in order,
      and one single-keypoint annotation of each on the image, defense
      first. */
  predicate TwoSidesShape(doc: Document) {
    && |doc.categories| == 2 && |doc.images| == 1 && |doc.annotations| == 2
    && 1 <= doc.categories[0].id <= 13 && doc.categories[1].id >= 14
    && Less(doc.categories[0].name, doc.categories[1].name)
    && (forall k :: 0 <= k < 2 ==>
         && doc.annotations[k].imageId == doc.images[0].id
         && doc.annotations[k].categoryId == doc.categories[k].id
         && |doc.annotations[k].keypoints| == 3)
  }

  /** The reference aggregate of the image of such a document. */
  lemma TwoSidesExpected(lookup: map<int, string>, anns: seq<Annotation>, id: int, def: string, off: string)
    requires |anns| == 2 && AllDecodable(anns)
    requires anns[0].imageId == id && anns[1].imageId == id
    requires 1 <= anns[0].categoryId <= 13 && anns[1].categoryId >= 14 && anns[1].categoryId in lookup
    requires ClassName(lookup, anns[0].categoryId) == def && ClassName(lookup, anns[1].categoryId) == off
    requires |anns[0].keypoints| == 3 && |anns[1].keypoints| == 3
    ensures ClassSet(lookup, anns, id) == {def, off}
    ensures SideClassSet(lookup, anns, id, Offense) == {off}
    ensures SideClassSet(lookup, anns, id, Defense) == {def}
    ensures SideCoords(lookup, anns, id, Defense, X) == [anns[0].keypoints[0]]
    ensures SideCoords(lookup, anns, id, Defense, Y) == [anns[0].keypoints[1]]
    ensures SideCoords(lookup, anns, id, Offense, X) == [anns[1].keypoints[0]]
    ensures SideCoords(lookup, anns, id, Offense, Y) == [anns[1].keypoints[1]]
  {
    assert Decode(anns[0].keypoints) == [(anns[0].keypoints[0], anns[0].keypoints[1])];
    assert Decode(anns[1].keypoints) == [(anns[1].keypoints[0], anns[1].keypoints[1])];
    SideCoordsOfTwo(lookup, anns, id, Offense, X);
    SideCoordsOfTwo(lookup, anns, id, Offense, Y);
    SideCoordsOfTwo(lookup, anns, id, Defense, X);
    SideCoordsOfTwo(lookup, anns, id, Defense, Y);
  }

  /** The record such a document produces: the defense keypoint in the
      defense lists, the offense keypoint in the offense lists, both names in
      `cls`. */
  lemma TwoSidesRecord(doc: Document)
    requires TwoSidesShape(doc)
    ensures Convert(doc).Ok?
    ensures
      var def := doc.categories[0];
      var off := doc.categories[1];
      var kd := doc.annotations[0].keypoints;
      var ko := doc.annotations[1].keypoints;
      Convert(doc).value == [(Paths.OutName(doc.images[0].fileName),
        Record(doc.images[0].fileName, [ko[0]], [ko[1]], [kd[0]], [kd[1]],
               [def.name, off.name], [off.name], [def.name]))]
  {
    var cats := doc.categories;
    var kd := doc.annotations[0].keypoints;
    var ko := doc.annotations[1].keypoints;
    var img := doc.images[0];
    var groups := Group(Lookup(cats), doc.annotations);
    var agg := Aggregate({cats[0].name, cats[1].name}, {cats[1].name}, {cats[0].name},
                         [kd[0]], [kd[1]], [ko[0]], [ko[1]]);
    var rec := Record(img.fileName, [ko[0]], [ko[1]], [kd[0]], [kd[1]],
                      [cats[0].name, cats[1].name], [cats[1].name], [cats[0].name]);
    TwoSidesAggregate(doc);
    assert Render(img.fileName, agg) == rec by {
      SortedListOf({cats[0].name, cats[1].name}, [cats[0].name, cats[1].name]);
      SortedListOf({cats[1].name}, [cats[1].name]);
      SortedListOf({cats[0].name}, [cats[0].name]);
    }
    assert Emit(img, groups) == (Paths.OutName(img.fileName), rec);
    ConvertSingleOutput(doc);
  }

  /** The aggregate the fold leaves for the image of such a document. */
  lemma TwoSidesAggregate(doc: Document)
    requires TwoSidesShape(doc)
    ensures AllDecodable(doc.annotations)
    ensures
      var names := [doc.categories[0].name, doc.categories[1].name];
      var kd := doc.annotations[0].keypoints;
      var ko := doc.annotations[1].keypoints;
      AggregateFor(Group(Lookup(doc.categories), doc.annotations), doc.images[0].id)
        == Aggregate({names[0], names[1]}, {names[1]}, {names[0]}, [kd[0]], [kd[1]], [ko[0]], [ko[1]])
  {
    var cats := doc.categories;
    var anns := doc.annotations;
    var id := doc.images[0].id;
    var lookup := Lookup(cats);
    assert ClassName(lookup, cats[0].id) == cats[0].name && ClassName(lookup, cats[1].id) == cats[1].name by {
      LookupLastWins(cats, 0);
      LookupLastWins(cats, 1);
    }
    assert AllDecodable(anns);
    TwoSidesExpected(lookup, anns, id, cats[0].name, cats[1].name);
    GroupMatchesExpected(lookup, anns, id);
  }

  /** A document with a single image is converted to the single output of
      that image, taken from the fold over all annotations. */
  lemma ConvertSingleOutput(doc: Document)
    requires AllDecodable(doc.annotations)
    requires |doc.images| == 1
    ensures Convert(doc).Ok?
    ensures Convert(doc).value == [Emit(doc.images[0], Group(Lookup(doc.categories), doc.annotations))]
  {
  }
}
