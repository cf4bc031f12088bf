/**
 The parsed COCO document the converter reads, the category lookup it builds
 from it, and the split of category ids into a defense and an offense side.
 */
module Coco {
  import Dicts

  /** A category: its id and its class name. */
  datatype Category = Category(id: int, name: string)

  /** An image: its id and the path of its file. */
  datatype Image = Image(id: int, fileName: string)

  /** An annotation: the image it belongs to, its category id and its flat
      keypoint list; a missing or empty keypoint entry is the empty sequence. */
  datatype Annotation = Annotation(imageId: int, categoryId: int, keypoints: seq<int>)

  /** A missing "images" or "annotations" entry is the empty sequence. */
  datatype Document = Document(categories: seq<Category>, images: seq<Image>, annotations: seq<Annotation>)

  /** The class name of an annotation whose category id has no category. */
  const Unknown: string := "unknown"

  /** The category lookup: each category id mapped to its name, a later
      category overwriting an earlier one with the same id. */
  function Lookup(cats: seq<Category>): (m: map<int, string>)
    ensures m.Keys == set i | 0 <= i < |cats| :: cats[i].id
  {
    var pairs := seq(|cats|, i requires 0 <= i < |cats| => (cats[i].id, cats[i].name));
    var m := Dicts.FromPairs(pairs);
    assert m.Keys == set i | 0 <= i < |cats| :: cats[i].id by {
      forall k | k in m.Keys ensures exists i :: 0 <= i < |cats| && cats[i].id == k {
        var i :| 0 <= i < |pairs| && pairs[i].0 == k;
        assert cats[i].id == k;
      }
      forall i | 0 <= i < |cats| ensures cats[i].id in m.Keys {
        assert pairs[i].0 == cats[i].id;
      }
    }
    m
  }

  /** Of several categories with one id, the last one names it. */
  lemma LookupLastWins(cats: seq<Category>, i: int)
    requires 0 <= i < |cats|
    requires forall j :: i < j < |cats| ==> cats[j].id != cats[i].id
    ensures cats[i].id in Lookup(cats)
    ensures Lookup(cats)[cats[i].id] == cats[i].name
  {
    var pairs := seq(|cats|, i requires 0 <= i < |cats| => (cats[i].id, cats[i].name));
    Dicts.FromPairsLastWins(pairs, i);
  }

  /** The name of the category with this id, or "unknown" when no category
      carries it. */
  function ClassName(lookup: map<int, string>, categoryId: int): string {
    if categoryId in lookup then lookup[categoryId] else Unknown
  }

  /** An id no category carries resolves to "unknown". */
  lemma ClassNameUnknown(cats: seq<Category>, categoryId: int)
    requires forall i :: 0 <= i < |cats| ==> cats[i].id != categoryId
    ensures ClassName(Lookup(cats), categoryId) == Unknown
  {
  }

  /** An id resolves to the name of the last category carrying it. */
  lemma ClassNameLast(cats: seq<Category>, i: int)
    requires 0 <= i < |cats|
    requires forall j :: i < j < |cats| ==> cats[j].id != cats[i].id
    ensures ClassName(Lookup(cats), cats[i].id) == cats[i].name
  {
    LookupLastWins(cats, i);
  }

  /** The defense ids: 1 to 13, fixed, whatever categories exist. */
  const DefenseIds: set<int> := set id | 1 <= id < 14

  /** The offense ids: the ids of the lookup from 14 on. */
  function OffenseIds(lookup: map<int, string>): (r: set<int>)
    ensures forall id :: id in r <==> id in lookup && id >= 14
    ensures r !! DefenseIds
  {
    set id | id in lookup && id >= 14
  }

  /** Where an annotation's class name and coordinates go besides `cls`. */
  datatype Side = Defense | Offense | Neither

  /** The side an annotation's category id selects: defense ids are tested
      first, then offense ids; no id is both. */
  function SideOf(lookup: map<int, string>, categoryId: int): (r: Side)
    ensures r == Defense <==> 1 <= categoryId <= 13
    ensures r == Offense <==> categoryId >= 14 && categoryId in lookup
    ensures r == Neither <==> categoryId <= 0 || (categoryId >= 14 && categoryId !in lookup)
  {
    if categoryId in DefenseIds then Defense
    else if categoryId in OffenseIds(lookup) then Offense
    else Neither
  }
}
