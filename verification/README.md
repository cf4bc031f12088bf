# COCO annotations to per-image JSON records

This project models the converter in
`Formation_and_Player_position/annotations/coco_result.py`
(`coco_to_per_image_json`). The converter reads a COCO annotation document and writes one
JSON file per image. The model covers the pure transformation between reading and writing:

- **Category lookup** (`Coco.Lookup`): a dict from category id to name, where the last
  category with a given id wins. Ids that no category carries resolve to `"unknown"`.
- **Sides** (`Coco.SideOf`):
  - defense ids are the fixed range 1..13;
  - offense ids are the lookup's ids from 14 on;
  - the defense test comes first.
- **Keypoint decoding** (`Keypoints.Decode`): the flat `keypoints` list is read in groups
  of three and `(x, y)` of each group is kept. A list whose last group holds a single value
  makes Python raise `IndexError`. The model returns that as
  `Err(KeypointIndexError(index of the first such annotation))`.
- **The per-image fold** (`Aggregation.Group`): a left fold of `Aggregation.Step` over the
  annotations into a map from image id to an `Aggregate`. An aggregate has three
  class-name sets and four coordinate lists. `Aggregation.Expected` is an independent
  description of the aggregate, written as set comprehensions and an in-order
  concatenation. The two are proved equal.
- **Output**: one `(file name, Record)` pair per image, in input order (`Converter.Convert`).
  - The class sets become strictly increasing lists under Python's `str` order
    (`StringOrder.SortedList`).
  - The file name is `splitext(basename(file_name))[0] + ".json"` (`Paths.OutName`),
    using POSIX rules, including `splitext`'s rule that leading dots never start an
    extension.
  - The directory left after the run is a map in which a later file with the same name
    replaces an earlier one (`Converter.Directory`).

Modules:

| module | contents |
|---|---|
| `Dicts` | dict built from pairs, last wins |
| `StringOrder` | Python's `str` `<` and `sorted(list(set))` |
| `Paths` | `basename`, `splitext` and the output name |
| `Keypoints` | decoding of the flat keypoint list |
| `Coco` | input records, the lookup and the sides |
| `Aggregation` | the fold and its reference |
| `Converter` | records, the top-level conversion and the output directory |

The code allows one class name to appear in both `cls_def` and `cls_off` of the same
record. This happens when a defense category and an offense category share a name
(`Converter.NameOnBothSides`), so `cls_def` and `cls_off` of one record need not be
disjoint.

## Model

| member | source | states |
|---|---|---|
| `Dicts.FromPairs` | Formation_and_Player_position/annotations/coco_result.py:16 | the dict's keys are exactly the keys of the pairs |
| `Dicts.FromPairsLastWins` | Formation_and_Player_position/annotations/coco_result.py:16 | a key maps to the value of its last occurrence among the pairs |
| `Coco.Lookup` | Formation_and_Player_position/annotations/coco_result.py:16 | the lookup's keys are exactly the ids of the categories |
| `Coco.LookupLastWins` | Formation_and_Player_position/annotations/coco_result.py:16 | when several categories share an id, the last one's name is stored |
| `Coco.ClassNameUnknown` | Formation_and_Player_position/annotations/coco_result.py:27 | a category id that no category carries resolves to "unknown"; nothing fails |
| `Coco.ClassNameLast` | Formation_and_Player_position/annotations/coco_result.py:27 | a known category id resolves to the name of the last category with that id |
| `Coco.OffenseIds` | Formation_and_Player_position/annotations/coco_result.py:19-20 | an id is an offense id iff the lookup has it and it is at least 14; no offense id is a defense id |
| `Coco.SideOf` | Formation_and_Player_position/annotations/coco_result.py:45-50 | exactly one of three: defense iff the id is in 1..13, even if unknown; offense iff the id is at least 14 and in the lookup; neither iff the id is at most 0, or at least 14 and unknown |
| `Keypoints.Decode` | Formation_and_Player_position/annotations/coco_result.py:30-31 | a list whose length is not 1 mod 3 decodes to ceil(len/3) pairs; the empty list gives none |
| `Keypoints.DecodePairs` | Formation_and_Player_position/annotations/coco_result.py:31 | pair k is (kp[3k], kp[3k+1]), and both indices exist |
| `Keypoints.DecodeEncode` | Formation_and_Player_position/annotations/coco_result.py:31 | decoding a flattened list of (x, y, visibility) keypoints gives back their (x, y) positions in order |
| `Keypoints.DecodeExamples` | Formation_and_Player_position/annotations/coco_result.py:31 | [10,20,2,30,40,1] gives [(10,20),(30,40)] and [] gives [] |
| `Aggregation.Add` | Formation_and_Player_position/annotations/coco_result.py:44-54 | the class name always joins cls; the defense part (name, xs, ys) is extended iff the id is in 1..13; the offense part iff the id is at least 14 and known; otherwise that part is unchanged; equal x/y lengths and side sets within cls are preserved |
| `Aggregation.Step` | Formation_and_Player_position/annotations/coco_result.py:33-54 | the map gains the annotation's image id; that image's aggregate (or the empty default) gets the annotation added; every other image's aggregate is unchanged |
| `Aggregation.Group` | Formation_and_Player_position/annotations/coco_result.py:23-54 | after the loop, the keys are exactly the annotations' image ids, and every aggregate has equal x/y lengths and side sets contained in cls |
| `Aggregation.ImageIdsSnoc` | Formation_and_Player_position/annotations/coco_result.py:33-42 | one more annotation adds exactly its image id to the set of grouped ids |
| `Aggregation.ClassSetSnoc` | Formation_and_Player_position/annotations/coco_result.py:44 | one more annotation adds its class name to its own image's cls and to no other image's |
| `Aggregation.SideClassSetSnoc` | Formation_and_Player_position/annotations/coco_result.py:45-51 | one more annotation adds its class name to a side's set iff it is on that image and that side |
| `Aggregation.SideCoordsSnoc` | Formation_and_Player_position/annotations/coco_result.py:47-54 | one more annotation appends its decoded coordinates to the end of a side's list iff it is on that image and that side |
| `Aggregation.PartSnoc` | Formation_and_Player_position/annotations/coco_result.py:45-54 | a side's names, xs and ys all grow together, by the annotation's name and pairs, exactly when it belongs to that side of that image |
| `Aggregation.ExpectedSnoc` | Formation_and_Player_position/annotations/coco_result.py:44-54 | the reference after one more annotation is the loop body applied to the old reference for that annotation's image, and unchanged for other images |
| `Aggregation.GroupMatchesExpected` | Formation_and_Player_position/annotations/coco_result.py:23-54 | for every image id, the fold's aggregate (or the empty default) equals the reference: cls is the set of the image's class names; each side set is the names of that side's annotations; each side's xs and ys are those annotations' keypoints concatenated in input order |
| `StringOrder.LessIrreflexive` | Formation_and_Player_position/annotations/coco_result.py:79-81 | no string sorts before itself |
| `StringOrder.LessTransitive` | Formation_and_Player_position/annotations/coco_result.py:79-81 | the str order is transitive |
| `StringOrder.LessTotal` | Formation_and_Player_position/annotations/coco_result.py:79-81 | any two different strings are ordered one way or the other |
| `StringOrder.LessByCommonPrefix` | Formation_and_Player_position/annotations/coco_result.py:79-81 | a < b iff, after their common prefix, a ends while b goes on, or a's next code point is smaller |
| `StringOrder.SortedList` | Formation_and_Player_position/annotations/coco_result.py:79-81 | the list is strictly increasing, holds exactly the set's elements, and is as long as the set |
| `StringOrder.SortedUnique` | Formation_and_Player_position/annotations/coco_result.py:79-81 | two strictly increasing lists with the same elements are equal, so the written list does not depend on set iteration order |
| `StringOrder.SortedListOf` | Formation_and_Player_position/annotations/coco_result.py:79-81 | any strictly increasing list with exactly a set's elements is that set's sorted list |
| `Paths.BaseName` | Formation_and_Player_position/annotations/coco_result.py:59 | the base name is no longer than the path |
| `Paths.BaseNameIsLastComponent` | Formation_and_Player_position/annotations/coco_result.py:59 | the base name has no '/', is a suffix of the path, and when shorter than the path is preceded by '/' |
| `Paths.BaseNameOf` | Formation_and_Player_position/annotations/coco_result.py:59 | the base name of a directory ending in '/' followed by a name without '/' is that name |
| `Paths.LastDot` | Formation_and_Player_position/annotations/coco_result.py:59 | the result is -1 or an index into the name |
| `Paths.LastDotIsLast` | Formation_and_Player_position/annotations/coco_result.py:59 | a non-negative result indexes a '.', and no '.' comes after it |
| `Paths.StripExtensionCuts` | Formation_and_Player_position/annotations/coco_result.py:59 | the root is a prefix of the name; when shorter, it is followed by a '.' with no later '.' and is not all dots; when whole, the name has no dot or only dots precede its last one |
| `Paths.StripExtensionOf` | Formation_and_Player_position/annotations/coco_result.py:59 | the root of stem + "." + ext, where ext has no '.' and stem is not all dots, is stem |
| `Paths.StripExtensionNoDot` | Formation_and_Player_position/annotations/coco_result.py:59 | a name without '.' is its own root |
| `Paths.StripExtensionLeadingDot` | Formation_and_Player_position/annotations/coco_result.py:59 | a name whose only '.' is its first character, such as ".bashrc", has no extension |
| `Paths.OutNameOf` | Formation_and_Player_position/annotations/coco_result.py:59 | the output name of dir/stem.ext is stem.json |
| `Converter.FirstUndecodable` | Formation_and_Player_position/annotations/coco_result.py:31 | the index of the first annotation whose keypoints cannot be decoded, or the count when all can |
| `Converter.Convert` | Formation_and_Player_position/annotations/coco_result.py:16-82 | fails iff some annotation's keypoints cannot be decoded, naming the first such annotation; otherwise gives one output per image, in order, named by the image's output name and carrying its file_name |
| `Converter.ConvertRecord` | Formation_and_Player_position/annotations/coco_result.py:57-82 | image i's record holds its offense and defense keypoints in input order, and the sorted lists of its class names, offense names and defense names, all stated over the input alone |
| `Converter.RecordBalanced` | Formation_and_Player_position/annotations/coco_result.py:47-54 | every record has as many xs as ys on each side |
| `Converter.RecordClassLists` | Formation_and_Player_position/annotations/coco_result.py:79-81 | the three class lists are strictly sorted; cls holds a name iff some annotation of the image resolves to it; both side lists are contained in cls |
| `Converter.NameOnBothSides` | Formation_and_Player_position/annotations/coco_result.py:44-51 | a defense and an offense annotation of one image with the same class name put that name in both cls_def and cls_off |
| `Converter.NoAnnotationsEmpty` | Formation_and_Player_position/annotations/coco_result.py:63-71 | the reference of an image no annotation mentions is empty in all seven parts |
| `Converter.EmptyImageRecord` | Formation_and_Player_position/annotations/coco_result.py:63-71 | an image without annotations gets a record with all seven lists empty |
| `Converter.Directory` | Formation_and_Player_position/annotations/coco_result.py:59-60 | the directory's names are exactly the names written |
| `Converter.DirectoryLastWins` | Formation_and_Player_position/annotations/coco_result.py:84-85 | a name holds the record of the last output written under it |
| `Converter.DirectoryNames` | Formation_and_Player_position/annotations/coco_result.py:57-60 | after a successful run, the file names are exactly the output names of the images: none missing, none extra |
| `Converter.TwoSidesAggregate` | Formation_and_Player_position/annotations/coco_result.py:23-54 | for one image with one defense and one offense annotation of one keypoint each, the fold leaves both names in cls, each name in its own side set, and each keypoint's x and y on its own side |
| `Converter.TwoSidesExpected` | Formation_and_Player_position/annotations/coco_result.py:44-54 | for one defense and one offense annotation of an image, each with one keypoint: cls holds both names, each side set holds its own name, and each side's lists hold its keypoint's x and y |
| `Converter.TwoSidesRecord` | Formation_and_Player_position/annotations/coco_result.py:16-82 | a document with one image, a defense category and an offense category (names in order), and one single-keypoint annotation of each yields a single file with the expected lists |

## Left out

- Filesystem effects are not modelled: removing and recreating the output directory, opening
  and writing files, the final message, and the `__main__` block (lines 7-9, 84-92). The
  result is the list of (name, record) outputs. `Converter.Directory` describes the
  resulting directory.
- JSON is not modelled: neither `json.load` nor `json.dump(indent=4)`. The input is an
  already-parsed `Coco.Document`, and the output is a `Converter.Record`.
- A missing "annotations" or "images" entry is modelled as an empty sequence. A missing
  or null "keypoints" entry is the empty sequence too; the source also gives no pairs for
  both.
- Missing or null `image_id`/`category_id` (Python groups these under `None`) are not
  modelled, because ids are integers here.
- Missing required keys that would raise `KeyError` are not modelled. These are
  `categories`, a category's `id`/`name`, and an image's `id`/`file_name`. The datatypes
  always carry these fields. For the same reason the `""` default of `image_path` (line 74)
  cannot arise: line 59 reads `file_name` first.
- Coordinates and ids are integers. Floats, and ids such as `3.0` that Python treats as
  equal to `3`, are not modelled.
- Path rules are POSIX only: '/' is the separator and there is no Windows drive or '\\'
  handling.
- Converter.Convert: Python's `IndexError` carries no annotation index. The model
  reports the index of the first undecodable annotation, which is the one the loop stops
  at. The directory has already been recreated empty at that point, and that effect is not
  modelled.
- Converter.Convert: its own contract covers only the names and `image_path` of the
  outputs. The record contents are stated by `Converter.ConvertRecord`,
  `Converter.RecordBalanced`, `Converter.RecordClassLists` and `Converter.EmptyImageRecord`.
