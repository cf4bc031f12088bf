/**
 COCO keypoints: a flat list read in groups of three, (x, y, visibility).
 The converter keeps (x, y) of every group and drops the visibility.
 */
module Keypoints {

  /** One (x, y) pair; coordinates are opaque integers. */
  type Point = (int, int)

  /** One labelled keypoint as COCO stores it. */
  datatype Keypoint = Keypoint(x: int, y: int, visibility: int)

  /** Decoding reads the first two values of every group of three; the
      second value of the last group exists unless that group holds a single
      value. */
  predicate Decodable(kp: seq<int>) {
    |kp| % 3 != 1
  }

  /** The (x, y) pair of every group of three, in order. A trailing group of
      two values still gives a pair. */
  function Decode(kp: seq<int>): (r: seq<Point>)
    requires Decodable(kp)
    ensures |r| == (|kp| + 2) / 3
    decreases |kp|
  {
    if |kp| == 0 then []
    else if |kp| <= 3 then [(kp[0], kp[1])]
    else [(kp[0], kp[1])] + Decode(kp[3..])
  }

  /** Pair k of the decoding is the first two values of triple k. */
  lemma {:induction false} DecodePairs(kp: seq<int>)
    requires Decodable(kp)
    ensures forall k :: 0 <= k < |Decode(kp)| ==> 3 * k + 1 < |kp| && Decode(kp)[k] == (kp[3 * k], kp[3 * k + 1])
    decreases |kp|
  {
    if |kp| > 3 {
      DecodePairs(kp[3..]);
      forall k | 1 <= k < |Decode(kp)| ensures Decode(kp)[k] == (kp[3 * k], kp[3 * k + 1]) {
        assert Decode(kp)[k] == Decode(kp[3..])[k - 1];
      }
    }
  }

  /** The flat COCO list of a sequence of keypoints. */
  function Encode(kps: seq<Keypoint>): (r: seq<int>)
    ensures |r| == 3 * |kps|
  {
    if |kps| == 0 then []
    else [kps[0].x, kps[0].y, kps[0].visibility] + Encode(kps[1..])
  }

  /** The (x, y) pairs of a sequence of keypoints. */
  function Positions(kps: seq<Keypoint>): seq<Point> {
    seq(|kps|, i requires 0 <= i < |kps| => (kps[i].x, kps[i].y))
  }

  /** Decoding undoes encoding, up to the visibility values it drops. */
  lemma {:induction false} DecodeEncode(kps: seq<Keypoint>)
    ensures Decodable(Encode(kps))
    ensures Decode(Encode(kps)) == Positions(kps)
    decreases |kps|
  {
    if |kps| > 0 {
      var head := (kps[0].x, kps[0].y);
      var flat := Encode(kps);
      var rest := Encode(kps[1..]);
      assert flat == [kps[0].x, kps[0].y, kps[0].visibility] + rest;
      assert flat[3..] == rest;
      DecodeEncode(kps[1..]);
      if |kps| == 1 {
        assert Decode(flat) == [head];
      } else {
        assert Decode(flat) == [head] + Decode(rest);
      }
      assert Positions(kps) == [head] + Positions(kps[1..]);
    }
  }

  /** The x coordinates of a list of pairs, in order. */
  function Xs(ps: seq<Point>): (r: seq<int>)
    ensures |r| == |ps|
  {
    if |ps| == 0 then [] else [ps[0].0] + Xs(ps[1..])
  }

  /** The y coordinates of a list of pairs, in order. */
  function Ys(ps: seq<Point>): (r: seq<int>)
    ensures |r| == |ps|
  {
    if |ps| == 0 then [] else [ps[0].1] + Ys(ps[1..])
  }

  /** Two full triples give their two pairs; the empty list gives none. */
  lemma DecodeExamples()
    ensures Decode([10, 20, 2, 30, 40, 1]) == [(10, 20), (30, 40)]
    ensures Decode([]) == []
  {
    assert [10, 20, 2, 30, 40, 1][3..] == [30, 40, 1];
  }
}
