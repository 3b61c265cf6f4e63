/** The landmark annotator: grouping the 21 hand landmarks into the six named
    finger groups of the fixed mesh-annotation table. */
module Annotations {
  import opened Wrappers

  /** One landmark, a point `[x, y, z]` as the landmark regressor reports it. */
  datatype Point = Point(x: real, y: real, z: real)

  /** The number of landmarks a full hand carries. */
  const LandmarkCount: nat := 21

  /** The mesh-annotation table, one (key, landmark indices) entry per finger
      group, in the key order of the table object (which is the order in which
      its keys are enumerated when an annotation map is filled). */
  const MeshAnnotations: seq<(string, seq<nat>)> := [
    ("thumb", [1, 2, 3, 4]),
    ("indexFinger", [5, 6, 7, 8]),
    ("middleFinger", [9, 10, 11, 12]),
    ("ringFinger", [13, 14, 15, 16]),
    ("pinky", [17, 18, 19, 20]),
    ("palmBase", [0])
  ]

  /** The six keys of a filled annotation map. */
  const FingerNames: set<string> :=
    {"thumb", "indexFinger", "middleFinger", "ringFinger", "pinky", "palmBase"}

  /** Every index in `indices` selects one of `count` landmarks. */
  predicate Fits(indices: seq<nat>, count: nat) {
    forall j :: 0 <= j < |indices| ==> indices[j] < count
  }

  /** Every index in `table` selects one of `count` landmarks. */
  predicate IndicesFit(table: seq<(string, seq<nat>)>, count: nat) {
    forall k :: 0 <= k < |table| ==> Fits(table[k].1, count)
  }

  /** No key occurs twice in `table`. */
  predicate KeysDistinct(table: seq<(string, seq<nat>)>) {
    forall k, l :: 0 <= k < l < |table| ==> table[k].0 != table[l].0
  }

  /** The keys of `table`, as a set. */
  function TableKeys(table: seq<(string, seq<nat>)>): set<string> {
    set k | 0 <= k < |table| :: table[k].0
  }

  /** The points of one group: `indices.map(index => landmarks[index])`. */
  function GroupPoints(indices: seq<nat>, landmarks: seq<Point>): (r: seq<Point>)
    requires Fits(indices, |landmarks|)
    ensures |r| == |indices|
    ensures forall j :: 0 <= j < |indices| ==> r[j] == landmarks[indices[j]]
  {
    if indices == [] then []
    else [landmarks[indices[0]]] + GroupPoints(indices[1..], landmarks)
  }

  /** The annotation map after the entries of `table` have been written into an
      empty map one after the other. */
  function Fill(table: seq<(string, seq<nat>)>, landmarks: seq<Point>): map<string, seq<Point>>
    requires IndicesFit(table, |landmarks|)
  {
    if table == [] then map[]
    else
      var n := |table| - 1;
      Fill(table[..n], landmarks)[table[n].0 := GroupPoints(table[n].1, landmarks)]
  }

  /** Filling a map from `table` gives exactly the keys of `table`. */
  lemma {:induction false} FillKeys(table: seq<(string, seq<nat>)>, landmarks: seq<Point>)
    requires IndicesFit(table, |landmarks|)
    ensures Fill(table, landmarks).Keys == TableKeys(table)
  {
    if table != [] {
      var init := table[..|table| - 1];
      FillKeys(init, landmarks);
      assert TableKeys(table) == TableKeys(init) + {table[|table| - 1].0} by {
        forall key | key in TableKeys(table) ensures key in TableKeys(init) + {table[|table| - 1].0} {
          var k :| 0 <= k < |table| && table[k].0 == key;
          if k < |table| - 1 { assert init[k].0 == key; }
        }
        forall key | key in TableKeys(init) ensures key in TableKeys(table) {
          var k :| 0 <= k < |init| && init[k].0 == key;
          assert table[k].0 == key;
        }
      }
    }
  }

  /** With distinct keys, the value filled in for the key of entry `k` is that
      entry's group of points: no later entry overwrites it. */
  lemma {:induction false} FillLookup(table: seq<(string, seq<nat>)>, landmarks: seq<Point>, k: nat)
    requires IndicesFit(table, |landmarks|) && KeysDistinct(table)
    requires k < |table|
    ensures Fits(table[k].1, |landmarks|)
    ensures table[k].0 in Fill(table, landmarks)
    ensures Fill(table, landmarks)[table[k].0] == GroupPoints(table[k].1, landmarks)
  {
    if k < |table| - 1 {
      var init := table[..|table| - 1];
      assert init[k] == table[k];
      FillLookup(init, landmarks, k);
      assert table[k].0 != table[|table| - 1].0;
    }
  }

  /** Landmark index `n` occurs somewhere in `table`. */
  predicate Covers(table: seq<(string, seq<nat>)>, n: nat) {
    exists k, j :: 0 <= k < |table| && 0 <= j < |table[k].1| && table[k].1[j] == n
  }

  /** Positions (k, j) and (k', j') of `table` name the same landmark only
      when they are the same position. */
  predicate NoIndexTwice(table: seq<(string, seq<nat>)>) {
    forall k, j, k', j' ::
      (0 <= k < |table| && 0 <= j < |table[k].1| &&
       0 <= k' < |table| && 0 <= j' < |table[k'].1| &&
       table[k].1[j] == table[k'].1[j']) ==> k == k' && j == j'
  }

  /** The index at position `j` of group `k` of the table, in closed form. */
  function IndexAt(k: nat, j: nat): nat {
    if k == 5 then 0 else 4 * k + j + 1
  }

  /** The table's groups, in closed form: group 5 (the palm base) is `[0]`,
      group `k < 5` is the four indices from `4k + 1`. */
  lemma MeshIndexFormula()
    ensures |MeshAnnotations| == 6
    ensures forall k :: 0 <= k < 6 ==> |MeshAnnotations[k].1| == (if k == 5 then 1 else 4)
    ensures forall k, j :: 0 <= k < 6 && 0 <= j < |MeshAnnotations[k].1| ==> MeshAnnotations[k].1[j] == IndexAt(k, j)
  {
    forall k, j | 0 <= k < 6 && 0 <= j < |MeshAnnotations[k].1|
      ensures MeshAnnotations[k].1[j] == IndexAt(k, j)
    {
      if k == 0 { assert MeshAnnotations[0].1 == [1, 2, 3, 4]; }
      else if k == 1 { assert MeshAnnotations[1].1 == [5, 6, 7, 8]; }
      else if k == 2 { assert MeshAnnotations[2].1 == [9, 10, 11, 12]; }
      else if k == 3 { assert MeshAnnotations[3].1 == [13, 14, 15, 16]; }
      else if k == 4 { assert MeshAnnotations[4].1 == [17, 18, 19, 20]; }
      else { assert MeshAnnotations[5].1 == [0]; }
    }
  }

  /** The table is a partition of the landmark indices 0..20: every index in
      it is a landmark index, every landmark index occurs in it, and no index
      occurs twice. */
  lemma {:induction false} MeshAnnotationsPartition()
    ensures IndicesFit(MeshAnnotations, LandmarkCount)
    ensures forall n: nat :: n < LandmarkCount ==> Covers(MeshAnnotations, n)
    ensures NoIndexTwice(MeshAnnotations)
  {
    MeshIndexFormula();
    forall n: nat | n < LandmarkCount ensures Covers(MeshAnnotations, n) {
      var k: nat := if n == 0 then 5 else (n - 1) / 4;
      var j: nat := if n == 0 then 0 else (n - 1) % 4;
      assert MeshAnnotations[k].1[j] == IndexAt(k, j) == n;
    }
  }

  /** The shape of the table: six distinct keys, the palm base is one point
      and each of the five digits is four. */
  lemma MeshAnnotationsShape()
    ensures |MeshAnnotations| == 6 && KeysDistinct(MeshAnnotations)
    ensures TableKeys(MeshAnnotations) == FingerNames
    ensures forall k :: 0 <= k < |MeshAnnotations| ==>
      |MeshAnnotations[k].1| == (if MeshAnnotations[k].0 == "palmBase" then 1 else 4)
  {
    assert TableKeys(MeshAnnotations) == FingerNames by {
      assert MeshAnnotations[0].0 in TableKeys(MeshAnnotations);
      assert MeshAnnotations[1].0 in TableKeys(MeshAnnotations);
      assert MeshAnnotations[2].0 in TableKeys(MeshAnnotations);
      assert MeshAnnotations[3].0 in TableKeys(MeshAnnotations);
      assert MeshAnnotations[4].0 in TableKeys(MeshAnnotations);
      assert MeshAnnotations[5].0 in TableKeys(MeshAnnotations);
    }
  }

  /** The annotation map of one detection: empty when it has no landmarks,
      otherwise the table's six groups filled in key order. */
  function Annotate(landmarks: Option<seq<Point>>): (r: map<string, seq<Point>>)
    requires landmarks.Some? ==> |landmarks.value| >= LandmarkCount
    ensures landmarks.None? ==> r == map[]
    ensures landmarks.Some? ==> r.Keys == FingerNames
    ensures landmarks.Some? ==> forall k :: 0 <= k < |MeshAnnotations| ==>
      r[MeshAnnotations[k].0] == GroupPoints(MeshAnnotations[k].1, landmarks.value)
  {
    match landmarks
    case None => map[]
    case Some(points) =>
      MeshAnnotationsPartition();
      MeshAnnotationsShape();
      FillKeys(MeshAnnotations, points);
      forall k | 0 <= k < |MeshAnnotations|
        ensures Fill(MeshAnnotations, points)[MeshAnnotations[k].0] == GroupPoints(MeshAnnotations[k].1, points)
      {
        FillLookup(MeshAnnotations, points, k);
      }
      Fill(MeshAnnotations, points)
  }

  /** Each point of an annotation group is the landmark the table names for
      that position, in table order. */
  lemma AnnotationPoint(landmarks: seq<Point>, k: nat, j: nat)
    requires |landmarks| >= LandmarkCount
    requires k < |MeshAnnotations| && j < |MeshAnnotations[k].1|
    ensures MeshAnnotations[k].1[j] < |landmarks|
    ensures Annotate(Some(landmarks))[MeshAnnotations[k].0][j] == landmarks[MeshAnnotations[k].1[j]]
  {
    MeshAnnotationsPartition();
  }

  /** Filling one more entry of `table` writes that entry's group over the
      map filled so far. */
  lemma FillExtend(table: seq<(string, seq<nat>)>, landmarks: seq<Point>, k: nat)
    requires IndicesFit(table, |landmarks|) && k < |table|
    ensures IndicesFit(table[..k], |landmarks|) && IndicesFit(table[..k + 1], |landmarks|)
    ensures Fits(table[k].1, |landmarks|)
    ensures Fill(table[..k + 1], landmarks) ==
      Fill(table[..k], landmarks)[table[k].0 := GroupPoints(table[k].1, landmarks)]
  {
    var t := table[..k + 1];
    assert t[..k] == table[..k];
    assert t[k] == table[k];
  }

  /** Fills the annotation map of a detection that has landmarks, key by key
      in table order. */
  method AnnotateLandmarks(landmarks: seq<Point>) returns (annotations: map<string, seq<Point>>)
    requires |landmarks| >= LandmarkCount
    ensures annotations == Annotate(Some(landmarks))
  {
    MeshAnnotationsPartition();
    annotations := map[];
    for k := 0 to |MeshAnnotations|
      invariant IndicesFit(MeshAnnotations[..k], |landmarks|)
      invariant annotations == Fill(MeshAnnotations[..k], landmarks)
    {
      var (key, indices) := MeshAnnotations[k];
      FillExtend(MeshAnnotations, landmarks, k);
      annotations := annotations[key := GroupPoints(indices, landmarks)];
    }
    assert MeshAnnotations[..|MeshAnnotations|] == MeshAnnotations;
  }
}
