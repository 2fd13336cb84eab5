/**
 * The keypoint helpers of the PoseNet curve sketches
 * (browser_client/examples/example5_posenet_curves_combine and
 * example4_posenet_curves_simple): edges of a pose, the ordered 14-point outline,
 * its clean-up, the combination of two outlines, the overlap test, the skeleton
 * mirror and the wrap-around index of the curve.
 *
 * Coordinates and scores are `real`: the helpers only compare, copy and, in the
 * mirror, subtract them from the canvas width.
 */
module Keypoints {
  import opened Json

  const ScoreThreshold: real := 0.5

  datatype Pos = Pos(x: real, y: real)

  /** A PoseNet keypoint `{part, score, position}`. */
  datatype Keypoint = Keypoint(part: string, score: real, position: Pos)

  predicate Confident(k: Keypoint)
  {
    k.score > ScoreThreshold
  }

  // ---------------------------------------------------------------- getEdges

  /** An edge point: `x`, and `y` once a keypoint has been taken (`undefined` before). */
  datatype Point = Point(x: real, y: Option<real>)

  datatype Edges = Edges(left: Point, right: Point)

  /** The left edge after scanning `kps`: starts at the canvas width and moves to a
      confident keypoint strictly further left. */
  function LeftEdge(kps: seq<Keypoint>, width: real): Point
  {
    if kps == [] then Point(width, None)
    else
      var e := LeftEdge(kps[..|kps| - 1], width);
      var k := kps[|kps| - 1];
      if Confident(k) && k.position.x < e.x then Point(k.position.x, Some(k.position.y)) else e
  }

  /** The right edge: starts at 0 and moves to a confident keypoint strictly further right. */
  function RightEdge(kps: seq<Keypoint>): Point
  {
    if kps == [] then Point(0.0, None)
    else
      var e := RightEdge(kps[..|kps| - 1]);
      var k := kps[|kps| - 1];
      if Confident(k) && k.position.x > e.x then Point(k.position.x, Some(k.position.y)) else e
  }

  /** `getEdges(pose)` on the keypoints of `pose.pose`. */
  method GetEdges(kps: seq<Keypoint>, width: real) returns (edges: Edges)
    ensures edges == Edges(LeftEdge(kps, width), RightEdge(kps))
  {
    var leftMost := Point(width, None);
    var rightMost := Point(0.0, None);
    var i := 0;
    while i < |kps|
      invariant 0 <= i <= |kps|
      invariant leftMost == LeftEdge(kps[..i], width) && rightMost == RightEdge(kps[..i])
    {
      assert kps[..i + 1][..i] == kps[..i];
      var k := kps[i];
      if k.score > ScoreThreshold {
        if k.position.x < leftMost.x {
          leftMost := Point(k.position.x, Some(k.position.y));
        }
        if k.position.x > rightMost.x {
          rightMost := Point(k.position.x, Some(k.position.y));
        }
      }
      i := i + 1;
    }
    assert kps[..i] == kps;
    edges := Edges(leftMost, rightMost);
  }

  /** The left edge is the minimum of the width and the confident x values; when it
      holds a `y`, that is the point of the first confident keypoint at that minimum. */
  lemma {:induction false} LeftEdgeIsMin(kps: seq<Keypoint>, width: real)
    ensures LeftEdge(kps, width).x <= width
    ensures forall i :: 0 <= i < |kps| && Confident(kps[i]) ==> LeftEdge(kps, width).x <= kps[i].position.x
    ensures LeftEdge(kps, width).y.None? ==> LeftEdge(kps, width).x == width
    ensures LeftEdge(kps, width).y.Some? ==>
              exists i :: 0 <= i < |kps| && Confident(kps[i])
                && kps[i].position == Pos(LeftEdge(kps, width).x, LeftEdge(kps, width).y.value)
                && forall j :: 0 <= j < i && Confident(kps[j]) ==> kps[j].position.x > LeftEdge(kps, width).x
  {
    if kps != [] {
      var p := kps[..|kps| - 1];
      LeftEdgeIsMin(p, width);
      assert forall i :: 0 <= i < |p| ==> kps[i] == p[i];
      var e := LeftEdge(p, width);
      var k := kps[|kps| - 1];
      if Confident(k) && k.position.x < e.x {
        assert forall j :: 0 <= j < |p| && Confident(kps[j]) ==> kps[j].position.x > k.position.x;
      } else if e.y.Some? {
        var i :| 0 <= i < |p| && Confident(p[i]) && p[i].position == Pos(e.x, e.y.value)
                 && forall j :: 0 <= j < i && Confident(p[j]) ==> p[j].position.x > e.x;
        assert kps[i] == p[i];
      }
    }
  }

  /** The right edge is the maximum of 0 and the confident x values. */
  lemma {:induction false} RightEdgeIsMax(kps: seq<Keypoint>)
    ensures RightEdge(kps).x >= 0.0
    ensures forall i :: 0 <= i < |kps| && Confident(kps[i]) ==> RightEdge(kps).x >= kps[i].position.x
    ensures RightEdge(kps).y.None? ==> RightEdge(kps).x == 0.0
    ensures RightEdge(kps).y.Some? ==>
              exists i :: 0 <= i < |kps| && Confident(kps[i])
                && kps[i].position == Pos(RightEdge(kps).x, RightEdge(kps).y.value)
  {
    if kps != [] {
      var p := kps[..|kps| - 1];
      RightEdgeIsMax(p);
      assert forall i :: 0 <= i < |p| ==> kps[i] == p[i];
      var e := RightEdge(p);
      var k := kps[|kps| - 1];
      if !(Confident(k) && k.position.x > e.x) && e.y.Some? {
        var i :| 0 <= i < |p| && Confident(p[i]) && p[i].position == Pos(e.x, e.y.value);
        assert kps[i] == p[i];
      }
    }
  }

  /** With no confident keypoint the edges are exactly the width and 0. */
  lemma {:induction false} EdgesWithoutConfidentPoints(kps: seq<Keypoint>, width: real)
    requires forall i :: 0 <= i < |kps| ==> !Confident(kps[i])
    ensures LeftEdge(kps, width) == Point(width, None) && RightEdge(kps) == Point(0.0, None)
  {
    if kps != [] {
      EdgesWithoutConfidentPoints(kps[..|kps| - 1], width);
    }
  }

  // ---------------------------------------------------------------- orderKeypoints

  /** An entry of the ordered outline `{part, position}`; `None` is the initial
      `{x: null, y: null}`. */
  datatype Slot = Slot(part: string, position: Option<Pos>)

  /** The outline order of both sketches: left side up, right side down. */
  const OrderedParts: seq<string> := [
    "leftAnkle", "leftKnee", "leftHip", "leftWrist", "leftElbow", "leftShoulder", "leftEar",
    "rightEar", "rightShoulder", "rightElbow", "rightWrist", "rightHip", "rightKnee", "rightAnkle"]

  /** `myOrderedPose` as declared, and `partnerOrderedPose`, its deep clone. */
  function InitialOrderedPose(): (r: seq<Slot>)
    ensures |r| == 14
    ensures forall k :: 0 <= k < 14 ==> r[k] == Slot(OrderedParts[k], None)
  {
    seq(14, k requires 0 <= k < 14 => Slot(OrderedParts[k], None))
  }

  /** The position of the last confident keypoint of `part`, if any. */
  function LastConfident(kps: seq<Keypoint>, part: string): (r: Option<Pos>)
    ensures r.None? <==> forall j :: 0 <= j < |kps| ==> !(Confident(kps[j]) && kps[j].part == part)
    ensures r.Some? ==>
              exists j :: 0 <= j < |kps| && Confident(kps[j]) && kps[j].part == part && kps[j].position == r.value
                && forall m :: j < m < |kps| ==> !(Confident(kps[m]) && kps[m].part == part)
  {
    if kps == [] then None
    else
      var k := kps[|kps| - 1];
      if Confident(k) && k.part == part then Some(k.position)
      else LastConfident(kps[..|kps| - 1], part)
  }

  /** One ordered entry after the scan: its part is kept, and its position is the
      last confident keypoint of that part when there is one. */
  function Placed(kps: seq<Keypoint>, s: Slot): (r: Slot)
    ensures r.part == s.part
    ensures LastConfident(kps, s.part).None? ==> r == s
    ensures LastConfident(kps, s.part).Some? ==> r.position == LastConfident(kps, s.part)
  {
    match LastConfident(kps, s.part)
    case None => s
    case Some(p) => s.(position := Some(p))
  }

  lemma PlacedStep(kps: seq<Keypoint>, j: nat, s: Slot)
    requires j < |kps|
    ensures Placed(kps[..j + 1], s)
         == if Confident(kps[j]) && kps[j].part == s.part then Placed(kps[..j], s).(position := Some(kps[j].position))
            else Placed(kps[..j], s)
  {
    assert kps[..j + 1][..j] == kps[..j];
  }

  /** Ordering again with the same keypoints changes nothing. */
  lemma PlacedIdempotent(kps: seq<Keypoint>, s: Slot)
    ensures Placed(kps, Placed(kps, s)) == Placed(kps, s)
  {
  }

  /** The inner loop of `orderKeypoints` has placed the first `k` entries with the
      keypoints `done`; the others are still placed with `rest`. */
  ghost predicate PlacedSplit(start: seq<Slot>, cur: seq<Slot>, done: seq<Keypoint>, rest: seq<Keypoint>, k: nat)
  {
    && |cur| == |start| && k <= |cur|
    && (forall m :: 0 <= m < k ==> cur[m] == Placed(done, start[m]))
    && (forall m :: k <= m < |cur| ==> cur[m] == Placed(rest, start[m]))
  }

  lemma PlacedSplitStep(start: seq<Slot>, cur: seq<Slot>, done: seq<Keypoint>, rest: seq<Keypoint>, k: nat, c: Slot)
    requires PlacedSplit(start, cur, done, rest, k) && k < |cur|
    requires c == Placed(done, start[k])
    ensures PlacedSplit(start, cur[k := c], done, rest, k + 1)
  {
  }

  /** `orderKeypoints(pose, orderedPose)`: every entry takes the position of the
      last confident keypoint of its part; the other entries, the length and the
      parts are unchanged. */
  method OrderKeypoints(kps: seq<Keypoint>, ordered: array<Slot>)
    modifies ordered
    ensures forall k :: 0 <= k < ordered.Length ==> ordered[k] == Placed(kps, old(ordered[k]))
  {
    ghost var start := ordered[..];
    var j := 0;
    while j < |kps|
      invariant 0 <= j <= |kps|
      invariant forall m :: 0 <= m < ordered.Length ==> ordered[m] == Placed(kps[..j], start[m])
    {
      var keypoint := kps[j];
      if keypoint.score > ScoreThreshold {
        var k := 0;
        while k < ordered.Length
          invariant 0 <= k <= ordered.Length
          invariant PlacedSplit(start, ordered[..], kps[..j + 1], kps[..j], k)
        {
          PlacedStep(kps, j, start[k]);
          ghost var before := ordered[..];
          if ordered[k].part == keypoint.part {
            ordered[k] := ordered[k].(position := Some(keypoint.position));
          }
          PlacedSplitStep(start, before, kps[..j + 1], kps[..j], k, ordered[k]);
          assert ordered[..] == before[k := ordered[k]];
          k := k + 1;
        }
      } else {
        forall m | 0 <= m < ordered.Length ensures ordered[m] == Placed(kps[..j + 1], start[m]) {
          PlacedStep(kps, j, start[m]);
        }
      }
      j := j + 1;
    }
    assert kps[..j] == kps;
  }

  // ---------------------------------------------------------------- removeUnusedKeypoints

  /** The positions of the entries whose `x` is not `null`, in order. */
  function Used(slots: seq<Slot>): seq<Pos>
  {
    if slots == [] then []
    else
      var s := slots[|slots| - 1];
      Used(slots[..|slots| - 1]) + (if s.position.Some? then [s.position.value] else [])
  }

  /** `removeUnusedKeypoints(pose)` */
  method RemoveUnusedKeypoints(pose: seq<Slot>) returns (clean: seq<Pos>)
    ensures clean == Used(pose)
  {
    clean := [];
    var i := 0;
    while i < |pose|
      invariant 0 <= i <= |pose|
      invariant clean == Used(pose[..i])
    {
      assert pose[..i + 1][..i] == pose[..i];
      if pose[i].position.Some? {
        clean := clean + [Pos(pose[i].position.value.x, pose[i].position.value.y)];
      }
      i := i + 1;
    }
    assert pose[..i] == pose;
  }

  lemma {:induction false} UsedPrefix(slots: seq<Slot>, i: nat)
    requires i <= |slots|
    ensures Used(slots[..i]) <= Used(slots)
    decreases |slots|
  {
    if i < |slots| {
      var p := slots[..|slots| - 1];
      assert p[..i] == slots[..i];
      UsedPrefix(p, i);
    } else {
      assert slots[..i] == slots;
    }
  }

  /** A used entry lands in the output at the index given by the used entries before it. */
  lemma UsedPlacement(slots: seq<Slot>, i: nat)
    requires i < |slots| && slots[i].position.Some?
    ensures |Used(slots[..i])| < |Used(slots)| && Used(slots)[|Used(slots[..i])|] == slots[i].position.value
  {
    UsedPrefix(slots, i + 1);
    assert slots[..i + 1][..i] == slots[..i];
    assert Used(slots[..i + 1]) == Used(slots[..i]) + [slots[i].position.value];
  }

  /** Every output position comes from a used entry. */
  lemma {:induction false} UsedSource(slots: seq<Slot>, m: nat)
    requires m < |Used(slots)|
    ensures exists i :: 0 <= i < |slots| && slots[i].position == Some(Used(slots)[m])
  {
    var p := slots[..|slots| - 1];
    if m < |Used(p)| {
      UsedSource(p, m);
      var i :| 0 <= i < |p| && p[i].position == Some(Used(p)[m]);
      assert slots[i] == p[i];
    } else {
      assert slots[|slots| - 1].position == Some(Used(slots)[m]);
    }
  }

  lemma {:induction false} UsedLength(slots: seq<Slot>)
    ensures |Used(slots)| <= |slots|
  {
    if slots != [] {
      UsedLength(slots[..|slots| - 1]);
    }
  }

  /** The clean-up is an order-preserving filter: no longer than its input, every
      used entry lands at the index given by the used entries before it, and every
      output comes from a used entry. */
  lemma UsedIsFilter(slots: seq<Slot>)
    ensures |Used(slots)| <= |slots|
    ensures forall i :: 0 <= i < |slots| && slots[i].position.Some? ==>
              |Used(slots[..i])| < |Used(slots)| && Used(slots)[|Used(slots[..i])|] == slots[i].position.value
    ensures forall m :: 0 <= m < |Used(slots)| ==>
              exists i :: 0 <= i < |slots| && slots[i].position == Some(Used(slots)[m])
  {
    UsedLength(slots);
    forall i | 0 <= i < |slots| && slots[i].position.Some?
      ensures |Used(slots[..i])| < |Used(slots)| && Used(slots)[|Used(slots[..i])|] == slots[i].position.value
    {
      UsedPlacement(slots, i);
    }
    forall m | 0 <= m < |Used(slots)|
      ensures exists i :: 0 <= i < |slots| && slots[i].position == Some(Used(slots)[m])
    {
      UsedSource(slots, m);
    }
  }

  /** A fresh ordered outline has no used entry: nothing is drawn before a pose arrives. */
  lemma InitialIsUnused()
    ensures Used(InitialOrderedPose()) == []
  {
    NothingUsed(InitialOrderedPose());
  }

  lemma {:induction false} NothingUsed(slots: seq<Slot>)
    requires forall i :: 0 <= i < |slots| ==> slots[i].position.None?
    ensures Used(slots) == []
  {
    if slots != [] {
      NothingUsed(slots[..|slots| - 1]);
    }
  }

  // ---------------------------------------------------------------- combinePoses

  /** `combinePoses(pose1, pose2, edges1, edges2)` with the sketch's `mirror` switch:
      seven entries of the pose further left, then seven of the other one — its
      first seven backwards when mirroring, its last seven otherwise. Both ordered
      outlines hold 14 entries. */
  method CombinePoses(pose1: seq<Slot>, pose2: seq<Slot>, edges1: Edges, edges2: Edges, mirror: bool)
    returns (combined: seq<Slot>)
    requires |pose1| == 14 && |pose2| == 14
    ensures |combined| == 14
    ensures var leftSide := if edges1.left.x < edges2.left.x then pose1 else pose2;
            forall k :: 0 <= k < 7 ==> combined[k] == leftSide[k]
    ensures var rightSide := if edges1.left.x < edges2.left.x then pose2 else pose1;
            && (mirror ==> forall k :: 7 <= k < 14 ==> combined[k] == rightSide[13 - k])
            && (!mirror ==> forall k :: 7 <= k < 14 ==> combined[k] == rightSide[k])
  {
    var leftSide, rightSide;
    if edges1.left.x < edges2.left.x {
      leftSide, rightSide := pose1, pose2;
    } else {
      leftSide, rightSide := pose2, pose1;
    }
    combined := [];
    var i := 0;
    while i < 7
      invariant 0 <= i <= 7 && |combined| == i
      invariant forall k :: 0 <= k < i ==> combined[k] == leftSide[k]
    {
      combined := combined + [leftSide[i]];
      i := i + 1;
    }
    if mirror {
      var j := 6;
      while j >= 0
        invariant -1 <= j <= 6 && |combined| == 13 - j
        invariant forall k :: 0 <= k < 7 ==> combined[k] == leftSide[k]
        invariant forall k :: 7 <= k < |combined| ==> combined[k] == rightSide[13 - k]
      {
        combined := combined + [rightSide[j]];
        j := j - 1;
      }
    } else {
      var j := 7;
      while j < 14
        invariant 7 <= j <= 14 && |combined| == j
        invariant forall k :: 0 <= k < 7 ==> combined[k] == leftSide[k]
        invariant forall k :: 7 <= k < j ==> combined[k] == rightSide[k]
      {
        combined := combined + [rightSide[j]];
        j := j + 1;
      }
    }
  }

  /** When mirroring two outlines in the standard order, the combination runs up
      the left side and back down it: its parts are the left parts, then the same
      parts reversed. */
  lemma MirroredCombinationParts(leftSide: seq<Slot>, rightSide: seq<Slot>, combined: seq<Slot>)
    requires |leftSide| == 14 && |rightSide| == 14 && |combined| == 14
    requires forall k :: 0 <= k < 14 ==> leftSide[k].part == OrderedParts[k] && rightSide[k].part == OrderedParts[k]
    requires forall k :: 0 <= k < 7 ==> combined[k] == leftSide[k]
    requires forall k :: 7 <= k < 14 ==> combined[k] == rightSide[13 - k]
    ensures forall k :: 0 <= k < 7 ==> combined[k].part == combined[13 - k].part == OrderedParts[k]
  {
  }

  // ---------------------------------------------------------------- checkEdges

  /** `checkEdges(edge1, edge2)`: does an edge of the first pose lie strictly inside
      the span of the second? */
  function CheckEdges(e1: Edges, e2: Edges): (touching: bool)
  {
    (e1.left.x > e2.left.x && e1.left.x < e2.right.x) || (e1.right.x > e2.left.x && e1.right.x < e2.right.x)
  }

  /** Two spans that do not overlap never touch, either way round; a pose that
      encloses the other is not reported as touching from its own side. */
  lemma CheckEdgesSeparatedOrEnclosing(e1: Edges, e2: Edges)
    ensures e1.left.x <= e1.right.x && e1.right.x <= e2.left.x ==> !CheckEdges(e1, e2)
    ensures e1.left.x <= e1.right.x && e2.right.x <= e1.left.x ==> !CheckEdges(e1, e2)
    ensures e1.left.x <= e2.left.x && e2.right.x <= e1.right.x ==> !CheckEdges(e1, e2)
    ensures e1.left.x < e2.left.x < e2.right.x < e1.right.x ==> CheckEdges(e2, e1)
  {
  }

  /** A confident point strictly inside the other span makes the poses touch. */
  lemma CheckEdgesInside(e1: Edges, e2: Edges)
    requires e2.left.x < e1.left.x < e2.right.x
    ensures CheckEdges(e1, e2)
  {
  }

  // ---------------------------------------------------------------- mirrorSkeleton

  /** A bone of `pose.skeleton`: its two joints, as indices into the skeleton's
      joint objects. posenet builds every bone from the pose's own keypoint
      objects, and `_.cloneDeep` keeps that sharing in the copy, so bones that
      meet at a joint hold the same object: a position written through one bone
      shows in every bone that holds the joint. */
  datatype Bone = Bone(a: nat, b: nat)

  /** Every bone names joints that exist. */
  predicate BonesIn(bones: seq<Bone>, n: nat)
  {
    forall i :: 0 <= i < |bones| ==> bones[i].a < n && bones[i].b < n
  }

  /** `mirroredParts` after the given bones: both joint parts of each, in order. */
  function PartsOf(joints: seq<Keypoint>, bones: seq<Bone>): (r: seq<string>)
    requires BonesIn(bones, |joints|)
    ensures |r| == 2 * |bones|
  {
    if bones == [] then []
    else
      var last := bones[|bones| - 1];
      PartsOf(joints, bones[..|bones| - 1]) + [joints[last.a].part, joints[last.b].part]
  }

  /** `x = width - x` */
  function Flipped(k: Keypoint, width: real): Keypoint
  {
    k.(position := k.position.(x := width - k.position.x))
  }

  /** Joint `j` is mirrored unless its part is in `mirrored`. */
  function FlipJoint(joints: seq<Keypoint>, j: nat, mirrored: seq<string>, width: real): seq<Keypoint>
    requires j < |joints|
  {
    if joints[j].part in mirrored then joints else joints[j := Flipped(joints[j], width)]
  }

  /** One iteration for `bone`: both joints are checked against the parts recorded
      before the bone, then the bone's parts are recorded. */
  function MirrorBone(joints: seq<Keypoint>, bone: Bone, mirrored: seq<string>, width: real): seq<Keypoint>
    requires bone.a < |joints| && bone.b < |joints|
  {
    FlipJoint(FlipJoint(joints, bone.a, mirrored, width), bone.b, mirrored, width)
  }

  /** The joints once the loop has run over `bones`. Mirroring moves positions only. */
  function Mirrored(joints: seq<Keypoint>, bones: seq<Bone>, width: real): (r: seq<Keypoint>)
    requires BonesIn(bones, |joints|)
    ensures |r| == |joints|
    ensures forall k :: 0 <= k < |joints| ==> r[k].part == joints[k].part
  {
    if bones == [] then joints
    else
      var n := |bones| - 1;
      MirrorBone(Mirrored(joints, bones[..n], width), bones[n], PartsOf(joints, bones[..n]), width)
  }

  /** `mirrorSkeleton(skeleton)`, writing through the shared joint objects. */
  method MirrorSkeleton(joints: array<Keypoint>, bones: seq<Bone>, width: real)
    requires BonesIn(bones, joints.Length)
    modifies joints
    ensures joints[..] == Mirrored(old(joints[..]), bones, width)
  {
    ghost var start := joints[..];
    var mirroredParts: seq<string> := [];
    if |bones| < 1 {
      return;
    }
    var i := 0;
    while i < |bones|
      invariant 0 <= i <= |bones|
      invariant joints[..] == Mirrored(start, bones[..i], width)
      invariant mirroredParts == PartsOf(start, bones[..i])
    {
      var a, b := bones[i].a, bones[i].b;
      MirroredSnoc(start, bones, i, width);
      MirrorJoint(joints, a, mirroredParts, width);
      MirrorJoint(joints, b, mirroredParts, width);
      var partA, partB := joints[a].part, joints[b].part;
      assert partA == start[a].part && partB == start[b].part;
      mirroredParts := mirroredParts + [partA, partB];
      i := i + 1;
    }
    assert bones[..i] == bones;
  }

  /** Mirror joint `j` in place unless its part is in `mirroredParts`. */
  method MirrorJoint(joints: array<Keypoint>, j: nat, mirroredParts: seq<string>, width: real)
    requires j < joints.Length
    modifies joints
    ensures joints[..] == FlipJoint(old(joints[..]), j, mirroredParts, width)
  {
    if joints[j].part !in mirroredParts {
      joints[j] := Flipped(joints[j], width);
    }
  }

  /** One more bone: one more iteration on the joints, two more recorded parts. */
  lemma MirroredSnoc(joints: seq<Keypoint>, bones: seq<Bone>, i: nat, width: real)
    requires BonesIn(bones, |joints|) && i < |bones|
    ensures Mirrored(joints, bones[..i + 1], width)
         == MirrorBone(Mirrored(joints, bones[..i], width), bones[i], PartsOf(joints, bones[..i]), width)
    ensures PartsOf(joints, bones[..i + 1])
         == PartsOf(joints, bones[..i]) + [joints[bones[i].a].part, joints[bones[i].b].part]
  {
    assert bones[..i + 1][..i] == bones[..i];
  }

  /** A part is in `mirroredParts` exactly when a joint of an earlier bone has it. */
  lemma {:induction false} PartsOfMembers(joints: seq<Keypoint>, bones: seq<Bone>, p: string)
    requires BonesIn(bones, |joints|)
    ensures p in PartsOf(joints, bones) <==>
              exists m :: 0 <= m < |bones| && (joints[bones[m].a].part == p || joints[bones[m].b].part == p)
  {
    if bones != [] {
      var q := bones[..|bones| - 1];
      PartsOfMembers(joints, q, p);
      assert forall m :: 0 <= m < |q| ==> bones[m] == q[m];
    }
  }

  /** Some bone holds joint `k`. */
  predicate UsedBy(bones: seq<Bone>, k: nat)
  {
    exists m :: 0 <= m < |bones| && (bones[m].a == k || bones[m].b == k)
  }

  /** One joint object per part, as in a posenet pose. */
  predicate DistinctParts(joints: seq<Keypoint>)
  {
    forall i, j :: 0 <= i < j < |joints| ==> joints[i].part != joints[j].part
  }

  /** With one joint object per part, a joint's part has been recorded exactly when an earlier bone holds the joint. */
  lemma PartsOfUsed(joints: seq<Keypoint>, bones: seq<Bone>, k: nat)
    requires BonesIn(bones, |joints|) && DistinctParts(joints) && k < |joints|
    ensures joints[k].part in PartsOf(joints, bones) <==> UsedBy(bones, k)
  {
    PartsOfMembers(joints, bones, joints[k].part);
    if joints[k].part in PartsOf(joints, bones) {
      var m :| 0 <= m < |bones| && (joints[bones[m].a].part == joints[k].part || joints[bones[m].b].part == joints[k].part);
      assert bones[m].a == k || bones[m].b == k;
    }
  }

  /** A joint is held by some bone of `bones` exactly when it is held by an earlier one or by the last. */
  lemma UsedBySnoc(bones: seq<Bone>, k: nat)
    requires bones != []
    ensures UsedBy(bones, k) <==>
              UsedBy(bones[..|bones| - 1], k) || k == bones[|bones| - 1].a || k == bones[|bones| - 1].b
  {
    var pre := bones[..|bones| - 1];
    if UsedBy(bones, k) {
      var m :| 0 <= m < |bones| && (bones[m].a == k || bones[m].b == k);
      if m < |pre| {
        assert pre[m] == bones[m];
      }
    }
    if UsedBy(pre, k) {
      var m :| 0 <= m < |pre| && (pre[m].a == k || pre[m].b == k);
      assert bones[m] == pre[m];
    }
  }

  /** One iteration, on joints where exactly the recorded parts are already flipped,
      leaves both of the bone's joints flipped and every other joint as it was. */
  lemma MirrorBoneFlips(joints: seq<Keypoint>, cur: seq<Keypoint>, bone: Bone, parts: seq<string>, width: real)
    requires |cur| == |joints| && bone.a < |joints| && bone.b < |joints| && bone.a != bone.b
    requires forall k :: 0 <= k < |joints| ==> cur[k].part == joints[k].part
    requires cur[bone.a] == if joints[bone.a].part in parts then Flipped(joints[bone.a], width) else joints[bone.a]
    requires cur[bone.b] == if joints[bone.b].part in parts then Flipped(joints[bone.b], width) else joints[bone.b]
    ensures var r := MirrorBone(cur, bone, parts, width);
      && |r| == |cur|
      && r[bone.a] == Flipped(joints[bone.a], width)
      && r[bone.b] == Flipped(joints[bone.b], width)
      && forall k :: 0 <= k < |cur| && k != bone.a && k != bone.b ==> r[k] == cur[k]
  {
  }

  /** With one joint object per part, as posenet builds the skeleton, and no bone
      from a joint to itself, every joint some bone holds ends at `width - x`,
      flipped once however many bones share it, and every other joint keeps its
      position; so both ends of every bone show mirrored. */
  lemma {:induction false} MirrorFlipsUsedJoints(joints: seq<Keypoint>, bones: seq<Bone>, width: real)
    requires BonesIn(bones, |joints|) && DistinctParts(joints)
    requires forall m :: 0 <= m < |bones| ==> bones[m].a != bones[m].b
    ensures forall k :: 0 <= k < |joints| ==>
              Mirrored(joints, bones, width)[k] == if UsedBy(bones, k) then Flipped(joints[k], width) else joints[k]
  {
    if bones != [] {
      var n := |bones| - 1;
      var pre := bones[..n];
      var bone := bones[n];
      MirrorFlipsUsedJoints(joints, pre, width);
      var cur := Mirrored(joints, pre, width);
      var parts := PartsOf(joints, pre);
      PartsOfUsed(joints, pre, bone.a);
      PartsOfUsed(joints, pre, bone.b);
      MirrorBoneFlips(joints, cur, bone, parts, width);
      assert Mirrored(joints, bones, width) == MirrorBone(cur, bone, parts, width);
      forall k | 0 <= k < |joints|
        ensures Mirrored(joints, bones, width)[k] == if UsedBy(bones, k) then Flipped(joints[k], width) else joints[k]
      {
        UsedBySnoc(bones, k);
      }
    }
  }

  /** Mirroring the mirrored skeleton restores it. */
  lemma MirrorTwice(joints: seq<Keypoint>, bones: seq<Bone>, width: real)
    requires BonesIn(bones, |joints|) && DistinctParts(joints)
    requires forall m :: 0 <= m < |bones| ==> bones[m].a != bones[m].b
    ensures Mirrored(Mirrored(joints, bones, width), bones, width) == joints
  {
    var once := Mirrored(joints, bones, width);
    MirrorFlipsUsedJoints(joints, bones, width);
    MirrorFlipsUsedJoints(once, bones, width);
    var twice := Mirrored(once, bones, width);
    forall k | 0 <= k < |joints| ensures twice[k] == joints[k] {
    }
  }

  /** The shoulder shared by two bones ends mirrored in both. */
  lemma SharedShoulder()
    ensures var joints := [Keypoint("leftShoulder", 0.9, Pos(10.0, 5.0)),
                           Keypoint("leftElbow", 0.9, Pos(20.0, 5.0)),
                           Keypoint("leftHip", 0.9, Pos(30.0, 5.0))];
      Mirrored(joints, [Bone(0, 1), Bone(0, 2)], 100.0)
        == [Keypoint("leftShoulder", 0.9, Pos(90.0, 5.0)),
            Keypoint("leftElbow", 0.9, Pos(80.0, 5.0)),
            Keypoint("leftHip", 0.9, Pos(70.0, 5.0))]
  {
    var joints := [Keypoint("leftShoulder", 0.9, Pos(10.0, 5.0)),
                   Keypoint("leftElbow", 0.9, Pos(20.0, 5.0)),
                   Keypoint("leftHip", 0.9, Pos(30.0, 5.0))];
    var bones := [Bone(0, 1), Bone(0, 2)];
    assert "leftShoulder"[4] != "leftElbow"[4] && "leftShoulder"[4] != "leftHip"[4] && "leftElbow"[4] != "leftHip"[4];
    MirrorFlipsUsedJoints(joints, bones, 100.0);
    assert UsedBy(bones, 0) && UsedBy(bones, 1) && UsedBy(bones, 2);
  }

  // ---------------------------------------------------------------- drawCurvedBody

  /** The vertex index `drawCurvedBody` uses at step `i` of a non-empty outline. */
  function CurveIndex(n: nat, i: nat): (index: nat)
    requires n > 0
    ensures index < n
  {
    if i >= n then i % n else i
  }

  /** The vertices of the curve: none for an empty outline, otherwise every point
      in order and then the first three again (wrapping for shorter outlines). */
  function CurveVertices(n: nat): (r: seq<nat>)
    ensures n == 0 ==> r == []
    ensures n > 0 ==> |r| == n + 3 && forall k :: 0 <= k < |r| ==> r[k] < n
  {
    if n == 0 then [] else seq(n + 3, i requires 0 <= i < n + 3 => CurveIndex(n, i))
  }

  lemma ShiftBelow(n: nat, m: nat)
    requires m < n
    ensures (n + m) % n == m
  {
  }

  lemma ShiftMod(n: nat, m: nat)
    requires n > 0 && m < 3
    ensures (n + m) % n == m % n
  {
    if m < n {
      ShiftBelow(n, m);
      assert m % n == m;
    } else if n == 1 {
      assert (n + m) % 1 == 0 && m % 1 == 0;
    } else {
      assert n == 2 && m == 2;
    }
  }

  /** The curve visits every point once and closes over the first three. */
  lemma CurveCloses(n: nat)
    requires n > 0
    ensures forall k :: 0 <= k < n ==> CurveVertices(n)[k] == k
    ensures forall m :: 0 <= m < 3 ==> CurveVertices(n)[n + m] == m % n
  {
    forall m | 0 <= m < 3 ensures CurveVertices(n)[n + m] == m % n {
      ShiftMod(n, m);
    }
  }
}
