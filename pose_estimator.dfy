/**
 * The rule-based part of the pose estimator: which landmarks count as
 * visible, the "has legs" rule, how a classification becomes the result
 * record (with its failure default), and how a result record is rendered
 * as one line of text.
 *
 * Image decoding and the MediaPipe network are replaced by a `Detection`
 * value; the geometric rules that decide lying/sitting/standing from
 * torso angles and front/side/back from the shoulder distance are inputs.
 */
module PoseEstimator {
  import opened Wrappers
  import opened PyText

  /** MediaPipe landmark indices the leg rule looks at. */
  const LEFT_SHOULDER: nat := 11
  const RIGHT_SHOULDER: nat := 12
  const LEFT_KNEE: nat := 25
  const RIGHT_KNEE: nat := 26
  const LEFT_ANKLE: nat := 27
  const RIGHT_ANKLE: nat := 28

  /** Only a landmark's visibility score takes part in the rules modelled here. */
  datatype Landmark = Landmark(visibility: real)

  /** What the torso-angle rule of `classify_pose` concludes. */
  datatype AnglePose = Lying | Sitting | Standing | Undetermined

  /** What the shoulder-distance rule of `classify_pose` concludes. */
  datatype ShoulderView = FrontView | SideView | BackView

  /** What reading the image and running the pose network produced. */
  datatype Detection =
    | Unreadable                             // `cv2.imread` returned None
    | NoPerson                               // no pose landmarks found
    | Found(landmarks: seq<Landmark>, anglePose: AnglePose, shoulderView: ShoulderView)

  datatype Classification = Classification(poseType: string, viewType: string, upperBodyOnly: bool)

  /** The record `estimate` returns. */
  datatype PoseResult = PoseResult(pose: string, view: string, fullBody: bool)

  /** `detected_idxs`: the indices whose visibility exceeds one half. */
  function VisibleIndices(landmarks: seq<Landmark>): (v: set<int>)
    ensures forall i :: i in v <==> 0 <= i < |landmarks| && landmarks[i].visibility > 0.5
  {
    set i | 0 <= i < |landmarks| && landmarks[i].visibility > 0.5
  }

  /** A knee and an ankle are seen. */
  predicate HasLegs(visible: set<int>)
  {
    (LEFT_KNEE in visible || RIGHT_KNEE in visible) && (LEFT_ANKLE in visible || RIGHT_ANKLE in visible)
  }

  /** Legs are seen exactly when some knee and some ankle are visible landmarks. */
  lemma HasLegsIff(landmarks: seq<Landmark>)
    ensures HasLegs(VisibleIndices(landmarks)) <==>
            (exists i :: i in {25, 26} && i < |landmarks| && landmarks[i].visibility > 0.5)
            && (exists j :: j in {27, 28} && j < |landmarks| && landmarks[j].visibility > 0.5)
  {
    var v := VisibleIndices(landmarks);
    if HasLegs(v) {
      var i := if 25 in v then 25 else 26;
      var j := if 27 in v then 27 else 28;
      assert i in {25, 26} && i < |landmarks| && landmarks[i].visibility > 0.5;
      assert j in {27, 28} && j < |landmarks| && landmarks[j].visibility > 0.5;
    }
  }

  function PoseName(p: AnglePose): string
  {
    match p
    case Lying => "lying"
    case Sitting => "sitting"
    case Standing => "standing"
    case Undetermined => "unknown"
  }

  function ViewName(v: ShoulderView): string
  {
    match v
    case FrontView => "front"
    case SideView => "side"
    case BackView => "back"
  }

  /**
   * `classify_pose`.  The angle rule reads landmarks 11 to 28 inside a
   * `try`, so with fewer than 29 landmarks the pose is "unknown"; the view
   * rule reads landmarks 11 and 12 outside it, so with fewer than 13 the
   * call raises (None here).
   */
  function ClassifyPose(landmarks: seq<Landmark>, anglePose: AnglePose, shoulderView: ShoulderView)
    : (r: Option<Classification>)
    ensures r.None? <==> |landmarks| <= RIGHT_SHOULDER
    ensures r.Some? ==> r.value.upperBodyOnly == !HasLegs(VisibleIndices(landmarks))
    ensures r.Some? ==> r.value.viewType == ViewName(shoulderView)
    ensures r.Some? && |landmarks| <= RIGHT_ANKLE ==> r.value.poseType == "unknown"
    ensures r.Some? && |landmarks| > RIGHT_ANKLE ==> r.value.poseType == PoseName(anglePose)
  {
    var upperBodyOnly := !HasLegs(VisibleIndices(landmarks));
    var poseType := if |landmarks| > RIGHT_ANKLE then PoseName(anglePose) else "unknown";
    if |landmarks| <= RIGHT_SHOULDER then None
    else Some(Classification(poseType, ViewName(shoulderView), upperBodyOnly))
  }

  const FAILURE_RESULT: PoseResult := PoseResult("unknown", "unknown", false)

  /** `estimate`: the classification re-keyed, or the failure default when any step raises. */
  function Estimate(d: Detection): (r: PoseResult)
    ensures d.Unreadable? || d.NoPerson? ==> r == FAILURE_RESULT
    ensures d.Found? && |d.landmarks| <= RIGHT_SHOULDER ==> r == FAILURE_RESULT
    ensures d.Found? && |d.landmarks| > RIGHT_SHOULDER ==>
            r.fullBody == HasLegs(VisibleIndices(d.landmarks)) && r.view == ViewName(d.shoulderView)
    ensures d.Found? && RIGHT_SHOULDER < |d.landmarks| <= RIGHT_ANKLE ==> r.pose == "unknown"
    ensures d.Found? && |d.landmarks| > RIGHT_ANKLE ==> r.pose == PoseName(d.anglePose)
    ensures r.pose in {"lying", "sitting", "standing", "unknown"}
    ensures r.view in {"front", "side", "back", "unknown"}
  {
    match d
    case Unreadable => FAILURE_RESULT
    case NoPerson => FAILURE_RESULT
    case Found(landmarks, anglePose, shoulderView) =>
      match ClassifyPose(landmarks, anglePose, shoulderView)
      case None => FAILURE_RESULT
      case Some(c) => PoseResult(c.poseType, c.viewType, !c.upperBodyOnly)
  }

  /** Whatever the number of landmarks, a full body is only claimed when a knee and an ankle are seen. */
  lemma FullBodyNeedsLegs(d: Detection)
    ensures Estimate(d).fullBody ==> d.Found? && HasLegs(VisibleIndices(d.landmarks))
    ensures d.Found? && |d.landmarks| <= LEFT_ANKLE ==> !Estimate(d).fullBody
  {
    if d.Found? && |d.landmarks| <= LEFT_ANKLE {
      assert LEFT_ANKLE !in VisibleIndices(d.landmarks) && RIGHT_ANKLE !in VisibleIndices(d.landmarks);
    }
  }

  const POSE_DESC: map<string, string> :=
    map["standing" := "Standing", "sitting" := "Sitting", "lying" := "Lying", "unknown" := "Unknown"]

  const VIEW_DESC: map<string, string> :=
    map["front" := "Front", "side" := "Side", "back" := "Back", "unknown" := "Unknown"]

  /** `pose_desc.get(pose, 'Unknown')`. */
  function PoseLabel(pose: string): (r: string)
    ensures r in {"Standing", "Sitting", "Lying", "Unknown"}
    ensures r == "Unknown" <==> pose == "unknown" || pose !in POSE_DESC
    ensures pose in POSE_DESC ==> r == POSE_DESC[pose]
  {
    if pose in POSE_DESC then POSE_DESC[pose] else "Unknown"
  }

  /** `view_desc.get(view, 'Unknown')`. */
  function ViewLabel(view: string): (r: string)
    ensures r in {"Front", "Side", "Back", "Unknown"}
    ensures r == "Unknown" <==> view == "unknown" || view !in VIEW_DESC
    ensures view in VIEW_DESC ==> r == VIEW_DESC[view]
  {
    if view in VIEW_DESC then VIEW_DESC[view] else "Unknown"
  }

  function BodyLabel(fullBody: bool): string
  {
    if fullBody then "Full body" else "Upper body only"
  }

  /**
   * `get_formatted_result`: "Pose: ", the pose label, " | View: ", the view
   * label, then the body part.
   */
  function FormattedResult(results: PoseResult): (r: string)
    ensures var p := PoseLabel(results.pose);
            |r| >= 15 + |p| && r[..6] == "Pose: " && r[6..6 + |p|] == p && r[6 + |p|..15 + |p|] == " | View: "
    ensures r[15 + |PoseLabel(results.pose)|..] == ViewLabel(results.view) + (" | Body: " + BodyLabel(results.fullBody))
    ensures EndsWith(r, " | Body: " + BodyLabel(results.fullBody))
  {
    var p := PoseLabel(results.pose);
    var rest := ViewLabel(results.view) + (" | Body: " + BodyLabel(results.fullBody));
    FourParts("Pose: ", p, " | View: ", rest);
    ConcatEnds(ViewLabel(results.view), " | Body: " + BodyLabel(results.fullBody));
    "Pose: " + p + " | View: " + rest
  }

  /** Each part of a four-part concatenation sits at its offset. */
  lemma FourParts(a: string, b: string, c: string, d: string)
    ensures var s := a + b + c + d;
            |s| == |a| + |b| + |c| + |d| && s[..|a|] == a && s[|a|..|a| + |b|] == b
            && s[|a| + |b|..|a| + |b| + |c|] == c && s[|a| + |b| + |c|..] == d
  {
    var s := a + b + c + d;
    assert s[..|a|] == a;
    assert s[|a|..|a| + |b|] == b;
    assert s[|a| + |b|..|a| + |b| + |c|] == c;
    assert s[|a| + |b| + |c|..] == d;
  }

  /** The second part of a concatenation is a suffix of it. */
  lemma ConcatEnds(a: string, z: string)
    ensures EndsWith(a + z, z) && (a + z)[..|a|] == a
  {
    assert (a + z)[|a + z| - |z|..] == z;
    assert (a + z)[..|a|] == a;
  }

  /** The text ends in "Full body" exactly when the result says the full body is visible. */
  lemma FormattedBodyIff(results: PoseResult)
    ensures EndsWith(FormattedResult(results), "Full body") <==> results.fullBody
  {
    var tail := " | Body: " + BodyLabel(results.fullBody);
    EndsWithThrough(FormattedResult(results), tail, "Full body");
    BodyTail(results.fullBody);
  }

  /** The body part ends in "Full body" exactly for a full body. */
  lemma BodyTail(fullBody: bool)
    ensures EndsWith(" | Body: " + BodyLabel(fullBody), "Full body") <==> fullBody
  {
    var tail := " | Body: " + BodyLabel(fullBody);
    if fullBody {
      assert tail[|tail| - 9..] == "Full body";
    } else {
      assert tail[|tail| - 9..] == "body only";
    }
  }

  /** A suffix of a suffix is read off the shorter string. */
  lemma EndsWithThrough(s: string, t: string, u: string)
    requires EndsWith(s, t) && |u| <= |t|
    ensures EndsWith(s, u) <==> EndsWith(t, u)
  {
    assert s[|s| - |u|..] == s[|s| - |t|..][|t| - |u|..];
  }

  /** Distinct known pose names get distinct labels. */
  lemma PoseLabelInjective(p: string, q: string)
    requires p in POSE_DESC && q in POSE_DESC && PoseLabel(p) == PoseLabel(q)
    ensures p == q
  {
  }

  /** Distinct known view names get distinct labels. */
  lemma ViewLabelInjective(v: string, w: string)
    requires v in VIEW_DESC && w in VIEW_DESC && ViewLabel(v) == ViewLabel(w)
    ensures v == w
  {
  }

  /** Every result `estimate` can return has a table entry, so its labels never come from the fallback. */
  lemma EstimateLabelsKnown(d: Detection)
    ensures Estimate(d).pose in POSE_DESC && Estimate(d).view in VIEW_DESC
    ensures PoseLabel(Estimate(d).pose) == "Unknown" <==> Estimate(d).pose == "unknown"
  {
  }

  /** The text shown after a failed estimate. */
  lemma FailureText()
    ensures FormattedResult(FAILURE_RESULT) == "Pose: Unknown | View: Unknown | Body: Upper body only"
  {
    assert PoseLabel(FAILURE_RESULT.pose) == "Unknown" && ViewLabel(FAILURE_RESULT.view) == "Unknown";
    assert BodyLabel(FAILURE_RESULT.fullBody) == "Upper body only";
    FailureTail();
    FailureHead();
    FailureJoin();
  }

  lemma FailureTail()
    ensures "Unknown" + (" | Body: " + "Upper body only") == "Unknown | Body: Upper body only"
  {
    assert " | Body: " + "Upper body only" == " | Body: Upper body only";
  }

  lemma FailureHead()
    ensures "Pose: " + "Unknown" + " | View: " == "Pose: Unknown | View: "
  {
  }

  lemma FailureJoin()
    ensures "Pose: Unknown | View: " + "Unknown | Body: Upper body only"
         == "Pose: Unknown | View: Unknown | Body: Upper body only"
  {
  }

  /** No pose label contains a space, so the label ends where " | View: " starts. */
  lemma PoseLabelHasNoSpace(pose: string)
    ensures forall i :: 0 <= i < |PoseLabel(pose)| ==> PoseLabel(pose)[i] != ' '
  {
    var r := PoseLabel(pose);
    assert r == "Standing" || r == "Sitting" || r == "Lying" || r == "Unknown";
  }

  /** Two space-free words read at the same offset, each followed by a space, have the same length. */
  lemma SpaceEndsLabel(r: string, k: nat, p: string, q: string)
    requires k + |p| < |r| && k + |q| < |r|
    requires r[k..k + |p|] == p && r[k..k + |q|] == q && r[k + |p|] == ' ' && r[k + |q|] == ' '
    requires forall i :: 0 <= i < |p| ==> p[i] != ' '
    requires forall i :: 0 <= i < |q| ==> q[i] != ' '
    ensures |p| == |q|
  {
  }

  /** The text determines the pose label, the view label and the body flag. */
  lemma FormattedResultDetermines(x: PoseResult, y: PoseResult)
    requires FormattedResult(x) == FormattedResult(y)
    ensures PoseLabel(x.pose) == PoseLabel(y.pose)
    ensures ViewLabel(x.view) == ViewLabel(y.view)
    ensures x.fullBody == y.fullBody
  {
    var r := FormattedResult(x);
    var p, q := PoseLabel(x.pose), PoseLabel(y.pose);
    PoseLabelHasNoSpace(x.pose);
    PoseLabelHasNoSpace(y.pose);
    assert r[6 + |p|..15 + |p|][0] == ' ' && r[6 + |q|..15 + |q|][0] == ' ';
    SpaceEndsLabel(r, 6, p, q);
    assert p == r[6..6 + |p|] == q;
    FormattedBodyIff(x);
    FormattedBodyIff(y);
    var tail := " | Body: " + BodyLabel(x.fullBody);
    var v, w := ViewLabel(x.view), ViewLabel(y.view);
    assert v + tail == r[15 + |p|..] == w + tail;
    assert v == (v + tail)[..|v|];
    assert w == (w + tail)[..|w|];
  }

  /** For results whose names are in the tables, equal texts mean equal results. */
  lemma FormattedResultInjective(x: PoseResult, y: PoseResult)
    requires x.pose in POSE_DESC && y.pose in POSE_DESC && x.view in VIEW_DESC && y.view in VIEW_DESC
    requires FormattedResult(x) == FormattedResult(y)
    ensures x == y
  {
    FormattedResultDetermines(x, y);
    PoseLabelInjective(x.pose, y.pose);
    ViewLabelInjective(x.view, y.view);
  }
}
