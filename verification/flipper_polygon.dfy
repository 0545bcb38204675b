/**
 The enclosing polygon of a flipper: four tessellated arcs that together bound
 every position the flipper body takes while swinging, built in the flipper's
 local frame (pivot at the origin, rod along negative y) and rotated back by
 the swing for a left-handed flipper.
 */
module FlipperPolygon {
  import opened Geometry
  import opened FlipperData

  /** Start bound of an arc in radians, after normalisation to `[0, 360)` degrees. */
  function ArcStart(angleFrom: real): (a: real)
    ensures 0.0 <= a < 2.0 * Pi
  {
    Radians(NormalizeDegrees(angleFrom))
  }

  /** Counter-clockwise angular distance, in radians, from `angleFrom` to `angleTo`. */
  function ArcDelta(angleFrom: real, angleTo: real): (delta: real)
    ensures 0.0 <= delta < 2.0 * Pi
  {
    var diff := ArcStart(angleTo) - ArcStart(angleFrom);
    if diff < 0.0 then diff + Pi * 2.0 else diff
  }

  /** Going the distance from the start bound lands on the end bound, possibly one turn later. */
  lemma ArcDeltaReachesEnd(angleFrom: real, angleTo: real)
    ensures ArcStart(angleFrom) + ArcDelta(angleFrom, angleTo) == ArcStart(angleTo)
         || ArcStart(angleFrom) + ArcDelta(angleFrom, angleTo) == ArcStart(angleTo) + 2.0 * Pi
  {
  }

  /** Number of steps of length at most `|stepSize|` that cover a length `arcLength`. */
  function StepsFor(arcLength: real, stepSize: real): int
    requires stepSize != 0.0
  {
    Ceil(arcLength / Abs(stepSize))
  }

  /** `num` in `AddPolyArc`: the steps along the arc of the given radius. */
  function ArcSteps(radius: real, angleFrom: real, angleTo: real, stepSize: real): int
    requires stepSize != 0.0
  {
    StepsFor(ArcDelta(angleFrom, angleTo) * radius, stepSize)
  }

  /** How many points `AddPolyArc` appends: none for a non-positive step count, else one per step plus one. */
  function ArcCount(radius: real, angleFrom: real, angleTo: real, stepSize: real): nat
    requires stepSize != 0.0
  {
    var num := ArcSteps(radius, angleFrom, angleTo, stepSize);
    if num <= 0 then 0 else num + 1
  }

  /** Angle between consecutive samples; its sign follows the sign of `stepSize`. */
  function StepAngle(radius: real, angleFrom: real, angleTo: real, stepSize: real): real
    requires stepSize != 0.0
    requires ArcSteps(radius, angleFrom, angleTo, stepSize) > 0
  {
    var a := ArcDelta(angleFrom, angleTo) / ArcSteps(radius, angleFrom, angleTo, stepSize) as real;
    if stepSize < 0.0 then -a else a
  }

  function ArcPoint(trig: Trig, center: Vec3, radius: real, a: real): Vec3
  {
    Vec3(center.x + trig.cos(a) * radius, center.y + trig.sin(a) * radius, 0.0)
  }

  /** Angle of sample `i` of an arc that starts at `a0` and advances by `stepA`. */
  function SampleAngle(a0: real, stepA: real, i: int): real
  {
    a0 + i as real * stepA
  }

  /** `num` steps of `delta / num` cover exactly `delta`, in either direction. */
  lemma LastSampleAngle(a0: real, delta: real, num: int)
    requires num > 0
    ensures SampleAngle(a0, delta / num as real, num) == a0 + delta
    ensures SampleAngle(a0, -(delta / num as real), num) == a0 - delta
  {
    assert num as real * (delta / num as real) == delta;
  }

  /** The `num + 1` samples at angles `a0, a0 + stepA, ..., a0 + num * stepA`, in that order. */
  function Samples(trig: Trig, center: Vec3, radius: real, a0: real, stepA: real, num: nat): (r: seq<Vec3>)
    ensures |r| == num + 1
  {
    if num == 0 then [ArcPoint(trig, center, radius, a0)]
    else Samples(trig, center, radius, a0, stepA, num - 1) + [ArcPoint(trig, center, radius, SampleAngle(a0, stepA, num))]
  }

  /** Sample `i` lies on the circle at angle `a0 + i * stepA`. */
  lemma {:induction false} SampleAt(trig: Trig, center: Vec3, radius: real, a0: real, stepA: real, num: nat, i: int)
    requires 0 <= i <= num
    ensures Samples(trig, center, radius, a0, stepA, num)[i] == ArcPoint(trig, center, radius, SampleAngle(a0, stepA, i))
  {
    if i < num {
      SampleAt(trig, center, radius, a0, stepA, num - 1, i);
    }
  }

  /**
   The samples of one arc around `center`: none when the step count is not
   positive (an empty arc, a non-positive radius); otherwise one per step plus
   one, starting on the normalised start bound and, for a positive step size,
   finishing on the end bound (up to a whole turn).
   */
  function Arc(trig: Trig, center: Vec3, radius: real, angleFrom: real, angleTo: real, stepSize: real): (r: seq<Vec3>)
    requires stepSize != 0.0
    ensures |r| == ArcCount(radius, angleFrom, angleTo, stepSize)
  {
    var num := ArcSteps(radius, angleFrom, angleTo, stepSize);
    if num <= 0 then []
    else Samples(trig, center, radius, ArcStart(angleFrom), StepAngle(radius, angleFrom, angleTo, stepSize), num)
  }

  /**
   A non-empty arc starts on the normalised start bound and finishes on the
   end bound (up to a whole turn) for a positive step size, or as far on the
   other side of the start for a negative one.
   */
  lemma ArcEnds(trig: Trig, center: Vec3, radius: real, angleFrom: real, angleTo: real, stepSize: real)
    requires stepSize != 0.0
    ensures var r := Arc(trig, center, radius, angleFrom, angleTo, stepSize);
      |r| > 0 ==> r[0] == ArcPoint(trig, center, radius, ArcStart(angleFrom))
    ensures var r := Arc(trig, center, radius, angleFrom, angleTo, stepSize);
      |r| > 0 && stepSize > 0.0 ==>
        r[|r| - 1] == ArcPoint(trig, center, radius, ArcStart(angleFrom) + ArcDelta(angleFrom, angleTo))
    ensures var r := Arc(trig, center, radius, angleFrom, angleTo, stepSize);
      |r| > 0 && stepSize < 0.0 ==>
        r[|r| - 1] == ArcPoint(trig, center, radius, ArcStart(angleFrom) - ArcDelta(angleFrom, angleTo))
  {
    var num := ArcSteps(radius, angleFrom, angleTo, stepSize);
    if num > 0 {
      var a0 := ArcStart(angleFrom);
      var stepA := StepAngle(radius, angleFrom, angleTo, stepSize);
      SampleAt(trig, center, radius, a0, stepA, num, 0);
      SampleAt(trig, center, radius, a0, stepA, num, num);
      LastSampleAngle(a0, ArcDelta(angleFrom, angleTo), num);
    }
  }

  /**
   `AddPolyArc`: the points already in `poly` are kept, in place, and the
   samples of the arc follow them.
   */
  function AddPolyArc(trig: Trig, poly: seq<Vec3>, center: Vec3, radius: real,
                      angleFrom: real, angleTo: real, stepSize: real): (r: seq<Vec3>)
    requires stepSize != 0.0
    ensures |r| == |poly| + ArcCount(radius, angleFrom, angleTo, stepSize)
  {
    poly + Arc(trig, center, radius, angleFrom, angleTo, stepSize)
  }

  /** The points already in the list are untouched, and the arc's samples follow them. */
  lemma AddPolyArcKeepsPrefix(trig: Trig, poly: seq<Vec3>, center: Vec3, radius: real,
                              angleFrom: real, angleTo: real, stepSize: real)
    requires stepSize != 0.0
    ensures AddPolyArc(trig, poly, center, radius, angleFrom, angleTo, stepSize)[..|poly|] == poly
    ensures AddPolyArc(trig, poly, center, radius, angleFrom, angleTo, stepSize)[|poly|..]
         == Arc(trig, center, radius, angleFrom, angleTo, stepSize)
  {
  }

  /** Swing of the flipper in degrees. */
  function Swing(f: Flipper): (swing: real)
    ensures swing >= 0.0
  {
    Abs(f.endAngle - f.startAngle)
  }

  /** The two shapes the first piece of the outline takes. */
  datatype FirstPiece = FullArc | DegeneratePoint

  function FirstPieceKind(swing: real): FirstPiece
  {
    if swing < 180.0 then FullArc else DegeneratePoint
  }

  /** Local tip position after rotating the resting tip by `swing`. */
  function SwingTip(trig: Trig, f: Flipper, swing: real): Vec3
  {
    RotateZ(trig, swing, Vec3(0.0, -f.flipperRadius, 0.0))
  }

  /** Number of points contributed by the first piece. */
  function FirstPieceSize(f: Flipper, margin: real, stepSize: real): nat
    requires stepSize != 0.0
  {
    if Swing(f) >= 180.0 then 1 else ArcCount(f.baseRadius + margin, Swing(f), 180.0, stepSize)
  }

  /** First piece: the arc around the pivot from `swing` to 180, or a single point once the swing reaches 180. */
  function FirstPieceOf(trig: Trig, f: Flipper, margin: real, stepSize: real): (r: seq<Vec3>)
    requires stepSize != 0.0
    ensures |r| == FirstPieceSize(f, margin, stepSize)
    ensures Swing(f) < 180.0 ==> r == Arc(trig, Vec3(0.0, 0.0, 0.0), f.baseRadius + margin, Swing(f), 180.0, stepSize)
    ensures Swing(f) >= 180.0 && IsLeft(f) ==> r == [RotateZ(trig, Swing(f), Vec3(f.baseRadius + margin, 0.0, 0.0))]
    ensures Swing(f) >= 180.0 && !IsLeft(f) ==> r == [Vec3(-(f.baseRadius + margin), 0.0, 0.0)]
  {
    var swing := Swing(f);
    var baseRadius := f.baseRadius + margin;
    match FirstPieceKind(swing)
    case FullArc => AddPolyArc(trig, [], Vec3(0.0, 0.0, 0.0), baseRadius, swing, 180.0, stepSize)
    case DegeneratePoint =>
      if IsLeft(f) then [RotateZ(trig, swing, Vec3(baseRadius, 0.0, 0.0))]
      else [Vec3(-baseRadius, 0.0, 0.0)]
  }

  /** Point count of the outline: the four contributions, each counted on its own. */
  function PolygonSize(f: Flipper, margin: real, stepSize: real): nat
    requires stepSize != 0.0
  {
    var swing := Swing(f);
    var tipRadius := f.endRadius + margin;
    FirstPieceSize(f, margin, stepSize)
    + ArcCount(tipRadius, 180.0, 270.0, stepSize)
    + ArcCount(f.flipperRadius + tipRadius, 270.0, 270.0 + swing, stepSize)
    + ArcCount(tipRadius, 270.0 + swing, swing, stepSize)
  }

  /** The outline before the left-hand rotation, built as the source appends it. */
  function LocalPolygon(trig: Trig, f: Flipper, margin: real, stepSize: real): (r: seq<Vec3>)
    requires stepSize != 0.0
    ensures |r| == PolygonSize(f, margin, stepSize)
  {
    var swing := Swing(f);
    var tipRadius := f.endRadius + margin;
    var length := f.flipperRadius;
    var origin := Vec3(0.0, 0.0, 0.0);
    var ret1 := FirstPieceOf(trig, f, margin, stepSize);
    var ret2 := AddPolyArc(trig, ret1, Vec3(0.0, -length, 0.0), tipRadius, 180.0, 270.0, stepSize);
    var ret3 := AddPolyArc(trig, ret2, origin, length + tipRadius, 270.0, 270.0 + swing, stepSize);
    AddPolyArc(trig, ret3, SwingTip(trig, f, swing), tipRadius, 270.0 + swing, swing, stepSize)
  }

  /** `GetEnclosingPolygon(margin, stepSize)`. */
  function EnclosingPolygon(trig: Trig, f: Flipper, margin: real, stepSize: real): (r: seq<Vec3>)
    requires stepSize != 0.0
    ensures |r| == PolygonSize(f, margin, stepSize)
    ensures IsLeft(f) ==> r == RotateAll(trig, -Swing(f), LocalPolygon(trig, f, margin, stepSize))
    ensures !IsLeft(f) ==> r == LocalPolygon(trig, f, margin, stepSize)
  {
    var ret := LocalPolygon(trig, f, margin, stepSize);
    if IsLeft(f) then RotateAll(trig, -Swing(f), ret) else ret
  }

  /**
   The outline is the concatenation, in order, of the first piece, the arc
   around the resting tip, the outer arc around the pivot and the arc around
   the swung tip.
   */
  lemma LocalPolygonIsFourPieces(trig: Trig, f: Flipper, margin: real, stepSize: real)
    requires stepSize != 0.0
    ensures LocalPolygon(trig, f, margin, stepSize)
         == FirstPieceOf(trig, f, margin, stepSize)
          + Arc(trig, Vec3(0.0, -f.flipperRadius, 0.0), f.endRadius + margin, 180.0, 270.0, stepSize)
          + Arc(trig, Vec3(0.0, 0.0, 0.0), f.flipperRadius + (f.endRadius + margin), 270.0, 270.0 + Swing(f), stepSize)
          + Arc(trig, SwingTip(trig, f, Swing(f)), f.endRadius + margin, 270.0 + Swing(f), Swing(f), stepSize)
  {
  }

  /** Sample `i` of a non-empty arc sits at `i` equal angular steps from the start bound. */
  lemma ArcSampleAt(trig: Trig, center: Vec3, radius: real, angleFrom: real, angleTo: real, stepSize: real, i: int)
    requires stepSize != 0.0
    requires 0 <= i < ArcCount(radius, angleFrom, angleTo, stepSize)
    ensures ArcSteps(radius, angleFrom, angleTo, stepSize) > 0
    ensures Arc(trig, center, radius, angleFrom, angleTo, stepSize)[i]
         == ArcPoint(trig, center, radius,
                     SampleAngle(ArcStart(angleFrom), StepAngle(radius, angleFrom, angleTo, stepSize), i))
  {
    var num := ArcSteps(radius, angleFrom, angleTo, stepSize);
    SampleAt(trig, center, radius, ArcStart(angleFrom), StepAngle(radius, angleFrom, angleTo, stepSize), num, i);
  }

  /** An arc whose bounds coincide after normalisation is empty. */
  lemma EmptyArcAddsNothing(trig: Trig, poly: seq<Vec3>, center: Vec3, radius: real, angle: real, stepSize: real)
    requires stepSize != 0.0
    ensures ArcCount(radius, angle, angle, stepSize) == 0
    ensures AddPolyArc(trig, poly, center, radius, angle, angle, stepSize) == poly
  {
    assert ArcDelta(angle, angle) == 0.0;
  }

  /** A non-positive radius never produces points, whatever the bounds. */
  lemma NonPositiveRadiusAddsNothing(radius: real, angleFrom: real, angleTo: real, stepSize: real)
    requires stepSize != 0.0
    requires radius <= 0.0
    ensures ArcCount(radius, angleFrom, angleTo, stepSize) == 0
  {
    var l := ArcDelta(angleFrom, angleTo) * radius;
    assert l <= 0.0;
    assert l / Abs(stepSize) <= 0.0;
  }

  lemma DivideAntitone(l: real, a: real, b: real)
    requires l > 0.0 && 0.0 < a <= b
    ensures l / b <= l / a
  {
    assert l / a * a == l;
    assert l / b * b == l;
    assert (l / a) * b >= (l / a) * a;
  }

  lemma CeilMonotone(x: real, y: real)
    requires x <= y
    ensures Ceil(x) <= Ceil(y)
  {
  }

  /** A finer step never yields fewer steps along a length. */
  lemma StepsForMonotone(arcLength: real, coarse: real, fine: real)
    requires coarse != 0.0 && fine != 0.0
    requires Abs(fine) <= Abs(coarse)
    ensures arcLength <= 0.0 ==> StepsFor(arcLength, coarse) <= 0 && StepsFor(arcLength, fine) <= 0
    ensures arcLength > 0.0 ==> StepsFor(arcLength, coarse) <= StepsFor(arcLength, fine)
  {
    if arcLength <= 0.0 {
      assert arcLength / Abs(coarse) <= 0.0;
      assert arcLength / Abs(fine) <= 0.0;
    } else {
      DivideAntitone(arcLength, Abs(fine), Abs(coarse));
      CeilMonotone(arcLength / Abs(coarse), arcLength / Abs(fine));
    }
  }

  /** A finer step never yields fewer arc points. */
  lemma ArcCountMonotone(radius: real, angleFrom: real, angleTo: real, coarse: real, fine: real)
    requires coarse != 0.0 && fine != 0.0
    requires Abs(fine) <= Abs(coarse)
    ensures ArcCount(radius, angleFrom, angleTo, coarse) <= ArcCount(radius, angleFrom, angleTo, fine)
  {
    StepsForMonotone(ArcDelta(angleFrom, angleTo) * radius, coarse, fine);
  }

  /** The enclosing polygon never loses points when the step size shrinks. */
  lemma PolygonSizeMonotone(f: Flipper, margin: real, coarse: real, fine: real)
    requires coarse != 0.0 && fine != 0.0
    requires Abs(fine) <= Abs(coarse)
    ensures PolygonSize(f, margin, coarse) <= PolygonSize(f, margin, fine)
  {
    var swing := Swing(f);
    var tipRadius := f.endRadius + margin;
    ArcCountMonotone(f.baseRadius + margin, swing, 180.0, coarse, fine);
    ArcCountMonotone(tipRadius, 180.0, 270.0, coarse, fine);
    ArcCountMonotone(f.flipperRadius + tipRadius, 270.0, 270.0 + swing, coarse, fine);
    ArcCountMonotone(tipRadius, 270.0 + swing, swing, coarse, fine);
  }

  /**
   With no swing the first piece is still the full half circle around the
   pivot (at least two points for a positive radius), and the outer arc
   around the pivot is empty.
   */
  lemma ZeroSwing(f: Flipper, margin: real, stepSize: real)
    requires stepSize != 0.0
    requires f.startAngle == f.endAngle
    ensures FirstPieceKind(Swing(f)) == FullArc
    ensures f.baseRadius + margin > 0.0 ==> FirstPieceSize(f, margin, stepSize) >= 2
    ensures ArcCount(f.flipperRadius + (f.endRadius + margin), 270.0, 270.0 + Swing(f), stepSize) == 0
  {
    assert Swing(f) == 0.0;
    NormalizeFixesCanonical(0.0);
    NormalizeFixesCanonical(180.0);
    assert ArcDelta(0.0, 180.0) == Pi;
    var l := ArcDelta(0.0, 180.0) * (f.baseRadius + margin);
    if f.baseRadius + margin > 0.0 {
      assert l > 0.0;
      assert l / Abs(stepSize) > 0.0;
    }
    assert ArcDelta(270.0, 270.0) == 0.0;
  }

  /** Rotating a concatenation rotates each part. */
  lemma RotateAllConcat(trig: Trig, deg: real, a: seq<Vec3>, b: seq<Vec3>)
    ensures RotateAll(trig, deg, a + b) == RotateAll(trig, deg, a) + RotateAll(trig, deg, b)
  {
  }

  /** The three arcs after the first piece. */
  function SweptArcs(trig: Trig, f: Flipper, margin: real, stepSize: real): seq<Vec3>
    requires stepSize != 0.0
  {
    Arc(trig, Vec3(0.0, -f.flipperRadius, 0.0), f.endRadius + margin, 180.0, 270.0, stepSize)
    + Arc(trig, Vec3(0.0, 0.0, 0.0), f.flipperRadius + (f.endRadius + margin), 270.0, 270.0 + Swing(f), stepSize)
    + Arc(trig, SwingTip(trig, f, Swing(f)), f.endRadius + margin, 270.0 + Swing(f), Swing(f), stepSize)
  }

  lemma LocalPolygonSplits(trig: Trig, f: Flipper, margin: real, stepSize: real)
    requires stepSize != 0.0
    ensures LocalPolygon(trig, f, margin, stepSize) == FirstPieceOf(trig, f, margin, stepSize) + SweptArcs(trig, f, margin, stepSize)
  {
    var p1 := FirstPieceOf(trig, f, margin, stepSize);
    var a2 := Arc(trig, Vec3(0.0, -f.flipperRadius, 0.0), f.endRadius + margin, 180.0, 270.0, stepSize);
    var a3 := Arc(trig, Vec3(0.0, 0.0, 0.0), f.flipperRadius + (f.endRadius + margin), 270.0, 270.0 + Swing(f), stepSize);
    var a4 := Arc(trig, SwingTip(trig, f, Swing(f)), f.endRadius + margin, 270.0 + Swing(f), Swing(f), stepSize);
    LocalPolygonIsFourPieces(trig, f, margin, stepSize);
    Regroup(p1, a2, a3, a4);
  }

  lemma Regroup<T>(a: seq<T>, b: seq<T>, c: seq<T>, d: seq<T>)
    ensures a + b + c + d == a + (b + c + d)
  {
  }

  /** The swept arcs depend only on the radii and the swing, not on the handedness. */
  lemma SweptArcsIgnoreHandedness(trig: Trig, left: Flipper, right: Flipper, margin: real, stepSize: real)
    requires stepSize != 0.0
    requires Swing(left) == Swing(right)
    requires left.endRadius == right.endRadius && left.flipperRadius == right.flipperRadius
    ensures SweptArcs(trig, left, margin, stepSize) == SweptArcs(trig, right, margin, stepSize)
  {
  }

  /** A flipper's outline is its first piece and swept arcs, rotated back by the swing when left-handed. */
  lemma EnclosingPolygonSplits(trig: Trig, f: Flipper, margin: real, stepSize: real)
    requires stepSize != 0.0
    ensures IsLeft(f) ==>
              EnclosingPolygon(trig, f, margin, stepSize)
              == RotateAll(trig, -Swing(f), FirstPieceOf(trig, f, margin, stepSize))
               + RotateAll(trig, -Swing(f), SweptArcs(trig, f, margin, stepSize))
    ensures !IsLeft(f) ==>
              EnclosingPolygon(trig, f, margin, stepSize)
              == FirstPieceOf(trig, f, margin, stepSize) + SweptArcs(trig, f, margin, stepSize)
  {
    LocalPolygonSplits(trig, f, margin, stepSize);
    RotateAllConcat(trig, -Swing(f), FirstPieceOf(trig, f, margin, stepSize), SweptArcs(trig, f, margin, stepSize));
  }

  /**
   Mirrored flippers: with identical radii and the same swing below 180
   degrees, the left-handed outline is the right-handed one rotated back by
   the swing. From 180 degrees on only the single first point differs.
   */
  lemma MirroredOutlines(trig: Trig, left: Flipper, right: Flipper, margin: real, stepSize: real)
    requires stepSize != 0.0
    requires IsLeft(left) && !IsLeft(right)
    requires Swing(left) == Swing(right)
    requires left.baseRadius == right.baseRadius && left.endRadius == right.endRadius
    requires left.flipperRadius == right.flipperRadius
    ensures Swing(left) < 180.0 ==>
      EnclosingPolygon(trig, left, margin, stepSize)
        == RotateAll(trig, -Swing(left), EnclosingPolygon(trig, right, margin, stepSize))
    ensures Swing(left) >= 180.0 ==>
              |EnclosingPolygon(trig, left, margin, stepSize)| > 0
              && EnclosingPolygon(trig, left, margin, stepSize)[1..]
                 == RotateAll(trig, -Swing(left), EnclosingPolygon(trig, right, margin, stepSize))[1..]
  {
    var deg := -Swing(left);
    var pl := RotateAll(trig, deg, FirstPieceOf(trig, left, margin, stepSize));
    var pr := RotateAll(trig, deg, FirstPieceOf(trig, right, margin, stepSize));
    var rest := RotateAll(trig, deg, SweptArcs(trig, left, margin, stepSize));
    EnclosingPolygonSplits(trig, left, margin, stepSize);
    EnclosingPolygonSplits(trig, right, margin, stepSize);
    SweptArcsIgnoreHandedness(trig, left, right, margin, stepSize);
    RotateAllConcat(trig, deg, FirstPieceOf(trig, right, margin, stepSize), SweptArcs(trig, right, margin, stepSize));
    assert EnclosingPolygon(trig, left, margin, stepSize) == pl + rest;
    assert RotateAll(trig, deg, EnclosingPolygon(trig, right, margin, stepSize)) == pr + rest;
    FirstPiecesAgree(trig, left, right, margin, stepSize);
    SameTailAfterOnePoint(pl, pr, rest);
  }

  lemma SameTailAfterOnePoint(a: seq<Vec3>, b: seq<Vec3>, c: seq<Vec3>)
    requires |a| == |b| && (|a| == 1 || a == b)
    ensures |a + c| > 0 ==> (a + c)[1..] == (b + c)[1..]
  {
    if |a| == 1 {
      assert (a + c)[1..] == c == (b + c)[1..];
    }
  }

  /** Below 180 degrees the first pieces coincide; from 180 on each is one point. */
  lemma FirstPiecesAgree(trig: Trig, left: Flipper, right: Flipper, margin: real, stepSize: real)
    requires stepSize != 0.0
    requires Swing(left) == Swing(right)
    requires left.baseRadius == right.baseRadius
    ensures Swing(left) < 180.0 ==> FirstPieceOf(trig, left, margin, stepSize) == FirstPieceOf(trig, right, margin, stepSize)
    ensures Swing(left) >= 180.0 ==> |FirstPieceOf(trig, left, margin, stepSize)| == 1 == |FirstPieceOf(trig, right, margin, stepSize)|
  {
  }

  /**
   A left flipper swinging from 120 to 60 degrees: with no margin and step
   size 5, the first arc (base radius 20) spans 120 degrees and yields
   `ceil(20 * 2.094 / 5) + 1 = 10` points.
   */
  lemma FirstArcExample()
    ensures ArcCount(20.0, 60.0, 180.0, 5.0) == 10
  {
    NormalizeFixesCanonical(60.0);
    NormalizeFixesCanonical(180.0);
    assert ArcDelta(60.0, 180.0) == Radians(180.0) - Radians(60.0);
  }
}
