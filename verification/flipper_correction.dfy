/**
 The flipper-correction set-up: the two response curves sampled into lookup
 tables, and the auxiliary trigger whose outline is the flipper's enclosing
 polygon expressed in the table's frame, with its winding reversed.
 */
module FlipperCorrection {
  import opened Wrappers
  import opened Geometry
  import opened FlipperData
  import opened FlipperPolygon

  /** A response curve: the times of its first and last keys, and its evaluation. */
  datatype Curve = Curve(start: real, end: real, eval: real -> real)

  /** One lookup-table entry: a curve time and the curve's value there. */
  datatype Sample = Sample(t: real, value: real)

  /** The correction settings of a flipper's collider. */
  datatype CorrectionSettings = CorrectionSettings(
    polarities: Option<Curve>,
    polaritiesSlicingCount: int,
    velocities: Option<Curve>,
    velocitiesSlicingCount: int,
    timeThresholdMs: int)

  /** What the correction blob carries besides the flipper entity. */
  datatype CorrectionTables = CorrectionTables(
    timeDelayMs: int,
    polarities: seq<Sample>,
    velocities: seq<Sample>)

  /** Time of sample `i` when a curve starting at `start` is cut into steps of `step`. */
  function SampleTime(start: real, step: real, i: int): real
  {
    start + i as real * step
  }

  /** Consecutive sample times are one step apart. */
  lemma SampleTimeNext(start: real, step: real, i: int)
    ensures SampleTime(start, step, i + 1) == SampleTime(start, step, i) + step
  {
    assert (i + 1) as real * step == i as real * step + step;
  }

  /** Sample `i` still lies in the curve's domain exactly when `i` is at most the slicing count. */
  lemma SampleInDomain(start: real, end: real, count: int, i: int)
    requires count > 0 && start < end && i >= 0
    ensures SampleTime(start, (end - start) / count as real, i) <= end <==> i <= count
  {
    var step := (end - start) / count as real;
    assert step > 0.0;
    assert count as real * step == end - start;
    if i <= count {
      assert i as real * step <= count as real * step;
    } else {
      assert i as real * step >= (count + 1) as real * step;
    }
  }

  /** The last sample falls on the curve's last key. */
  lemma LastSampleTime(start: real, end: real, count: int)
    requires count > 0
    ensures SampleTime(start, (end - start) / count as real, count) == end
  {
    assert count as real * ((end - start) / count as real) == end - start;
  }

  /**
   A curve sampled uniformly from its first to its last key time: the
   loop steps by `(end - start) / count` while the time stays within the
   domain, which in exact arithmetic writes exactly `count + 1` entries,
   the first on the first key and the last on the last key.
   */
  method SampleCurve(curve: Curve, count: int) returns (table: seq<Sample>)
    requires count > 0
    requires curve.start < curve.end
    ensures |table| == count + 1
    ensures table[0].t == curve.start && table[count].t == curve.end
    ensures forall i :: 0 <= i <= count ==> table[i].value == curve.eval(table[i].t)
    ensures forall i :: 0 <= i < count ==> table[i + 1].t - table[i].t == (curve.end - curve.start) / count as real
    ensures forall i :: 0 <= i < count ==> table[i].t < table[i + 1].t
  {
    var step := (curve.end - curve.start) / count as real;
    assert step > 0.0;
    table := [];
    var i := 0;
    var t := curve.start;
    while t <= curve.end
      invariant 0 <= i <= count + 1
      invariant |table| == i
      invariant t == SampleTime(curve.start, step, i)
      invariant i > 0 ==> table[0].t == curve.start && table[i - 1].t + step == t
      invariant forall k :: 0 <= k < i ==> table[k].value == curve.eval(table[k].t)
      invariant forall k :: 0 <= k < i - 1 ==> table[k + 1].t - table[k].t == step
      decreases count + 1 - i
    {
      SampleInDomain(curve.start, curve.end, count, i);
      SampleTimeNext(curve.start, step, i);
      table := table + [Sample(t, curve.eval(t))];
      i := i + 1;
      t := t + step;
    }
    SampleInDomain(curve.start, curve.end, count, i);
    SampleTimeNext(curve.start, step, count);
    LastSampleTime(curve.start, curve.end, count);
  }

  /** The fallback table: entry `i` is `(i / spacing, value)`. */
  method UniformTable(count: int, spacing: int, value: real) returns (table: seq<Sample>)
    requires count >= 0 && spacing > 0
    ensures |table| == count + 1
    ensures forall i :: 0 <= i <= count ==> table[i] == Sample(i as real / spacing as real, value)
    ensures table[0].t == 0.0
    ensures count == spacing ==> table[count].t == 1.0
  {
    table := [];
    var i := 0;
    while i < count + 1
      invariant 0 <= i <= count + 1
      invariant |table| == i
      invariant forall k :: 0 <= k < i ==> table[k] == Sample(k as real / spacing as real, value)
    {
      table := table + [Sample(i as real / spacing as real, value)];
      i := i + 1;
    }
  }

  /**
   The curve discretisation of the flipper conversion. Without a curve the
   polarity table is the no-op response `(i / P, 0)` and the velocity table
   the pass-through response `(i / P, 1)`, both spaced by the polarity
   slicing count `P`, as the source does for the velocities too.
   */
  method Discretize(settings: CorrectionSettings) returns (tables: CorrectionTables)
    requires settings.polaritiesSlicingCount > 0 && settings.velocitiesSlicingCount > 0
    requires settings.polarities.Some? ==> settings.polarities.value.start < settings.polarities.value.end
    requires settings.velocities.Some? ==> settings.velocities.value.start < settings.velocities.value.end
    ensures tables.timeDelayMs == settings.timeThresholdMs
    ensures |tables.polarities| == settings.polaritiesSlicingCount + 1
    ensures |tables.velocities| == settings.velocitiesSlicingCount + 1
    ensures settings.polarities.Some? ==>
              tables.polarities[0].t == settings.polarities.value.start
              && tables.polarities[settings.polaritiesSlicingCount].t == settings.polarities.value.end
              && (forall i :: 0 <= i <= settings.polaritiesSlicingCount ==>
                   tables.polarities[i].value == settings.polarities.value.eval(tables.polarities[i].t))
              && forall i :: 0 <= i < settings.polaritiesSlicingCount ==>
                   tables.polarities[i + 1].t - tables.polarities[i].t
                   == (settings.polarities.value.end - settings.polarities.value.start) / settings.polaritiesSlicingCount as real
    ensures settings.velocities.Some? ==>
              tables.velocities[0].t == settings.velocities.value.start
              && tables.velocities[settings.velocitiesSlicingCount].t == settings.velocities.value.end
              && (forall i :: 0 <= i <= settings.velocitiesSlicingCount ==>
                   tables.velocities[i].value == settings.velocities.value.eval(tables.velocities[i].t))
              && forall i :: 0 <= i < settings.velocitiesSlicingCount ==>
                   tables.velocities[i + 1].t - tables.velocities[i].t
                   == (settings.velocities.value.end - settings.velocities.value.start) / settings.velocitiesSlicingCount as real
    ensures settings.polarities.None? ==>
              forall i :: 0 <= i <= settings.polaritiesSlicingCount ==>
                tables.polarities[i] == Sample(i as real / settings.polaritiesSlicingCount as real, 0.0)
    ensures settings.velocities.None? ==>
              forall i :: 0 <= i <= settings.velocitiesSlicingCount ==>
                tables.velocities[i] == Sample(i as real / settings.polaritiesSlicingCount as real, 1.0)
    ensures settings.velocities.None? ==>
              tables.velocities[settings.velocitiesSlicingCount].t
              == settings.velocitiesSlicingCount as real / settings.polaritiesSlicingCount as real
  {
    var polarities, velocities;
    if settings.polarities.Some? {
      polarities := SampleCurve(settings.polarities.value, settings.polaritiesSlicingCount);
    } else {
      polarities := UniformTable(settings.polaritiesSlicingCount, settings.polaritiesSlicingCount, 0.0);
    }
    if settings.velocities.Some? {
      velocities := SampleCurve(settings.velocities.value, settings.velocitiesSlicingCount);
    } else {
      velocities := UniformTable(settings.velocitiesSlicingCount, settings.polaritiesSlicingCount, 1.0);
    }
    tables := CorrectionTables(settings.timeThresholdMs, polarities, velocities);
  }

  /** A point of the correction trigger's outline, in the table's frame. */
  datatype DragPoint = DragPoint(x: real, y: real)

  /** The trigger data the correction shape is built from. */
  datatype TriggerData = TriggerData(
    name: string,
    center: Vertex2D,
    dragPoints: seq<DragPoint>,
    isLocked: bool,
    hitHeight: real)

  /** The flipper has no table above it in the scene hierarchy. */
  datatype SetupError = NotInTable

  const CorrectionMargin: real := 23.0
  const CorrectionStepSize: real := 12.0
  const CorrectionHitHeight: real := 150.0
  const CorrectionSuffix: string := "_nFozzy"

  /** A local polygon point taken to the world, then into the table's frame, keeping x and y. */
  function ToTableFrame(toWorld: Vec3 -> Vec3, toTable: Vec3 -> Vec3, p: Vec3): DragPoint
  {
    var q := toTable(toWorld(p));
    DragPoint(q.x, q.y)
  }

  /** The outline written back to front, each point taken into the table's frame. */
  method ReversedInFrame(poly: seq<Vec3>, toWorld: Vec3 -> Vec3, toTable: Vec3 -> Vec3)
    returns (points: seq<DragPoint>)
    ensures |points| == |poly|
    ensures forall i :: 0 <= i < |poly| ==> points[|poly| - 1 - i] == ToTableFrame(toWorld, toTable, poly[i])
  {
    var n := |poly|;
    points := seq(n, _ => DragPoint(0.0, 0.0));
    var i := 0;
    while i < n
      invariant 0 <= i <= n
      invariant |points| == n
      invariant forall k :: 0 <= k < i ==> points[n - 1 - k] == ToTableFrame(toWorld, toTable, poly[k])
    {
      points := points[n - i - 1 := ToTableFrame(toWorld, toTable, poly[i])];
      i := i + 1;
    }
  }

  /**
   `CreateCorrectionTrigger`: fails when the flipper is not under a table;
   otherwise a locked trigger of hit height 150 whose drag points are the
   enclosing polygon (margin 23, step 12) in the table's frame, in reverse
   order.
   */
  method CreateCorrectionTrigger(trig: Trig, f: Flipper, name: string,
                                 toWorld: Vec3 -> Vec3, tableFrame: Option<Vec3 -> Vec3>)
    returns (r: Result<TriggerData, SetupError>)
    ensures r.Err? <==> tableFrame.None?
    ensures r.Err? ==> r.error == NotInTable
    ensures r.Ok? ==>
              var poly := EnclosingPolygon(trig, f, CorrectionMargin, CorrectionStepSize);
              && |r.value.dragPoints| == |poly| == PolygonSize(f, CorrectionMargin, CorrectionStepSize)
              && (forall i :: 0 <= i < |poly| ==>
                    r.value.dragPoints[|poly| - 1 - i] == ToTableFrame(toWorld, tableFrame.value, poly[i]))
              && r.value.isLocked
              && r.value.hitHeight == CorrectionHitHeight
              && r.value.name == name + CorrectionSuffix
              && r.value.center == f.center
  {
    if tableFrame.None? {
      return Err(NotInTable);
    }
    var poly := EnclosingPolygon(trig, f, CorrectionMargin, CorrectionStepSize);
    var points := ReversedInFrame(poly, toWorld, tableFrame.value);
    r := Ok(TriggerData(name + CorrectionSuffix, f.center, points, true, CorrectionHitHeight));
  }
}
