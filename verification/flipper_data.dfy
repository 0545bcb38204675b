/**
 The flipper's authored data and the runtime records derived from it once per
 flipper: the static physics descriptor (`GetMaterialData`), the initial
 movement and velocity state, and the editor's scale handle.
 */
module FlipperData {
  import opened Geometry

  datatype Vertex2D = Vertex2D(x: real, y: real)

  /** The authored flipper fields the core reads or writes (angles in degrees). */
  datatype Flipper = Flipper(
    center: Vertex2D,
    baseRadius: real,
    endRadius: real,
    flipperRadius: real,
    flipperRadiusMin: real,
    flipperRadiusMax: real,
    height: real,
    rubberHeight: real,
    rubberWidth: real,
    startAngle: real,
    endAngle: real)

  /**
   The difficulty-adjusted values the source obtains through table-wide
   accessors (`GetFlipperMass`, `GetStrength`, ...), already resolved.
   */
  datatype Difficulty = Difficulty(
    mass: real,
    strength: real,
    returnRatio: real,
    torqueDamping: real,
    torqueDampingAngle: real,
    rampUpSpeed: real)

  datatype StaticData = StaticData(
    position: Vec3,
    inertia: real,
    angleStart: real,
    angleEnd: real,
    strength: real,
    returnRatio: real,
    torqueDamping: real,
    torqueDampingAngle: real,
    rampUpSpeed: real,
    endRadius: real,
    flipperRadius: real)

  datatype MovementData = MovementData(
    angle: real,
    angleSpeed: real,
    angularMomentum: real,
    enableRotateEvent: int)

  datatype VelocityData = VelocityData(
    angularAcceleration: real,
    contactTorque: real,
    currentTorque: real,
    direction: bool,
    isInContact: bool)

  /** Smallest radius the derivation lets through. */
  const MinRadius: real := 0.01
  /** Perturbation applied to the end angle (radians) when it equals the start angle. */
  const AngleEpsilon: real := 0.0001

  /** A flipper is left-handed when it swings toward smaller angles. */
  predicate IsLeft(f: Flipper)
  {
    f.endAngle < f.startAngle
  }

  /** A min/max radius range is configured. */
  predicate HasRadiusRange(f: Flipper)
  {
    f.flipperRadiusMin > 0.0 && f.flipperRadiusMax > f.flipperRadiusMin
  }

  /**
   The flipper radius before clamping. With a range configured, the (disabled)
   difficulty blend `max - (max - min)` is floored at `base - end + 0.05`,
   which in exact arithmetic is the larger of the minimum and that floor.
   */
  function ChosenRadius(f: Flipper): (r: real)
    ensures HasRadiusRange(f) ==> r == Max(f.flipperRadiusMin, f.baseRadius - f.endRadius + 0.05)
    ensures HasRadiusRange(f) ==> r >= f.flipperRadiusMin && r >= f.baseRadius - f.endRadius + 0.05
    ensures !HasRadiusRange(f) ==> r == f.flipperRadiusMax
  {
    if HasRadiusRange(f) then
      Max(f.flipperRadiusMax - (f.flipperRadiusMax - f.flipperRadiusMin), f.baseRadius - f.endRadius + 0.05)
    else
      f.flipperRadiusMax
  }

  /** `GetMaterialData`: the static physics descriptor of one flipper. */
  function GetMaterialData(f: Flipper, d: Difficulty): (s: StaticData)
    // both radii are clamped from below, and only when they fall short
    ensures s.endRadius >= MinRadius && s.flipperRadius >= MinRadius
    ensures f.endRadius >= MinRadius ==> s.endRadius == f.endRadius
    ensures f.endRadius < MinRadius ==> s.endRadius == MinRadius
    ensures ChosenRadius(f) >= MinRadius ==> s.flipperRadius == ChosenRadius(f)
    ensures ChosenRadius(f) < MinRadius ==> s.flipperRadius == MinRadius
    // the angle range is never empty
    ensures s.angleStart == Radians(f.startAngle)
    ensures s.angleEnd != s.angleStart
    ensures f.endAngle != f.startAngle ==> s.angleEnd == Radians(f.endAngle)
    ensures f.endAngle == f.startAngle ==> s.angleEnd == s.angleStart + AngleEpsilon
    // thin rod rotating about one end
    ensures 3.0 * s.inertia == d.mass * s.flipperRadius * s.flipperRadius
    ensures d.mass > 0.0 ==> s.inertia > 0.0
    ensures s.position == Vec3(f.center.x, f.center.y, 0.0)
    ensures s.strength == d.strength && s.returnRatio == d.returnRatio
    ensures s.torqueDamping == d.torqueDamping && s.torqueDampingAngle == d.torqueDampingAngle
    ensures s.rampUpSpeed == d.rampUpSpeed
  {
    var flipperRadius := Max(ChosenRadius(f), MinRadius);
    var endRadius := Max(f.endRadius, MinRadius);
    var angleStart := Radians(f.startAngle);
    var angleEnd0 := Radians(f.endAngle);
    var angleEnd := if angleEnd0 == angleStart then angleEnd0 + AngleEpsilon else angleEnd0;
    var inertia := (1.0 / 3.0) * d.mass * (flipperRadius * flipperRadius);
    assert flipperRadius * flipperRadius > 0.0;
    StaticData(
      Vec3(f.center.x, f.center.y, 0.0),
      inertia,
      angleStart,
      angleEnd,
      d.strength,
      d.returnRatio,
      d.torqueDamping,
      d.torqueDampingAngle,
      d.rampUpSpeed,
      endRadius,
      flipperRadius)
  }

  /** `GetMovementData`: the flipper starts at rest on its start angle. */
  function GetMovementData(s: StaticData): (m: MovementData)
    ensures m.angle == s.angleStart
    ensures m.angleSpeed == 0.0 && m.angularMomentum == 0.0 && m.enableRotateEvent == 0
  {
    MovementData(s.angleStart, 0.0, 0.0, 0)
  }

  /** `GetVelocityData`: no torque, no contact, direction set by the angle range. */
  function GetVelocityData(s: StaticData): (v: VelocityData)
    ensures v.direction <==> s.angleEnd >= s.angleStart
    ensures v.angularAcceleration == 0.0 && v.contactTorque == 0.0 && v.currentTorque == 0.0
    ensures !v.isInContact
  {
    VelocityData(0.0, 0.0, 0.0, s.angleEnd >= s.angleStart, false)
  }

  /**
   The rotation direction of the derived runtime state is exactly the authored
   handedness: it points toward larger angles unless the flipper is left-handed,
   including when the authored angles coincide.
   */
  lemma DirectionFollowsHandedness(f: Flipper, d: Difficulty)
    ensures GetVelocityData(GetMaterialData(f, d)).direction <==> !IsLeft(f)
  {
    var s := GetMaterialData(f, d);
    if f.endAngle < f.startAngle {
      assert Radians(f.endAngle) < Radians(f.startAngle);
    } else if f.endAngle > f.startAngle {
      assert Radians(f.endAngle) > Radians(f.startAngle);
    }
  }

  /** The initial movement state sits at the start of the derived (non-empty) range. */
  lemma MovementStartsAtRest(f: Flipper, d: Difficulty)
    ensures GetMovementData(GetMaterialData(f, d)).angle == Radians(f.startAngle)
    ensures GetMovementData(GetMaterialData(f, d)).angle != GetMaterialData(f, d).angleEnd
  {
  }

  /** Base radius 20, end radius 10, radius 60 with no range, mass 1: inertia 1200. */
  lemma InertiaExample()
    ensures GetMaterialData(
      Flipper(Vertex2D(0.0, 0.0), 20.0, 10.0, 60.0, 0.0, 60.0, 50.0, 19.0, 24.0, 121.0, 70.0),
      Difficulty(1.0, 2200.0, 0.055, 0.75, 6.0, 3.0)).inertia == 1200.0
  {
  }

  /** `GetEditorScale`: the scale handle shows base radius, flipper radius and height. */
  function GetEditorScale(f: Flipper): Vec3
  {
    Vec3(f.baseRadius, f.flipperRadius, f.height)
  }

  /**
   `SetEditorScale`: the scale handle sets base radius, flipper radius and
   height; the end radius follows the base radius proportionally, and the
   rubber height and width follow the height, whenever the old value is
   positive.
   */
  function SetEditorScale(f: Flipper, scale: Vec3): (g: Flipper)
    ensures GetEditorScale(g) == scale
    ensures f.baseRadius > 0.0 && scale.x != 0.0 ==> g.endRadius / g.baseRadius == f.endRadius / f.baseRadius
    ensures f.baseRadius > 0.0 && scale.x == 0.0 ==> g.endRadius == 0.0
    ensures f.baseRadius <= 0.0 ==> g.endRadius == f.endRadius
    ensures f.height > 0.0 && scale.z != 0.0 ==>
      g.rubberHeight / g.height == f.rubberHeight / f.height && g.rubberWidth / g.height == f.rubberWidth / f.height
    ensures f.height > 0.0 && scale.z == 0.0 ==> g.rubberHeight == 0.0 && g.rubberWidth == 0.0
    ensures f.height <= 0.0 ==> g.rubberHeight == f.rubberHeight && g.rubberWidth == f.rubberWidth
    ensures g.(baseRadius := f.baseRadius, flipperRadius := f.flipperRadius, height := f.height,
               endRadius := f.endRadius, rubberHeight := f.rubberHeight, rubberWidth := f.rubberWidth) == f
  {
    var endRadius := if f.baseRadius > 0.0 then scale.x * (f.endRadius / f.baseRadius) else f.endRadius;
    var rubberHeight := if f.height > 0.0 then scale.z * (f.rubberHeight / f.height) else f.rubberHeight;
    var rubberWidth := if f.height > 0.0 then scale.z * (f.rubberWidth / f.height) else f.rubberWidth;
    f.(endRadius := endRadius, baseRadius := scale.x, flipperRadius := scale.y,
       rubberHeight := rubberHeight, rubberWidth := rubberWidth, height := scale.z)
  }

  /** Writing back the scale the handle shows changes nothing. */
  lemma SetEditorScaleOfOwnScale(f: Flipper)
    ensures SetEditorScale(f, GetEditorScale(f)) == f
  {
    var g := SetEditorScale(f, GetEditorScale(f));
    if f.baseRadius > 0.0 {
      assert f.baseRadius * (f.endRadius / f.baseRadius) == f.endRadius;
    }
    if f.height > 0.0 {
      assert f.height * (f.rubberHeight / f.height) == f.rubberHeight;
      assert f.height * (f.rubberWidth / f.height) == f.rubberWidth;
    }
  }
}
