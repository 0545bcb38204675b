# Flipper set-up and lamp player, modelled in Dafny

This project models two parts of Visual Pinball Engine's Unity player.

**Flipper set-up** (`FlipperAuthoring.cs`) turns an authored flipper into runtime data:

- the static physics descriptor (radius selection and clamping, angles in radians, thin-rod inertia);
- the initial movement and velocity records;
- the editor scale handle;
- the enclosing polygon. This is four tessellated arcs that bound the swept flipper body; a left-handed flipper's polygon is rotated back by the swing;
- the discretisation of the two correction curves (polarity and velocity) into lookup tables;
- the correction trigger. Its outline is the enclosing polygon with margin 23 and step 12, taken into the table's frame and written back to front.

**Lamp player** (`LampPlayer.cs`) keeps three lookups:

- lamp id → assigned playfield items;
- lamp id → item → mapping;
- item name → registered lamp component.

It rebuilds the first two at start-up from the table's lamp mappings. It dispatches lamp and colour events through them and keeps a status per lamp id. Lamp components are recorded as a log of the calls made on them.

Files:

- `wrappers.dfy`: `Option` and `Result`.
- `geometry.dfy`: exact-real vectors and degree/radian conversion. It also has the C# floating-point remainder as used on angles, the ceiling, and rotation about z. Cosine and sine are uninterpreted: they are fields of a `Trig` record passed in.
- `flipper_data.dfy`: the flipper record, `GetMaterialData`, `GetMovementData`, `GetVelocityData` and the editor scale.
- `flipper_polygon.dfy`: `AddPolyArc` and `GetEnclosingPolygon`.
- `flipper_correction.dfy`: curve discretisation and `CreateCorrectionTrigger`.
- `lamp_player.dfy`: the lamp player as a state record with transition functions.

Modelling choices:

- Arithmetic is exact: floats are reals and `Mathf.PI` is the decimal 3.1415927.
- `angle %= 360` follows C#: it truncates toward zero, then adds 360 when the result is negative. `Geometry.NormalizeIsEuclidean` proves this equals the Euclidean remainder.
- `Mathf.CeilToInt` is the mathematical ceiling.
- The two frame transforms of `CreateCorrectionTrigger` are function parameters, and so is the table lookup. The table lookup is an `Option`: `None` means the flipper is not under a table.
- The difficulty-dependent values are passed in as a `Difficulty` record: mass, strength, return ratio, torque damping and its angle, and ramp-up speed.
- The engine's presence is a boolean of the lamp player. The event subscriptions are a counter.

Two behaviours of `FlipperAuthoring.cs` worth noting:

- With a swing of 0 the code does not collapse the first arc of the enclosing polygon to one point. `swing < 180` holds, so it emits the full half circle from 0° to 180°. It is the outer arc, from 270° to 270°, that is empty (`FlipperPolygon.ZeroSwing`).
- When there is no velocity curve, the default velocity table is spaced by the *polarity* slicing count (FlipperAuthoring.cs line 122). Entry `i` is `(i / P, 1)`, so the table ends at `V / P` rather than at 1 when the two counts differ. `FlipperCorrection.Discretize` keeps this.

## Model

| member | source | states |
|---|---|---|
| FlipperData.IsLeft | VisualPinball.Unity/VisualPinball.Unity/VPT/Flipper/FlipperAuthoring.cs:53 | A flipper is left-handed exactly when its end angle is below its start angle. |
| FlipperData.ChosenRadius | VisualPinball.Unity/VisualPinball.Unity/VPT/Flipper/FlipperAuthoring.cs:316-323 | With a valid min/max range, the radius before clamping is the larger of the minimum and base−end+0.05. Without a range it is the maximum radius. |
| FlipperData.GetMaterialData | VisualPinball.Unity/VisualPinball.Unity/VPT/Flipper/FlipperAuthoring.cs:314-355 | Both radii are at least 0.01 and are changed only when below it. The start angle is the authored start in radians. The end angle never equals the start: it is nudged by 0.0001 exactly when the authored angles coincide. 3·inertia = mass·r², positive for positive mass. Position and difficulty values pass through. |
| FlipperData.GetMovementData | VisualPinball.Unity/VisualPinball.Unity/VPT/Flipper/FlipperAuthoring.cs:357-370 | The flipper starts on its start angle with zero speed, zero momentum and rotate events off. |
| FlipperData.GetVelocityData | VisualPinball.Unity/VisualPinball.Unity/VPT/Flipper/FlipperAuthoring.cs:372-381 | Direction holds iff the end angle is at least the start angle. There is no torque and no contact. |
| FlipperData.DirectionFollowsHandedness | VisualPinball.Unity/VisualPinball.Unity/VPT/Flipper/FlipperAuthoring.cs:53 | The derived direction is exactly "not left-handed", including when the authored angles are equal. |
| FlipperData.MovementStartsAtRest | VisualPinball.Unity/VisualPinball.Unity/VPT/Flipper/FlipperAuthoring.cs:327-333 | The initial angle is the start angle in radians and differs from the derived end angle. |
| FlipperData.InertiaExample | VisualPinball.Unity/VisualPinball.Unity/VPT/Flipper/FlipperAuthoring.cs:337-339 | Radius 60 with no range and mass 1 gives inertia 1200. |
| FlipperData.GetEditorScale | VisualPinball.Unity/VisualPinball.Unity/VPT/Flipper/FlipperAuthoring.cs:187 | The handle shows base radius, flipper radius and height. |
| FlipperData.SetEditorScale | VisualPinball.Unity/VisualPinball.Unity/VPT/Flipper/FlipperAuthoring.cs:188-203 | The handle afterwards shows the given scale. The end radius keeps its ratio to the base radius, and rubber height and width keep theirs to the height, whenever the old value was positive (so a zero scale makes them 0). Otherwise they are untouched. No other field changes. |
| FlipperData.SetEditorScaleOfOwnScale | VisualPinball.Unity/VisualPinball.Unity/VPT/Flipper/FlipperAuthoring.cs:187-203 | Writing back the scale the handle shows leaves the flipper unchanged. |
| Geometry.Remainder360 | VisualPinball.Unity/VisualPinball.Unity/VPT/Flipper/FlipperAuthoring.cs:208-209 | The C# remainder by 360 lies strictly between −360 and 360 and has the sign of the dividend. |
| Geometry.NormalizeDegrees | VisualPinball.Unity/VisualPinball.Unity/VPT/Flipper/FlipperAuthoring.cs:208-212 | The normalised angle lies in [0, 360). |
| Geometry.NormalizeIsEuclidean | VisualPinball.Unity/VisualPinball.Unity/VPT/Flipper/FlipperAuthoring.cs:208-212 | The remainder followed by +360 when negative equals the Euclidean remainder a − 360·⌊a/360⌋. |
| Geometry.NormalizeWholeTurns | VisualPinball.Unity/VisualPinball.Unity/VPT/Flipper/FlipperAuthoring.cs:208-212 | Adding whole turns to an angle does not change its normalised value. |
| FlipperPolygon.ArcDelta | VisualPinball.Unity/VisualPinball.Unity/VPT/Flipper/FlipperAuthoring.cs:213-217 | The counter-clockwise distance lies in [0, 2π). |
| FlipperPolygon.ArcDeltaReachesEnd | VisualPinball.Unity/VisualPinball.Unity/VPT/Flipper/FlipperAuthoring.cs:213-217 | Start plus distance reaches the end bound, possibly one turn later. |
| FlipperPolygon.LastSampleAngle | VisualPinball.Unity/VisualPinball.Unity/VPT/Flipper/FlipperAuthoring.cs:224-232 | `num` steps of `delta/num` cover exactly `delta`, forward or backward. |
| FlipperPolygon.Samples | VisualPinball.Unity/VisualPinball.Unity/VPT/Flipper/FlipperAuthoring.cs:229-233 | The loop yields num+1 points. |
| FlipperPolygon.SampleAt | VisualPinball.Unity/VisualPinball.Unity/VPT/Flipper/FlipperAuthoring.cs:229-233 | Sample i lies on the circle at angle start + i·step. |
| FlipperPolygon.Arc | VisualPinball.Unity/VisualPinball.Unity/VPT/Flipper/FlipperAuthoring.cs:206-234 | An arc has no points when the step count is not positive, else steps+1 points. |
| FlipperPolygon.ArcEnds | VisualPinball.Unity/VisualPinball.Unity/VPT/Flipper/FlipperAuthoring.cs:219-233 | A non-empty arc starts at the normalised start bound and ends at the end bound (start − distance for a negative step size). |
| FlipperPolygon.AddPolyArc | VisualPinball.Unity/VisualPinball.Unity/VPT/Flipper/FlipperAuthoring.cs:206-234 | The list grows by exactly the arc's point count. |
| FlipperPolygon.AddPolyArcKeepsPrefix | VisualPinball.Unity/VisualPinball.Unity/VPT/Flipper/FlipperAuthoring.cs:206-234 | The existing points stay in place and the arc's samples follow them. |
| FlipperPolygon.ArcSampleAt | VisualPinball.Unity/VisualPinball.Unity/VPT/Flipper/FlipperAuthoring.cs:219-233 | Point i of a non-empty arc is i equal angular steps from the start bound. |
| FlipperPolygon.EmptyArcAddsNothing | VisualPinball.Unity/VisualPinball.Unity/VPT/Flipper/FlipperAuthoring.cs:219-223 | An arc whose bounds coincide adds nothing (early return). |
| FlipperPolygon.NonPositiveRadiusAddsNothing | VisualPinball.Unity/VisualPinball.Unity/VPT/Flipper/FlipperAuthoring.cs:219-223 | A non-positive radius never adds points. |
| FlipperPolygon.StepsForMonotone | VisualPinball.Unity/VisualPinball.Unity/VPT/Flipper/FlipperAuthoring.cs:219-220 | A finer step never gives fewer steps along a positive length. |
| FlipperPolygon.ArcCountMonotone | VisualPinball.Unity/VisualPinball.Unity/VPT/Flipper/FlipperAuthoring.cs:219-223 | A finer step never gives fewer arc points. |
| FlipperPolygon.FirstPieceOf | VisualPinball.Unity/VisualPinball.Unity/VPT/Flipper/FlipperAuthoring.cs:250-258 | Below 180° of swing the first piece is the pivot arc from the swing to 180°. From 180° on it is one point: (b,0,0) rotated by the swing when left-handed, (−b,0,0) otherwise. |
| FlipperPolygon.LocalPolygon | VisualPinball.Unity/VisualPinball.Unity/VPT/Flipper/FlipperAuthoring.cs:239-262 | The unrotated outline has exactly the sum of the four pieces' point counts. |
| FlipperPolygon.EnclosingPolygon | VisualPinball.Unity/VisualPinball.Unity/VPT/Flipper/FlipperAuthoring.cs:237-272 | Its size is the four pieces' total. It is the local outline rotated by −swing when left-handed, and the local outline itself otherwise. |
| FlipperPolygon.LocalPolygonIsFourPieces | VisualPinball.Unity/VisualPinball.Unity/VPT/Flipper/FlipperAuthoring.cs:250-262 | The outline is, in order: the first piece, the arc around the resting tip, the outer arc around the pivot, and the arc around the swung tip. |
| FlipperPolygon.PolygonSizeMonotone | VisualPinball.Unity/VisualPinball.Unity/VPT/Flipper/FlipperAuthoring.cs:237-262 | A finer step size never gives an outline with fewer points. |
| FlipperPolygon.ZeroSwing | VisualPinball.Unity/VisualPinball.Unity/VPT/Flipper/FlipperAuthoring.cs:250-260 | With no swing the first piece is still a full arc (at least two points for a positive radius) and the outer pivot arc is empty. |
| FlipperPolygon.RotateAllConcat | VisualPinball.Unity/VisualPinball.Unity/VPT/Flipper/FlipperAuthoring.cs:264-269 | Rotating every point of a concatenation rotates each part. |
| FlipperPolygon.EnclosingPolygonSplits | VisualPinball.Unity/VisualPinball.Unity/VPT/Flipper/FlipperAuthoring.cs:250-269 | The outline is the first piece followed by the three swept arcs, each rotated back when left-handed. |
| FlipperPolygon.SweptArcsIgnoreHandedness | VisualPinball.Unity/VisualPinball.Unity/VPT/Flipper/FlipperAuthoring.cs:259-262 | The three swept arcs depend only on the radii and the swing. |
| FlipperPolygon.MirroredOutlines | VisualPinball.Unity/VisualPinball.Unity/VPT/Flipper/FlipperAuthoring.cs:250-269 | Take a left and a right flipper with equal radii and swing. Below 180° the left outline is the right one rotated by −swing. From 180° on they agree after the first point. |
| FlipperPolygon.FirstPiecesAgree | VisualPinball.Unity/VisualPinball.Unity/VPT/Flipper/FlipperAuthoring.cs:250-251 | Below 180° of swing, mirrored flippers have the same first piece. |
| FlipperPolygon.FirstArcExample | VisualPinball.Unity/VisualPinball.Unity/VPT/Flipper/FlipperAuthoring.cs:219-233 | Radius 20, bounds 60° to 180°, step 5: the arc has 10 points. |
| FlipperCorrection.SampleInDomain | VisualPinball.Unity/VisualPinball.Unity/VPT/Flipper/FlipperAuthoring.cs:89-91 | Sample i lies within the curve's time range exactly when i is at most the slicing count. |
| FlipperCorrection.SampleCurve | VisualPinball.Unity/VisualPinball.Unity/VPT/Flipper/FlipperAuthoring.cs:86-96 | Sampling a curve writes count+1 entries. They run from its first to its last key time in equal increasing steps, each holding the curve's value at its time. |
| FlipperCorrection.UniformTable | VisualPinball.Unity/VisualPinball.Unity/VPT/Flipper/FlipperAuthoring.cs:97-104 | The fallback table has count+1 entries (i/spacing, value), starting at 0 and ending at 1 when count equals spacing. |
| FlipperCorrection.Discretize | VisualPinball.Unity/VisualPinball.Unity/VPT/Flipper/FlipperAuthoring.cs:82-125 | Both tables have their slicing count plus one entries and the time delay passes through. A curve's table spans its key times in equal steps of (end − start)/N, each entry holding the curve's value. Without a curve the polarity table is (i/P, 0) and the velocity table (i/P, 1), so the velocity table ends at V/P. |
| FlipperCorrection.ReversedInFrame | VisualPinball.Unity/VisualPinball.Unity/VPT/Flipper/FlipperAuthoring.cs:411-416 | Point i of the outline, taken into the table frame, lands at position n−1−i. |
| FlipperCorrection.CreateCorrectionTrigger | VisualPinball.Unity/VisualPinball.Unity/VPT/Flipper/FlipperAuthoring.cs:399-421 | It fails iff there is no table. Otherwise the trigger is named with the "_nFozzy" suffix, centred on the flipper, locked, with hit height 150. It has one drag point per point of the margin-23, step-12 enclosing polygon, in reverse order. |
| LampPlayer.Awake | VisualPinball.Unity/VisualPinball.Unity/Game/LampPlayer.cs:43-47 | A fresh player has no registered lamps, empty lookups, no statuses, no subscriptions, and satisfies the lookup invariant. |
| LampPlayer.RegisterLamp | VisualPinball.Unity/VisualPinball.Unity/Game/LampPlayer.cs:41 | The component is stored under the item's name. Other names and the rest of the state are unchanged. |
| LampPlayer.RegisterLastWins | VisualPinball.Unity/VisualPinball.Unity/Game/LampPlayer.cs:41 | Registering twice under a name keeps only the second component. |
| LampPlayer.AssignLampMapping | VisualPinball.Unity/VisualPinball.Unity/Game/LampPlayer.cs:92-101 | The item is appended to the id's list (a new list for a new id) and the mapping is stored under id and item. The id gains only that item key, other items and ids are unchanged, the id's status becomes 0, and the lookup invariant is kept. |
| LampPlayer.AssignAll | VisualPinball.Unity/VisualPinball.Unity/Game/LampPlayer.cs:55-77 | Assigning in sequence keeps the invariant. The assigned ids are the earlier ones plus those touched, and nothing but the lookups and statuses changes. |
| LampPlayer.AssignAllItems | VisualPinball.Unity/VisualPinball.Unity/Game/LampPlayer.cs:94-98 | Each id's list is its earlier list followed by the items assigned to it, in order. |
| LampPlayer.AssignAllMapping | VisualPinball.Unity/VisualPinball.Unity/Game/LampPlayer.cs:96-99 | The mapping under an id and item is the last one assigned there, or the earlier one if none was. |
| LampPlayer.AssignAllStatus | VisualPinball.Unity/VisualPinball.Unity/Game/LampPlayer.cs:100 | Every touched id has status 0. Every other status is kept. |
| LampPlayer.ConfigIds | VisualPinball.Unity/VisualPinball.Unity/Game/LampPlayer.cs:55-75 | An id is assigned at start-up iff some entry targets the playfield with a named item and carries it as its id, or as its named green or blue id when it is a multi-lamp RGB entry. |
| LampPlayer.OnStart | VisualPinball.Unity/VisualPinball.Unity/Game/LampPlayer.cs:49-85 | Without an engine nothing changes. With one, the lookups are rebuilt from scratch and satisfy the invariant, and their ids are exactly those the entries assign. The handlers are subscribed once iff some id was assigned. |
| LampPlayer.StartItems | VisualPinball.Unity/VisualPinball.Unity/Game/LampPlayer.cs:53-75 | After start-up each id's list is exactly the items its entries assign, in entry order, with nothing left from before. |
| LampPlayer.StartMapping | VisualPinball.Unity/VisualPinball.Unity/Game/LampPlayer.cs:53-75 | After start-up an id and item are mapped iff some entry assigned them, and the mapping is the last such entry. |
| LampPlayer.StartStatus | VisualPinball.Unity/VisualPinball.Unity/Game/LampPlayer.cs:53-75 | Start-up does not clear statuses, and every assigned id has status 0. An id no entry assigns keeps its status, or stays absent, exactly as before. |
| LampPlayer.StartSubscribes | VisualPinball.Unity/VisualPinball.Unity/Game/LampPlayer.cs:56-83 | With an engine, start-up subscribes iff some entry targets the playfield with a non-empty item. |
| LampPlayer.OnDestroy | VisualPinball.Unity/VisualPinball.Unity/Game/LampPlayer.cs:226-233 | The handlers are detached iff there is an engine and some id is assigned. Nothing else changes. |
| LampPlayer.DestroyUndoesStart | VisualPinball.Unity/VisualPinball.Unity/Game/LampPlayer.cs:79-83 | Destroying right after start-up leaves as many subscriptions as before. |
| LampPlayer.FiringItems | VisualPinball.Unity/VisualPinball.Unity/Game/LampPlayer.cs:182-190 | The items an event reaches are assigned items whose mapping has the event's source and whose component is registered. |
| LampPlayer.StatusValue | VisualPinball.Unity/VisualPinball.Unity/Game/LampPlayer.cs:191-209 | On/off lamps give 1 for a positive value and 0 otherwise. Fading and RGB lamps give value/255. Multi-lamp RGB lamps give none. |
| LampPlayer.HandleItem | VisualPinball.Unity/VisualPinball.Unity/Game/LampPlayer.cs:183-218 | One item appends exactly its expected call when it reacts and nothing otherwise. The event id's status becomes the item's status value when it has one. |
| LampPlayer.HandleItems | VisualPinball.Unity/VisualPinball.Unity/Game/LampPlayer.cs:182-219 | The loop leaves everything but calls and statuses alone. Only the event id's status can change. It appends one call per reacting item. |
| LampPlayer.HandleLampEvent | VisualPinball.Unity/VisualPinball.Unity/Game/LampPlayer.cs:179-224 | An unassigned id changes nothing. Otherwise only the event id's status and the call log change, by one call per reacting item. The invariant is kept. |
| LampPlayer.ItemCalls | VisualPinball.Unity/VisualPinball.Unity/Game/LampPlayer.cs:189-209 | The reacting items' calls are one per reacting item. |
| LampPlayer.ItemCallsAt | VisualPinball.Unity/VisualPinball.Unity/Game/LampPlayer.cs:189-209 | Call i is what reacting item i calls for: its status value on the alpha channel, or the hand-over of a multi-lamp RGB item. |
| LampPlayer.HandleItemsAppends | VisualPinball.Unity/VisualPinball.Unity/Game/LampPlayer.cs:182-219 | The loop appends exactly the reacting items' calls, in order. |
| LampPlayer.HandleItemsStatus | VisualPinball.Unity/VisualPinball.Unity/Game/LampPlayer.cs:192-205 | The event id's status is the last status value written, or the earlier status if none was written. |
| LampPlayer.EventCalls | VisualPinball.Unity/VisualPinball.Unity/Game/LampPlayer.cs:179-218 | The i-th new call of a lamp event goes to the i-th reacting item's component, with that item's expected call. |
| LampPlayer.EventStatus | VisualPinball.Unity/VisualPinball.Unity/Game/LampPlayer.cs:192-205 | For an assigned id, the status is the last reacting single or RGB item's value, or unchanged if there is none. |
| LampPlayer.QuietItems | VisualPinball.Unity/VisualPinball.Unity/Game/LampPlayer.cs:184-189 | A loop in which no item reacts leaves the player unchanged. |
| LampPlayer.QuietEvent | VisualPinball.Unity/VisualPinball.Unity/Game/LampPlayer.cs:184-218 | An event from another source, or one for unregistered items only, changes nothing. |
| LampPlayer.ColorItems | VisualPinball.Unity/VisualPinball.Unity/Game/LampPlayer.cs:106-118 | A colour event reaches registered items mapped as Rgb, whatever their source. |
| LampPlayer.ColorItem | VisualPinball.Unity/VisualPinball.Unity/Game/LampPlayer.cs:107-122 | One item receives the colour iff it is registered and mapped as Rgb. Nothing else changes. |
| LampPlayer.ColorLoop | VisualPinball.Unity/VisualPinball.Unity/Game/LampPlayer.cs:106-123 | The loop changes only the call log, by one call per reached item. |
| LampPlayer.ColorCalls | VisualPinball.Unity/VisualPinball.Unity/Game/LampPlayer.cs:106-123 | A colour event makes one call per reached item. |
| LampPlayer.ColorCallsAt | VisualPinball.Unity/VisualPinball.Unity/Game/LampPlayer.cs:109-112 | Call i sets the event's colour on reached item i's component. |
| LampPlayer.ColorLoopAppends | VisualPinball.Unity/VisualPinball.Unity/Game/LampPlayer.cs:106-123 | The loop appends exactly the reached items' colour calls, in order. |
| LampPlayer.HandleLampColorEvent | VisualPinball.Unity/VisualPinball.Unity/Game/LampPlayer.cs:103-128 | Statuses and lookups never change. An unassigned id changes nothing. Otherwise one call is made per reached item. |
| LampPlayer.ColorEventCalls | VisualPinball.Unity/VisualPinball.Unity/Game/LampPlayer.cs:103-128 | The i-th new call of a colour event sets the event's colour on the i-th reached item. |
| LampPlayer.RgbChannel | VisualPinball.Unity/VisualPinball.Unity/Game/LampPlayer.cs:162-174 | Red for the mapping's own id; otherwise green for its green id; otherwise blue for its blue id, tested in that order. None (the error branch) iff the id is none of the three. Never alpha. |
| LampPlayer.RgbHandlerCall | VisualPinball.Unity/VisualPinball.Unity/Game/LampPlayer.cs:162-174 | The single-event RGB handler makes an OnLamp call with value/255 on the lamp iff a channel exists, and on exactly the channel `RgbChannel` picks. |
| LampPlayer.ConfigKeyed | VisualPinball.Unity/VisualPinball.Unity/Game/LampPlayer.cs:64-73 | Every start-up assignment stores its mapping under the mapping's own id, or under its green or blue id for a multi-lamp RGB entry. |
| LampPlayer.LastMappingKeyed | VisualPinball.Unity/VisualPinball.Unity/Game/LampPlayer.cs:92-99 | The mapping left under an id and item by keyed assignments is keyed by that id and names that item. |
| LampPlayer.StartedRgbHasChannel | VisualPinball.Unity/VisualPinball.Unity/Game/LampPlayer.cs:160-177 | For mappings built by start-up, a multi-lamp RGB hand-over always finds a channel, so the handler's "cannot assign" branch is unreachable. |

## Left out

- `GetHitData`: it takes the square root of a possibly negative quantity. It is floating-point numerics and is not part of this model.
- Float rounding is not modelled: every computation is in exact reals. In floats the sampling loop's accumulated `t += step` can end one sample early or late.
- FlipperCorrection.SampleCurve: requires a positive slicing count and a curve whose last key time is after its first. A zero count divides by zero, and coinciding key times make the source loop never finish.
- FlipperCorrection.Discretize: requires positive slicing counts for the same reason.
- FlipperPolygon.AddPolyArc: requires a non-zero step size, because the source divides by its absolute value.
- Cosine, sine, `TransformPoint` and `InverseTransformPoint` are parameters, and nothing is claimed about their values. `Quaternion.Euler(0, 0, deg) * v` is modelled as `Geometry.RotateZ`, the fixed rotation about the z axis written over those cosine and sine parameters.
- `GetMovementData` computes a base-rotation quaternion and never uses it, so the model omits it.
- The difficulty accessors (`GetFlipperMass`, `GetStrength` and the rest) are defined elsewhere and are passed in.
- The ECS plumbing in `Convert` is not modelled: entity manager, blob builder, and trigger/flipper registration. Only the curve discretisation is.
- Gizmo drawing, profiler markers and `OnRubberWidthUpdated` are left out: they are Unity components and visualisation.
- `HandleLampsEvent` and its colour accumulator are left out: they depend on Unity's `Color.grayscale`.
- The single-event RGB handler is covered only by its call (`LampPlayer.RgbHandlerCall`). Its status write, `LampStatuses[id] = lamp.Color.grayscale`, depends on the component's colour and is left out.
- In the generic handler the multi-lamp RGB hand-over is recorded as an `RgbHandled` call.
- Logging and editor repaint calls are left out.
- The `default` branch of the lamp-type switch is left out: it is unreachable for the four declared lamp types.
- LampPlayer.HandleLampEvent and LampPlayer.HandleLampColorEvent: they require the lookup invariant (every assigned item has a mapping and every assigned id has a status). Every operation of the model establishes it; the source would throw on a missing key.
- LampPlayer.OnDestroy: unsubscribing from an engine with no subscription is a no-op, so the counter never goes below 0.
- Null strings are not modelled; `string.IsNullOrEmpty` is the empty-string test.
