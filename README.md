# Hexapod inverse-kinematics pose solver, in Dafny

This project models the pose solver of a six-legged robot, `hexapod/ik_solver.py`, and proves properties of that model.

The solver takes a pose request: a body rotation (`rot_x`, `rot_y`, `rot_z`), a body shift given as fractions of the body's extents (`percent_x`, `percent_y`, `percent_z`), and a hip and leg stance. It works as follows:

1. It applies the stance and the body transform to the hexapod.
2. It takes a deep copy (the "detached" hexapod).
3. It refuses the request outright when a body contact point is below its foot.
4. It walks the six legs in order. For each leg it:
   - checks that the coxia joint is not below the foot;
   - splits on whether femur, tibia and the coxia-to-foot distance form a triangle;
   - in the no-triangle case, refuses a femur or tibia that is too long, otherwise puts the leg in the air and checks the stability rule;
   - checks the femur (beta) and tibia (gamma) ranges of motion;
   - computes the coxia twist (alpha), wraps it into (-180, 180] and checks its range;
   - moves the leg's four joint points from the leg frame into the world and writes them into the hexapod;
   - records the three angles in the module-level pose table.

The first failed check stops the request. It returns the detached copy and an alert. A request that passes returns the live hexapod and the pose table.

Layout:

- `wrappers.dfy` (`Wrappers`): `Option` and `Result`.
- `points.dfy` (`Points`): points, frames and the plain vector arithmetic. The vector library's other operations are arbitrary functions carried in a `VectorLib` value.
- `models.dfy` (`Models`): legs, body and a value snapshot of the hexapod (`HexapodState`, which is what `deepcopy` yields). It also holds the mutable `Hexapod` class and the robot's own mutators as a `RobotModel` value.
- `ik_solver.dfy` (`IkSolver`): `ik_solver.py` function by function.
  - Pure helpers are functions.
  - `body_contact_shoved_on_ground`, the point conversion loop, `update_hexapod_points` and `inverse_kinematics_update` are methods over the `Hexapod` object and arrays.
  - Each method is proved against a specification function. `SolveLeg` is one leg's pipeline. `IkFrom` and `InverseKinematics` are the whole request.
- `ik_properties.dfy` (`IkProperties`): lemmas about the specification functions. They cover the twist wrap, the stability rule, and what a whole request guarantees.

## Behaviour at the edges

- Ground checks are strict. A body contact point or coxia joint exactly level with its foot passes (lines 180 and 354).
- After a refused request, the live hexapod keeps the stance update and body transform (lines 152-153). It also keeps every leg solved before the failing one (line 308). Only the returned object is the detached copy. `InverseKinematicsUpdate` and `IkOnlySolvedLegsChange` state exactly what changes.
- Whether a foot at exactly `femur + tibia` from the coxia joint is treated as case A or case B depends on `is_triangle`, which is not part of this model.

## Model

| member | source | states |
|---|---|---|
| IkSolver.Mod360 | hexapod/ik_solver.py:341 | Python's float `% 360` lands in [0, 360) and differs from its argument by whole turns |
| IkSolver.ComputeTwistWrtToWorld | hexapod/ik_solver.py:340-347 | the twist lies in (-180, 180] and differs from `alpha - coxia_axis` by a whole number of turns |
| IkProperties.OnlyZeroTurnsIsSmall | hexapod/ik_solver.py:340-347 | no non-zero whole number of turns is strictly inside (-360, 360); this is why the twist is unique |
| IkProperties.TwistIsUniqueRepresentative | hexapod/ik_solver.py:340-347 | any angle in (-180, 180] that is whole turns away from `alpha - coxia_axis` is the computed twist |
| IkProperties.TwistKeepsAnglesInRange | hexapod/ik_solver.py:340-347 | an angle difference already in (-180, 180] is returned unchanged |
| IkProperties.TwistIgnoresWholeTurns | hexapod/ik_solver.py:340-347 | adding 360 degrees to alpha does not change the twist |
| IkProperties.TwistLowerBranchUnreachable | hexapod/ik_solver.py:341-345 | the remainder is never below -180, so the `alpha < -180` branch is dead |
| IkSolver.AngleAboveLimit | hexapod/ik_solver.py:377-386 | flags the angle iff its magnitude exceeds the range (an angle exactly at the limit passes); the alert names the angle and leg and reports the required value and the limit |
| IkSolver.BetaGammaNotWithinRange | hexapod/ik_solver.py:389-402 | fails iff beta or gamma exceeds its limit; if both do, the beta alert is returned; no alert when it passes |
| IkSolver.SideOf | hexapod/ik_solver.py:368 | `name.split("-")[0]`: the longest prefix of the name without a '-', followed by '-' when shorter than the name |
| IkSolver.CountIsLengthIffAll | hexapod/ik_solver.py:369-372 | `positions.count(v) == len(positions)` iff every entry is `v` |
| IkSolver.LegsTooShort | hexapod/ik_solver.py:359-374 | unstable iff 4 or more legs are airborne, or exactly 3 and all on the left or all on the right; an alert exists iff unstable, and says which case |
| IkProperties.FewerThanThreeAirborneIsStable | hexapod/ik_solver.py:359-374 | one or two airborne legs never topple the body |
| IkProperties.SideOfStopsAtDash | hexapod/ik_solver.py:368 | the side of `side + "-" + rest` is `side` when `side` has no dash |
| IkProperties.ThreeLeftLegsUp | hexapod/ik_solver.py:367-370 | three `left-...` legs in the air are refused with the all-left alert naming them |
| IkProperties.ThreeMixedLegsUpAreStable | hexapod/ik_solver.py:367-374 | three airborne legs named `left-a`, `right-b`, `left-c`, in that order, pass the stability rule |
| IkSolver.Count | hexapod/ik_solver.py:369-371 | `list.count`: the number of entries equal to `v`, never more than the length |
| IkSolver.SomeBodyContactBelowFoot | hexapod/ik_solver.py:350-356 | some leg's body contact point is strictly lower than that leg's foot tip |
| IkSolver.BodyContactShovedOnGround | hexapod/ik_solver.py:350-356 | the loop returns true iff some leg's body contact point is strictly lower than that leg's foot tip |
| IkSolver.UnitCoxia | hexapod/ik_solver.py:170-175 | the unit vector of leg i's body-to-foot vector projected onto the plane normal to the body's z axis |
| IkSolver.CoxiaBelowFoot | hexapod/ik_solver.py:176-180 | the coxia point, one coxia length from the body contact along the unit coxia vector, is strictly lower than the foot tip |
| IkSolver.LocalFootTip | hexapod/ik_solver.py:190-198 | the foot tip in the leg frame is (length * cos rho, 0, -length * sin rho), with rho the angle between the coxia direction and the body-to-foot vector; it lies in the leg's x-z plane |
| IkSolver.Reach | hexapod/ik_solver.py:206-207 | d, the length of the vector from the coxia joint to the local foot tip |
| IkSolver.FemurTip | hexapod/ik_solver.py:222-225 | p2 lies in the leg's x-z plane; when p1 is on the leg's x axis, as the coxia joint is, the femur vector from p1 to p2 is (femur * cos beta, 0, femur * sin beta) |
| IkSolver.TriangleCase | hexapod/ik_solver.py:209-235 | beta is theta + phi when the foot is above the coxia joint and theta - phi otherwise. p2 is the femur tip at beta. gamma is 90 minus the angle between the femur and tibia vectors. The leg fails iff the tibia joint would be below the foot, with the ground-blocking alert. Success leaves the airborne list alone |
| IkSolver.OutOfReachCase | hexapod/ik_solver.py:236-270 | femur too long is tested before tibia too long. Otherwise the leg joins the airborne list and is refused iff the grown list is unstable. On success gamma is 0, femur and tibia lie along the coxia-to-foot direction, and beta is negated iff the femur vector points down |
| IkSolver.FindTwistFrame | hexapod/ik_solver.py:330-337 | the twist has the magnitude of `angle_between(unit_coxia, x_axis)`; it is negated iff `is_counter_clockwise(unit_coxia, x_axis, z_axis)` holds; the frame is `rotz` of the signed twist |
| IkSolver.LegCase | hexapod/ik_solver.py:187-270 | a leg whose case succeeds keeps the airborne list unchanged iff `is_triangle(tibia, femur, d)` held, so it stays on the ground exactly in case A; d is the distance from the coxia joint to the local foot tip of lines 190-207 |
| IkSolver.LegTwist | hexapod/ik_solver.py:281 | the signed twist and its frame from `find_twist_frame` for leg i's unit coxia vector |
| IkSolver.SolveLeg | hexapod/ik_solver.py:166-288 | It fails with the coxia alert iff the coxia joint is below the foot. A leg that succeeds has all three angles within range and alpha in (-180, 180]. Its local points start at the origin and the coxia joint. It stays on the ground iff `is_triangle` held, with the tibia joint not below the foot. Otherwise it joins the airborne list, which stays stable, with gamma 0. alpha is the wrapped twist from `find_twist_frame` corrected by the leg's coxia axis, and the twist frame is that function's frame |
| IkProperties.SolveLegCheckOrder | hexapod/ik_solver.py:180-288 | the checks run in source order and the first that fails gives the alert: coxia joint, then the case (ground blocking, femur or tibia too long, stability), then beta/gamma, then alpha; a leg that passes is solved with the case's points and angles, the wrapped alpha and the twist frame |
| IkSolver.WorldPoints | hexapod/ik_solver.py:296-302 | every joint point is twisted, rotated with the body and moved to the body contact point; the count is kept |
| IkSolver.ToWorld | hexapod/ik_solver.py:297-302 | one point: `update_point_wrt` by the twist frame, then by the body rotation frame, then `move_xyz` by the body contact point |
| IkSolver.ConvertToWorldFrame | hexapod/ik_solver.py:296-302 | the in-place loop leaves the array equal to the world points of its old contents |
| IkSolver.WithPoints | hexapod/ik_solver.py:318-327 | the leg keeps its name and old point names and takes the coordinates of the new points |
| IkSolver.UpdateHexapodPoints | hexapod/ik_solver.py:318-327 | only leg `leg_id` changes, to the renamed points; the points list ends up holding the leg's new points; the rest of the hexapod is unchanged |
| Models.Hexapod.UpdateStance | hexapod/ik_solver.py:152 | the hexapod becomes what the robot's stance update makes of it |
| Models.Hexapod.DetachBodyRotateAndTranslate | hexapod/ik_solver.py:153 | the hexapod becomes what the robot's body transform makes of it |
| IkSolver.Transformed | hexapod/ik_solver.py:143-153 | the stance update and then the body transform, with the shifts `percent_x * mid`, `percent_y * side` and `percent_z * tibia`; six legs are kept |
| IkSolver.IkFrom | hexapod/ik_solver.py:166-312 | legs i.. solved in order, each on the hexapod as the earlier legs left it; the first alert stops the run |
| IkSolver.PoseOf | hexapod/ik_solver.py:310-312 | the pose-table entry of a solved leg: coxia is alpha, femur is beta, tibia is gamma |
| IkSolver.Commit | hexapod/ik_solver.py:293-308 | a solved leg's world points are written into that leg |
| IkSolver.CommitLeg | hexapod/ik_solver.py:293-308 | the hexapod becomes `Commit` of its old state: the solved leg's four points, moved into the world in place, are written into that leg and nothing else changes |
| IkSolver.InverseKinematics | hexapod/ik_solver.py:154-315 | the body pre-check, then every leg |
| IkSolver.InverseKinematicsUpdate | hexapod/ik_solver.py:141-315 | Exactly one of poses and alert is returned. The hexapod, the pose table and the alert match the specification run on the transformed hexapod. Every failure returns the copy taken right after the transform. Success returns the live hexapod and the table |
| IkProperties.IkFromWithinLimits | hexapod/ik_solver.py:273-288 | a run that succeeds leaves every pose entry within the ranges of motion |
| IkProperties.IkSuccessWithinLimits | hexapod/ik_solver.py:273-315 | a successful request has all 18 angles within their ranges of motion |
| IkProperties.SolveLegKeepsStable | hexapod/ik_solver.py:254-257 | a solved leg only extends the airborne list, and keeps it stable at every step |
| IkProperties.IkFromStable | hexapod/ik_solver.py:164-315 | a run that succeeds only extended the airborne list, one stable step at a time |
| IkProperties.IkSuccessIsStable | hexapod/ik_solver.py:164-315 | a successful request never tripped `legs_too_short` as its airborne list grew; at most three legs are in the air |
| IkProperties.IkFromFrame | hexapod/ik_solver.py:166-315 | a run stops early exactly when it raises an alert; only the legs it solved change, and only in their joint points; later legs and pose entries are untouched |
| IkProperties.IkOnlySolvedLegsChange | hexapod/ik_solver.py:154-315 | a request fails iff fewer than six legs were solved; body, axes and leg names are kept; legs from the failing one on, and their pose entries, are untouched |
| IkProperties.IkFromBodyContacts | hexapod/ik_solver.py:190-308 | every leg a run solves has p0 on its body contact point, when rotations fix the origin |
| IkProperties.IkSolvedLegsStartAtBody | hexapod/ik_solver.py:190-308 | after a request, every solved leg's p0 is its body vertex, when rotations fix the origin |

## Left out

- Printing (`might_print_ik`, `might_print_points`) is console output and is not modelled.
- `sanity_leg_lengths_check` and the `DEBUG_MODE` assertions check for programmer errors with floating-point tolerances. They are not modelled.
- Angles and lengths are exact reals, not IEEE doubles, so rounding is not modelled.
- `hexapod.points` is not part of this model, and neither are `numpy` trigonometry or `np.radians`.
  - `vector_from_to`, `add_vectors`, `scalar_multiply` and `Point.move_xyz` are taken to be exact coordinate arithmetic, with `move_xyz` keeping the point's name. `OutOfReachCase`'s statement that femur and tibia lie along the coxia-to-foot direction, and the p0 placement of `IkSolvedLegsStartAtBody`, rest on this reading.
  - `length`, `get_unit_vector`, `project_vector_onto_plane`, `angle_between`, `angle_opposite_of_last_side`, `is_triangle`, `is_counter_clockwise`, `rotz`, `update_point_wrt` and cosine/sine of degrees are arbitrary functions in a `VectorLib` value.
  - No geometric identity, such as limb lengths after rotation, is proved.
  - Whether `is_triangle` is strict is left open.
  - `IkSolvedLegsStartAtBody` assumes that `update_point_wrt` maps the origin to the origin.
- `update_stance` and `detach_body_rotate_and_translate` belong to the robot model, which is not part of this model. They are arbitrary state transformers that keep six legs.
- `settings.py` is not part of this model. `ALPHA_MAX_ANGLE`, `BETA_MAX_ANGLE` and `GAMMA_MAX_ANGLE` are the `Limits` parameter.
- `HEXAPOD_POSE` (in `hexapod/const.py`) is not part of this model. The module-level pose table is an array of `(coxia, femur, tibia)` entries passed to the request; its other keys are not modelled.
- Alert messages are structured `Alert` values: the alert kind, the leg name, the angle name and the numbers the message prints. The formatted English text is not modelled.
- Legs are values inside the hexapod's leg array. Identity of `Leg` and `Point` objects, which the source mutates in place, is modelled as replacing values. The points list passed to `update_hexapod_points` is shown to end up equal to the leg's new points.
- Points computed by the library carry an empty name. Only the names `update_hexapod_points` writes matter, and those are modelled.
- IkSolver.FindTwistFrame: the orientation convention of `is_counter_clockwise` (which of its vectors is counter-clockwise of which) is not known, so the contract states the sign only in terms of that test. Only its sign logic is modelled, over the library's angle and orientation test; the rotation matrix `rotz` builds is left uninterpreted.
