/**
 * The inverse-kinematics pose solver of a six-legged robot (hexapod/ik_solver.py).
 *
 * For a requested body rotation and translation, every foot should stay where
 * it touches the ground. Leg by leg, in a fixed order, the solver finds the
 * coxia (alpha), femur (beta) and tibia (gamma) angles that keep the foot
 * there, checks them against the ranges of motion and the stability rule, and
 * writes the leg's new joint points into the hexapod. The first failed check
 * stops the whole request.
 */
module IkSolver {
  import opened Wrappers
  import opened Points
  import opened Models

  /** The configured ranges of motion, in degrees (ALPHA_MAX_ANGLE, BETA_MAX_ANGLE, GAMMA_MAX_ANGLE). */
  datatype Limits = Limits(alphaMax: real, betaMax: real, gammaMax: real)

  /** One pose request. Translations are fractions; rotations are in degrees. */
  datatype IkParameters = IkParameters(
    percentX: real, percentY: real, percentZ: real,
    rotX: real, rotY: real, rotZ: real,
    hipStance: real, legStance: real)

  /** One entry of the pose table: the three joint angles of a leg, in degrees. */
  datatype Pose = Pose(coxia: real, femur: real, tibia: real)

  /** Why a pose request was refused; the data each alert message reports. */
  datatype Alert =
    | BodyShovedOnGround
    | CoxiaShovedOnGround
    | GroundBlockingPath(legName: string)
    | FemurTooLong(legName: string)
    | TibiaTooLong(legName: string)
    | TooManyLegsOffFloor(airborne: seq<string>)
    | AllLeftLegsOffGround(airborne: seq<string>)
    | AllRightLegsOffGround(airborne: seq<string>)
    | AboveRangeOfMotion(angleName: string, legName: string, required: real, limit: real)

  /** What the solver hands back as "the hexapod": the live object or a detached copy. */
  datatype Returned = Live(hexapod: Hexapod) | Detached(snapshot: HexapodState)

  function Abs(x: real): real { if x < 0.0 then -x else x }

  // ---------------------------------------------------------------------------
  // Twist angle modulo 360
  // ---------------------------------------------------------------------------

  /** k whole turns, in degrees. */
  function Turns(k: int): real { 360.0 * k as real }

  ghost predicate IsWholeTurns(x: real) {
    exists k: int :: x == Turns(k)
  }

  lemma OneMoreTurn(x: real)
    requires IsWholeTurns(x)
    ensures IsWholeTurns(x + 360.0)
  {
    var k :| x == Turns(k);
    assert x + 360.0 == Turns(k + 1);
  }

  /** Python's `a % 360` on floats: the remainder is never negative. */
  function Mod360(a: real): (r: real)
    ensures 0.0 <= r < 360.0
    ensures IsWholeTurns(a - r)
  {
    var q := (a / 360.0).Floor;
    assert a - (a - Turns(q)) == Turns(q);
    a - Turns(q)
  }

  /** The leg's twist relative to its static coxia axis, wrapped into (-180, 180]. */
  function ComputeTwistWrtToWorld(alpha: real, coxiaAxis: real): (r: real)
    ensures -180.0 < r <= 180.0
    ensures IsWholeTurns(alpha - coxiaAxis - r)
  {
    var a := Mod360(alpha - coxiaAxis);
    if a > 180.0 then
      OneMoreTurn(alpha - coxiaAxis - a);
      a - 360.0
    else if a < -180.0 then
      360.0 + a
    else
      a
  }

  // ---------------------------------------------------------------------------
  // Range of motion
  // ---------------------------------------------------------------------------

  /** Flags an angle whose magnitude is beyond its range; an angle exactly at the limit passes. */
  function AngleAboveLimit(angle: real, angleRange: real, legName: string, angleName: string)
    : (r: (bool, Option<Alert>))
    ensures r.0 <==> Abs(angle) > angleRange
    ensures r.0 ==> r.1 == Some(AboveRangeOfMotion(angleName, legName, angle, angleRange))
    ensures !r.0 ==> r.1 == None
  {
    if Abs(angle) > angleRange then
      (true, Some(AboveRangeOfMotion(angleName, legName, angle, angleRange)))
    else
      (false, None)
  }

  /** The femur limit is checked first, so when both angles are out of range the femur is reported. */
  function BetaGammaNotWithinRange(beta: real, gamma: real, legName: string, limits: Limits)
    : (r: (bool, Option<Alert>))
    ensures r.0 <==> Abs(beta) > limits.betaMax || Abs(gamma) > limits.gammaMax
    ensures Abs(beta) > limits.betaMax ==>
              r.1 == Some(AboveRangeOfMotion("beta angle (beta)", legName, beta, limits.betaMax))
    ensures Abs(beta) <= limits.betaMax && Abs(gamma) > limits.gammaMax ==>
              r.1 == Some(AboveRangeOfMotion("gamma angle (gamma)", legName, gamma, limits.gammaMax))
    ensures !r.0 ==> r.1 == None
  {
    var betaLimit := AngleAboveLimit(beta, limits.betaMax, legName, "beta angle (beta)");
    if betaLimit.0 then
      (true, betaLimit.1)
    else
      var gammaLimit := AngleAboveLimit(gamma, limits.gammaMax, legName, "gamma angle (gamma)");
      if gammaLimit.0 then (true, gammaLimit.1) else (false, None)
  }

  // ---------------------------------------------------------------------------
  // Stability
  // ---------------------------------------------------------------------------

  /** `name.split("-")[0]`: the part of a leg name before its first '-', e.g. "left". */
  function SideOf(name: string): (side: string)
    ensures side <= name
    ensures '-' !in side
    ensures |side| < |name| ==> name[|side|] == '-'
  {
    if name == [] || name[0] == '-' then [] else [name[0]] + SideOf(name[1..])
  }

  /** `xs.count(v)` */
  function Count(xs: seq<string>, v: string): (n: nat)
    ensures n <= |xs|
  {
    if xs == [] then 0 else (if xs[0] == v then 1 else 0) + Count(xs[1..], v)
  }

  lemma {:induction false} CountIsLengthIffAll(xs: seq<string>, v: string)
    ensures Count(xs, v) == |xs| <==> forall k :: 0 <= k < |xs| ==> xs[k] == v
  {
    if xs != [] {
      CountIsLengthIffAll(xs[1..], v);
      assert forall k :: 1 <= k < |xs| ==> xs[k] == xs[1..][k - 1];
    }
  }

  /** Every named leg is on the given side of the body. */
  ghost predicate AllOnSide(legs: seq<string>, side: string) {
    forall k :: 0 <= k < |legs| ==> SideOf(legs[k]) == side
  }

  /**
   * The stability rule over the legs that cannot reach the ground: four or
   * more of them, or three all on the left or all on the right, topple the body.
   */
  function LegsTooShort(legs: seq<string>): (r: (bool, Option<Alert>))
    ensures r.0 <==> |legs| >= 4 || (|legs| == 3 && (AllOnSide(legs, "left") || AllOnSide(legs, "right")))
    ensures r.0 <==> r.1.Some?
    ensures |legs| >= 4 ==> r.1 == Some(TooManyLegsOffFloor(legs))
    ensures |legs| == 3 && AllOnSide(legs, "left") ==> r.1 == Some(AllLeftLegsOffGround(legs))
    ensures |legs| == 3 && AllOnSide(legs, "right") ==> r.1 == Some(AllRightLegsOffGround(legs))
  {
    if |legs| >= 4 then
      (true, Some(TooManyLegsOffFloor(legs)))
    else if |legs| == 3 then
      var positions := seq(|legs|, k requires 0 <= k < |legs| => SideOf(legs[k]));
      CountIsLengthIffAll(positions, "left");
      CountIsLengthIffAll(positions, "right");
      assert forall k :: 0 <= k < |legs| ==> positions[k] == SideOf(legs[k]);
      assert AllOnSide(legs, "left") <==> forall k :: 0 <= k < |positions| ==> positions[k] == "left";
      assert AllOnSide(legs, "right") <==> forall k :: 0 <= k < |positions| ==> positions[k] == "right";
      if Count(positions, "left") == 3 then
        (true, Some(AllLeftLegsOffGround(legs)))
      else if Count(positions, "right") == 3 then
        (true, Some(AllRightLegsOffGround(legs)))
      else
        (false, None)
    else
      (false, None)
  }

  // ---------------------------------------------------------------------------
  // Pre-check on the whole body
  // ---------------------------------------------------------------------------

  /** Some body contact point is lower than its own leg's foot tip. */
  ghost predicate SomeBodyContactBelowFoot(s: HexapodState)
    requires s.WellFormed()
  {
    exists i :: 0 <= i < LEG_COUNT && s.body.vertices[i].z < s.legs[i].FootTip().z
  }

  method BodyContactShovedOnGround(h: Hexapod) returns (shoved: bool)
    requires h.Valid()
    ensures shoved <==> SomeBodyContactBelowFoot(h.State())
  {
    for i := 0 to LEG_COUNT
      invariant forall j :: 0 <= j < i ==> h.body.vertices[j].z >= h.legs[j].FootTip().z
    {
      if h.body.vertices[i].z < h.legs[i].FootTip().z {
        return true;
      }
    }
    return false;
  }

  // ---------------------------------------------------------------------------
  // Per-leg geometry in the leg's local frame (x along the coxia, z up)
  // ---------------------------------------------------------------------------

  /** The leg's local x axis. */
  const XAxis := Point(1.0, 0.0, 0.0, "")

  /** p1 in the local frame: the coxia joint, one coxia length along x. */
  function CoxiaJoint(coxia: real): Point { Point(coxia, 0.0, 0.0, "") }

  /** p2, p3 and the femur/tibia angles of a leg, and the airborne legs so far. */
  datatype FemurTibia = FemurTibia(p2: Point, p3: Point, beta: real, gamma: real, airborne: seq<string>)

  /** The femur tip when the femur leaves p1 at angle beta above the x axis. */
  function FemurTip(p1: Point, femur: real, beta: real, lib: VectorLib): (p2: Point)
    ensures p2.y == 0.0
    ensures p1.y == 0.0 && p1.z == 0.0 ==>
              SameXyz(VectorFromTo(p1, p2), Point(femur * lib.cosDeg(beta), 0.0, femur * lib.sinDeg(beta), ""))
  {
    Point(p1.x + femur * lib.cosDeg(beta), 0.0, femur * lib.sinDeg(beta), "")
  }

  /**
   * Case A: femur, tibia and the coxia-to-foot distance form a triangle.
   * beta adds the elevation phi when the foot is above the coxia joint and
   * subtracts it otherwise; the leg fails when its tibia joint would be below the foot.
   */
  function TriangleCase(femur: real, tibia: real, p1: Point, p3: Point, d: real,
                        legName: string, airborne: seq<string>, lib: VectorLib)
    : (r: Result<FemurTibia, Alert>)
    ensures var theta := lib.angleOppositeOfLastSide(d, femur, tibia);
            var phi := lib.angleBetween(VectorFromTo(p1, p3), XAxis);
            var beta := if p3.z > 0.0 then theta + phi else theta - phi;
            && (r.Failure? <==> FemurTip(p1, femur, beta, lib).z < p3.z)
            && (r.Failure? ==> r.error == GroundBlockingPath(legName))
            && (r.Success? ==> r.value.beta == beta && r.value.p2 == FemurTip(p1, femur, beta, lib))
    ensures r.Success? ==> r.value.p3 == p3 && r.value.airborne == airborne && r.value.p2.z >= p3.z
    ensures r.Success? ==>
              r.value.gamma == 90.0 - lib.angleBetween(VectorFromTo(p1, r.value.p2), VectorFromTo(r.value.p2, p3))
  {
    var coxiaToFoot := VectorFromTo(p1, p3);
    var theta := lib.angleOppositeOfLastSide(d, femur, tibia);
    var phi := lib.angleBetween(coxiaToFoot, XAxis);
    var beta := if p3.z > 0.0 then theta + phi else theta - phi;
    var p2 := FemurTip(p1, femur, beta, lib);
    var gamma := 90.0 - lib.angleBetween(VectorFromTo(p1, p2), VectorFromTo(p2, p3));
    if p2.z < p3.z then Failure(GroundBlockingPath(legName))
    else Success(FemurTibia(p2, p3, beta, gamma, airborne))
  }

  /**
   * Case B: no triangle. A femur or tibia too long for the target refuses the
   * pose (the femur is checked first); otherwise the foot is out of reach, the
   * leg joins the airborne legs, the stability rule is checked at once, and the
   * leg is stretched straight towards the target with gamma = 0.
   */
  function OutOfReachCase(femur: real, tibia: real, p1: Point, p3: Point, d: real,
                          legName: string, airborne: seq<string>, lib: VectorLib)
    : (r: Result<FemurTibia, Alert>)
    ensures d + tibia < femur ==> r == Failure(FemurTooLong(legName))
    ensures !(d + tibia < femur) && d + femur < tibia ==> r == Failure(TibiaTooLong(legName))
    ensures !(d + tibia < femur) && !(d + femur < tibia) ==>
              var stability := LegsTooShort(airborne + [legName]);
              (r.Failure? <==> stability.0) && (r.Failure? ==> Some(r.error) == stability.1)
    ensures r.Success? ==>
              && r.value.airborne == airborne + [legName]
              && !LegsTooShort(r.value.airborne).0
              && r.value.gamma == 0.0
    ensures r.Success? ==>
              var u := lib.unitVector(VectorFromTo(p1, p3));
              var femurVector := VectorFromTo(p1, r.value.p2);
              var angle := lib.angleBetween(XAxis, femurVector);
              && SameXyz(femurVector, ScalarMultiply(u, femur))
              && SameXyz(VectorFromTo(p1, r.value.p3), ScalarMultiply(u, femur + tibia))
              && r.value.beta == (if femurVector.z < 0.0 then -angle else angle)
  {
    if d + tibia < femur then
      Failure(FemurTooLong(legName))
    else if d + femur < tibia then
      Failure(TibiaTooLong(legName))
    else
      var legsUp := airborne + [legName];
      var stability := LegsTooShort(legsUp);
      if stability.0 then
        Failure(stability.1.value)
      else
        var direction := lib.unitVector(VectorFromTo(p1, p3));
        var femurVector := ScalarMultiply(direction, femur);
        var p2 := AddVectors(p1, femurVector);
        var tibiaVector := ScalarMultiply(direction, tibia);
        var p3' := AddVectors(p2, tibiaVector);
        var angle := lib.angleBetween(XAxis, femurVector);
        var beta := if femurVector.z < 0.0 then -angle else angle;
        Success(FemurTibia(p2, p3', beta, 0.0, legsUp))
  }

  /** The unsigned angle to the body's x axis, negated when `isCounterClockwise(unitCoxia, xAxis, zAxis)` holds. */
  function FindTwistFrame(s: HexapodState, unitCoxia: Point, lib: VectorLib): (r: (real, Frame))
    ensures var angle := lib.angleBetween(unitCoxia, s.xAxis);
            && Abs(r.0) == Abs(angle)
            && (lib.isCounterClockwise(unitCoxia, s.xAxis, s.zAxis) ==> r.0 == -angle)
            && (!lib.isCounterClockwise(unitCoxia, s.xAxis, s.zAxis) ==> r.0 == angle)
    ensures r.1 == lib.rotz(r.0)
  {
    var twist := lib.angleBetween(unitCoxia, s.xAxis);
    var twist' := if lib.isCounterClockwise(unitCoxia, s.xAxis, s.zAxis) then -twist else twist;
    (twist', lib.rotz(twist'))
  }

  /** A solved leg: local points p0..p3, its three angles, its twist frame, the airborne legs so far. */
  datatype LegSolution = LegSolution(
    local: seq<Point>, alpha: real, beta: real, gamma: real,
    twistFrame: Frame, airborne: seq<string>)

  /** Every angle of a pose is within its range of motion. */
  predicate PoseWithinLimits(p: Pose, limits: Limits) {
    Abs(p.coxia) <= limits.alphaMax && Abs(p.femur) <= limits.betaMax && Abs(p.tibia) <= limits.gammaMax
  }

  /** The coxia direction of leg i: its body-to-foot vector projected onto the body's ground plane, as a unit vector. */
  function UnitCoxia(s: HexapodState, i: nat, lib: VectorLib): Point
    requires s.WellFormed() && i < LEG_COUNT
  {
    var bodyToFoot := VectorFromTo(s.body.vertices[i], s.legs[i].FootTip());
    lib.unitVector(lib.projectOntoPlane(bodyToFoot, s.zAxis))
  }

  /** The coxia joint of leg i, placed in the world, is lower than the leg's foot tip. */
  predicate CoxiaBelowFoot(s: HexapodState, i: nat, lib: VectorLib)
    requires s.WellFormed() && i < LEG_COUNT
  {
    AddVectors(s.body.vertices[i], ScalarMultiply(UnitCoxia(s, i, lib), s.coxia)).z < s.legs[i].FootTip().z
  }

  /**
   * The foot tip of leg i in the leg's local frame: the body-to-foot length laid
   * off at the elevation rho below the coxia direction.
   */
  function LocalFootTip(s: HexapodState, i: nat, lib: VectorLib): (p3: Point)
    requires s.WellFormed() && i < LEG_COUNT
    ensures p3.y == 0.0
  {
    var bodyToFoot := VectorFromTo(s.body.vertices[i], s.legs[i].FootTip());
    var rho := lib.angleBetween(UnitCoxia(s, i, lib), bodyToFoot);
    var bodyToFootLength := lib.length(bodyToFoot);
    Point(bodyToFootLength * lib.cosDeg(rho), 0.0, -bodyToFootLength * lib.sinDeg(rho), "")
  }

  /** d: the distance from the coxia joint to the local foot tip. */
  function Reach(s: HexapodState, i: nat, lib: VectorLib): real
    requires s.WellFormed() && i < LEG_COUNT
  {
    lib.length(VectorFromTo(CoxiaJoint(s.coxia), LocalFootTip(s, i, lib)))
  }

  /**
   * Case A when femur, tibia and d form a triangle, case B otherwise. A leg
   * that succeeds stays on the ground exactly in case A.
   */
  function LegCase(s: HexapodState, i: nat, airborne: seq<string>, lib: VectorLib)
    : (r: Result<FemurTibia, Alert>)
    requires s.WellFormed() && i < LEG_COUNT
    ensures r.Success? ==> (lib.isTriangle(s.tibia, s.femur, Reach(s, i, lib)) <==> r.value.airborne == airborne)
  {
    var p1 := CoxiaJoint(s.coxia);
    var p3 := LocalFootTip(s, i, lib);
    var d := Reach(s, i, lib);
    if lib.isTriangle(s.tibia, s.femur, d) then
      TriangleCase(s.femur, s.tibia, p1, p3, d, s.legs[i].name, airborne, lib)
    else
      var r := OutOfReachCase(s.femur, s.tibia, p1, p3, d, s.legs[i].name, airborne, lib);
      assert r.Success? ==> |r.value.airborne| == |airborne| + 1;
      r
  }

  /** The signed twist of leg i and its frame, before the coxia-axis correction. */
  function LegTwist(s: HexapodState, i: nat, lib: VectorLib): (real, Frame)
    requires s.WellFormed() && i < LEG_COUNT
  {
    FindTwistFrame(s, UnitCoxia(s, i, lib), lib)
  }

  /** All the checks and all the geometry of leg i, in the order the solver runs them. */
  function SolveLeg(s: HexapodState, i: nat, airborne: seq<string>, lib: VectorLib, limits: Limits)
    : (r: Result<LegSolution, Alert>)
    requires s.WellFormed() && i < LEG_COUNT
    ensures r == Failure(CoxiaShovedOnGround) <==> CoxiaBelowFoot(s, i, lib)
    ensures r.Failure? ==> r.error != BodyShovedOnGround
    ensures r.Success? ==>
              && PoseWithinLimits(Pose(r.value.alpha, r.value.beta, r.value.gamma), limits)
              && -180.0 < r.value.alpha <= 180.0
              && |r.value.local| == 4
              && r.value.local[0] == Origin
              && r.value.local[1] == CoxiaJoint(s.coxia)
    ensures r.Success? ==>
              || (r.value.airborne == airborne && r.value.local[2].z >= r.value.local[3].z)
              || (&& r.value.airborne == airborne + [s.legs[i].name]
                  && !LegsTooShort(r.value.airborne).0
                  && r.value.gamma == 0.0)
    ensures r.Success? ==>
              && (lib.isTriangle(s.tibia, s.femur, Reach(s, i, lib)) <==> r.value.airborne == airborne)
              && r.value.alpha == ComputeTwistWrtToWorld(LegTwist(s, i, lib).0, s.body.coxiaAxes[i])
              && r.value.twistFrame == LegTwist(s, i, lib).1
  {
    var legName := s.legs[i].name;
    if CoxiaBelowFoot(s, i, lib) then
      Failure(CoxiaShovedOnGround)
    else
      var ft := LegCase(s, i, airborne, lib);
      if ft.Failure? then
        Failure(ft.error)
      else
        var range := BetaGammaNotWithinRange(ft.value.beta, ft.value.gamma, legName, limits);
        if range.0 then
          Failure(range.1.value)
        else
          var twist := LegTwist(s, i, lib);
          var alpha := ComputeTwistWrtToWorld(twist.0, s.body.coxiaAxes[i]);
          var alphaLimit := AngleAboveLimit(alpha, limits.alphaMax, legName, "coxia angle (alpha)");
          if alphaLimit.0 then
            Failure(alphaLimit.1.value)
          else
            Success(LegSolution([Origin, CoxiaJoint(s.coxia), ft.value.p2, ft.value.p3],
                                alpha, ft.value.beta, ft.value.gamma, twist.1, ft.value.airborne))
  }

  // ---------------------------------------------------------------------------
  // From the leg frame to the world, and into the hexapod
  // ---------------------------------------------------------------------------

  /** Twist about the vertical, then the body's rotation, then move to the body contact point. */
  function ToWorld(p: Point, twistFrame: Frame, bodyFrame: Frame, bodyContact: Point, lib: VectorLib): Point {
    var q := lib.updatePointWrt(lib.updatePointWrt(p, twistFrame), bodyFrame);
    MoveXyz(q, bodyContact.x, bodyContact.y, bodyContact.z)
  }

  /** The four joint points of a leg, mapped into the world. */
  function WorldPoints(local: seq<Point>, twistFrame: Frame, bodyFrame: Frame, bodyContact: Point, lib: VectorLib)
    : (w: seq<Point>)
    ensures |w| == |local|
  {
    seq(|local|, k requires 0 <= k < |local| => ToWorld(local[k], twistFrame, bodyFrame, bodyContact, lib))
  }

  /** The loop over a leg's points that moves each point from the leg frame into the world. */
  method ConvertToWorldFrame(points: array<Point>, twistFrame: Frame, bodyFrame: Frame,
                             bodyContact: Point, lib: VectorLib)
    modifies points
    ensures points[..] == WorldPoints(old(points[..]), twistFrame, bodyFrame, bodyContact, lib)
  {
    for k := 0 to points.Length
      invariant forall j :: 0 <= j < k ==>
                  points[j] == ToWorld(old(points[j]), twistFrame, bodyFrame, bodyContact, lib)
      invariant forall j :: k <= j < points.Length ==> points[j] == old(points[j])
    {
      points[k] := ToWorld(points[k], twistFrame, bodyFrame, bodyContact, lib);
    }
  }

  /** A leg with new joint points that keep the leg's name and its old point names. */
  function WithPoints(leg: Leg, points: seq<Point>): (r: Leg)
    requires |points| == 4
    ensures r.name == leg.name
    ensures r.p0.name == leg.p0.name && r.p1.name == leg.p1.name
    ensures r.p2.name == leg.p2.name && r.p3.name == leg.p3.name
    ensures SameXyz(r.p0, points[0]) && SameXyz(r.p1, points[1])
    ensures SameXyz(r.p2, points[2]) && SameXyz(r.p3, points[3])
  {
    leg.(p0 := points[0].(name := leg.p0.name), p1 := points[1].(name := leg.p1.name),
         p2 := points[2].(name := leg.p2.name), p3 := points[3].(name := leg.p3.name))
  }

  /** Leg `legId` takes the four points (renamed after its old points); nothing else changes. */
  method UpdateHexapodPoints(h: Hexapod, legId: nat, points: array<Point>)
    requires h.Valid() && legId < LEG_COUNT && points.Length == 4
    modifies h.legs, points
    ensures h.legs[..] == old(h.legs[..])[legId := WithPoints(old(h.legs[legId]), old(points[..]))]
    ensures forall j :: 0 <= j < LEG_COUNT && j != legId ==> h.legs[j] == old(h.legs[j])
    ensures points[..] == [h.legs[legId].p0, h.legs[legId].p1, h.legs[legId].p2, h.legs[legId].p3]
    ensures h.State() == old(h.State()).(legs := h.legs[..])
  {
    var leg := h.legs[legId];
    points[0] := points[0].(name := leg.p0.name);
    points[1] := points[1].(name := leg.p1.name);
    points[2] := points[2].(name := leg.p2.name);
    points[3] := points[3].(name := leg.p3.name);
    h.legs[legId] := leg.(p0 := points[0], p1 := points[1], p2 := points[2], p3 := points[3]);
  }

  // ---------------------------------------------------------------------------
  // The whole request
  // ---------------------------------------------------------------------------

  /** A translation given as a fraction of one of the body's extents. */
  function Shift(percent: real, extent: real): real { percent * extent }

  /** The hexapod after the stance update and the body rotation and translation. */
  ghost function Transformed(s: HexapodState, params: IkParameters, robot: RobotModel): (t: HexapodState)
    requires s.WellFormed() && robot.KeepsShape()
    ensures t.WellFormed()
  {
    var tx := Shift(params.percentX, s.mid);
    var ty := Shift(params.percentY, s.side);
    var tz := Shift(params.percentZ, s.tibia);
    var stanced := robot.updateStance(s, params.hipStance, params.legStance);
    robot.detachBodyRotateAndTranslate(stanced, params.rotX, params.rotY, params.rotZ, tx, ty, tz)
  }

  /**
   * Where the solver stops: the live hexapod state, the pose table, the
   * airborne legs, how many legs were written, and the alert if it failed.
   */
  datatype IkRun = IkRun(state: HexapodState, poses: seq<Pose>, airborne: seq<string>,
                         solved: nat, alert: Option<Alert>)

  /** Legs i.. of the request, each solved on the hexapod as the earlier legs left it. */
  ghost function IkFrom(s: HexapodState, i: nat, poses: seq<Pose>, airborne: seq<string>,
                        lib: VectorLib, limits: Limits): (r: IkRun)
    requires s.WellFormed() && i <= LEG_COUNT && |poses| == LEG_COUNT
    ensures r.state.WellFormed() && |r.poses| == LEG_COUNT
    decreases LEG_COUNT - i
  {
    if i == LEG_COUNT then
      IkRun(s, poses, airborne, i, None)
    else
      match SolveLeg(s, i, airborne, lib, limits)
      case Failure(alert) => IkRun(s, poses, airborne, i, Some(alert))
      case Success(sol) =>
        IkFrom(Commit(s, i, sol, lib), i + 1, poses[i := PoseOf(sol)], sol.airborne, lib, limits)
  }

  /**
   * Lines 293-308 for one solved leg: its four local points go into a fresh
   * list, are moved into the world in place, and are written into the leg.
   */
  method CommitLeg(h: Hexapod, i: nat, sol: LegSolution, lib: VectorLib)
    requires h.Valid() && i < LEG_COUNT && |sol.local| == 4
    modifies h.legs
    ensures h.Valid() && h.State() == Commit(old(h.State()), i, sol, lib)
  {
    var bodyContact := h.body.vertices[i];
    var points := new Point[4];
    points[0], points[1], points[2], points[3] := sol.local[0], sol.local[1], sol.local[2], sol.local[3];
    assert points[..] == sol.local;
    ConvertToWorldFrame(points, sol.twistFrame, h.bodyRotationFrame, bodyContact, lib);
    UpdateHexapodPoints(h, i, points);
  }

  /** The entry a solved leg writes into the pose table. */
  function PoseOf(sol: LegSolution): Pose {
    Pose(sol.alpha, sol.beta, sol.gamma)
  }

  /** The hexapod once leg i's solution has been moved into the world and written into the leg. */
  ghost function Commit(s: HexapodState, i: nat, sol: LegSolution, lib: VectorLib): (t: HexapodState)
    requires s.WellFormed() && i < LEG_COUNT && |sol.local| == 4
    ensures t.WellFormed()
  {
    var world := WorldPoints(sol.local, sol.twistFrame, s.bodyRotationFrame, s.body.vertices[i], lib);
    s.(legs := s.legs[i := WithPoints(s.legs[i], world)])
  }

  /** The request on an already transformed hexapod: the body pre-check, then every leg. */
  ghost function InverseKinematics(s: HexapodState, poses: seq<Pose>, lib: VectorLib, limits: Limits)
    : (r: IkRun)
    requires s.WellFormed() && |poses| == LEG_COUNT
    ensures r.state.WellFormed() && |r.poses| == LEG_COUNT
  {
    if SomeBodyContactBelowFoot(s) then IkRun(s, poses, [], 0, Some(BodyShovedOnGround))
    else IkFrom(s, 0, poses, [], lib, limits)
  }

  /**
   * inverse_kinematics_update. The module-level pose table is the `poses`
   * argument. On success the live hexapod and the table come back; on any
   * failure the copy taken right after the body transform comes back with the
   * alert, while the legs solved before the failure stay written into the
   * live hexapod and the table.
   */
  method InverseKinematicsUpdate(h: Hexapod, params: IkParameters, poses: array<Pose>,
                                 robot: RobotModel, lib: VectorLib, limits: Limits)
    returns (after: Returned, posesOut: Option<array<Pose>>, alert: Option<Alert>)
    requires h.Valid() && robot.KeepsShape() && poses.Length == LEG_COUNT
    modifies h, h.legs, poses
    ensures h.Valid()
    ensures posesOut.None? != alert.None?
    ensures var detached := Transformed(old(h.State()), params, robot);
            var run := InverseKinematics(detached, old(poses[..]), lib, limits);
            && h.State() == run.state
            && poses[..] == run.poses
            && alert == run.alert
            && (alert.Some? ==> after == Detached(detached))
            && (alert.None? ==> after == Live(h) && posesOut == Some(poses))
  {
    var tx := Shift(params.percentX, h.mid);
    var ty := Shift(params.percentY, h.side);
    var tz := Shift(params.percentZ, h.tibia);
    h.UpdateStance(robot, params.hipStance, params.legStance);
    h.DetachBodyRotateAndTranslate(robot, params.rotX, params.rotY, params.rotZ, tx, ty, tz);
    var detached := h.State();
    ghost var run := InverseKinematics(detached, poses[..], lib, limits);

    var shoved := BodyContactShovedOnGround(h);
    if shoved {
      assert run == IkRun(detached, poses[..], [], 0, Some(BodyShovedOnGround));
      return Detached(detached), None, Some(BodyShovedOnGround);
    }

    var airborne: seq<string> := [];
    for i := 0 to LEG_COUNT
      invariant h.Valid()
      invariant IkFrom(h.State(), i, poses[..], airborne, lib, limits) == run
    {
      var sol := SolveLeg(h.State(), i, airborne, lib, limits);
      if sol.Failure? {
        return Detached(detached), None, Some(sol.error);
      }
      airborne := sol.value.airborne;
      CommitLeg(h, i, sol.value, lib);
      poses[i] := PoseOf(sol.value);
    }
    return Live(h), Some(poses), None;
  }
}
