/**
 * The robot model the solver reads from and writes into.
 *
 * Only the surface the solver uses is modelled: dimensions, the body's six
 * contact points and static coxia axes, the six legs with their joint points,
 * the body's current axes and rotation frame. The model's own mutators
 * (stance update, body rotation and translation) are not part of this model:
 * they are arbitrary state transformers carried by a RobotModel value.
 */
module Models {
  import opened Points

  const LEG_COUNT := 6

  /** A leg: its name ("left-front", ...) and joints p0 (body contact) .. p3 (foot tip). */
  datatype Leg = Leg(name: string, p0: Point, p1: Point, p2: Point, p3: Point)
  {
    /** The foot tip is always p3. */
    function FootTip(): Point { p3 }
  }

  /** The body: one contact point and one static coxia axis (degrees) per leg. */
  datatype Body = Body(vertices: seq<Point>, coxiaAxes: seq<real>)

  /** A value copy of a hexapod (what deepcopy yields). */
  datatype HexapodState = HexapodState(
    mid: real, side: real,
    coxia: real, femur: real, tibia: real,
    body: Body,
    legs: seq<Leg>,
    xAxis: Point, zAxis: Point,
    bodyRotationFrame: Frame)
  {
    predicate WellFormed() {
      |body.vertices| == LEG_COUNT && |body.coxiaAxes| == LEG_COUNT && |legs| == LEG_COUNT
    }
  }

  /** hexapod.update_stance and hexapod.detach_body_rotate_and_translate. */
  datatype RobotModel = RobotModel(
    updateStance: (HexapodState, real, real) -> HexapodState,
    detachBodyRotateAndTranslate: (HexapodState, real, real, real, real, real, real) -> HexapodState)
  {
    /** Neither mutator adds or removes legs or body vertices. */
    ghost predicate KeepsShape() {
      && (forall s: HexapodState, hip: real, leg: real ::
            s.WellFormed() ==> updateStance(s, hip, leg).WellFormed())
      && (forall s: HexapodState, rx: real, ry: real, rz: real, tx: real, ty: real, tz: real ::
            s.WellFormed() ==> detachBodyRotateAndTranslate(s, rx, ry, rz, tx, ty, tz).WellFormed())
    }
  }

  /** The mutable hexapod aggregate. The leg list itself is never replaced; its legs are. */
  class Hexapod {
    var mid: real
    var side: real
    var coxia: real
    var femur: real
    var tibia: real
    var body: Body
    const legs: array<Leg>
    var xAxis: Point
    var zAxis: Point
    var bodyRotationFrame: Frame

    ghost predicate Valid()
      reads this
    {
      legs.Length == LEG_COUNT && |body.vertices| == LEG_COUNT && |body.coxiaAxes| == LEG_COUNT
    }

    /** The hexapod as a value. */
    function State(): (s: HexapodState)
      requires Valid()
      reads this, legs
      ensures s.WellFormed()
    {
      HexapodState(mid, side, coxia, femur, tibia, body, legs[..], xAxis, zAxis, bodyRotationFrame)
    }

    /** Overwrite every field with the given state. */
    method Load(s: HexapodState)
      requires Valid() && s.WellFormed()
      modifies this, legs
      ensures Valid() && State() == s
    {
      mid, side := s.mid, s.side;
      coxia, femur, tibia := s.coxia, s.femur, s.tibia;
      body := s.body;
      forall k | 0 <= k < LEG_COUNT {
        legs[k] := s.legs[k];
      }
      xAxis, zAxis := s.xAxis, s.zAxis;
      bodyRotationFrame := s.bodyRotationFrame;
    }

    method UpdateStance(robot: RobotModel, hipStance: real, legStance: real)
      requires Valid() && robot.KeepsShape()
      modifies this, legs
      ensures Valid() && State() == robot.updateStance(old(State()), hipStance, legStance)
    {
      Load(robot.updateStance(State(), hipStance, legStance));
    }

    method DetachBodyRotateAndTranslate(robot: RobotModel, rotX: real, rotY: real, rotZ: real,
                                        tx: real, ty: real, tz: real)
      requires Valid() && robot.KeepsShape()
      modifies this, legs
      ensures Valid()
      ensures State() == robot.detachBodyRotateAndTranslate(old(State()), rotX, rotY, rotZ, tx, ty, tz)
    {
      Load(robot.detachBodyRotateAndTranslate(State(), rotX, rotY, rotZ, tx, ty, tz));
    }
  }
}
