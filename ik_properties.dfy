/**
 * What the pose solver promises, proved about the model in IkSolver:
 * the twist normalisation, the stability rule, and the outcome of a whole
 * request (ranges of motion, stability along the way, which legs change).
 */
module IkProperties {
  import opened Wrappers
  import opened Points
  import opened Models
  import opened IkSolver

  // ---------------------------------------------------------------------------
  // Twist normalisation
  // ---------------------------------------------------------------------------

  /** The only whole number of turns strictly inside (-360, 360) is zero. */
  lemma OnlyZeroTurnsIsSmall(k: int)
    requires -360.0 < Turns(k) < 360.0
    ensures k == 0
  {
  }

  /**
   * The twist is THE angle in (-180, 180] that differs from alpha - coxiaAxis
   * by whole turns: any other such angle is equal to it.
   */
  lemma TwistIsUniqueRepresentative(alpha: real, coxiaAxis: real, r: real)
    requires -180.0 < r <= 180.0
    requires IsWholeTurns(alpha - coxiaAxis - r)
    ensures r == ComputeTwistWrtToWorld(alpha, coxiaAxis)
  {
    var t := ComputeTwistWrtToWorld(alpha, coxiaAxis);
    var k1 :| alpha - coxiaAxis - t == Turns(k1);
    var k2 :| alpha - coxiaAxis - r == Turns(k2);
    assert r - t == Turns(k1 - k2);
    OnlyZeroTurnsIsSmall(k1 - k2);
  }

  /** An angle already in (-180, 180] relative to the coxia axis is reported unchanged. */
  lemma TwistKeepsAnglesInRange(alpha: real, coxiaAxis: real)
    requires -180.0 < alpha - coxiaAxis <= 180.0
    ensures ComputeTwistWrtToWorld(alpha, coxiaAxis) == alpha - coxiaAxis
  {
    assert alpha - coxiaAxis - (alpha - coxiaAxis) == Turns(0);
    TwistIsUniqueRepresentative(alpha, coxiaAxis, alpha - coxiaAxis);
  }

  /** A whole extra turn of the leg does not change its reported twist. */
  lemma TwistIgnoresWholeTurns(alpha: real, coxiaAxis: real)
    ensures ComputeTwistWrtToWorld(alpha + 360.0, coxiaAxis) == ComputeTwistWrtToWorld(alpha, coxiaAxis)
  {
    var t := ComputeTwistWrtToWorld(alpha, coxiaAxis);
    var k :| alpha - coxiaAxis - t == Turns(k);
    assert alpha + 360.0 - coxiaAxis - t == Turns(k + 1);
    TwistIsUniqueRepresentative(alpha + 360.0, coxiaAxis, t);
  }

  /** The remainder is never below -180, so the source's `alpha < -180` branch is never taken. */
  lemma TwistLowerBranchUnreachable(alpha: real, coxiaAxis: real)
    ensures !(Mod360(alpha - coxiaAxis) < -180.0)
  {
  }

  // ---------------------------------------------------------------------------
  // Stability rule
  // ---------------------------------------------------------------------------

  /** One or two legs in the air never topple the body, whichever side they are on. */
  lemma FewerThanThreeAirborneIsStable(legs: seq<string>)
    requires |legs| < 3
    ensures !LegsTooShort(legs).0 && LegsTooShort(legs).1 == None
  {
  }

  /** Three legs named "left-..." in the air are refused, and the alert names them. */
  lemma ThreeLeftLegsUp(a: string, b: string, c: string)
    ensures var legs := ["left-" + a, "left-" + b, "left-" + c];
            LegsTooShort(legs) == (true, Some(AllLeftLegsOffGround(legs)))
  {
    var legs := ["left-" + a, "left-" + b, "left-" + c];
    assert legs[0] == "left" + "-" + a && legs[1] == "left" + "-" + b && legs[2] == "left" + "-" + c;
    SideOfStopsAtDash("left", a);
    SideOfStopsAtDash("left", b);
    SideOfStopsAtDash("left", c);
  }

  /** Two left legs and one right leg in the air are allowed. */
  lemma ThreeMixedLegsUpAreStable(a: string, b: string, c: string)
    ensures !LegsTooShort(["left-" + a, "right-" + b, "left-" + c]).0
  {
    var legs := ["left-" + a, "right-" + b, "left-" + c];
    assert legs[0] == "left" + "-" + a && legs[1] == "right" + "-" + b;
    SideOfStopsAtDash("left", a);
    SideOfStopsAtDash("right", b);
    assert SideOf(legs[0]) != SideOf(legs[1]);
  }

  /** The side of "side-rest" is "side" when "side" has no dash. */
  lemma {:induction false} SideOfStopsAtDash(side: string, rest: string)
    requires '-' !in side
    ensures SideOf(side + "-" + rest) == side
  {
    if side != [] {
      assert (side + "-" + rest)[1..] == side[1..] + "-" + rest;
      SideOfStopsAtDash(side[1..], rest);
    }
  }

  // ---------------------------------------------------------------------------
  // One leg
  // ---------------------------------------------------------------------------

  /**
   * The checks on one leg run in a fixed order, and the first that fails names
   * the alert: the coxia joint, then the case (ground blocking, femur or tibia
   * too long, stability), then beta and gamma, then alpha. A leg that passes
   * them all is solved with the case's points and angles.
   */
  lemma SolveLegCheckOrder(s: HexapodState, i: nat, airborne: seq<string>, lib: VectorLib, limits: Limits)
    requires s.WellFormed() && i < LEG_COUNT
    ensures var r := SolveLeg(s, i, airborne, lib, limits);
            var ft := LegCase(s, i, airborne, lib);
            var name := s.legs[i].name;
            && (CoxiaBelowFoot(s, i, lib) ==> r == Failure(CoxiaShovedOnGround))
            && (!CoxiaBelowFoot(s, i, lib) && ft.Failure? ==> r == Failure(ft.error))
            && (!CoxiaBelowFoot(s, i, lib) && ft.Success? ==>
                  var range := BetaGammaNotWithinRange(ft.value.beta, ft.value.gamma, name, limits);
                  var alpha := ComputeTwistWrtToWorld(LegTwist(s, i, lib).0, s.body.coxiaAxes[i]);
                  var alphaLimit := AngleAboveLimit(alpha, limits.alphaMax, name, "coxia angle (alpha)");
                  && (range.0 ==> r == Failure(range.1.value))
                  && (!range.0 && alphaLimit.0 ==> r == Failure(alphaLimit.1.value))
                  && (!range.0 && !alphaLimit.0 ==>
                        r == Success(LegSolution([Origin, CoxiaJoint(s.coxia), ft.value.p2, ft.value.p3],
                                                 alpha, ft.value.beta, ft.value.gamma,
                                                 LegTwist(s, i, lib).1, ft.value.airborne))))
  {
  }

  // ---------------------------------------------------------------------------
  // A whole request
  // ---------------------------------------------------------------------------

  /** Each time a leg joined the airborne list, the list as it then stood passed the stability rule. */
  ghost predicate StableAllAlong(airborne: seq<string>) {
    airborne == [] || (!LegsTooShort(airborne).0 && StableAllAlong(airborne[..|airborne| - 1]))
  }

  /** Legs i.. of a run that succeeds all land within the ranges of motion, given that legs before i did. */
  lemma {:induction false} IkFromWithinLimits(s: HexapodState, i: nat, poses: seq<Pose>, airborne: seq<string>,
                                              lib: VectorLib, limits: Limits)
    requires s.WellFormed() && i <= LEG_COUNT && |poses| == LEG_COUNT
    requires forall j :: 0 <= j < i ==> PoseWithinLimits(poses[j], limits)
    decreases LEG_COUNT - i
    ensures var r := IkFrom(s, i, poses, airborne, lib, limits);
            r.alert.None? ==> forall j :: 0 <= j < LEG_COUNT ==> PoseWithinLimits(r.poses[j], limits)
  {
    if i < LEG_COUNT {
      var res := SolveLeg(s, i, airborne, lib, limits);
      if res.Success? {
        var sol := res.value;
        IkFromWithinLimits(Commit(s, i, sol, lib), i + 1, poses[i := PoseOf(sol)], sol.airborne, lib, limits);
      }
    }
  }

  /** One solved leg keeps the airborne list stable at every prefix and only extends it. */
  lemma SolveLegKeepsStable(s: HexapodState, i: nat, airborne: seq<string>, lib: VectorLib, limits: Limits)
    requires s.WellFormed() && i < LEG_COUNT
    requires StableAllAlong(airborne)
    ensures var res := SolveLeg(s, i, airborne, lib, limits);
            res.Success? ==> StableAllAlong(res.value.airborne) && airborne <= res.value.airborne
  {
    var res := SolveLeg(s, i, airborne, lib, limits);
    if res.Success? && res.value.airborne != airborne {
      assert res.value.airborne[..|res.value.airborne| - 1] == airborne;
    }
  }

  /** A finished run kept the stability rule at every step and only ever added to the airborne list it was given. */
  ghost predicate StaysStable(r: IkRun, airborne: seq<string>) {
    r.alert.None? ==> StableAllAlong(r.airborne) && airborne <= r.airborne
  }

  /** Legs i.. of a run extend the airborne list one stable step at a time. */
  lemma {:induction false} IkFromStable(s: HexapodState, i: nat, poses: seq<Pose>, airborne: seq<string>,
                                        lib: VectorLib, limits: Limits)
    requires s.WellFormed() && i <= LEG_COUNT && |poses| == LEG_COUNT
    requires StableAllAlong(airborne)
    decreases LEG_COUNT - i
    ensures StaysStable(IkFrom(s, i, poses, airborne, lib, limits), airborne)
  {
    if i < LEG_COUNT {
      var res := SolveLeg(s, i, airborne, lib, limits);
      if res.Success? {
        var sol := res.value;
        SolveLegKeepsStable(s, i, airborne, lib, limits);
        var next := IkFrom(Commit(s, i, sol, lib), i + 1, poses[i := PoseOf(sol)], sol.airborne, lib, limits);
        IkFromStable(Commit(s, i, sol, lib), i + 1, poses[i := PoseOf(sol)], sol.airborne, lib, limits);
        assert StaysStable(next, airborne);
      }
    }
  }

  /**
   * Legs i.. of a run: it stops early exactly when it raises an alert, only
   * the legs it solved change, and only in their joint points.
   */
  lemma {:induction false} IkFromFrame(s: HexapodState, i: nat, poses: seq<Pose>, airborne: seq<string>,
                                       lib: VectorLib, limits: Limits)
    requires s.WellFormed() && i <= LEG_COUNT && |poses| == LEG_COUNT
    decreases LEG_COUNT - i
    ensures var r := IkFrom(s, i, poses, airborne, lib, limits);
            && i <= r.solved <= LEG_COUNT
            && (r.alert.None? <==> r.solved == LEG_COUNT)
            && r.state == s.(legs := r.state.legs)
            && (forall j :: 0 <= j < LEG_COUNT ==> r.state.legs[j].name == s.legs[j].name)
            && (forall j :: 0 <= j < i || r.solved <= j < LEG_COUNT ==> r.state.legs[j] == s.legs[j])
            && (forall j :: 0 <= j < i || r.solved <= j < LEG_COUNT ==> r.poses[j] == poses[j])
  {
    if i < LEG_COUNT {
      var res := SolveLeg(s, i, airborne, lib, limits);
      if res.Success? {
        var sol := res.value;
        IkFromFrame(Commit(s, i, sol, lib), i + 1, poses[i := PoseOf(sol)], sol.airborne, lib, limits);
      }
    }
  }

  /** Every leg i.. that a run solves starts at its own body contact point. */
  lemma {:induction false} IkFromBodyContacts(s: HexapodState, i: nat, poses: seq<Pose>, airborne: seq<string>,
                                              lib: VectorLib, limits: Limits)
    requires s.WellFormed() && i <= LEG_COUNT && |poses| == LEG_COUNT
    requires lib.RotationsFixOrigin()
    decreases LEG_COUNT - i
    ensures var r := IkFrom(s, i, poses, airborne, lib, limits);
            forall j :: i <= j < r.solved && j < LEG_COUNT ==> SameXyz(r.state.legs[j].p0, s.body.vertices[j])
  {
    if i < LEG_COUNT {
      var res := SolveLeg(s, i, airborne, lib, limits);
      if res.Success? {
        var sol := res.value;
        var s' := Commit(s, i, sol, lib);
        var poses' := poses[i := PoseOf(sol)];
        var twisted := lib.updatePointWrt(Origin, sol.twistFrame);
        assert SameXyz(lib.updatePointWrt(twisted, s.bodyRotationFrame), Origin);
        assert SameXyz(s'.legs[i].p0, s.body.vertices[i]);
        IkFromBodyContacts(s', i + 1, poses', sol.airborne, lib, limits);
        IkFromFrame(s', i + 1, poses', sol.airborne, lib, limits);
      }
    }
  }

  /** A request that succeeds keeps every one of the 18 angles within its range of motion. */
  lemma IkSuccessWithinLimits(s: HexapodState, poses: seq<Pose>, lib: VectorLib, limits: Limits)
    requires s.WellFormed() && |poses| == LEG_COUNT
    ensures var r := InverseKinematics(s, poses, lib, limits);
            r.alert.None? ==> forall j :: 0 <= j < LEG_COUNT ==> PoseWithinLimits(r.poses[j], limits)
  {
    if !SomeBodyContactBelowFoot(s) {
      IkFromWithinLimits(s, 0, poses, [], lib, limits);
    }
  }

  /**
   * A request that succeeds never tripped the stability rule as its airborne
   * list grew, so at most three legs are in the air, and not three on one side.
   */
  lemma IkSuccessIsStable(s: HexapodState, poses: seq<Pose>, lib: VectorLib, limits: Limits)
    requires s.WellFormed() && |poses| == LEG_COUNT
    ensures var r := InverseKinematics(s, poses, lib, limits);
            r.alert.None? ==> StableAllAlong(r.airborne) && |r.airborne| <= 3
  {
    if !SomeBodyContactBelowFoot(s) {
      IkFromStable(s, 0, poses, [], lib, limits);
    }
  }

  /**
   * Fail fast, and only the legs solved so far change: a request stops with an
   * alert exactly when fewer than six legs were solved; the body, the axes and
   * every leg's name stay as they were; the legs and pose entries from the
   * failing leg on are untouched.
   */
  lemma IkOnlySolvedLegsChange(s: HexapodState, poses: seq<Pose>, lib: VectorLib, limits: Limits)
    requires s.WellFormed() && |poses| == LEG_COUNT
    ensures var r := InverseKinematics(s, poses, lib, limits);
            && (r.alert.None? <==> r.solved == LEG_COUNT)
            && r.state == s.(legs := r.state.legs)
            && (forall j :: 0 <= j < LEG_COUNT ==> r.state.legs[j].name == s.legs[j].name)
            && (forall j :: r.solved <= j < LEG_COUNT ==> r.state.legs[j] == s.legs[j] && r.poses[j] == poses[j])
  {
    if !SomeBodyContactBelowFoot(s) {
      IkFromFrame(s, 0, poses, [], lib, limits);
    }
  }

  /**
   * When the library's rotations are linear, every solved leg's body contact
   * point p0 lands exactly on its body vertex.
   */
  lemma IkSolvedLegsStartAtBody(s: HexapodState, poses: seq<Pose>, lib: VectorLib, limits: Limits)
    requires s.WellFormed() && |poses| == LEG_COUNT
    requires lib.RotationsFixOrigin()
    ensures var r := InverseKinematics(s, poses, lib, limits);
            forall j :: 0 <= j < r.solved && j < LEG_COUNT ==> SameXyz(r.state.legs[j].p0, s.body.vertices[j])
  {
    if !SomeBodyContactBelowFoot(s) {
      IkFromBodyContacts(s, 0, poses, [], lib, limits);
    }
  }
}
