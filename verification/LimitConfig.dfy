/**
  Per-joint limits as the configuration files hold them, and the validated
  limit patch that updates them. Bounds are mathematical reals, so the
  finiteness checks of the original have nothing to refuse here.
 */
module LimitConfig {
  import opened Basics

  /** One motors.yaml entry: the bench limits a patch rewrites, and everything else. */
  datatype MotorEntry = MotorEntry(
    joint: string, positionLower: real, positionUpper: real, torqueLimit: real, rest: string)

  /** One control.yaml joint entry: the soft limits a patch rewrites, and everything else. */
  datatype JointControl = JointControl(
    softLower: Option<real>, softUpper: Option<real>, velocityMax: Option<real>, rest: string)

  type MotorsFile = seq<MotorEntry>
  type ControlFile = map<string, JointControl>

  datatype LimitPatch = LimitPatch(
    joint: string, positionLower: real, positionUpper: real, torqueLimit: Option<real>,
    softLower: Option<real>, softUpper: Option<real>, velocityMax: Option<real>)

  datatype PatchError = InvalidPatch | WrongJoint | CrossedSoftBounds

  function OrElse<T>(first: Option<T>, second: Option<T>): Option<T> {
    if first.Some? then first else second
  }

  function Clamp(x: real, lower: real, upper: real): real
    requires lower <= upper
  {
    if x < lower then lower else if x > upper then upper else x
  }

  function ClampSome(x: Option<real>, lower: real, upper: real): Option<real>
    requires lower <= upper
  {
    if x.Some? then Some(Clamp(x.value, lower, upper)) else None
  }

  predicate PositiveIfSet(x: Option<real>) {
    x.Some? ==> x.value > 0.0
  }

  predicate OrderedIfSet(lower: Option<real>, upper: Option<real>) {
    lower.Some? && upper.Some? ==> lower.value <= upper.value
  }

  predicate ValidPatch(patch: LimitPatch) {
    && !Blank(patch.joint)
    && patch.positionLower < patch.positionUpper
    && PositiveIfSet(patch.torqueLimit)
    && PositiveIfSet(patch.velocityMax)
    && OrderedIfSet(patch.softLower, patch.softUpper)
  }

  function ApplyToMotor(motor: MotorEntry, patch: LimitPatch): Result<MotorEntry, PatchError> {
    if !ValidPatch(patch) then
      Err(InvalidPatch)
    else if motor.joint != patch.joint then
      Err(WrongJoint)
    else
      Ok(motor.(positionLower := patch.positionLower,
                positionUpper := patch.positionUpper,
                torqueLimit := if patch.torqueLimit.Some? then patch.torqueLimit.value else motor.torqueLimit))
  }

  /** A soft side the patch leaves open keeps the entry's own; both are clamped into the hard range. */
  function ApplyToControl(entry: JointControl, patch: LimitPatch): Result<JointControl, PatchError> {
    if !ValidPatch(patch) then
      Err(InvalidPatch)
    else
      var softLower := ClampSome(OrElse(patch.softLower, entry.softLower), patch.positionLower, patch.positionUpper);
      var softUpper := ClampSome(OrElse(patch.softUpper, entry.softUpper), patch.positionLower, patch.positionUpper);
      if !OrderedIfSet(softLower, softUpper) then
        Err(CrossedSoftBounds)
      else
        Ok(entry.(softLower := softLower,
                  softUpper := softUpper,
                  velocityMax := OrElse(patch.velocityMax, entry.velocityMax)))
  }

  /** `motors.iter().find(|motor| motor.joint == joint)` */
  function FindMotor(motors: MotorsFile, joint: string): (found: Option<MotorEntry>)
    ensures found.Some? <==> exists i :: 0 <= i < |motors| && motors[i].joint == joint
    ensures found.Some? ==> found.value in motors && found.value.joint == joint
  {
    if motors == [] then None
    else if motors[0].joint == joint then Some(motors[0])
    else
      var rest := FindMotor(motors[1..], joint);
      assert forall i :: 1 <= i < |motors| ==> motors[i] == motors[1..][i - 1];
      rest
  }

  /** The in-place update of the first entry for `joint`. */
  function ReplaceMotor(motors: MotorsFile, motor: MotorEntry): (updated: MotorsFile)
    ensures |updated| == |motors|
    ensures FindMotor(motors, motor.joint).Some? ==> FindMotor(updated, motor.joint) == Some(motor)
    ensures forall joint :: joint != motor.joint ==> FindMotor(updated, joint) == FindMotor(motors, joint)
  {
    if motors == [] then []
    else if motors[0].joint == motor.joint then
      assert ([motor] + motors[1..])[1..] == motors[1..];
      [motor] + motors[1..]
    else
      var rest := ReplaceMotor(motors[1..], motor);
      assert ([motors[0]] + rest)[1..] == rest;
      [motors[0]] + rest
  }
}
