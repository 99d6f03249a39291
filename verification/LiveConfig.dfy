/**
  The configuration the robot runs with, and the two commands that change it: a
  tuning of one joint's gains, and a limit patch.
 */
module LiveConfig {
  import opened Basics
  import opened LimitConfig
  import opened PersistQueue

  datatype Live = Live(motors: MotorsFile, control: ControlFile)

  const SOFT_INSET := 0.027

  function ValueOr<T>(first: Option<T>, otherwise: T): T {
    if first.Some? then first.value else otherwise
  }

  /** Soft sides the command leaves open default to the hard ones moved inwards. */
  function EnsureSoftInset(patch: LimitPatch): LimitPatch {
    var span := patch.positionUpper - patch.positionLower;
    var inset := if span <= 0.0 then 0.0 else if SOFT_INSET < span * 0.25 then SOFT_INSET else span * 0.25;
    patch.(softLower := Some(ValueOr(patch.softLower, patch.positionLower + inset)),
           softUpper := Some(ValueOr(patch.softUpper, patch.positionUpper - inset)))
  }

  /** The live apply: the whole motors and control snapshot after it, or a refusal that changes nothing. */
  function LiveApply(motors: MotorsFile, control: ControlFile, command: LimitPatch)
    : Option<(MotorsFile, ControlFile)>
  {
    var patch := EnsureSoftInset(command);
    if FindMotor(motors, patch.joint).None? || patch.joint !in control then None
    else
      var motor := ApplyToMotor(FindMotor(motors, patch.joint).value, patch);
      var entry := ApplyToControl(control[patch.joint], patch);
      if motor.Err? || entry.Err? then None
      else Some((ReplaceMotor(motors, motor.value), control[patch.joint := entry.value]))
  }

  /** What a tuning may change: gains, which are no limits. */
  const TUNABLE := {"impedance.kp", "impedance.kd", "impedance.ki",
                    "friction.fc", "friction.fv", "friction.fo", "friction.k"}

  datatype Change = Tuning(joint: string, param: string, rest: string) | Limits(command: LimitPatch)

  /** The configuration after a change, or `None` when it is refused. */
  function Changed(live: Live, change: Change): Option<Live> {
    match change
    case Tuning(joint, param, rest) =>
      if joint !in live.control || param !in TUNABLE then None
      else Some(live.(control := live.control[joint := live.control[joint].(rest := rest)]))
    case Limits(command) =>
      match LiveApply(live.motors, live.control, command)
      case None => None
      case Some((motors, control)) => Some(Live(motors, control))
  }

  datatype Stamp = Stamp(timestampMs: nat, session: string, operator: string)

  /** What is enqueued for a change: a control-only save, or both files of a limit patch. */
  function RequestFor(dir: string, after: Live, change: Change, stamp: Stamp): Request {
    match change
    case Tuning(joint, param, _) =>
      Request(dir, None, after.control, stamp.timestampMs, stamp.session, stamp.operator, joint, param)
    case Limits(command) =>
      Request(dir, Some(after.motors), after.control, stamp.timestampMs, stamp.session, stamp.operator,
              command.joint, LIMIT_PATCH)
  }

  /** The limits of one joint, where both files have an entry for it. */
  function LimitsOf(live: Live, joint: string): Option<Bounds> {
    if FindMotor(live.motors, joint).None? || joint !in live.control then None
    else
      var motor := FindMotor(live.motors, joint).value;
      var control := live.control[joint];
      Some(Bounds(motor.positionLower, motor.positionUpper, motor.torqueLimit,
                  control.softLower, control.softUpper, control.velocityMax))
  }

  predicate SameLimits(a: Live, b: Live, joint: string) {
    LimitsOf(a, joint) == LimitsOf(b, joint)
  }

  /** What loading the configuration checks of it. */
  predicate VelocitiesPositive(live: Live) {
    forall joint | joint in live.control :: PositiveIfSet(live.control[joint].velocityMax)
  }

  /** A patch as the live apply leaves it: ordered soft limits inside its hard ones. */
  predicate Imposed(patch: Request) {
    && IsPatch(patch) && CompletePatch(patch) && !Blank(patch.joint)
    && var bounds := BoundsOf(patch);
       && bounds.positionLower < bounds.positionUpper
       && bounds.softLower.Some? && bounds.softUpper.Some?
       && bounds.positionLower <= bounds.softLower.value <= bounds.softUpper.value <= bounds.positionUpper
       && PositiveIfSet(bounds.velocityMax)
  }

  /** `request` is what a change from `before` to `after` enqueues: only a patch moves limits, and only its joint's. */
  ghost predicate Derived(before: Live, request: Request, after: Live) {
    && request.control == after.control
    && if IsPatch(request) then
         && Imposed(request) && request.motors == Some(after.motors)
         && forall joint | joint != request.joint :: SameLimits(before, after, joint)
       else
         && request.motors.None? && after.motors == before.motors
         && forall joint :: SameLimits(before, after, joint)
  }

  lemma {:induction false} TuningIsDerived(dir: string, before: Live, change: Change, stamp: Stamp)
    requires change.Tuning? && Changed(before, change).Some? && VelocitiesPositive(before)
    ensures Derived(before, RequestFor(dir, Changed(before, change).value, change, stamp), Changed(before, change).value)
    ensures VelocitiesPositive(Changed(before, change).value)
  {
  }

  lemma {:induction false} LimitsAreDerived(dir: string, before: Live, change: Change, stamp: Stamp)
    requires change.Limits? && Changed(before, change).Some? && VelocitiesPositive(before)
    ensures Derived(before, RequestFor(dir, Changed(before, change).value, change, stamp), Changed(before, change).value)
    ensures VelocitiesPositive(Changed(before, change).value)
  {
  }

  /** Whatever changes the live configuration, what is enqueued for it moves at most its own joint's limits. */
  lemma {:induction false} ChangeIsDerived(dir: string, before: Live, change: Change, stamp: Stamp)
    requires Changed(before, change).Some? && VelocitiesPositive(before)
    ensures Derived(before, RequestFor(dir, Changed(before, change).value, change, stamp), Changed(before, change).value)
    ensures VelocitiesPositive(Changed(before, change).value)
  {
    if change.Tuning? {
      TuningIsDerived(dir, before, change, stamp);
    } else {
      LimitsAreDerived(dir, before, change, stamp);
    }
  }

  // ----- What a limit patch does to the live configuration

  /** The soft side that a command asks for, or its default: the hard side moved in by 0.027 rad or a quarter of the range. */
  function Wanted(soft: Option<real>, hard: real, lower: real, upper: real): real {
    var inset := if (upper - lower) / 4.0 < 0.027 then (upper - lower) / 4.0 else 0.027;
    if soft.Some? then soft.value else if hard == lower then lower + inset else upper - inset
  }

  /** `x` moved into the hard range. */
  function Inside(x: real, lower: real, upper: real): real {
    if x < lower then lower else if upper < x then upper else x
  }

  /** The fields a limit patch must have to be applied at all. */
  predicate WellFormed(command: LimitPatch) {
    && (exists c | c in command.joint :: !IsSpace(c))
    && command.positionLower < command.positionUpper
    && (command.torqueLimit.Some? ==> 0.0 < command.torqueLimit.value)
    && (command.velocityMax.Some? ==> 0.0 < command.velocityMax.value)
    && Wanted(command.softLower, command.positionLower, command.positionLower, command.positionUpper)
       <= Wanted(command.softUpper, command.positionUpper, command.positionLower, command.positionUpper)
  }

  /**
    A limit patch is applied if and only if it is well-formed and both files have
    its joint. Then its joint's motor has the hard limits, the torque limit if one
    is given and the rest as before; its control entry has the soft limits asked
    for or defaulted, moved into the hard range, the velocity cap if one is given
    and the rest as before; and nothing else changes.
   */
  lemma {:induction false} LiveApplyIff(motors: MotorsFile, control: ControlFile, command: LimitPatch)
    ensures LiveApply(motors, control, command).Some? <==>
            WellFormed(command) && FindMotor(motors, command.joint).Some? && command.joint in control
    ensures LiveApply(motors, control, command).Some? ==>
              var (motors', control') := LiveApply(motors, control, command).value;
              var joint, lower, upper := command.joint, command.positionLower, command.positionUpper;
              var motor, entry := FindMotor(motors, joint).value, control[joint];
              && FindMotor(motors', joint)
                 == Some(MotorEntry(joint, lower, upper,
                                    if command.torqueLimit.Some? then command.torqueLimit.value else motor.torqueLimit,
                                    motor.rest))
              && |motors'| == |motors|
              && (forall other | other != joint :: FindMotor(motors', other) == FindMotor(motors, other))
              && control' == control[joint :=
                   JointControl(Some(Inside(Wanted(command.softLower, lower, lower, upper), lower, upper)),
                                Some(Inside(Wanted(command.softUpper, upper, lower, upper), lower, upper)),
                                if command.velocityMax.Some? then command.velocityMax else entry.velocityMax,
                                entry.rest)]
  {
    BlankIff(command.joint);
  }

  lemma {:induction false} BlankIff(s: string)
    ensures Blank(s) <==> !exists c | c in s :: !IsSpace(c)
  {
    if !Blank(s) {
      var k :| 0 <= k < |s| && !IsSpace(s[k]);
      assert s[k] in s;
    }
  }

  // ----- From the command to the enqueued request

  /** The request the robot enqueues for a command it applied live. */
  ghost predicate EnqueuedFor(patch: Request, command: LimitPatch) {
    && IsPatch(patch) && patch.joint == command.joint && patch.motors.Some?
    && exists motors, control :: LiveApply(motors, control, command) == Some((patch.motors.value, patch.control))
  }

  lemma {:induction false} AppliedSnapshotHoldsCommand(patch: Request, command: LimitPatch)
    requires EnqueuedFor(patch, command)
    ensures CompletePatch(patch) && command.positionLower < command.positionUpper
    ensures var bounds, lower, upper := BoundsOf(patch), command.positionLower, command.positionUpper;
            && bounds.positionLower == lower && bounds.positionUpper == upper
            && (command.torqueLimit.Some? ==> bounds.torqueLimit == command.torqueLimit.value)
            && (command.velocityMax.Some? ==> bounds.velocityMax == command.velocityMax)
            && bounds.softLower == Some(Inside(Wanted(command.softLower, lower, lower, upper), lower, upper))
            && bounds.softUpper == Some(Inside(Wanted(command.softUpper, upper, lower, upper), lower, upper))
            && lower <= bounds.softLower.value <= bounds.softUpper.value <= upper
  {
    var motors, control :| LiveApply(motors, control, command) == Some((patch.motors.value, patch.control));
    LiveApplyIff(motors, control, command);
  }
}
