/**
  The gravity saturation preflight: the coupled gravity torque is evaluated on
  every point of a grid over the joints' live envelopes, a bounded slice per
  control tick. The torque model is a fixed function of the joint positions.
 */
module GravitySweep {
  import opened Basics

  const GRID_POINTS: nat := 5
  const MAX_GRID_SAMPLES: nat := 1_000_000
  const USIZE_MAX: nat := 0xFFFF_FFFF_FFFF_FFFF

  /** A number the model or a policy supplies: finite, or NaN or infinite. */
  datatype Number = Finite(value: real) | NotFinite

  /** What the control loop knows of a joint when the sweep starts. */
  datatype LiveJoint = LiveJoint(
    hasMotor: bool, tauLimit: Option<Number>, position: Option<real>, lower: Number, upper: Number)

  datatype JointSweep = JointSweep(lower: real, upper: real, tauLimit: Number)

  type Model = seq<real> -> Option<seq<Number>>

  function Abs(x: real): real {
    if x < 0.0 then -x else x
  }

  function Pow5(n: nat): (p: nat)
    ensures p >= 1
  {
    if n == 0 then 1 else 5 * Pow5(n - 1)
  }

  // ----- What the preflight decides

  /** The position of grid digit `digit` on a joint: lower, upper and three points between. */
  function GridPosition(joint: JointSweep, digit: nat): real {
    joint.lower + (joint.upper - joint.lower) * digit as real / 4.0
  }

  predicate IsGridPoint(digits: seq<nat>, n: nat) {
    |digits| == n && forall j | 0 <= j < n :: digits[j] < GRID_POINTS
  }

  function PoseAt(joints: seq<JointSweep>, digits: seq<nat>): seq<real>
    requires |digits| == |joints|
  {
    seq(|joints|, j requires 0 <= j < |joints| => GridPosition(joints[j], digits[j]))
  }

  /** The model vouches for this pose: one finite torque per joint. */
  predicate Vouched(model: Model, pose: seq<real>, n: nat) {
    && model(pose).Some? && |model(pose).value| == n
    && forall j | 0 <= j < n :: model(pose).value[j].Finite?
  }

  predicate PositiveLimit(limit: Number) {
    limit.Finite? && limit.value > 0.0
  }

  /** Every joint's torque at the pose is within a positive limit. */
  predicate Unsaturated(joints: seq<JointSweep>, model: Model, pose: seq<real>)
    requires Vouched(model, pose, |joints|)
  {
    forall j | 0 <= j < |joints| ::
      PositiveLimit(joints[j].tauLimit) && Abs(model(pose).value[j].value) <= joints[j].tauLimit.value
  }

  // ----- Sample numbers and grid points

  /** Base-five digits of a sample number, least significant joint first. */
  function Digits(sample: nat, n: nat): (digits: seq<nat>)
    ensures IsGridPoint(digits, n)
  {
    if n == 0 then []
    else [sample % GRID_POINTS] + Digits(sample / GRID_POINTS, n - 1)
  }

  /** The digits left after the first `j` start with the last digit of what is left of the sample. */
  lemma {:induction false} DigitsSplit(sample: nat, left: nat, n: nat, j: nat)
    requires j < n && Digits(sample, n)[j..] == Digits(left, n - j)
    ensures Digits(sample, n)[j] == left % GRID_POINTS && Digits(sample, n)[j + 1..] == Digits(left / GRID_POINTS, n - j - 1)
  {
    assert Digits(sample, n)[j] == Digits(sample, n)[j..][0];
    assert Digits(sample, n)[j + 1..] == Digits(sample, n)[j..][1..];
  }

  function SampleOf(digits: seq<nat>): nat {
    if digits == [] then 0 else digits[0] + GRID_POINTS * SampleOf(digits[1..])
  }

  /** Samples 0..5^n enumerate the grid: every grid point is one of them. */
  lemma {:induction false} EveryPointIsSampled(digits: seq<nat>)
    requires IsGridPoint(digits, |digits|)
    ensures SampleOf(digits) < Pow5(|digits|) && Digits(SampleOf(digits), |digits|) == digits
  {
    if digits != [] {
      var rest := SampleOf(digits[1..]);
      EveryPointIsSampled(digits[1..]);
      assert (digits[0] + GRID_POINTS * rest) % GRID_POINTS == digits[0];
      assert (digits[0] + GRID_POINTS * rest) / GRID_POINTS == rest;
    }
  }

  function Pose(joints: seq<JointSweep>, sample: nat): seq<real> {
    PoseAt(joints, Digits(sample, |joints|))
  }

  predicate Evaluable(joints: seq<JointSweep>, model: Model, sample: nat) {
    Vouched(model, Pose(joints, sample), |joints|)
  }

  predicate AllEvaluable(joints: seq<JointSweep>, model: Model, from: nat, to: nat) {
    forall i: nat | from <= i < to :: Evaluable(joints, model, i)
  }

  /** |torque| of joint `j` at a sample. */
  function Tau(joints: seq<JointSweep>, model: Model, sample: nat, j: nat): real
    requires Evaluable(joints, model, sample) && j < |joints|
  {
    Abs(model(Pose(joints, sample)).value[j].value)
  }

  predicate AllUnsaturated(joints: seq<JointSweep>, model: Model, to: nat)
    requires AllEvaluable(joints, model, 0, to)
  {
    forall i: nat | 0 <= i < to :: Evaluable(joints, model, i) && Unsaturated(joints, model, Pose(joints, i))
  }

  /** The first sample the model cannot vouch for, or 5^n. */
  function FirstRefused(joints: seq<JointSweep>, model: Model, from: nat): (k: nat)
    requires from <= Pow5(|joints|)
    ensures from <= k <= Pow5(|joints|) && AllEvaluable(joints, model, from, k)
    ensures k < Pow5(|joints|) ==> !Evaluable(joints, model, k)
    decreases Pow5(|joints|) - from
  {
    if from == Pow5(|joints|) || !Evaluable(joints, model, from) then from
    else FirstRefused(joints, model, from + 1)
  }

  /** The verdict and sample count of the whole grid evaluated in one go. */
  function OneShot(joints: seq<JointSweep>, model: Model): (bool, nat) {
    var k := FirstRefused(joints, model, 0);
    (k == Pow5(|joints|) && AllUnsaturated(joints, model, k), k)
  }

  /** `max` of zero and |torque| on joint `j` over the first `count` samples. */
  function MaxTau(joints: seq<JointSweep>, model: Model, count: nat, j: nat): (m: real)
    requires j < |joints| && AllEvaluable(joints, model, 0, count)
    ensures m >= 0.0
    ensures forall i: nat | 0 <= i < count :: Evaluable(joints, model, i) && Tau(joints, model, i, j) <= m
    ensures m == 0.0 || exists i: nat :: i < count && Evaluable(joints, model, i) && m == Tau(joints, model, i, j)
  {
    if count == 0 then 0.0
    else
      assert Evaluable(joints, model, count - 1);
      var before := MaxTau(joints, model, count - 1, j);
      var tau := Tau(joints, model, count - 1, j);
      if before < tau then tau else before
  }

  // ----- The sweep

  /** Evaluations per slice, and after which of them the slice's wall time is up. */
  datatype SliceBudget = SliceBudget(maxSamples: nat, timeUp: nat -> bool)

  datatype SweepStep = Pending | Done(passed: bool, samples: nat, slices: nat)

  /** Ready: a motor, a policy, a measured position and a non-empty finite envelope. */
  predicate Ready(joint: LiveJoint) {
    && joint.hasMotor && joint.tauLimit.Some? && joint.position.Some?
    && joint.lower.Finite? && joint.upper.Finite? && joint.lower.value <= joint.upper.value
  }

  function Captured(joint: LiveJoint): JointSweep
    requires Ready(joint)
  {
    JointSweep(joint.lower.value, joint.upper.value, joint.tauLimit.value)
  }

  lemma {:induction false} GridFitsIff(n: nat)
    ensures Pow5(n) <= MAX_GRID_SAMPLES <==> n <= 8
  {
    assert Pow5(3) == 125;
    assert Pow5(6) == 15625;
    assert Pow5(8) == 390625 && Pow5(9) == 1953125;
    if n > 9 {
      GridFitsIff(n - 1);
    }
  }

  /** Capture each joint's envelope, or refuse. Evaluates nothing. */
  method Start(live: seq<LiveJoint>) returns (sweep: Option<GravitySweep>)
    ensures sweep.Some? <==> (forall j | 0 <= j < |live| :: Ready(live[j])) && |live| <= 8
    ensures sweep.Some? ==>
              && fresh(sweep.value) && |sweep.value.joints| == |live|
              && (forall j | 0 <= j < |live| :: sweep.value.joints[j] == Captured(live[j]))
              && sweep.value.sampleCount == Pow5(|live|) && sweep.value.nextSample == 0 && sweep.value.slices == 0
              && forall model :: sweep.value.Swept(model)
  {
    var joints: seq<JointSweep> := [];
    for i := 0 to |live|
      invariant |joints| == i
      invariant forall j | 0 <= j < i :: Ready(live[j]) && joints[j] == Captured(live[j])
    {
      var joint := live[i];
      if !joint.hasMotor || joint.tauLimit.None? || joint.position.None? {
        return None;
      }
      if joint.lower.NotFinite? || joint.upper.NotFinite? || joint.lower.value > joint.upper.value {
        return None;
      }
      joints := joints + [JointSweep(joint.lower.value, joint.upper.value, joint.tauLimit.value)];
    }
    GridFitsIff(|joints|);
    var sampleCount := Pow5(|joints|);
    if sampleCount > USIZE_MAX || sampleCount > MAX_GRID_SAMPLES {
      return None;
    }
    var s := new GravitySweep(joints);
    return Some(s);
  }

  class GravitySweep {
    const joints: seq<JointSweep>
    const sampleCount: nat
    var maxTau: seq<real>
    var nextSample: nat
    var q: seq<real>
    var slices: nat

    /** Everything up to `nextSample` was evaluable and its largest torques are recorded. */
    ghost predicate Swept(model: Model)
      reads this
    {
      && sampleCount == Pow5(|joints|) && nextSample <= sampleCount
      && |maxTau| == |joints| && |q| == |joints|
      && AllEvaluable(joints, model, 0, nextSample)
      && forall j | 0 <= j < |joints| :: maxTau[j] == MaxTau(joints, model, nextSample, j)
    }

    constructor (joints: seq<JointSweep>)
      ensures this.joints == joints && sampleCount == Pow5(|joints|) && nextSample == 0 && slices == 0
      ensures forall model :: Swept(model)
    {
      this.joints := joints;
      sampleCount := Pow5(|joints|);
      maxTau, q := seq(|joints|, _ => 0.0), seq(|joints|, _ => 0.0);
      nextSample, slices := 0, 0;
    }

    /** Set `q` to the sample's grid point, one digit per joint. */
    method SetPose(sample: nat)
      requires |q| == |joints|
      modifies this`q
      ensures q == Pose(joints, sample)
    {
      var digits := sample;
      ghost var all := Digits(sample, |joints|);
      for j := 0 to |joints|
        invariant |q| == |joints| && digits >= 0
        invariant all[j..] == Digits(digits, |joints| - j)
        invariant forall k | 0 <= k < j :: q[k] == GridPosition(joints[k], all[k])
      {
        DigitsSplit(sample, digits, |joints|, j);
        var point := digits % GRID_POINTS;
        digits := digits / GRID_POINTS;
        q := q[j := GridPosition(joints[j], point)];
      }
    }

    /** Fold one torque vector into the maxima; false at the first torque that is not finite. */
    method RaiseMaxima(tau: seq<Number>) returns (finite: bool)
      requires |tau| == |maxTau|
      modifies this`maxTau
      ensures |maxTau| == old(|maxTau|)
      ensures finite <==> forall j | 0 <= j < |tau| :: tau[j].Finite?
      ensures finite ==> forall j | 0 <= j < |tau| ::
                maxTau[j] == if old(maxTau)[j] < Abs(tau[j].value) then Abs(tau[j].value) else old(maxTau)[j]
    {
      for j := 0 to |tau|
        invariant |maxTau| == old(|maxTau|)
        invariant forall k | 0 <= k < j :: tau[k].Finite?
                    && maxTau[k] == if old(maxTau)[k] < Abs(tau[k].value) then Abs(tau[k].value) else old(maxTau)[k]
        invariant forall k | j <= k < |tau| :: maxTau[k] == old(maxTau)[k]
      {
        if tau[j].NotFinite? {
          return false;
        }
        if maxTau[j] < Abs(tau[j].value) {
          maxTau := maxTau[j := Abs(tau[j].value)];
        }
      }
      return true;
    }

    /** One grid point; false when the model cannot vouch for it. */
    method Evaluate(model: Model, sample: nat) returns (evaluable: bool)
      requires Swept(model) && sample == nextSample < sampleCount
      modifies this`q, this`maxTau
      ensures evaluable == Evaluable(joints, model, sample)
      ensures |q| == |maxTau| == |joints|
      ensures evaluable ==> AllEvaluable(joints, model, 0, sample + 1) && forall j | 0 <= j < |joints| ::
                maxTau[j] == MaxTau(joints, model, sample + 1, j)
    {
      SetPose(sample);
      var tau := model(q);
      if tau.None? || |tau.value| != |joints| {
        return false;
      }
      evaluable := RaiseMaxima(tau.value);
    }

    /** The saturation rule, once every sample is in. */
    method WithinLimits(model: Model) returns (within: bool)
      requires Swept(model) && nextSample == sampleCount
      ensures within <==> AllUnsaturated(joints, model, sampleCount)
    {
      within := MaximaFit();
      MaximaDecide(joints, model, maxTau);
    }

    method MaximaFit() returns (fit: bool)
      requires |maxTau| == |joints|
      ensures fit <==> forall k | 0 <= k < |joints| ::
                PositiveLimit(joints[k].tauLimit) && maxTau[k] <= joints[k].tauLimit.value
    {
      fit := true;
      for j := 0 to |joints|
        invariant fit <==> forall k | 0 <= k < j ::
                    PositiveLimit(joints[k].tauLimit) && maxTau[k] <= joints[k].tauLimit.value
      {
        var limit := joints[j].tauLimit;
        if limit.NotFinite? || limit.value <= 0.0 || maxTau[j] > limit.value {
          fit := false;
        }
      }
    }

    /** Evaluate one slice of the grid. Any budget gives the one-shot verdict, and every slice makes progress. */
    method Advance(model: Model, budget: SliceBudget) returns (step: SweepStep)
      requires Swept(model) && nextSample < sampleCount
      modifies this
      ensures slices == old(slices) + 1
      ensures step.Pending? ==> Swept(model) && old(nextSample) < nextSample < sampleCount
      ensures step.Done? ==> (step.passed, step.samples) == OneShot(joints, model) && step.slices == slices
    {
      var want := nextSample + (if budget.maxSamples == 0 then 1 else budget.maxSamples);
      var sliceEnd := if want < sampleCount then want else sampleCount;
      var evaluable := true;
      while nextSample < sliceEnd
        invariant Swept(model) && old(nextSample) <= nextSample <= sliceEnd && evaluable
        invariant slices == old(slices)
        decreases sliceEnd - nextSample
      {
        evaluable := Evaluate(model, nextSample);
        if !evaluable {
          break;
        }
        nextSample := nextSample + 1;
        if budget.timeUp(nextSample - 1) {
          break;
        }
      }
      slices := slices + 1;
      if evaluable && nextSample < sampleCount {
        return Pending;
      }
      FirstRefusedIs(joints, model, nextSample);
      if !evaluable {
        return Done(false, nextSample, slices);
      }
      var within := WithinLimits(model);
      return Done(within, nextSample, slices);
    }
  }

  lemma {:induction false} FirstRefusedIs(joints: seq<JointSweep>, model: Model, k: nat)
    requires k <= Pow5(|joints|) && AllEvaluable(joints, model, 0, k)
    requires k < Pow5(|joints|) ==> !Evaluable(joints, model, k)
    ensures FirstRefused(joints, model, 0) == k
  {
  }

  /** Comparing only each joint's maximum with its limit decides every sample. */
  lemma {:induction false} MaximaDecide(joints: seq<JointSweep>, model: Model, maxTau: seq<real>)
    requires |maxTau| == |joints| && AllEvaluable(joints, model, 0, Pow5(|joints|))
    requires forall j | 0 <= j < |joints| :: maxTau[j] == MaxTau(joints, model, Pow5(|joints|), j)
    ensures AllUnsaturated(joints, model, Pow5(|joints|))
            <==> forall j | 0 <= j < |joints| :: PositiveLimit(joints[j].tauLimit) && maxTau[j] <= joints[j].tauLimit.value
  {
    var count := Pow5(|joints|);
    if AllUnsaturated(joints, model, count) {
      forall j | 0 <= j < |joints|
        ensures PositiveLimit(joints[j].tauLimit) && maxTau[j] <= joints[j].tauLimit.value
      {
        assert Evaluable(joints, model, 0) && Unsaturated(joints, model, Pose(joints, 0));
        if maxTau[j] != 0.0 {
          var i: nat :| i < count && Evaluable(joints, model, i) && maxTau[j] == Tau(joints, model, i, j);
          assert Unsaturated(joints, model, Pose(joints, i));
        }
      }
    } else {
      var i: nat :| i < count && !(Evaluable(joints, model, i) && Unsaturated(joints, model, Pose(joints, i)));
      assert Evaluable(joints, model, i);
      var j :| 0 <= j < |joints| && !(PositiveLimit(joints[j].tauLimit) && Tau(joints, model, i, j) <= joints[j].tauLimit.value);
      assert Tau(joints, model, i, j) <= maxTau[j];
    }
  }

  /** Run the sweep slice by slice with whatever budgets come: it ends, within 5^n slices, in the one-shot verdict. */
  method RunSweep(sweep: GravitySweep, model: Model, budgets: nat -> SliceBudget)
    returns (passed: bool, samples: nat, slices: nat)
    requires sweep.Swept(model) && sweep.nextSample == 0 && sweep.slices == 0
    modifies sweep
    ensures (passed, samples) == OneShot(sweep.joints, model)
    ensures 1 <= slices <= Pow5(|sweep.joints|)
  {
    var step := Pending;
    while step.Pending?
      invariant step.Pending? ==> sweep.Swept(model) && sweep.nextSample < sweep.sampleCount
                                  && sweep.slices <= sweep.nextSample
      invariant step.Done? ==> (step.passed, step.samples) == OneShot(sweep.joints, model)
                               && 1 <= step.slices <= Pow5(|sweep.joints|)
      decreases step.Pending?, sweep.sampleCount - sweep.nextSample
    {
      step := sweep.Advance(model, budgets(sweep.slices));
    }
    return step.passed, step.samples, step.slices;
  }

  /** The verdict in terms of grid digits. */
  lemma {:induction false} PassedIffDigitsAreSafe(joints: seq<JointSweep>, model: Model)
    ensures OneShot(joints, model).0 <==>
            forall digits: seq<nat> | IsGridPoint(digits, |joints|) ::
              Vouched(model, PoseAt(joints, digits), |joints|) && Unsaturated(joints, model, PoseAt(joints, digits))
  {
    var n := |joints|;
    if OneShot(joints, model).0 {
      forall digits: seq<nat> | IsGridPoint(digits, n)
        ensures Vouched(model, PoseAt(joints, digits), n) && Unsaturated(joints, model, PoseAt(joints, digits))
      {
        EveryPointIsSampled(digits);
        assert Evaluable(joints, model, SampleOf(digits));
      }
    } else {
      var k := OneShot(joints, model).1;
      if k < Pow5(n) {
        assert !Vouched(model, PoseAt(joints, Digits(k, n)), n);
      } else {
        var i: nat :| i < k && !(Evaluable(joints, model, i) && Unsaturated(joints, model, Pose(joints, i)));
        assert Evaluable(joints, model, i);
        assert !Unsaturated(joints, model, PoseAt(joints, Digits(i, n)));
      }
    }
  }

  /** Lower, upper and the three points between them at equal steps. */
  ghost predicate OnGrid(joint: JointSweep, q: real) {
    || q == joint.lower
    || q == (3.0 * joint.lower + joint.upper) / 4.0
    || q == (joint.lower + joint.upper) / 2.0
    || q == (joint.lower + 3.0 * joint.upper) / 4.0
    || q == joint.upper
  }

  ghost predicate IsGridPose(joints: seq<JointSweep>, pose: seq<real>) {
    |pose| == |joints| && forall j | 0 <= j < |pose| :: OnGrid(joints[j], pose[j])
  }

  /** At this pose the model gives one torque per joint, each finite and between a positive finite limit and its opposite. */
  ghost predicate IsSafe(joints: seq<JointSweep>, model: Model, pose: seq<real>) {
    match model(pose)
    case None => false
    case Some(tau) =>
      && |tau| == |joints|
      && forall j | 0 <= j < |joints| ::
           match (tau[j], joints[j].tauLimit)
           case (Finite(t), Finite(limit)) => limit > 0.0 && t <= limit && -t <= limit
           case _ => false
  }

  lemma {:induction false} SafeIff(joints: seq<JointSweep>, model: Model, pose: seq<real>)
    ensures IsSafe(joints, model, pose) <==> Vouched(model, pose, |joints|) && Unsaturated(joints, model, pose)
  {
    if IsSafe(joints, model, pose) {
      assert forall j | 0 <= j < |joints| :: model(pose).value[j].Finite? && joints[j].tauLimit.Finite?;
    }
  }

  lemma {:induction false} DigitIsOnGrid(joint: JointSweep, digit: nat)
    requires digit < 5
    ensures OnGrid(joint, GridPosition(joint, digit))
  {
    var width := joint.upper - joint.lower;
    assert width * 0.0 == 0.0 && width * 4.0 / 4.0 == width;
    assert digit == 0 || digit == 1 || digit == 2 || digit == 3 || digit == 4;
  }

  lemma {:induction false} DigitOf(joint: JointSweep, q: real) returns (digit: nat)
    requires OnGrid(joint, q)
    ensures digit < 5 && GridPosition(joint, digit) == q
  {
    digit := if q == joint.lower then 0 else if q == joint.upper then 4
             else if q == (joint.lower + joint.upper) / 2.0 then 2
             else if q == (3.0 * joint.lower + joint.upper) / 4.0 then 1 else 3;
  }

  lemma {:induction false} DigitsOf(joints: seq<JointSweep>, pose: seq<real>, n: nat) returns (digits: seq<nat>)
    requires IsGridPose(joints, pose) && n <= |joints|
    ensures IsGridPoint(digits, n) && forall j | 0 <= j < n :: GridPosition(joints[j], digits[j]) == pose[j]
  {
    if n == 0 {
      digits := [];
    } else {
      var front := DigitsOf(joints, pose, n - 1);
      var last := DigitOf(joints[n - 1], pose[n - 1]);
      digits := front + [last];
    }
  }

  /**
    The verdict in terms of the envelopes themselves: passed exactly when at
    every pose that puts each joint at its lower end, its upper end or one of the
    three equally spaced points between, the model gives one finite torque per
    joint and each is within a positive limit, in either direction.
   */
  lemma {:induction false} PassedIffGridIsSafe(joints: seq<JointSweep>, model: Model)
    ensures OneShot(joints, model).0 <==> forall pose | IsGridPose(joints, pose) :: IsSafe(joints, model, pose)
  {
    PassedIffDigitsAreSafe(joints, model);
    if OneShot(joints, model).0 {
      forall pose | IsGridPose(joints, pose) ensures IsSafe(joints, model, pose) {
        var digits := DigitsOf(joints, pose, |joints|);
        assert PoseAt(joints, digits) == pose;
        SafeIff(joints, model, pose);
      }
    } else {
      var digits: seq<nat> :| IsGridPoint(digits, |joints|)
        && !(Vouched(model, PoseAt(joints, digits), |joints|) && Unsaturated(joints, model, PoseAt(joints, digits)));
      forall j | 0 <= j < |joints| ensures OnGrid(joints[j], GridPosition(joints[j], digits[j])) {
        DigitIsOnGrid(joints[j], digits[j]);
      }
      assert IsGridPose(joints, PoseAt(joints, digits));
      SafeIff(joints, model, PoseAt(joints, digits));
    }
  }
}
