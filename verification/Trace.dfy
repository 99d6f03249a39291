/** A position trace: one row per traced joint and control tick. */
module Trace {

  datatype Row = Row(q: real, dq: real, target: real, tauMeas: real, tauCmd: real)

  datatype Tick = Tick(tMs: nat, rows: map<string, Row>)

  const TARGET_TOL := 0.00005

  function Abs(x: real): real {
    if x < 0.0 then -x else x
  }

  predicate Near(x: real, y: real, tolerance: real) {
    Abs(x - y) <= tolerance
  }

  /** Both ticks trace the same joints, each at the same target. */
  predicate SameTargets(a: Tick, b: Tick) {
    && a.rows.Keys == b.rows.Keys
    && forall joint | joint in a.rows :: Near(a.rows[joint].target, b.rows[joint].target, TARGET_TOL)
  }
}
