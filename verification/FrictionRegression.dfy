/**
  Least-squares friction regression of wave samples: r = fc·sign(dq) + fv·dq,
  over exact reals.
 */
module FrictionRegression {
  import opened Basics

  const MIN_WAVE_SAMPLES: nat := 20

  /** Joint velocity and the torque left after gravity. */
  datatype Sample = Sample(dq: real, r: real)

  /** `f64::signum`, which is one at (positive) zero. */
  function Sign(x: real): real {
    if x < 0.0 then -1.0 else 1.0
  }

  // ----- What is minimised

  function Mul(x: real, y: real): real {
    x * y
  }

  function Square(x: real): real {
    Mul(x, x)
  }

  function Residual(fc: real, fv: real, s: Sample): real {
    if s.dq < 0.0 then s.r - (fv * s.dq - fc) else s.r - (fv * s.dq + fc)
  }

  /** Sum of squared residuals of the model (fc, fv). */
  function SquaredError(fc: real, fv: real, samples: seq<Sample>): real {
    if samples == [] then 0.0
    else SquaredError(fc, fv, samples[..|samples| - 1]) + Square(Residual(fc, fv, samples[|samples| - 1]))
  }

  /** All speeds are equal: sign(dq) and dq are proportional, so fc and fv cannot be told apart. */
  predicate Collinear(samples: seq<Sample>) {
    forall i, j | 0 <= i < j < |samples| :: Speed(samples[i]) == Speed(samples[j])
  }

  function Speed(s: Sample): real {
    if s.dq < 0.0 then -s.dq else s.dq
  }

  // ----- The accumulated sums

  datatype Sums = Sums(s2: real, sv: real, v2: real, sr: real, vr: real, r2: real)

  function Add(m: Sums, s: Sample): Sums {
    Sums(m.s2 + Sign(s.dq) * Sign(s.dq), m.sv + Sign(s.dq) * s.dq, m.v2 + s.dq * s.dq,
         m.sr + Sign(s.dq) * s.r, m.vr + s.dq * s.r, m.r2 + s.r * s.r)
  }

  function SumsOf(samples: seq<Sample>): Sums {
    if samples == [] then Sums(0.0, 0.0, 0.0, 0.0, 0.0, 0.0)
    else Add(SumsOf(samples[..|samples| - 1]), samples[|samples| - 1])
  }

  function Det(m: Sums): real {
    m.s2 * m.v2 - m.sv * m.sv
  }

  /** The squared error as a quadratic in (c, f) with the sums as coefficients. */
  function Quadratic(m: Sums, c: real, f: real): real {
    m.r2 - 2.0 * c * m.sr - 2.0 * f * m.vr + c * c * m.s2 + 2.0 * c * f * m.sv + f * f * m.v2
  }

  lemma {:induction false} ResidualExpands(c: real, f: real, s: Sample)
    ensures Square(Residual(c, f, s))
            == s.r * s.r - 2.0 * c * (Sign(s.dq) * s.r) - 2.0 * f * (s.dq * s.r)
               + c * c * (Sign(s.dq) * Sign(s.dq)) + 2.0 * c * f * (Sign(s.dq) * s.dq) + f * f * (s.dq * s.dq)
  {
    var a, b := c * Sign(s.dq), f * s.dq;
    assert Square(s.r - (a + b)) == s.r * s.r - 2.0 * (a * s.r) - 2.0 * (b * s.r) + a * a + 2.0 * (a * b) + b * b;
    assert a * s.r == c * (Sign(s.dq) * s.r) && b * s.r == f * (s.dq * s.r);
    assert a * a == c * c * (Sign(s.dq) * Sign(s.dq)) && b * b == f * f * (s.dq * s.dq);
    assert a * b == c * f * (Sign(s.dq) * s.dq);
  }

  lemma {:induction false} QuadraticGrows(m: Sums, s: Sample, c: real, f: real)
    ensures Quadratic(Add(m, s), c, f) == Quadratic(m, c, f) + Square(Residual(c, f, s))
  {
    ResidualExpands(c, f, s);
    var g := Sign(s.dq);
    assert 2.0 * c * (m.sr + g * s.r) == 2.0 * c * m.sr + 2.0 * c * (g * s.r);
    assert 2.0 * f * (m.vr + s.dq * s.r) == 2.0 * f * m.vr + 2.0 * f * (s.dq * s.r);
    assert c * c * (m.s2 + g * g) == c * c * m.s2 + c * c * (g * g);
    assert 2.0 * c * f * (m.sv + g * s.dq) == 2.0 * c * f * m.sv + 2.0 * c * f * (g * s.dq);
    assert f * f * (m.v2 + s.dq * s.dq) == f * f * m.v2 + f * f * (s.dq * s.dq);
  }

  lemma {:induction false} ErrorIsQuadratic(samples: seq<Sample>, c: real, f: real)
    ensures SquaredError(c, f, samples) == Quadratic(SumsOf(samples), c, f)
  {
    if samples != [] {
      ErrorIsQuadratic(samples[..|samples| - 1], c, f);
      QuadraticGrows(SumsOf(samples[..|samples| - 1]), samples[|samples| - 1], c, f);
    }
  }

  // ----- The determinant

  lemma {:induction false} SameSignProduct(x: real, y: real)
    requires (x > 0.0 && y > 0.0) || (x < 0.0 && y < 0.0)
    ensures Mul(x, y) > 0.0
    decreases x < 0.0
  {
    if x < 0.0 {
      SameSignProduct(-x, -y);
    }
  }

  lemma {:induction false} SquareSign(x: real)
    ensures Square(x) >= 0.0
    ensures Square(x) == 0.0 <==> x == 0.0
  {
    if x != 0.0 {
      SameSignProduct(x, x);
    }
  }

  /** n·m² − 2·m·Σ|dq| + Σdq²: how far the speeds so far lie from `speed`. */
  function Spread(m: Sums, speed: real): real {
    m.v2 - 2.0 * speed * m.sv + m.s2 * (speed * speed)
  }

  function SpreadOver(samples: seq<Sample>, speed: real): (d: real)
    ensures d >= 0.0
    ensures d == 0.0 <==> forall i | 0 <= i < |samples| :: Speed(samples[i]) == speed
  {
    if samples == [] then 0.0
    else
      var front, gap := samples[..|samples| - 1], Speed(samples[|samples| - 1]) - speed;
      SquareSign(gap);
      assert forall i | 0 <= i < |front| :: front[i] == samples[i];
      SpreadOver(front, speed) + Square(gap)
  }

  lemma {:induction false} SpreadGrows(m: Sums, s: Sample, speed: real)
    ensures Spread(Add(m, s), speed) == Spread(m, speed) + Square(Speed(s) - speed)
  {
    var g, u := Sign(s.dq), Speed(s);
    assert g * g == 1.0 && u * u == s.dq * s.dq;
    assert 2.0 * speed * (m.sv + u) == 2.0 * speed * m.sv + 2.0 * speed * u;
    assert (m.s2 + g * g) * (speed * speed) == m.s2 * (speed * speed) + speed * speed;
    assert Square(u - speed) == u * u - 2.0 * speed * u + speed * speed;
  }

  lemma {:induction false} SpreadIsOver(samples: seq<Sample>, speed: real)
    ensures Spread(SumsOf(samples), speed) == SpreadOver(samples, speed)
  {
    if samples != [] {
      var front, last := samples[..|samples| - 1], samples[|samples| - 1];
      SpreadIsOver(front, speed);
      SpreadGrows(SumsOf(front), last, speed);
      assert SpreadOver(samples, speed) == SpreadOver(front, speed) + Square(Speed(last) - speed);
      assert SumsOf(samples) == Add(SumsOf(front), last);
    }
  }

  lemma {:induction false} DetGrows(m: Sums, s: Sample)
    ensures Det(Add(m, s)) == Det(m) + Spread(m, Speed(s))
  {
    var g, u := Sign(s.dq), Speed(s);
    assert g * g == 1.0 && u * u == s.dq * s.dq;
    assert (m.s2 + 1.0) * (m.v2 + u * u) == m.s2 * m.v2 + m.s2 * (u * u) + m.v2 + u * u;
    assert (m.sv + u) * (m.sv + u) == m.sv * m.sv + 2.0 * u * m.sv + u * u;
  }

  /** The determinant is never negative, and zero exactly when all speeds are equal. */
  lemma {:induction false} DetDetectsCollinear(samples: seq<Sample>)
    ensures Det(SumsOf(samples)) >= 0.0
    ensures Det(SumsOf(samples)) == 0.0 <==> Collinear(samples)
  {
    if samples != [] {
      var front, last := samples[..|samples| - 1], samples[|samples| - 1];
      DetDetectsCollinear(front);
      DetGrows(SumsOf(front), last);
      SpreadIsOver(front, Speed(last));
      assert forall i | 0 <= i < |front| :: front[i] == samples[i];
      if Collinear(samples) {
        assert forall i | 0 <= i < |front| :: Speed(samples[i]) == Speed(samples[|samples| - 1]);
      }
    }
  }

  // ----- The optimum

  ghost predicate Normal(m: Sums, fc: real, fv: real) {
    m.s2 * fc + m.sv * fv == m.sr && m.sv * fc + m.v2 * fv == m.vr
  }

  lemma {:induction false} Cancel(d: real, x: real, y: real)
    requires d != 0.0 && d * x == d * y
    ensures x == y
  {
    assert d * (x - y) == 0.0;
  }

  /** One row of a symmetric 2x2 system solved by Cramer's rule; the other is the same with the rows swapped. */
  lemma {:induction false} CramerRow(a: real, b: real, c: real, e: real, f: real, x: real, y: real, d: real)
    requires d == a * c - b * b && d != 0.0 && x * d == c * e - b * f && y * d == a * f - b * e
    ensures a * x + b * y == e
  {
    assert d * (a * x + b * y) == d * e by {
      calc {
        d * (a * x + b * y);
        a * (x * d) + b * (y * d);
        a * (c * e - b * f) + b * (a * f - b * e);
        { assert a * (c * e - b * f) == a * c * e - a * b * f; }
        { assert b * (a * f - b * e) == a * b * f - b * b * e; }
        a * c * e - b * b * e;
        (a * c - b * b) * e;
      }
    }
    Cancel(d, a * x + b * y, e);
  }

  /** Cramer's rule solves the normal equations. */
  lemma {:induction false} CramerSolves(m: Sums, fc: real, fv: real)
    requires Det(m) != 0.0 && fc * Det(m) == m.v2 * m.sr - m.sv * m.vr && fv * Det(m) == m.s2 * m.vr - m.sv * m.sr
    ensures Normal(m, fc, fv)
  {
    CramerRow(m.s2, m.sv, m.v2, m.sr, m.vr, fc, fv, Det(m));
    CramerRow(m.v2, m.sv, m.s2, m.vr, m.sr, fv, fc, Det(m));
  }

  /** The increase of the error away from (fc, fv), as a pure quadratic form in the displacement. */
  function Form(m: Sums, dc: real, df: real): real {
    dc * dc * m.s2 + 2.0 * dc * df * m.sv + df * df * m.v2
  }

  lemma {:induction false} ErrorAwayFromNormal(m: Sums, fc: real, fv: real, dc: real, df: real)
    requires Normal(m, fc, fv)
    ensures Quadratic(m, fc + dc, fv + df) == Quadratic(m, fc, fv) + Form(m, dc, df)
  {
    var c, f := fc + dc, fv + df;
    assert 2.0 * c * m.sr == 2.0 * fc * m.sr + 2.0 * dc * m.sr;
    assert 2.0 * f * m.vr == 2.0 * fv * m.vr + 2.0 * df * m.vr;
    assert c * c * m.s2 == fc * fc * m.s2 + 2.0 * dc * (m.s2 * fc) + dc * dc * m.s2;
    assert f * f * m.v2 == fv * fv * m.v2 + 2.0 * df * (m.v2 * fv) + df * df * m.v2;
    assert 2.0 * c * f * m.sv
           == 2.0 * fc * fv * m.sv + 2.0 * df * (m.sv * fc) + 2.0 * dc * (m.sv * fv) + 2.0 * dc * df * m.sv;
    assert 2.0 * dc * (m.s2 * fc) + 2.0 * dc * (m.sv * fv) == 2.0 * dc * m.sr by {
      assert 2.0 * dc * (m.s2 * fc) + 2.0 * dc * (m.sv * fv) == 2.0 * dc * (m.s2 * fc + m.sv * fv);
    }
    assert 2.0 * df * (m.sv * fc) + 2.0 * df * (m.v2 * fv) == 2.0 * df * m.vr by {
      assert 2.0 * df * (m.sv * fc) + 2.0 * df * (m.v2 * fv) == 2.0 * df * (m.sv * fc + m.v2 * fv);
    }
  }

  /** With a positive determinant the form is positive away from the origin. */
  lemma {:induction false} FormIsDefinite(m: Sums, dc: real, df: real)
    requires m.s2 > 0.0 && Det(m) > 0.0 && (dc != 0.0 || df != 0.0)
    ensures Form(m, dc, df) > 0.0
  {
    var lead := m.s2 * dc + m.sv * df;
    assert m.s2 * Form(m, dc, df) == lead * lead + Det(m) * (df * df) by {
      assert m.s2 * (dc * dc * m.s2) == (m.s2 * dc) * (m.s2 * dc);
      assert m.s2 * (2.0 * dc * df * m.sv) == 2.0 * ((m.s2 * dc) * (m.sv * df));
      assert m.s2 * (df * df * m.v2) == (m.s2 * m.v2) * (df * df);
      assert lead * lead == (m.s2 * dc) * (m.s2 * dc) + 2.0 * ((m.s2 * dc) * (m.sv * df)) + (m.sv * df) * (m.sv * df);
      assert (m.sv * df) * (m.sv * df) == (m.sv * m.sv) * (df * df);
      assert Det(m) * (df * df) == (m.s2 * m.v2) * (df * df) - (m.sv * m.sv) * (df * df);
    }
    PositiveSum(lead, Det(m), df);
    if df == 0.0 {
      assert lead == m.s2 * dc;
      assert lead != 0.0;
    }
    PositiveFactor(m.s2, Form(m, dc, df));
  }

  lemma {:induction false} PositiveSum(x: real, d: real, y: real)
    requires d > 0.0
    ensures x * x + d * (y * y) >= 0.0
    ensures x != 0.0 || y != 0.0 ==> x * x + d * (y * y) > 0.0
  {
    SquareSign(x);
    SquareSign(y);
    Scaled(d, Square(y));
  }

  lemma {:induction false} Scaled(d: real, y: real)
    requires d > 0.0 && y >= 0.0
    ensures d * y >= 0.0 && (y > 0.0 ==> d * y > 0.0)
  {
  }

  lemma {:induction false} PositiveFactor(s: real, x: real)
    requires s > 0.0 && s * x > 0.0
    ensures x > 0.0
  {
  }

  lemma {:induction false} CountsSamples(samples: seq<Sample>)
    ensures SumsOf(samples).s2 == |samples| as real
  {
    if samples != [] {
      CountsSamples(samples[..|samples| - 1]);
      var g := Sign(samples[|samples| - 1].dq);
      assert g * g == 1.0;
    }
  }

  /** No other pair fits the samples as well as the solution of the normal equations. */
  lemma {:induction false} NormalIsBest(samples: seq<Sample>, fc: real, fv: real, c: real, f: real)
    requires samples != [] && Det(SumsOf(samples)) > 0.0 && Normal(SumsOf(samples), fc, fv)
    ensures (c, f) != (fc, fv) ==> SquaredError(fc, fv, samples) < SquaredError(c, f, samples)
  {
    var m := SumsOf(samples);
    ErrorIsQuadratic(samples, fc, fv);
    ErrorIsQuadratic(samples, c, f);
    ErrorAwayFromNormal(m, fc, fv, c - fc, f - fv);
    CountsSamples(samples);
    if (c, f) != (fc, fv) {
      FormIsDefinite(m, c - fc, f - fv);
    }
  }

  ghost predicate BestFit(samples: seq<Sample>, fc: real, fv: real) {
    forall c: real, f: real :: (c, f) != (fc, fv) ==> SquaredError(fc, fv, samples) < SquaredError(c, f, samples)
  }

  function TotalSquares(samples: seq<Sample>, mean: real): real {
    if samples == [] then 0.0
    else TotalSquares(samples[..|samples| - 1], mean) + Square(samples[|samples| - 1].r - mean)
  }

  function SumR(samples: seq<Sample>): real {
    if samples == [] then 0.0 else SumR(samples[..|samples| - 1]) + samples[|samples| - 1].r
  }

  function MeanR(samples: seq<Sample>): real
    requires samples != []
  {
    SumR(samples) / |samples| as real
  }

  /**
    `r2` is the share of the samples' spread about `mean` that the pair explains;
    for samples without spread it says whether the pair is exact.
   */
  predicate IsGoodness(samples: seq<Sample>, fc: real, fv: real, mean: real, r2: real) {
    var error, total := SquaredError(fc, fv, samples), TotalSquares(samples, mean);
    if total > 0.0 then r2 == 1.0 - error / total else r2 == if error == 0.0 then 1.0 else 0.0
  }

  lemma {:induction false} Quotient(n: real, d: real)
    requires d != 0.0
    ensures n / d * d == n
  {
  }

  lemma {:induction false} ErrorNonNegative(samples: seq<Sample>, fc: real, fv: real)
    ensures SquaredError(fc, fv, samples) >= 0.0
  {
    if samples != [] {
      ErrorNonNegative(samples[..|samples| - 1], fc, fv);
      SquareSign(Residual(fc, fv, samples[|samples| - 1]));
    }
  }

  lemma {:induction false} RatioNonNegative(n: real, d: real)
    requires n >= 0.0 && d > 0.0
    ensures n / d >= 0.0 && (n / d == 0.0 <==> n == 0.0)
  {
  }

  /**
    Whenever the regression answers, (fc, fv) is the one pair of least squared
    error and R² is one less its error's share of the spread about the mean; it
    refuses exactly too few samples or samples of one speed.
   */
  method RegressFriction(samples: seq<Sample>) returns (fit: Option<(real, real, real)>)
    ensures fit.None? <==> |samples| < 20 || Collinear(samples)
    ensures fit.Some? ==>
              && samples != [] && BestFit(samples, fit.value.0, fit.value.1)
              && IsGoodness(samples, fit.value.0, fit.value.1, MeanR(samples), fit.value.2)
              && fit.value.2 <= 1.0 && (fit.value.2 == 1.0 <==> SquaredError(fit.value.0, fit.value.1, samples) == 0.0)
  {
    if |samples| < MIN_WAVE_SAMPLES {
      return None;
    }
    var m := Sums(0.0, 0.0, 0.0, 0.0, 0.0, 0.0);
    var total := 0.0;
    for i := 0 to |samples|
      invariant m == SumsOf(samples[..i])
      invariant total == SumR(samples[..i])
    {
      assert samples[..i + 1][..i] == samples[..i];
      m := Add(m, samples[i]);
      total := total + samples[i].r;
    }
    assert samples[..|samples|] == samples;
    DetDetectsCollinear(samples);
    var det := m.s2 * m.v2 - m.sv * m.sv;
    if det <= 0.0 {
      return None;
    }
    var fc, fv := Solve(m);
    NormalIsBestFit(samples, fc, fv);
    var r2 := GoodnessOfFit(samples, fc, fv, total / |samples| as real);
    return Some((fc, fv, r2));
  }

  method Solve(m: Sums) returns (fc: real, fv: real)
    requires Det(m) > 0.0
    ensures Normal(m, fc, fv)
  {
    var det := m.s2 * m.v2 - m.sv * m.sv;
    fc := (m.v2 * m.sr - m.sv * m.vr) / det;
    fv := (m.s2 * m.vr - m.sv * m.sr) / det;
    Quotient(m.v2 * m.sr - m.sv * m.vr, det);
    Quotient(m.s2 * m.vr - m.sv * m.sr, det);
    CramerSolves(m, fc, fv);
  }

  lemma {:induction false} NormalIsBestFit(samples: seq<Sample>, fc: real, fv: real)
    requires samples != [] && Det(SumsOf(samples)) > 0.0 && Normal(SumsOf(samples), fc, fv)
    ensures BestFit(samples, fc, fv)
  {
    forall c: real, f: real ensures (c, f) != (fc, fv) ==> SquaredError(fc, fv, samples) < SquaredError(c, f, samples) {
      NormalIsBest(samples, fc, fv, c, f);
    }
  }

  method Squares(samples: seq<Sample>, fc: real, fv: real, mean: real) returns (res: real, tot: real)
    ensures res == SquaredError(fc, fv, samples) && tot == TotalSquares(samples, mean)
  {
    res, tot := 0.0, 0.0;
    for i := 0 to |samples|
      invariant res == SquaredError(fc, fv, samples[..i]) && tot == TotalSquares(samples[..i], mean)
    {
      assert samples[..i + 1][..i] == samples[..i];
      var s := samples[i];
      var pred := fc * Sign(s.dq) + fv * s.dq;
      res := res + Square(s.r - pred);
      tot := tot + Square(s.r - mean);
    }
    assert samples[..|samples|] == samples;
  }

  method GoodnessOfFit(samples: seq<Sample>, fc: real, fv: real, mean: real) returns (r2: real)
    ensures IsGoodness(samples, fc, fv, mean, r2) && r2 <= 1.0
    ensures r2 == 1.0 <==> SquaredError(fc, fv, samples) == 0.0
  {
    var res, tot := Squares(samples, fc, fv, mean);
    ErrorNonNegative(samples, fc, fv);
    if tot > 0.0 {
      RatioNonNegative(res, tot);
      r2 := 1.0 - res / tot;
    } else if res == 0.0 {
      r2 := 1.0;
    } else {
      r2 := 0.0;
    }
  }
}
