/**
 Fitting the time-to-first-token predictor: ridge regression by the normal
 equations, slopes clamped at zero, then the best intercept for them.
 */
module TtftFit {
  import opened Common
  import opened LinearSolve

  const WIDTH: nat := 5

  function Squared(x: real): real {
    x * x
  }

  ghost predicate Rows(features: seq<Vector>, width: nat) {
    forall i :: 0 <= i < |features| ==> |features[i]| == width
  }

  /** Sum of squared errors of the linear model `w`. */
  function SquaredError(features: seq<Vector>, targets: Vector, w: Vector): real
    requires |features| == |targets| && Rows(features, |w|)
  {
    if features == [] then 0.0
    else
      var n := |features| - 1;
      SquaredError(features[..n], targets[..n], w) + Squared(targets[n] - Dot(features[n], w))
  }

  /** The intercept, at index 0, is not penalised. */
  function Objective(features: seq<Vector>, targets: Vector, ridge: real, w: Vector): real
    requires |features| == |targets| && Rows(features, |w|) && |w| > 0
  {
    SquaredError(features, targets, w) + ridge * Dot(w[1..], w[1..])
  }

  // ---- the normal equations, entry by entry as the loops build them ----

  function Gram(features: seq<Vector>, left: nat, right: nat): real
    requires forall i :: 0 <= i < |features| ==> left < |features[i]| && right < |features[i]|
  {
    if features == [] then 0.0
    else
      var n := |features| - 1;
      Gram(features[..n], left, right) + features[n][left] * features[n][right]
  }

  function Cross(features: seq<Vector>, targets: Vector, left: nat): real
    requires |features| == |targets|
    requires forall i :: 0 <= i < |features| ==> left < |features[i]|
  {
    if features == [] then 0.0
    else
      var n := |features| - 1;
      Cross(features[..n], targets[..n], left) + features[n][left] * targets[n]
  }

  function GramRow(features: seq<Vector>, left: nat, width: nat): Vector
    requires Rows(features, width) && left < width
  {
    seq(width, right requires 0 <= right < width => Gram(features, left, right))
  }

  ghost predicate NormalEquations(features: seq<Vector>, targets: Vector, ridge: real, matrix: seq<Vector>, vector: Vector) {
    && |features| == |targets| && Rows(features, |vector|) && Square(matrix, |vector|)
    && (forall l :: 0 <= l < |vector| ==> vector[l] == Cross(features, targets, l))
    && (forall l, r :: 0 <= l < |vector| && 0 <= r < |vector| ==>
          matrix[l][r] == Gram(features, l, r) + if l == r && l > 0 then ridge else 0.0)
  }

  /** Errors times features: half the downhill direction of the squared error at `c`. */
  function Descent(features: seq<Vector>, targets: Vector, c: Vector): Vector
    requires |features| == |targets| && Rows(features, |c|)
    ensures |Descent(features, targets, c)| == |c|
  {
    if features == [] then seq(|c|, _ => 0.0)
    else
      var n := |features| - 1;
      Added(Descent(features[..n], targets[..n], c), Scaled(targets[n] - Dot(features[n], c), features[n]))
  }

  /** Sum of squares of the changes `h` makes to the predictions. */
  function Shift(features: seq<Vector>, h: Vector): real
    requires Rows(features, |h|)
  {
    if features == [] then 0.0
    else
      var n := |features| - 1;
      Shift(features[..n], h) + Squared(Dot(features[n], h))
  }

  lemma {:induction false} ShiftNonNegative(features: seq<Vector>, h: Vector)
    requires Rows(features, |h|)
    ensures Shift(features, h) >= 0.0
  {
    if features != [] {
      ShiftNonNegative(features[..|features| - 1], h);
      SquareNonNegative(Dot(features[|features| - 1], h));
    }
  }

  lemma SquareNonNegative(x: real)
    ensures Squared(x) >= 0.0
  {
  }

  lemma {:induction false} DotSelfNonNegative(h: Vector)
    ensures Dot(h, h) >= 0.0
  {
    if h != [] {
      DotSelfNonNegative(h[1..]);
      SquareNonNegative(h[0]);
    }
  }

  lemma SquareShift(e: real, d: real)
    ensures Squared(e - d) == Squared(e) - 2.0 * (e * d) + Squared(d)
  {
  }

  lemma DotAddedRight(a: Vector, b: Vector, c: Vector)
    requires |a| == |b| == |c|
    ensures Dot(a, Added(b, c)) == Dot(a, b) + Dot(a, c)
  {
    DotCommutes(a, Added(b, c));
    DotCommutes(a, b);
    DotCommutes(a, c);
    DotAdded(b, c, a);
  }

  /** Errors at `c` times the changes `h` makes to the predictions. */
  function Tilt(features: seq<Vector>, targets: Vector, c: Vector, h: Vector): real
    requires |features| == |targets| && |c| == |h| && Rows(features, |c|)
  {
    if features == [] then 0.0
    else
      var n := |features| - 1;
      Tilt(features[..n], targets[..n], c, h) + (targets[n] - Dot(features[n], c)) * Dot(features[n], h)
  }

  lemma {:induction false} LastError(features: seq<Vector>, targets: Vector, w: Vector)
    requires |features| == |targets| > 0 && Rows(features, |w|)
    ensures var n := |features| - 1;
            SquaredError(features, targets, w) ==
            SquaredError(features[..n], targets[..n], w) + Squared(targets[n] - Dot(features[n], w))
  {
    hide Dot;
    hide Squared;
  }

  lemma {:induction false} LastTilt(features: seq<Vector>, targets: Vector, c: Vector, h: Vector)
    requires |features| == |targets| > 0 && |c| == |h| && Rows(features, |c|)
    ensures var n := |features| - 1;
            && Tilt(features, targets, c, h) ==
               Tilt(features[..n], targets[..n], c, h) + (targets[n] - Dot(features[n], c)) * Dot(features[n], h)
            && Shift(features, h) == Shift(features[..n], h) + Squared(Dot(features[n], h))
  {
    hide Dot;
    hide Squared;
  }

  /** The squared error is quadratic along every direction. */
  lemma {:induction false} ErrorAlong(features: seq<Vector>, targets: Vector, c: Vector, h: Vector)
    requires |features| == |targets| && |c| == |h| && Rows(features, |c|)
    ensures SquaredError(features, targets, Added(c, h)) ==
            SquaredError(features, targets, c) - 2.0 * Tilt(features, targets, c, h) + Shift(features, h)
  {
    hide Dot;
    hide Squared;
    if features != [] {
      hide SquaredError;
      hide Tilt;
      hide Shift;
      var n := |features| - 1;
      var row, error := features[n], targets[n] - Dot(features[n], c);
      ErrorAlong(features[..n], targets[..n], c, h);
      LastError(features, targets, Added(c, h));
      LastError(features, targets, c);
      LastTilt(features, targets, c, h);
      DotAddedRight(row, c, h);
      SquareShift(error, Dot(row, h));
      assert targets[n] - Dot(row, Added(c, h)) == error - Dot(row, h);
      AlongStep(SquaredError(features[..n], targets[..n], c), Tilt(features[..n], targets[..n], c, h),
                Shift(features[..n], h), Squared(error), error * Dot(row, h), Squared(Dot(row, h)));
    }
  }

  lemma AlongStep(e: real, t: real, s: real, x: real, y: real, z: real)
    ensures (e - 2.0 * t + s) + (x - 2.0 * y + z) == (e + x) - 2.0 * (t + y) + (s + z)
  {
  }

  lemma {:induction false} TiltIsDescent(features: seq<Vector>, targets: Vector, c: Vector, h: Vector)
    requires |features| == |targets| && |c| == |h| && Rows(features, |c|)
    ensures Tilt(features, targets, c, h) == Dot(Descent(features, targets, c), h)
  {
    hide Dot;
    if features == [] {
      DotZero(Descent(features, targets, c), h);
    } else {
      var n := |features| - 1;
      var row, error := features[n], targets[n] - Dot(features[n], c);
      TiltIsDescent(features[..n], targets[..n], c, h);
      DotAdded(Descent(features[..n], targets[..n], c), Scaled(error, row), h);
      DotScaled(error, row, h);
    }
  }

  lemma {:induction false} LastDescent(features: seq<Vector>, targets: Vector, c: Vector, l: nat)
    requires |features| == |targets| > 0 && Rows(features, |c|) && l < |c|
    ensures var n := |features| - 1;
            && Descent(features, targets, c)[l] ==
               Descent(features[..n], targets[..n], c)[l] + (targets[n] - Dot(features[n], c)) * features[n][l]
            && Cross(features, targets, l) == Cross(features[..n], targets[..n], l) + features[n][l] * targets[n]
  {
    hide Dot;
  }

  lemma {:induction false} DescentEntry(features: seq<Vector>, targets: Vector, c: Vector, l: nat)
    requires |features| == |targets| && Rows(features, |c|) && l < |c|
    ensures Descent(features, targets, c)[l] == Cross(features, targets, l) - Dot(GramRow(features, l, |c|), c)
  {
    hide Dot;
    hide GramRow;
    if features == [] {
      EmptyGramRow(l, c);
    } else {
      hide Descent;
      hide Cross;
      var n := |features| - 1;
      var row := features[n];
      DescentEntry(features[..n], targets[..n], c, l);
      LastDescent(features, targets, c, l);
      GramRowDot(features, l, c);
      EntryStep(row[l], targets[n], Dot(row, c));
    }
  }

  lemma EmptyGramRow(l: nat, c: Vector)
    requires l < |c|
    ensures Dot(GramRow([], l, |c|), c) == 0.0
  {
    DotZero(GramRow([], l, |c|), c);
  }

  lemma GramRowDot(features: seq<Vector>, l: nat, c: Vector)
    requires features != [] && Rows(features, |c|) && l < |c|
    ensures var n := |features| - 1;
            Dot(GramRow(features, l, |c|), c)
            == Dot(GramRow(features[..n], l, |c|), c) + features[n][l] * Dot(features[n], c)
  {
    hide Dot;
    hide Gram;
    var n := |features| - 1;
    var row := features[n];
    GramRowStep(features, l, |c|);
    DotAdded(GramRow(features[..n], l, |c|), Scaled(row[l], row), c);
    DotScaled(row[l], row, c);
  }

  lemma EntryStep(x: real, t: real, p: real)
    ensures (t - p) * x == x * t - x * p
  {
  }

  lemma GramRowStep(features: seq<Vector>, l: nat, width: nat)
    requires features != [] && Rows(features, width) && l < width
    ensures var n := |features| - 1;
            GramRow(features, l, width) == Added(GramRow(features[..n], l, width), Scaled(features[n][l], features[n]))
  {
    var n := |features| - 1;
    forall r | 0 <= r < width
      ensures GramRow(features, l, width)[r]
           == Added(GramRow(features[..n], l, width), Scaled(features[n][l], features[n]))[r]
    {
      assert Gram(features, l, r) == Gram(features[..n], l, r) + features[n][l] * features[n][r];
    }
  }

  lemma {:induction false} DotRidge(ridge: real, row: Vector, l: nat, plain: Vector, c: Vector)
    requires |row| == |plain| == |c| && l < |c|
    requires forall r :: 0 <= r < |c| ==> row[r] == plain[r] + if r == l then ridge else 0.0
    ensures Dot(row, c) == Dot(plain, c) + ridge * c[l]
  {
    var bump := seq(|c|, r requires 0 <= r < |c| => if r == l then 1.0 else 0.0);
    assert row == Added(plain, Scaled(ridge, bump));
    DotAdded(plain, Scaled(ridge, bump), c);
    DotScaled(ridge, bump, c);
    DotUnit(bump, l, c);
  }

  /** At a solution of the normal equations the descent is the ridge's pull and no more. */
  lemma DescentAtSolution(features: seq<Vector>, targets: Vector, ridge: real, matrix: seq<Vector>, vector: Vector, c: Vector)
    requires NormalEquations(features, targets, ridge, matrix, vector) && |c| == |vector| > 0
    requires IsSolution(matrix, vector, c)
    ensures Descent(features, targets, c) == [0.0] + Scaled(ridge, c[1..])
  {
    hide Dot;
    hide Gram;
    hide Cross;
    hide Descent;
    forall l | 0 <= l < |c|
      ensures Descent(features, targets, c)[l] == ([0.0] + Scaled(ridge, c[1..]))[l]
    {
      DescentEntry(features, targets, c, l);
      if l == 0 {
        assert matrix[0] == GramRow(features, 0, |c|);
      } else {
        DotRidge(ridge, matrix[l], l, GramRow(features, l, |c|), c);
        assert c[1..][l - 1] == c[l];
      }
    }
  }

  lemma TiltAtSolution(features: seq<Vector>, targets: Vector, ridge: real, matrix: seq<Vector>, vector: Vector,
                       c: Vector, h: Vector)
    requires NormalEquations(features, targets, ridge, matrix, vector) && |h| == |c| == |vector| > 0
    requires IsSolution(matrix, vector, c)
    ensures Tilt(features, targets, c, h) == ridge * Dot(c[1..], h[1..])
  {
    hide Dot;
    hide Tilt;
    hide Descent;
    hide Gram;
    hide Cross;
    TiltIsDescent(features, targets, c, h);
    DescentAtSolution(features, targets, ridge, matrix, vector, c);
    PullAlong(ridge, c, h);
  }

  /** A solution of the normal equations minimises the objective over all models. */
  lemma SolutionMinimises(features: seq<Vector>, targets: Vector, ridge: real, matrix: seq<Vector>, vector: Vector,
                          c: Vector, w: Vector)
    requires ridge >= 0.0
    requires NormalEquations(features, targets, ridge, matrix, vector) && |w| == |c| == |vector| > 0
    requires IsSolution(matrix, vector, c)
    ensures Objective(features, targets, ridge, c) <= Objective(features, targets, ridge, w)
  {
    hide Dot;
    hide Tilt;
    hide Descent;
    hide Gram;
    hide Cross;
    hide SquaredError;
    hide Shift;
    var h := seq(|c|, k requires 0 <= k < |c| => w[k] - c[k]);
    assert Added(c, h) == w;
    assert Added(c[1..], h[1..]) == w[1..];
    ErrorAlong(features, targets, c, h);
    TiltAtSolution(features, targets, ridge, matrix, vector, c, h);
    PenaltyAlong(c[1..], h[1..]);
    ShiftNonNegative(features, h);
    DotSelfNonNegative(h[1..]);
    ObjectiveGap(SquaredError(features, targets, c), SquaredError(features, targets, w), Shift(features, h), ridge,
                 Dot(c[1..], c[1..]), Dot(c[1..], h[1..]), Dot(h[1..], h[1..]), Dot(w[1..], w[1..]));
  }

  lemma PullAlong(ridge: real, c: Vector, h: Vector)
    requires |c| == |h| > 0
    ensures Dot([0.0] + Scaled(ridge, c[1..]), h) == ridge * Dot(c[1..], h[1..])
  {
    TakeDrop(h, 1);
    assert h[..1] == [h[0]];
    DotConcat([0.0], Scaled(ridge, c[1..]), [h[0]], h[1..]);
    DotScaled(ridge, c[1..], h[1..]);
    assert [0.0][1..] == [] && [h[0]][1..] == [];
  }

  lemma PenaltyAlong(c: Vector, h: Vector)
    requires |c| == |h|
    ensures Dot(Added(c, h), Added(c, h)) == Dot(c, c) + 2.0 * Dot(c, h) + Dot(h, h)
  {
    hide Dot;
    DotAdded(c, h, Added(c, h));
    DotAddedRight(c, c, h);
    DotAddedRight(h, c, h);
    DotCommutes(h, c);
  }

  lemma ObjectiveGap(errorC: real, errorW: real, shift: real, ridge: real, cc: real, ch: real, hh: real, ww: real)
    requires ridge >= 0.0 && hh >= 0.0 && shift >= 0.0
    requires errorW == errorC - 2.0 * (ridge * ch) + shift
    requires ww == cc + 2.0 * ch + hh
    ensures errorC + ridge * cc <= errorW + ridge * ww
  {
    assert ridge * hh >= 0.0;
    assert ridge * ww == ridge * cc + 2.0 * (ridge * ch) + ridge * hh;
  }

  // ---- the best intercept for given slopes ----

  /** The target left over for the intercept in each row. */
  function Leftovers(features: seq<Vector>, targets: Vector, slopes: Vector): Vector
    requires |features| == |targets| && Rows(features, |slopes| + 1)
  {
    seq(|features|, i requires 0 <= i < |features| => targets[i] - Dot(features[i][1..], slopes))
  }

  function Sum(values: Vector): real {
    if values == [] then 0.0 else Sum(values[..|values| - 1]) + values[|values| - 1]
  }

  /** Squared error of the constant `a` against the values. */
  function ConstantError(values: Vector, a: real): real {
    if values == [] then 0.0
    else ConstantError(values[..|values| - 1], a) + Squared(values[|values| - 1] - a)
  }

  lemma {:induction false} ConstantErrorGap(values: Vector, a: real, b: real)
    ensures ConstantError(values, a) - ConstantError(values, b) ==
            (a - b) * ((|values| as real) * (a + b) - 2.0 * Sum(values))
  {
    hide Squared;
    if values != [] {
      var n := |values| - 1;
      ConstantErrorGap(values[..n], a, b);
      GapStep(a, b, n as real, Sum(values[..n]), values[n]);
    }
  }

  lemma GapStep(a: real, b: real, n: real, s: real, v: real)
    ensures (a - b) * (n * (a + b) - 2.0 * s) + (Squared(v - a) - Squared(v - b))
         == (a - b) * ((n + 1.0) * (a + b) - 2.0 * (s + v))
  {
  }

  function BestIntercept(values: Vector): real
    requires values != []
  {
    Max(0.0, Sum(values) / (|values| as real))
  }

  /** No other non-negative constant is closer to the values. */
  lemma BestInterceptIsBest(values: Vector, a: real)
    requires values != [] && a >= 0.0
    ensures BestIntercept(values) >= 0.0
    ensures ConstantError(values, BestIntercept(values)) <= ConstantError(values, a)
  {
    hide ConstantError;
    hide Sum;
    var n, s := |values| as real, Sum(values);
    ConstantErrorGap(values, a, BestIntercept(values));
    if s / n >= 0.0 {
      MeanGap(a, s / n, n, s);
    } else {
      NegativeMean(a, n, s);
    }
  }

  lemma MeanGap(a: real, b: real, n: real, s: real)
    requires n > 0.0 && b == s / n
    ensures (a - b) * (n * (a + b) - 2.0 * s) >= 0.0
  {
    assert s == n * b;
    assert (a - b) * (n * (a + b) - 2.0 * s) == n * ((a - b) * (a - b));
    assert (a - b) * (a - b) >= 0.0;
  }

  lemma NegativeMean(a: real, n: real, s: real)
    requires n > 0.0 && a >= 0.0 && s / n < 0.0
    ensures (a - 0.0) * (n * (a + 0.0) - 2.0 * s) >= 0.0
  {
    assert s < 0.0 by { assert s == n * (s / n); }
    assert n * a >= 0.0;
  }

  // ---- the algorithm ----

  datatype FitError = RowTooShort | LengthMismatch | SingularDesign | RowTooLong

  /** The four loops: one more sample, every coefficient, every pair. */
  method AddSample(matrix: array2<real>, vector: array<real>, ghost before: seq<Vector>, ghost targets: Vector,
                   row: Vector, target: real)
    requires matrix.Length0 == matrix.Length1 == vector.Length == WIDTH
    requires Rows(before, WIDTH) && |targets| == |before| && |row| == WIDTH
    requires Accumulated(matrix, vector, before, targets)
    modifies matrix, vector
    ensures Accumulated(matrix, vector, before + [row], targets + [target])
  {
    ghost var after, aimed := before + [row], targets + [target];
    SnocInit(before, row);
    SnocInit(targets, target);
    for left := 0 to WIDTH
      invariant forall l :: 0 <= l < left ==> vector[l] == Cross(after, aimed, l)
      invariant forall l, r :: 0 <= l < left && 0 <= r < WIDTH ==> matrix[l, r] == Gram(after, l, r)
      invariant forall l :: left <= l < WIDTH ==> vector[l] == Cross(before, targets, l)
      invariant forall l, r :: left <= l < WIDTH && 0 <= r < WIDTH ==> matrix[l, r] == Gram(before, l, r)
    {
      vector[left] := vector[left] + row[left] * target;
      for right := 0 to WIDTH
        invariant forall l :: 0 <= l <= left ==> vector[l] == Cross(after, aimed, l)
        invariant forall l, r :: 0 <= l < left && 0 <= r < WIDTH ==> matrix[l, r] == Gram(after, l, r)
        invariant forall r :: 0 <= r < right ==> matrix[left, r] == Gram(after, left, r)
        invariant forall r :: right <= r < WIDTH ==> matrix[left, r] == Gram(before, left, r)
        invariant forall l :: left < l < WIDTH ==> vector[l] == Cross(before, targets, l)
        invariant forall l, r :: left < l < WIDTH && 0 <= r < WIDTH ==> matrix[l, r] == Gram(before, l, r)
      {
        matrix[left, right] := matrix[left, right] + row[left] * row[right];
      }
    }
  }

  ghost predicate Accumulated(matrix: array2<real>, vector: array<real>, features: seq<Vector>, targets: Vector)
    requires matrix.Length0 == matrix.Length1 == vector.Length == WIDTH
    requires Rows(features, WIDTH) && |targets| == |features|
    reads matrix, vector
  {
    && (forall l :: 0 <= l < WIDTH ==> vector[l] == Cross(features, targets, l))
    && (forall l, r :: 0 <= l < WIDTH && 0 <= r < WIDTH ==> matrix[l, r] == Gram(features, l, r))
  }

  function Clamped(values: Vector): Vector {
    seq(|values|, i requires 0 <= i < |values| => Max(0.0, values[i]))
  }

  /** The model returned for a solution `c` of the normal equations. */
  function ClampedModel(features: seq<Vector>, targets: Vector, c: Vector): Vector
    requires |features| == |targets| > 0 && |c| > 0 && Rows(features, |c|)
  {
    var slopes := Clamped(c[1..]);
    [BestIntercept(Leftovers(features, targets, slopes))] + slopes
  }

  /** Without samples the first column is empty, so no solution is the only one. */
  lemma NoSamplesSingular(ridge: real, matrix: seq<Vector>, vector: Vector, x: Vector)
    requires NormalEquations([], [], ridge, matrix, vector) && |x| == |vector| > 0
    requires IsSolution(matrix, vector, x)
    ensures IsSolution(matrix, vector, x[0 := x[0] + 1.0]) && x[0 := x[0] + 1.0] != x
  {
    var other := x[0 := x[0] + 1.0];
    assert other[1..] == x[1..];
    forall i | 0 <= i < |x| ensures Dot(matrix[i], other) == Dot(matrix[i], x) {
      assert matrix[i][0] == 0.0;
    }
    assert other[0] != x[0];
  }

  method NormalMatrix(features: seq<Vector>, targets: Vector, ridge: real)
    returns (r: Result<(seq<Vector>, Vector), FitError>)
    ensures r.Ok? ==> |features| == |targets| && |r.value.1| == WIDTH
    ensures r.Ok? ==> forall i :: 0 <= i < |features| ==> |features[i]| >= WIDTH
    ensures r.Ok? ==> NormalEquations(Truncated(features), targets, ridge, r.value.0, r.value.1)
    ensures r == Err(RowTooShort) <==> exists i :: 0 <= i < |features| && i < |targets| && |features[i]| < WIDTH
    ensures r == Err(LengthMismatch) ==> |features| != |targets|
    ensures r.Err? ==> r.error.RowTooShort? || r.error.LengthMismatch?
  {
    var matrix := new real[WIDTH, WIDTH]((_, _) => 0.0);
    var vector := new real[WIDTH](_ => 0.0);
    var samples := if |features| < |targets| then |features| else |targets|;
    for k := 0 to samples
      invariant forall i :: 0 <= i < k ==> |features[i]| >= WIDTH
      invariant Accumulated(matrix, vector, Truncated(features[..k]), targets[..k])
    {
      if |features[k]| < WIDTH {
        return Err(RowTooShort);
      }
      TruncatedSnoc(features, k);
      assert targets[..k + 1] == targets[..k] + [targets[k]];
      AddSample(matrix, vector, Truncated(features[..k]), targets[..k], features[k][..WIDTH], targets[k]);
    }
    if |features| != |targets| {
      return Err(LengthMismatch);
    }
    assert features[..samples] == features && targets[..samples] == targets;
    AddRidge(matrix, ridge, Truncated(features));
    var rows := seq(WIDTH, l requires 0 <= l < WIDTH reads matrix =>
      seq(WIDTH, r requires 0 <= r < WIDTH reads matrix => matrix[l, r]));
    r := Ok((rows, vector[..]));
  }

  method AddRidge(matrix: array2<real>, ridge: real, ghost used: seq<Vector>)
    requires matrix.Length0 == matrix.Length1 == WIDTH && Rows(used, WIDTH)
    requires forall l, r :: 0 <= l < WIDTH && 0 <= r < WIDTH ==> matrix[l, r] == Gram(used, l, r)
    modifies matrix
    ensures forall l, r :: 0 <= l < WIDTH && 0 <= r < WIDTH ==>
              matrix[l, r] == Gram(used, l, r) + if l == r && 0 < l then ridge else 0.0
  {
    for index := 1 to WIDTH
      invariant forall l, r :: 0 <= l < WIDTH && 0 <= r < WIDTH ==>
                  matrix[l, r] == Gram(used, l, r) + if l == r && 0 < l < index then ridge else 0.0
    {
      matrix[index, index] := matrix[index, index] + ridge;
    }
  }

  /** The loops read the first WIDTH entries of each row. */
  function Truncated(features: seq<Vector>): (r: seq<Vector>)
    requires forall i :: 0 <= i < |features| ==> |features[i]| >= WIDTH
    ensures |r| == |features| && Rows(r, WIDTH)
  {
    seq(|features|, i requires 0 <= i < |features| => features[i][..WIDTH])
  }

  lemma TruncatedSnoc(features: seq<Vector>, k: nat)
    requires k < |features| && forall i :: 0 <= i <= k ==> |features[i]| >= WIDTH
    ensures Truncated(features[..k + 1]) == Truncated(features[..k]) + [features[k][..WIDTH]]
  {
  }

  lemma TruncatedExact(features: seq<Vector>)
    requires Rows(features, WIDTH)
    ensures Truncated(features) == features
  {
    forall i | 0 <= i < |features| ensures Truncated(features)[i] == features[i] {
      assert features[i][..WIDTH] == features[i];
    }
  }

  /** The normal equations, told from the samples alone. */
  ghost predicate SolvesNormal(features: seq<Vector>, targets: Vector, ridge: real, w: Vector)
    requires |features| == |targets| && Rows(features, |w|)
  {
    forall l :: 0 <= l < |w| ==>
      Dot(GramRow(features, l, |w|), w) + (if l > 0 then ridge * w[l] else 0.0) == Cross(features, targets, l)
  }

  lemma NormalRow(features: seq<Vector>, targets: Vector, ridge: real, matrix: seq<Vector>, vector: Vector, w: Vector,
                  l: nat)
    requires NormalEquations(features, targets, ridge, matrix, vector) && l < |w| == |vector|
    ensures Dot(matrix[l], w) == Dot(GramRow(features, l, |w|), w) + if l > 0 then ridge * w[l] else 0.0
  {
    hide Dot;
    if l == 0 {
      assert matrix[0] == GramRow(features, 0, |w|);
    } else {
      DotRidge(ridge, matrix[l], l, GramRow(features, l, |w|), w);
    }
  }

  lemma NormalSolution(features: seq<Vector>, targets: Vector, ridge: real, matrix: seq<Vector>, vector: Vector, w: Vector)
    requires NormalEquations(features, targets, ridge, matrix, vector) && |w| == |vector|
    ensures IsSolution(matrix, vector, w) <==> SolvesNormal(features, targets, ridge, w)
  {
    hide Dot;
    hide Gram;
    hide Cross;
    forall l | 0 <= l < |w|
      ensures Dot(matrix[l], w) == Dot(GramRow(features, l, |w|), w) + if l > 0 then ridge * w[l] else 0.0
    {
      NormalRow(features, targets, ridge, matrix, vector, w, l);
    }
  }

  /** `c` is the only solution of the normal equations, and no model has a lower objective. */
  ghost predicate Fitted(features: seq<Vector>, targets: Vector, ridge: real, c: Vector)
    requires |features| == |targets| && |c| > 0 && Rows(features, |c|)
  {
    forall w: Vector :: |w| == |c| ==>
      && (SolvesNormal(features, targets, ridge, w) <==> w == c)
      && Objective(features, targets, ridge, c) <= Objective(features, targets, ridge, w)
  }

  lemma OnlySolutionFits(features: seq<Vector>, targets: Vector, ridge: real, matrix: seq<Vector>, vector: Vector, c: Vector)
    requires ridge >= 0.0 && |c| == |vector| > 0
    requires NormalEquations(features, targets, ridge, matrix, vector)
    requires forall y: Vector :: |y| == |vector| ==> (IsSolution(matrix, vector, y) <==> y == c)
    ensures features != [] && Fitted(features, targets, ridge, c)
  {
    hide Dot;
    hide Objective;
    hide SolvesNormal;
    assert IsSolution(matrix, vector, c);
    if features == [] {
      NoSamplesSingular(ridge, matrix, vector, c);
      assert false;
    }
    forall w: Vector | |w| == |c|
      ensures SolvesNormal(features, targets, ridge, w) <==> w == c
      ensures Objective(features, targets, ridge, c) <= Objective(features, targets, ridge, w)
    {
      NormalSolution(features, targets, ridge, matrix, vector, w);
      SolutionMinimises(features, targets, ridge, matrix, vector, c, w);
    }
  }

  // ---- what a singular design means for the samples ----

  function AbsoluteSum(h: Vector): real {
    if h == [] then 0.0 else Abs(h[0]) + AbsoluteSum(h[1..])
  }

  /** A change `h` of the model, by one in some coefficient and by nothing in later ones, that the objective hardly sees. */
  ghost predicate HardlySeen(features: seq<Vector>, ridge: real, h: Vector) {
    && Rows(features, |h|)
    && (exists stuck :: 0 <= stuck < |h| && h[stuck] == 1.0 && forall k :: stuck < k < |h| ==> h[k] == 0.0)
    && Shift(features, h) + ridge * Dot(h[1..], h[1..]) <= EPSILON * AbsoluteSum(h)
  }

  lemma {:induction false} NearlyCancelled(a: Vector, h: Vector)
    requires |a| == |h| && forall k :: 0 <= k < |a| ==> Abs(a[k]) < EPSILON
    ensures Dot(a, h) <= EPSILON * AbsoluteSum(h)
  {
    if a != [] {
      NearlyCancelled(a[1..], h[1..]);
      TermBound(a[0], h[0], EPSILON);
      EpsilonSum(Abs(h[0]), AbsoluteSum(h[1..]));
    }
  }

  lemma EpsilonSum(x: real, y: real)
    ensures EPSILON * (x + y) == EPSILON * x + EPSILON * y
  {
  }

  lemma TermBound(x: real, y: real, e: real)
    requires Abs(x) < e
    ensures x * y <= e * Abs(y)
  {
    if y >= 0.0 {
      assert (e - x) * y >= 0.0;
    } else {
      assert (e + x) * -y >= 0.0;
    }
  }

  function Zeros(n: nat): Vector {
    seq(n, _ => 0.0)
  }

  lemma {:induction false} TiltOfNothing(features: seq<Vector>, h: Vector)
    requires Rows(features, |h|)
    ensures Tilt(features, Zeros(|features|), h, h) == -Shift(features, h)
  {
    hide Dot;
    if features != [] {
      var n := |features| - 1;
      assert Zeros(|features|)[..n] == Zeros(n);
      TiltOfNothing(features[..n], h);
      assert (0.0 - Dot(features[n], h)) * Dot(features[n], h) == -Squared(Dot(features[n], h));
    }
  }

  lemma {:induction false} CrossOfNothing(features: seq<Vector>, l: nat)
    requires forall i :: 0 <= i < |features| ==> l < |features[i]|
    ensures Cross(features, Zeros(|features|), l) == 0.0
  {
    if features != [] {
      var n := |features| - 1;
      assert Zeros(|features|)[..n] == Zeros(n);
      CrossOfNothing(features[..n], l);
    }
  }

  lemma NormalRowAlong(features: seq<Vector>, targets: Vector, ridge: real, matrix: seq<Vector>, vector: Vector, h: Vector,
                       l: nat)
    requires NormalEquations(features, targets, ridge, matrix, vector) && l < |h| == |vector|
    ensures Dot(matrix[l], h) == -Descent(features, Zeros(|features|), h)[l] + if l > 0 then ridge * h[l] else 0.0
  {
    hide Dot;
    hide Gram;
    hide Cross;
    hide Descent;
    hide GramRow;
    NormalRow(features, targets, ridge, matrix, vector, h, l);
    DescentEntry(features, Zeros(|features|), h, l);
    CrossOfNothing(features, l);
  }

  /** The normal matrix along `h`, times `h`: what `h` changes in the objective's quadratic part. */
  lemma QuadraticAlong(features: seq<Vector>, targets: Vector, ridge: real, matrix: seq<Vector>, vector: Vector, h: Vector,
                       m: Vector)
    requires NormalEquations(features, targets, ridge, matrix, vector) && |m| == |h| == |vector| > 0
    requires Rows(features, |h|) && forall l :: 0 <= l < |h| ==> m[l] == Dot(matrix[l], h)
    ensures Dot(m, h) == Shift(features, h) + ridge * Dot(h[1..], h[1..])
  {
    hide Dot;
    hide Gram;
    hide Cross;
    hide Shift;
    hide Tilt;
    hide Descent;
    hide NormalEquations;
    var none := Zeros(|features|);
    var descent := Descent(features, none, h);
    var pull := [0.0] + Scaled(ridge, h[1..]);
    TiltIsDescent(features, none, h, h);
    TiltOfNothing(features, h);
    PullAlong(ridge, h, h);
    forall l | 0 <= l < |h| ensures m[l] == Added(Scaled(-1.0, descent), pull)[l] {
      NormalRowAlong(features, targets, ridge, matrix, vector, h, l);
      assert pull[l] == if l > 0 then ridge * h[l] else 0.0;
    }
    assert m == Added(Scaled(-1.0, descent), pull);
    DotAdded(Scaled(-1.0, descent), pull, h);
    DotScaled(-1.0, descent, h);
  }

  lemma SingularIsHardlySeen(features: seq<Vector>, targets: Vector, ridge: real, matrix: seq<Vector>, vector: Vector,
                             stuck: nat, h: Vector)
    requires NormalEquations(features, targets, ridge, matrix, vector) && |h| == |vector|
    requires NearlySingular(matrix, stuck, h)
    ensures HardlySeen(features, ridge, h)
  {
    hide Dot;
    hide Shift;
    hide AbsoluteSum;
    var m := seq(|h|, l requires 0 <= l < |h| => Dot(matrix[l], h));
    QuadraticAlong(features, targets, ridge, matrix, vector, h, m);
    NearlyCancelled(m, h);
  }

  // ---- what the returned model is to the fitted coefficients ----

  /** Every slope is the non-negative value nearest to its coefficient. */
  ghost predicate NearestSlopes(model: Vector, c: Vector) {
    |model| == |c| &&
    forall k :: 1 <= k < |c| ==>
      model[k] >= 0.0 && forall s :: s >= 0.0 ==> Distance(model[k], c[k]) <= Distance(s, c[k])
  }

  function Distance(x: real, y: real): (d: real)
    ensures d >= 0.0 && (x == y + d || x == y - d)
  {
    Abs(x - y)
  }

  /** The first feature is the constant one. */
  ghost predicate WithConstant(features: seq<Vector>) {
    forall i :: 0 <= i < |features| ==> features[i] != [] && features[i][0] == 1.0
  }

  /** For its slopes no other non-negative intercept leaves a smaller squared error. */
  ghost predicate BestFirst(features: seq<Vector>, targets: Vector, model: Vector)
    requires |features| == |targets| && |model| > 0 && Rows(features, |model|)
  {
    model[0] >= 0.0 &&
    forall a :: a >= 0.0 ==> NoWorse(features, targets, model, a)
  }

  ghost predicate NoWorse(features: seq<Vector>, targets: Vector, model: Vector, a: real)
    requires |features| == |targets| && |model| > 0 && Rows(features, |model|)
  {
    SquaredError(features, targets, model) <= SquaredError(features, targets, model[0 := a])
  }

  lemma ErrorOfRow(row: Vector, target: real, a: real, slopes: Vector)
    requires |row| == |slopes| + 1 && row[0] == 1.0
    ensures target - Dot(row, [a] + slopes) == (target - Dot(row[1..], slopes)) - a
  {
    assert ([a] + slopes)[1..] == slopes;
  }

  lemma {:induction false} ErrorOfIntercept(features: seq<Vector>, targets: Vector, a: real, slopes: Vector)
    requires |features| == |targets| && Rows(features, |slopes| + 1) && WithConstant(features)
    ensures SquaredError(features, targets, [a] + slopes) == ConstantError(Leftovers(features, targets, slopes), a)
  {
    hide Dot;
    hide Squared;
    if features != [] {
      var n := |features| - 1;
      ErrorOfIntercept(features[..n], targets[..n], a, slopes);
      ErrorOfRow(features[n], targets[n], a, slopes);
      var leftovers := Leftovers(features, targets, slopes);
      assert leftovers[..n] == Leftovers(features[..n], targets[..n], slopes);
      assert leftovers[n] == targets[n] - Dot(features[n][1..], slopes);
    }
  }

  lemma ModelIsNearest(features: seq<Vector>, targets: Vector, c: Vector)
    requires |features| == |targets| > 0 && |c| > 0 && Rows(features, |c|)
    ensures NearestSlopes(ClampedModel(features, targets, c), c)
  {
    hide BestIntercept;
    hide Leftovers;
    var model := ClampedModel(features, targets, c);
    forall k | 1 <= k < |c| ensures model[k] == Max(0.0, c[k]) {
      assert c[1..][k - 1] == c[k];
    }
  }

  lemma InterceptIsBest(features: seq<Vector>, targets: Vector, c: Vector)
    requires |features| == |targets| > 0 && |c| > 0 && Rows(features, |c|) && WithConstant(features)
    ensures BestFirst(features, targets, ClampedModel(features, targets, c))
  {
    hide SquaredError;
    hide ConstantError;
    hide BestIntercept;
    hide Leftovers;
    hide Clamped;
    var slopes := Clamped(c[1..]);
    ClampedLength(c[1..]);
    var model := ClampedModel(features, targets, c);
    LeftoversLength(features, targets, slopes);
    var leftovers := Leftovers(features, targets, slopes);
    ErrorOfIntercept(features, targets, model[0], slopes);
    BestInterceptIsBest(leftovers, 0.0);
    forall a | a >= 0.0 ensures NoWorse(features, targets, model, a) {
      assert model[0 := a] == [a] + slopes;
      ErrorOfIntercept(features, targets, a, slopes);
      BestInterceptIsBest(leftovers, a);
    }
  }

  lemma ClampedLength(values: Vector)
    ensures |Clamped(values)| == |values|
  {
  }

  lemma LeftoversLength(features: seq<Vector>, targets: Vector, slopes: Vector)
    requires |features| == |targets| && Rows(features, |slopes| + 1)
    ensures |Leftovers(features, targets, slopes)| == |features|
  {
  }

  /**
   The fit. When it succeeds, `c` are the coefficients before clamping: they
   minimise the objective over all models; the model returned has the nearest
   non-negative slopes to theirs, with the best non-negative intercept. When
   the design is called singular, `c` is a change of the model that the
   objective hardly sees.
   */
  method Fit(features: seq<Vector>, targets: Vector, ridge: real)
    returns (r: Result<Vector, FitError>, ghost c: Vector)
    requires ridge >= 0.0
    ensures r.Ok? ==> |features| == |targets| > 0 && Rows(features, WIDTH) && |c| == WIDTH
    ensures r.Ok? ==> Fitted(features, targets, ridge, c)
    ensures r.Ok? ==> r.value == ClampedModel(features, targets, c)
    ensures r.Ok? ==> |r.value| == WIDTH && NearestSlopes(r.value, c)
    ensures r.Ok? && WithConstant(features) ==> BestFirst(features, targets, r.value)
    ensures r == Err(RowTooShort) <==> exists i :: 0 <= i < |features| && i < |targets| && |features[i]| < WIDTH
    ensures r == Err(LengthMismatch) ==> |features| != |targets|
    ensures r == Err(RowTooLong) || r == Err(SingularDesign) ==>
              |features| == |targets| && forall i :: 0 <= i < |features| ==> |features[i]| >= WIDTH
    ensures r == Err(RowTooLong) ==> exists i :: 0 <= i < |features| && |features[i]| > WIDTH
    ensures r == Err(SingularDesign) ==> HardlySeen(Truncated(features), ridge, c)
  {
    hide HardlySeen;
    hide Fitted;
    hide BestFirst;
    hide ClampedModel;
    hide NormalEquations;
    c := [];
    var normal := NormalMatrix(features, targets, ridge);
    if normal.Err? {
      return Err(normal.error), c;
    }
    var (matrix, vector) := normal.value;
    var solution;
    ghost var reduced, stuck;
    solution, reduced, stuck := Solve(matrix, vector);
    if solution.Err? {
      c := Direction(reduced, stuck);
      SingularIsHardlySeen(Truncated(features), targets, ridge, matrix, vector, stuck, c);
      return Err(SingularDesign), c;
    }
    for i := 0 to |features|
      invariant forall k :: 0 <= k < i ==> |features[k]| == WIDTH
    {
      if |features[i]| > WIDTH {
        return Err(RowTooLong), c;
      }
    }
    c := solution.value;
    TruncatedExact(features);
    OnlySolutionFits(features, targets, ridge, matrix, vector, c);
    r := Ok(ClampedModel(features, targets, solution.value));
    ModelIsNearest(features, targets, c);
    if WithConstant(features) {
      InterceptIsBest(features, targets, c);
    }
  }

  /** Whatever the slopes, the model's intercept is the best non-negative one for them. */
  lemma ClampedModelIntercept(features: seq<Vector>, targets: Vector, c: Vector, a: real)
    requires |features| == |targets| > 0 && |c| > 0 && Rows(features, |c|) && a >= 0.0
    ensures var model := ClampedModel(features, targets, c);
            var leftovers := Leftovers(features, targets, model[1..]);
            && (forall k :: 0 <= k < |model| ==> model[k] >= 0.0)
            && ConstantError(leftovers, model[0]) <= ConstantError(leftovers, a)
  {
    var model := ClampedModel(features, targets, c);
    assert model[1..] == Clamped(c[1..]);
    BestInterceptIsBest(Leftovers(features, targets, model[1..]), a);
  }

  // ---- exact data ----

  lemma {:induction false} ExactDataNoDescent(features: seq<Vector>, targets: Vector, w: Vector)
    requires |features| == |targets| && Rows(features, |w|)
    requires forall i :: 0 <= i < |features| ==> targets[i] == Dot(features[i], w)
    ensures Zero(Descent(features, targets, w))
  {
    hide Dot;
    if features != [] {
      var n := |features| - 1;
      ExactDataNoDescent(features[..n], targets[..n], w);
      assert targets[n] - Dot(features[n], w) == 0.0;
    }
  }

  /** Samples that the model `w` explains exactly. */
  ghost predicate Exact(features: seq<Vector>, targets: Vector, w: Vector)
    requires |features| == |targets| && Rows(features, |w|)
  {
    forall i :: 0 <= i < |features| ==> targets[i] == Dot(features[i], w)
  }

  lemma ExactDataSolves(features: seq<Vector>, targets: Vector, w: Vector)
    requires |features| == |targets| && Rows(features, |w|) && Exact(features, targets, w)
    ensures SolvesNormal(features, targets, 0.0, w)
  {
    hide Dot;
    ExactDataNoDescent(features, targets, w);
    forall l | 0 <= l < |w| ensures Dot(GramRow(features, l, |w|), w) == Cross(features, targets, l) {
      DescentEntry(features, targets, w, l);
    }
    assert forall l :: 0 <= l < |w| ==> 0.0 * w[l] == 0.0;
  }

  lemma {:induction false} EqualValues(values: Vector, v: real)
    requires forall i :: 0 <= i < |values| ==> values[i] == v
    ensures Sum(values) == (|values| as real) * v
  {
    if values != [] {
      EqualValues(values[..|values| - 1], v);
    }
  }

  /**
   Recovery: without ridge, when the fit succeeds on samples that a non-negative
   model explains exactly (feature 0 being one), that model is what it returns.
   */
  lemma ExactModelRecovered(features: seq<Vector>, targets: Vector, c: Vector, w: Vector)
    requires |features| == |targets| > 0 && |w| == |c| > 0 && Rows(features, |w|)
    requires Fitted(features, targets, 0.0, c) && Exact(features, targets, w)
    requires forall i :: 0 <= i < |features| ==> features[i][0] == 1.0
    requires forall k :: 0 <= k < |w| ==> w[k] >= 0.0
    ensures ClampedModel(features, targets, c) == w
  {
    hide Dot;
    hide SolvesNormal;
    hide Objective;
    hide ClampedModel;
    ExactDataSolves(features, targets, w);
    ExactModelKept(features, targets, w);
  }

  lemma ExactModelKept(features: seq<Vector>, targets: Vector, w: Vector)
    requires |features| == |targets| > 0 && |w| > 0 && Rows(features, |w|) && Exact(features, targets, w)
    requires forall i :: 0 <= i < |features| ==> features[i][0] == 1.0
    requires forall k :: 0 <= k < |w| ==> w[k] >= 0.0
    ensures ClampedModel(features, targets, w) == w
  {
    hide Dot;
    hide Sum;
    assert Clamped(w[1..]) == w[1..];
    ExactLeftovers(features, targets, w);
    var leftovers := Leftovers(features, targets, w[1..]);
    EqualValues(leftovers, w[0]);
    MeanOfEqual(|leftovers| as real, w[0]);
    assert BestIntercept(leftovers) == w[0];
    assert [w[0]] + w[1..] == w;
  }

  lemma ExactLeftovers(features: seq<Vector>, targets: Vector, w: Vector)
    requires |features| == |targets| && |w| > 0 && Rows(features, |w|) && Exact(features, targets, w)
    requires forall i :: 0 <= i < |features| ==> features[i][0] == 1.0
    ensures forall i :: 0 <= i < |features| ==> Leftovers(features, targets, w[1..])[i] == w[0]
  {
    forall i | 0 <= i < |features| ensures Leftovers(features, targets, w[1..])[i] == w[0] {
      assert Dot(features[i], w) == features[i][0] * w[0] + Dot(features[i][1..], w[1..]);
    }
  }

  lemma MeanOfEqual(n: real, v: real)
    requires n > 0.0
    ensures (n * v) / n == v
  {
  }
}
