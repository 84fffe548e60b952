/** The central-difference Hessian, in exact arithmetic. */
module FiniteDiffHessian {
  type Vector = seq<real>

  function Bumped(theta: Vector, i: nat, step: real): Vector
    requires i < |theta|
  {
    theta[i := theta[i] + step]
  }

  function Squared(x: real): real {
    x * x
  }

  lemma Product(x: real, y: real) returns (p: real)
    requires x > 0.0 && y > 0.0
    ensures p == x * y && p > 0.0
  {
    p := x * y;
  }

  lemma SquaredPositive(x: real)
    requires x != 0.0
    ensures Squared(x) > 0.0
  {
    var p;
    if x > 0.0 {
      p := Product(x, x);
    } else {
      p := Product(-x, -x);
    }
    assert Squared(x) == p;
  }

  /** The second difference along one axis, over the squared step. */
  function Diagonal(f: Vector -> real, theta: Vector, eps: real, i: nat): real
    requires i < |theta| && eps != 0.0
  {
    SquaredPositive(eps);
    (f(Bumped(theta, i, eps)) - 2.0 * f(theta) + f(Bumped(theta, i, -eps))) / Squared(eps)
  }

  /** The mixed difference along two axes. */
  function Mixed(f: Vector -> real, theta: Vector, eps: real, i: nat, j: nat): real
    requires i < |theta| && j < |theta| && eps != 0.0
  {
    SquaredPositive(eps);
    (f(Bumped(Bumped(theta, i, eps), j, eps)) - f(Bumped(Bumped(theta, i, eps), j, -eps))
     - f(Bumped(Bumped(theta, i, -eps), j, eps)) + f(Bumped(Bumped(theta, i, -eps), j, -eps)))
    / (4.0 * Squared(eps))
  }

  function Entry(f: Vector -> real, theta: Vector, eps: real, i: nat, j: nat): real
    requires i < |theta| && j < |theta| && eps != 0.0
  {
    if i == j then Diagonal(f, theta, eps, i)
    else if i < j then Mixed(f, theta, eps, i, j)
    else Mixed(f, theta, eps, j, i)
  }

  lemma EntryOnce(f: Vector -> real, theta: Vector, eps: real, i: nat, j: nat)
    requires i <= j < |theta| && eps != 0.0
    ensures i == j ==> Entry(f, theta, eps, i, j) == Diagonal(f, theta, eps, i)
    ensures i < j ==> Entry(f, theta, eps, i, j) == Entry(f, theta, eps, j, i) == Mixed(f, theta, eps, i, j)
  {
  }

  /** Fills the upper triangle row by row and mirrors each entry; the result is square and symmetric. */
  method Hessian(f: Vector -> real, theta: Vector, eps: real) returns (h: array2<real>)
    requires eps != 0.0
    ensures h.Length0 == h.Length1 == |theta|
    ensures forall i, j :: 0 <= i < |theta| && 0 <= j < |theta| ==> h[i, j] == Entry(f, theta, eps, i, j)
    ensures forall i, j :: 0 <= i < |theta| && 0 <= j < |theta| ==> h[i, j] == h[j, i]
  {
    hide Entry;
    var d := |theta|;
    h := new real[d, d]((i, j) => 0.0);
    var f0 := f(theta);
    SquaredPositive(eps);
    for i := 0 to d
      invariant forall a, b :: 0 <= a < d && 0 <= b < d && (a < i || b < i) ==> h[a, b] == Entry(f, theta, eps, a, b)
    {
      h[i, i] := (f(Bumped(theta, i, eps)) - 2.0 * f0 + f(Bumped(theta, i, -eps))) / Squared(eps);
      EntryOnce(f, theta, eps, i, i);
      for j := i + 1 to d
        invariant forall a, b :: 0 <= a < d && 0 <= b < d && (a < i || b < i) ==> h[a, b] == Entry(f, theta, eps, a, b)
        invariant forall b :: i <= b < j ==> h[i, b] == Entry(f, theta, eps, i, b) && h[b, i] == Entry(f, theta, eps, b, i)
      {
        var tpp := Bumped(Bumped(theta, i, eps), j, eps);
        var tmm := Bumped(Bumped(theta, i, -eps), j, -eps);
        var tpm := Bumped(Bumped(theta, i, eps), j, -eps);
        var tmp := Bumped(Bumped(theta, i, -eps), j, eps);
        h[i, j] := (f(tpp) - f(tpm) - f(tmp) + f(tmm)) / (4.0 * Squared(eps));
        h[j, i] := h[i, j];
        EntryOnce(f, theta, eps, i, j);
      }
    }
    forall i, j | 0 <= i < j < d
      ensures h[i, j] == h[j, i]
    {
      EntryOnce(f, theta, eps, i, j);
    }
  }

  lemma Signs(x: real)
    ensures Squared(-x) == Squared(x)
  {
  }

  /** The differences are central: for any function, the sign of the step does not matter. */
  lemma StepSignIrrelevant(f: Vector -> real, theta: Vector, eps: real, i: nat, j: nat)
    requires i < |theta| && j < |theta| && eps != 0.0
    ensures Entry(f, theta, -eps, i, j) == Entry(f, theta, eps, i, j)
  {
    Signs(eps);
    hide Squared;
    assert -(-eps) == eps;
  }

  function Dot(u: Vector, v: Vector): real
    requires |u| == |v|
  {
    if u == [] then 0.0 else u[0] * v[0] + Dot(u[1..], v[1..])
  }

  lemma {:induction false} DotCommutes(u: Vector, v: Vector)
    requires |u| == |v|
    ensures Dot(u, v) == Dot(v, u)
  {
    if u != [] {
      DotCommutes(u[1..], v[1..]);
    }
  }

  lemma Distributes(a: real, x: real, y: real)
    ensures a * (x + y) == a * x + y * a && (x + y) * a == x * a + y * a
  {
  }

  lemma {:induction false} DotBumpedRight(u: Vector, v: Vector, i: nat, step: real)
    requires |u| == |v| && i < |v|
    ensures Dot(u, Bumped(v, i, step)) == Dot(u, v) + step * u[i]
  {
    var y := Bumped(v, i, step);
    if i == 0 {
      assert y[1..] == v[1..];
      Distributes(u[0], v[0], step);
    } else {
      DotBumpedRight(u[1..], v[1..], i - 1, step);
      assert y[1..] == Bumped(v[1..], i - 1, step) && y[0] == v[0];
    }
  }

  lemma DotBumped(u: Vector, v: Vector, i: nat, step: real)
    requires |u| == |v| && i < |v|
    ensures Dot(u, Bumped(v, i, step)) == Dot(u, v) + step * u[i]
    ensures Dot(Bumped(v, i, step), u) == Dot(v, u) + step * u[i]
  {
    hide Dot;
    DotBumpedRight(u, v, i, step);
    DotCommutes(u, v);
    DotCommutes(u, Bumped(v, i, step));
  }

  /** A square matrix by rows. */
  predicate Square(a: seq<Vector>, d: nat) {
    |a| == d && forall k :: 0 <= k < d ==> |a[k]| == d
  }

  /** Each row's product with `y`, as a vector. */
  function Times(a: seq<Vector>, y: Vector): Vector
    requires forall k :: 0 <= k < |a| ==> |a[k]| == |y|
  {
    seq(|a|, k requires 0 <= k < |a| => Dot(a[k], y))
  }

  function Column(a: seq<Vector>, i: nat): Vector
    requires forall k :: 0 <= k < |a| ==> i < |a[k]|
  {
    seq(|a|, k requires 0 <= k < |a| => a[k][i])
  }

  /** c + b.x + x.Ax */
  function Quadratic(c: real, b: Vector, a: seq<Vector>, x: Vector): real
    requires |b| == |x| && Square(a, |x|)
  {
    c + Dot(b, x) + Dot(x, Times(a, x))
  }

  function AddScaled(u: real, step: real, v: real): real {
    u + step * v
  }

  lemma Combined(x: real, w: real, u: real, v: real, step: real, restW: real, restU: real, restV: real)
    requires w == AddScaled(u, step, v) && restW == restU + step * restV
    ensures x * w + restW == (x * u + restU) + step * (x * v + restV)
  {
    assert x * w == x * u + step * (x * v);
    assert step * (x * v + restV) == step * (x * v) + step * restV;
  }

  lemma {:induction false} DotAdded(x: Vector, u: Vector, v: Vector, w: Vector, step: real)
    requires |x| == |u| == |v| == |w|
    requires forall k :: 0 <= k < |x| ==> w[k] == AddScaled(u[k], step, v[k])
    ensures Dot(x, w) == Dot(x, u) + step * Dot(x, v)
  {
    hide AddScaled;
    if x != [] {
      DotAdded(x[1..], u[1..], v[1..], w[1..], step);
      Combined(x[0], w[0], u[0], v[0], step, Dot(x[1..], w[1..]), Dot(x[1..], u[1..]), Dot(x[1..], v[1..]));
    }
  }

  lemma TimesBumped(a: seq<Vector>, x: Vector, i: nat, step: real)
    requires Square(a, |x|) && i < |x|
    ensures forall k :: 0 <= k < |x| ==> Times(a, Bumped(x, i, step))[k] == Times(a, x)[k] + step * Column(a, i)[k]
  {
    forall k | 0 <= k < |x|
      ensures Times(a, Bumped(x, i, step))[k] == Times(a, x)[k] + step * Column(a, i)[k]
    {
      DotBumped(a[k], x, i, step);
    }
  }

  lemma {:induction false} BilinearBumped(a: seq<Vector>, x: Vector, i: nat, step: real)
    requires Square(a, |x|) && i < |x|
    ensures var y := Bumped(x, i, step);
            Dot(y, Times(a, y))
              == Dot(x, Times(a, x)) + step * Dot(a[i], x) + step * (Dot(x, Column(a, i)) + step * a[i][i])
  {
    hide Dot;
    var y := Bumped(x, i, step);
    TimesBumped(a, x, i, step);
    DotAdded(y, Times(a, x), Column(a, i), Times(a, y), step);
    DotBumped(Times(a, x), x, i, step);
    DotBumped(Column(a, i), x, i, step);
    assert Dot(y, Times(a, x)) == Dot(x, Times(a, x)) + step * Dot(a[i], x);
    assert Dot(y, Column(a, i)) == Dot(x, Column(a, i)) + step * a[i][i];
  }

  /** The slope of a quadratic along one coordinate, but for the coordinate's own square. */
  function Slope(b: Vector, a: seq<Vector>, x: Vector, i: nat): real
    requires |b| == |x| && Square(a, |x|) && i < |x|
  {
    b[i] + Dot(a[i], x) + Dot(x, Column(a, i))
  }

  lemma Gather(step: real, b: real, row: real, col: real, diag: real)
    ensures step * b + step * row + step * (col + step * diag) == step * (b + row + col) + Squared(step) * diag
  {
  }

  /** How a quadratic moves when one coordinate does. */
  lemma QuadraticBumped(c: real, b: Vector, a: seq<Vector>, x: Vector, i: nat, step: real)
    requires |b| == |x| && Square(a, |x|) && i < |x|
    ensures Quadratic(c, b, a, Bumped(x, i, step))
         == Quadratic(c, b, a, x) + step * Slope(b, a, x, i) + Squared(step) * a[i][i]
  {
    hide Dot, Times;
    DotBumped(b, x, i, step);
    BilinearBumped(a, x, i, step);
    Gather(step, b[i], Dot(a[i], x), Dot(x, Column(a, i)), a[i][i]);
  }

  /** Bumping one coordinate moves the slope along another by the two mixed terms. */
  lemma SlopeBumped(b: Vector, a: seq<Vector>, x: Vector, i: nat, j: nat, step: real)
    requires |b| == |x| && Square(a, |x|) && i < |x| && j < |x|
    ensures Slope(b, a, Bumped(x, i, step), j) == Slope(b, a, x, j) + step * (a[j][i] + a[i][j])
  {
    hide Dot;
    DotBumped(a[j], x, i, step);
    DotBumped(Column(a, j), x, i, step);
    Distributes(step, a[j][i], a[i][j]);
  }

  ghost predicate IsQuadratic(f: Vector -> real, c: real, b: Vector, a: seq<Vector>, d: nat) {
    |b| == d && Square(a, d) && forall x: Vector :: |x| == d ==> f(x) == Quadratic(c, b, a, x)
  }

  lemma Negated(x: real, y: real)
    ensures -x * y == -(x * y) && x * -y == -(x * y)
  {
  }

  /** One step up and one step down: the linear part changes sign, the square does not. */
  lemma BothWays(c: real, b: Vector, a: seq<Vector>, x: Vector, i: nat, eps: real)
    requires |b| == |x| && Square(a, |x|) && i < |x|
    ensures var linear := eps * Slope(b, a, x, i); var square := Squared(eps) * a[i][i];
            && Quadratic(c, b, a, Bumped(x, i, eps)) == Quadratic(c, b, a, x) + linear + square
            && Quadratic(c, b, a, Bumped(x, i, -eps)) == Quadratic(c, b, a, x) - linear + square
  {
    hide Quadratic, Slope;
    QuadraticBumped(c, b, a, x, i, eps);
    QuadraticBumped(c, b, a, x, i, -eps);
    Negated(eps, Slope(b, a, x, i));
    Negated(eps, -eps);
  }

  lemma Cancel(total: real, x: real, y: real)
    requires y > 0.0 && total == x * y
    ensures total / y == x
  {
  }

  lemma DiagonalExact(f: Vector -> real, c: real, b: Vector, a: seq<Vector>, theta: Vector, eps: real, i: nat)
    requires eps != 0.0 && IsQuadratic(f, c, b, a, |theta|) && i < |theta|
    ensures Diagonal(f, theta, eps, i) == a[i][i] + a[i][i]
  {
    hide Quadratic, Slope;
    BothWays(c, b, a, theta, i, eps);
    SquaredPositive(eps);
    var sq := Squared(eps);
    var diag := a[i][i];
    var sum := f(Bumped(theta, i, eps)) - 2.0 * f(theta) + f(Bumped(theta, i, -eps));
    assert sum == 2.0 * (sq * diag);
    Cancel(sum, diag + diag, sq);
  }

  /** The two steps along axis j, after axis i was bumped by `s`, differ by twice the linear part. */
  lemma Spread(c: real, b: Vector, a: seq<Vector>, x: Vector, i: nat, j: nat, s: real, eps: real)
    requires |b| == |x| && Square(a, |x|) && i < |x| && j < |x|
    ensures Quadratic(c, b, a, Bumped(Bumped(x, i, s), j, eps)) - Quadratic(c, b, a, Bumped(Bumped(x, i, s), j, -eps))
         == 2.0 * (eps * Slope(b, a, x, j) + eps * (s * (a[j][i] + a[i][j])))
  {
    hide Quadratic, Slope;
    BothWays(c, b, a, Bumped(x, i, s), j, eps);
    SlopeBumped(b, a, x, i, j, s);
    Distributes(eps, Slope(b, a, x, j), s * (a[j][i] + a[i][j]));
  }

  lemma MixedExact(f: Vector -> real, c: real, b: Vector, a: seq<Vector>, theta: Vector, eps: real, i: nat, j: nat)
    requires eps != 0.0 && IsQuadratic(f, c, b, a, |theta|) && i < |theta| && j < |theta|
    ensures Mixed(f, theta, eps, i, j) == a[i][j] + a[j][i]
  {
    hide Quadratic, Slope;
    Spread(c, b, a, theta, i, j, eps, eps);
    Spread(c, b, a, theta, i, j, -eps, eps);
    SquaredPositive(eps);
    var sq := Squared(eps);
    var m := a[j][i] + a[i][j];
    Negated(eps, m);
    Negated(eps, eps * m);
    assert eps * (eps * m) == m * sq;
    var sum := f(Bumped(Bumped(theta, i, eps), j, eps)) - f(Bumped(Bumped(theta, i, eps), j, -eps))
               - f(Bumped(Bumped(theta, i, -eps), j, eps)) + f(Bumped(Bumped(theta, i, -eps), j, -eps));
    assert sum == 4.0 * (m * sq);
    Cancel(sum, m, 4.0 * sq);
  }

  /** On any quadratic, in any dimension and with any non-zero step, every entry is exact: the Hessian
      is A plus its transpose. */
  lemma QuadraticHessianExact(f: Vector -> real, c: real, b: Vector, a: seq<Vector>, theta: Vector, eps: real,
                              i: nat, j: nat)
    requires eps != 0.0 && IsQuadratic(f, c, b, a, |theta|) && i < |theta| && j < |theta|
    ensures Entry(f, theta, eps, i, j) == a[i][j] + a[j][i]
  {
    if i == j {
      DiagonalExact(f, c, b, a, theta, eps, i);
    } else if i < j {
      MixedExact(f, c, b, a, theta, eps, i, j);
    } else {
      MixedExact(f, c, b, a, theta, eps, j, i);
    }
  }
}
