/** Composite Simpson quadrature, in exact arithmetic. */
module Simpson {
  import opened Wrappers

  datatype WeightError = EvenPoints

  /** Ones, then fours at the odd places, then twos at the even places strictly inside. */
  function Weights(n: nat): Result<seq<real>, WeightError> {
    if n % 2 == 0 then Err(EvenPoints)
    else Ok(seq(n, i requires 0 <= i < n => if i % 2 == 1 then 4.0 else if 2 <= i < n - 1 then 2.0 else 1.0))
  }

  /** The n-point grid from `a` with spacing `dx`. */
  function Grid(a: real, dx: real, i: nat): real {
    a + i as real * dx
  }

  function At(f: real -> real, a: real, dx: real, i: nat): real {
    f(Grid(a, dx, i))
  }

  /** The sum over the first `k` grid points of the weighted integrand. */
  function WeightedSum(f: real -> real, a: real, dx: real, w: seq<real>, k: nat): real
    requires k <= |w|
  {
    if k == 0 then 0.0 else WeightedSum(f, a, dx, w, k - 1) + At(f, a, dx, k - 1) * w[k - 1]
  }

  /** The caller's factor. */
  function TimesThird(sum: real, dx: real): real {
    sum * dx / 3.0
  }

  /** The quadrature over [a, a + width], by n points: the sum, times dx, over three. */
  function Quadrature(f: real -> real, a: real, width: real, n: nat): real
    requires n >= 3 && n % 2 == 1
  {
    var dx := width / (n - 1) as real;
    TimesThird(WeightedSum(f, a, dx, Weights(n).value, n), dx)
  }

  /** One parabola over two neighbouring intervals. */
  function Panel(f: real -> real, a: real, dx: real, k: nat): real {
    At(f, a, dx, 2 * k) + 4.0 * At(f, a, dx, 2 * k + 1) + At(f, a, dx, 2 * k + 2)
  }

  function Panels(f: real -> real, a: real, dx: real, m: nat): real {
    if m == 0 then 0.0 else Panels(f, a, dx, m - 1) + Panel(f, a, dx, m - 1)
  }

  /** One more point of the weighted sum, by the weight it has. */
  lemma PointWeighs(f: real -> real, a: real, dx: real, n: nat, k: nat)
    requires n % 2 == 1 && k < n
    ensures var w := Weights(n).value; var y := At(f, a, dx, k);
            WeightedSum(f, a, dx, w, k + 1)
            == WeightedSum(f, a, dx, w, k) + if k % 2 == 1 then 4.0 * y else if 2 <= k < n - 1 then 2.0 * y else y
  {
  }

  /** The composite weights are the panels laid end to end: after 2m + 1 points of a longer rule the sum
      is m panels, and one more share of the last point, which the next panel claims. */
  lemma {:induction false} WeightsArePanels(f: real -> real, a: real, dx: real, n: nat, m: nat)
    requires n % 2 == 1 && 2 * m + 1 <= n
    ensures WeightedSum(f, a, dx, Weights(n).value, 2 * m + 1)
         == Panels(f, a, dx, m)
            + (if m == 0 then At(f, a, dx, 0) else if 2 * m < n - 1 then At(f, a, dx, 2 * m) else 0.0)
  {
    hide At, Weights;
    PointWeighs(f, a, dx, n, 2 * m);
    if m > 0 {
      WeightsArePanels(f, a, dx, n, m - 1);
      PointWeighs(f, a, dx, n, 2 * m - 1);
      assert 2 * (m - 1) + 1 == 2 * m - 1 && 2 * (m - 1) + 2 == 2 * m;
      hide WeightedSum;
    }
  }

  /** A polynomial of degree at most three, its values, and an antiderivative of it. */
  datatype Cubic = Cubic(c0: real, c1: real, c2: real, c3: real)

  function Value(p: Cubic, x: real): real {
    p.c0 + p.c1 * x + p.c2 * (x * x) + p.c3 * (x * x * x)
  }

  function Antiderivative(p: Cubic, x: real): real {
    p.c0 * x + p.c1 * (x * x) / 2.0 + p.c2 * (x * x * x) / 3.0 + p.c3 * (x * x * x * x) / 4.0
  }

  /** Simpson's rule on one panel, for each power up to the cube. */
  lemma LinearExact(x: real, y: real, z: real, h: real) returns (s: real)
    requires y == x + h && z == x + 2.0 * h
    ensures s == x + 4.0 * y + z && TimesThird(s, h) == (z * z - x * x) / 2.0
  {
    s := x + 4.0 * y + z;
  }

  lemma SquareExact(x: real, y: real, z: real, h: real) returns (s: real)
    requires y == x + h && z == x + 2.0 * h
    ensures s == x * x + 4.0 * (y * y) + z * z && TimesThird(s, h) == (z * z * z - x * x * x) / 3.0
  {
    s := x * x + 4.0 * (y * y) + z * z;
  }

  lemma CubeExact(x: real, y: real, z: real, h: real) returns (s: real)
    requires y == x + h && z == x + 2.0 * h
    ensures s == x * x * x + 4.0 * (y * y * y) + z * z * z
    ensures TimesThird(s, h) == (z * z * z * z - x * x * x * x) / 4.0
  {
    s := x * x * x + 4.0 * (y * y * y) + z * z * z;
  }

  /** The rule is linear in the integrand: four values of a weighted sum, with each power's sum given. */
  lemma Scaled(c: real, s: real, h: real, d: real) returns (t: real)
    requires TimesThird(s, h) == d
    ensures t == c * s && TimesThird(t, h) == c * d
  {
    t := c * s;
  }

  lemma Summed(s0: real, s1: real, s2: real, s3: real, h: real)
    ensures TimesThird(s0 + s1 + s2 + s3, h)
         == TimesThird(s0, h) + TimesThird(s1, h) + TimesThird(s2, h) + TimesThird(s3, h)
  {
  }

  lemma Factored(c: real, x: real, y: real, z: real)
    ensures c * x + 4.0 * (c * y) + c * z == c * (x + 4.0 * y + z)
    ensures c * z - c * x == c * (z - x)
  {
  }

  lemma ValuesSummed(p: Cubic, x: real, y: real, z: real)
    ensures Value(p, x) + 4.0 * Value(p, y) + Value(p, z)
         == p.c0 * 6.0 + p.c1 * (x + 4.0 * y + z) + p.c2 * (x * x + 4.0 * (y * y) + z * z)
            + p.c3 * (x * x * x + 4.0 * (y * y * y) + z * z * z)
  {
    Factored(p.c1, x, y, z);
    Factored(p.c2, x * x, y * y, z * z);
    Factored(p.c3, x * x * x, y * y * y, z * z * z);
  }

  lemma Halved(c: real, x: real, z: real, k: real)
    requires k != 0.0
    ensures c * z / k - c * x / k == c * ((z - x) / k)
  {
  }

  lemma Integrated(p: Cubic, x: real, z: real)
    ensures Antiderivative(p, z) - Antiderivative(p, x)
         == p.c0 * (z - x) + p.c1 * ((z * z - x * x) / 2.0) + p.c2 * ((z * z * z - x * x * x) / 3.0)
            + p.c3 * ((z * z * z * z - x * x * x * x) / 4.0)
  {
    Factored(p.c0, x, 0.0, z);
    Halved(p.c1, x * x, z * z, 2.0);
    Halved(p.c2, x * x * x, z * z * z, 3.0);
    Halved(p.c3, x * x * x * x, z * z * z * z, 4.0);
  }

  lemma SixThirds(h: real)
    ensures TimesThird(6.0, h) == 2.0 * h
  {
  }

  lemma PanelOnCubic(p: Cubic, x: real, y: real, z: real, h: real, sum: real)
    requires y == x + h && z == x + 2.0 * h
    requires sum == Value(p, x) + 4.0 * Value(p, y) + Value(p, z)
    ensures TimesThird(sum, h) == Antiderivative(p, z) - Antiderivative(p, x)
  {
    hide Value, Antiderivative, TimesThird;
    var s1 := LinearExact(x, y, z, h);
    var s2 := SquareExact(x, y, z, h);
    var s3 := CubeExact(x, y, z, h);
    ValuesSummed(p, x, y, z);
    Integrated(p, x, z);
    SixThirds(h);
    var t0 := Scaled(p.c0, 6.0, h, z - x);
    var t1 := Scaled(p.c1, s1, h, (z * z - x * x) / 2.0);
    var t2 := Scaled(p.c2, s2, h, (z * z * z - x * x * x) / 3.0);
    var t3 := Scaled(p.c3, s3, h, (z * z * z * z - x * x * x * x) / 4.0);
    Summed(t0, t1, t2, t3, h);
    assert sum == t0 + t1 + t2 + t3;
  }

  lemma GridSteps(a: real, dx: real, k: nat)
    ensures Grid(a, dx, 2 * k + 1) == Grid(a, dx, 2 * k) + dx
    ensures Grid(a, dx, 2 * k + 2) == Grid(a, dx, 2 * k) + 2.0 * dx
  {
  }

  lemma {:induction false} PanelExact(f: real -> real, p: Cubic, a: real, dx: real, k: nat)
    requires forall x :: f(x) == Value(p, x)
    ensures TimesThird(Panel(f, a, dx, k), dx)
         == Antiderivative(p, Grid(a, dx, 2 * k + 2)) - Antiderivative(p, Grid(a, dx, 2 * k))
  {
    hide Value, Antiderivative, Grid, TimesThird;
    var x := Grid(a, dx, 2 * k);
    GridSteps(a, dx, k);
    PanelOnCubic(p, x, Grid(a, dx, 2 * k + 1), Grid(a, dx, 2 * k + 2), dx, Panel(f, a, dx, k));
  }

  lemma Joined(s: real, t: real, h: real, x: real, y: real, z: real)
    requires TimesThird(s, h) == y - x && TimesThird(t, h) == z - y
    ensures TimesThird(s + t, h) == z - x
  {
    assert (s + t) * h == s * h + t * h;
  }

  lemma {:induction false} PanelsTelescope(f: real -> real, p: Cubic, a: real, dx: real, m: nat)
    requires forall x :: f(x) == Value(p, x)
    ensures TimesThird(Panels(f, a, dx, m), dx) == Antiderivative(p, Grid(a, dx, 2 * m)) - Antiderivative(p, Grid(a, dx, 0))
  {
    hide Value, Antiderivative, Grid, Panel;
    if m == 0 {
      assert Panels(f, a, dx, m) == 0.0;
    } else {
      hide TimesThird;
      PanelsTelescope(f, p, a, dx, m - 1);
      PanelExact(f, p, a, dx, m - 1);
      Joined(Panels(f, a, dx, m - 1), Panel(f, a, dx, m - 1), dx, Antiderivative(p, Grid(a, dx, 0)),
             Antiderivative(p, Grid(a, dx, 2 * (m - 1))), Antiderivative(p, Grid(a, dx, 2 * (m - 1) + 2)));
      assert 2 * (m - 1) + 2 == 2 * m;
    }
  }

  /** For every odd number of points from three on and every interval, the rule integrates every polynomial
      of degree at most three exactly; an even number of points is refused. */
  lemma SimpsonExactOnCubics(f: real -> real, p: Cubic, a: real, width: real, n: nat)
    requires forall x :: f(x) == Value(p, x)
    requires n >= 3
    ensures Weights(n).Ok? <==> n % 2 == 1
    ensures n % 2 == 1 ==> Quadrature(f, a, width, n) == Antiderivative(p, a + width) - Antiderivative(p, a)
  {
    hide Value, Antiderivative, WeightedSum, Panels, Panel, TimesThird;
    if n % 2 == 1 {
      var dx := width / (n - 1) as real;
      var m := (n - 1) / 2;
      WeightsArePanels(f, a, dx, n, m);
      PanelsTelescope(f, p, a, dx, m);
      assert (n - 1) as real * dx == width;
      assert Grid(a, dx, 2 * m) == a + width && Grid(a, dx, 0) == a;
    }
  }

  function Fourth(x: real): real {
    x * x * x * x
  }

  function Fifth(x: real): real {
    x * x * x * x * x / 5.0
  }

  /** What one panel of spacing `h` adds to the integral of the fourth power. */
  function Excess(h: real): real {
    4.0 / 15.0 * (h * h * h * h * h)
  }

  lemma PanelOnFourth(x: real, y: real, z: real, h: real, sum: real)
    requires y == x + h && z == x + 2.0 * h && sum == Fourth(x) + 4.0 * Fourth(y) + Fourth(z)
    ensures TimesThird(sum, h) == Fifth(z) - Fifth(x) + Excess(h)
  {
  }

  function Times(m: nat, x: real): real {
    m as real * x
  }

  lemma OneMore(m: nat, x: real)
    requires m > 0
    ensures Times(m - 1, x) + x == Times(m, x)
  {
    assert (m - 1) as real + 1.0 == m as real;
    assert ((m - 1) as real + 1.0) * x == (m - 1) as real * x + x;
  }

  lemma {:induction false} PanelsOnFourth(f: real -> real, a: real, dx: real, m: nat)
    requires forall x :: f(x) == Fourth(x)
    ensures TimesThird(Panels(f, a, dx, m), dx)
         == Fifth(Grid(a, dx, 2 * m)) - Fifth(Grid(a, dx, 0)) + Times(m, Excess(dx))
  {
    hide Fourth, Fifth, Grid, Excess;
    if m == 0 {
      assert Panels(f, a, dx, m) == 0.0 && Times(m, Excess(dx)) == 0.0;
    } else {
      hide TimesThird, Times;
      var k := 2 * (m - 1);
      PanelsOnFourth(f, a, dx, m - 1);
      GridSteps(a, dx, m - 1);
      PanelOnFourth(Grid(a, dx, k), Grid(a, dx, k + 1), Grid(a, dx, k + 2), dx, Panel(f, a, dx, m - 1));
      var before := Times(m - 1, Excess(dx));
      OneMore(m, Excess(dx));
      Joined(Panels(f, a, dx, m - 1), Panel(f, a, dx, m - 1), dx, Fifth(Grid(a, dx, 0)),
             Fifth(Grid(a, dx, k)) + before, Fifth(Grid(a, dx, k + 2)) + before + Excess(dx));
      assert k + 2 == 2 * m;
    }
  }

  lemma ExcessOfAll(m: nat, dx: real, width: real)
    requires 2.0 * m as real * dx == width
    ensures Times(m, Excess(dx)) == 2.0 / 15.0 * (width * (dx * dx * dx * dx))
  {
    var q := dx * dx * dx * dx;
    assert dx * dx * dx * dx * dx == dx * q;
    assert m as real * (4.0 / 15.0 * (dx * q)) == 2.0 / 15.0 * ((2.0 * m as real * dx) * q);
  }

  lemma NonZero(x: real, y: real)
    requires x != 0.0 && y != 0.0
    ensures x * y != 0.0
  {
  }

  lemma VanishesOnly(width: real, dx: real, k: real)
    requires k > 0.0 && k * dx == width
    ensures 2.0 / 15.0 * (width * (dx * dx * dx * dx)) == 0.0 <==> width == 0.0
  {
    if width != 0.0 {
      assert dx != 0.0;
      NonZero(dx, dx);
      NonZero(dx * dx, dx * dx);
      NonZero(width, dx * dx * (dx * dx));
      assert dx * dx * (dx * dx) == dx * dx * dx * dx;
    }
  }

  /** The rule is no better than that: for every odd number of points from three on and every interval, it
      overshoots the integral of the fourth power by two fifteenths of the width times the fourth power of the
      spacing, so it is exact there only on an empty interval. */
  lemma {:induction false} FourthPowerExcess(f: real -> real, a: real, width: real, n: nat)
    requires forall x :: f(x) == Fourth(x)
    requires n >= 3 && n % 2 == 1
    ensures var dx := width / (n - 1) as real;
            Quadrature(f, a, width, n) - (Fifth(a + width) - Fifth(a)) == 2.0 / 15.0 * (width * (dx * dx * dx * dx))
    ensures Quadrature(f, a, width, n) == Fifth(a + width) - Fifth(a) <==> width == 0.0
  {
    hide Fourth, Fifth, Excess, Times, WeightedSum, Panels, Panel, TimesThird;
    var dx := width / (n - 1) as real;
    var m := (n - 1) / 2;
    WeightsArePanels(f, a, dx, n, m);
    PanelsOnFourth(f, a, dx, m);
    assert (n - 1) as real * dx == width;
    assert Grid(a, dx, 2 * m) == a + width && Grid(a, dx, 0) == a;
    ExcessOfAll(m, dx, width);
    VanishesOnly(width, dx, (n - 1) as real);
  }
}
