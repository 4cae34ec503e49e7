/// Least-squares line fitting, and the sum algebra behind it.
module LinReg {
  import opened RealMath

  datatype Point = Point(x: real, y: real)

  datatype Line = Line(slope: real, intercept: real) {
    function At(x: real): real {
      intercept + slope * x
    }
  }

  function Total(points: seq<Point>, f: Point -> real): real {
    if points == [] then 0.0
    else Total(points[..|points| - 1], f) + f(points[|points| - 1])
  }

  function Abscissa(): Point -> real {
    (p: Point) => p.x
  }

  function Ordinate(): Point -> real {
    (p: Point) => p.y
  }

  function SquareX(mx: real): Point -> real {
    (p: Point) => (p.x - mx) * (p.x - mx)
  }

  function CrossXY(mx: real, my: real): Point -> real {
    (p: Point) => (p.x - mx) * (p.y - my)
  }

  function SquareY(my: real): Point -> real {
    (p: Point) => (p.y - my) * (p.y - my)
  }

  function MeanX(points: seq<Point>): real
    requires points != []
  {
    Total(points, Abscissa()) / |points| as real
  }

  function MeanY(points: seq<Point>): real
    requires points != []
  {
    Total(points, Ordinate()) / |points| as real
  }

  /// The fitted line. With fewer than two points it is flat through what there is.
  function Fit(points: seq<Point>): Line {
    if |points| == 0 then Line(0.0, 0.0)
    else if |points| == 1 then Line(0.0, points[0].y)
    else
      var mx, my := MeanX(points), MeanY(points);
      var sxx, sxy := Total(points, SquareX(mx)), Total(points, CrossXY(mx, my));
      LineFrom(mx, my, sxx, sxy)
  }

  /// The line through the means with the slope the spreads determine; flat if the abscissas agree.
  function LineFrom(mx: real, my: real, sxx: real, sxy: real): Line {
    var slope := if sxx == 0.0 then 0.0 else sxy / sxx;
    Line(slope, my - slope * mx)
  }

  lemma PointTerms(p: Point, mx: real, my: real, dx: real, dy: real)
    requires dx == p.x - mx && dy == p.y - my
    ensures SquareX(mx)(p) == dx * dx
    ensures CrossXY(mx, my)(p) == dx * dy
  {
  }

  lemma MeansOf(points: seq<Point>, sumX: real, sumY: real)
    requires points != []
    requires sumX == Total(points, Abscissa()) && sumY == Total(points, Ordinate())
    ensures sumX / |points| as real == MeanX(points)
    ensures sumY / |points| as real == MeanY(points)
  {
  }

  lemma TotalOfNone(f: Point -> real)
    ensures Total([], f) == 0.0
  {
  }

  lemma TotalGrows(points: seq<Point>, i: nat, f: Point -> real)
    requires i < |points|
    ensures Total(points[..i + 1], f) == Total(points[..i], f) + f(points[i])
  {
    assert points[..i + 1][..i] == points[..i];
  }

  method Means(points: seq<Point>) returns (meanX: real, meanY: real)
    requires points != []
    ensures meanX == MeanX(points) && meanY == MeanY(points)
  {
    hide Total, MeanX, MeanY;
    TotalOfNone(Abscissa());
    TotalOfNone(Ordinate());
    var sumX, sumY := 0.0, 0.0;
    for i := 0 to |points|
      invariant sumX == Total(points[..i], Abscissa())
      invariant sumY == Total(points[..i], Ordinate())
    {
      TotalGrows(points, i, Abscissa());
      TotalGrows(points, i, Ordinate());
      sumX, sumY := sumX + points[i].x, sumY + points[i].y;
    }
    assert points[..|points|] == points;
    MeansOf(points, sumX, sumY);
    meanX, meanY := sumX / |points| as real, sumY / |points| as real;
  }

  method Spread(points: seq<Point>, meanX: real, meanY: real) returns (sxx: real, sxy: real)
    ensures sxx == Total(points, SquareX(meanX)) && sxy == Total(points, CrossXY(meanX, meanY))
  {
    hide Total, SquareX, CrossXY;
    TotalOfNone(SquareX(meanX));
    TotalOfNone(CrossXY(meanX, meanY));
    sxx, sxy := 0.0, 0.0;
    for i := 0 to |points|
      invariant sxx == Total(points[..i], SquareX(meanX))
      invariant sxy == Total(points[..i], CrossXY(meanX, meanY))
    {
      TotalGrows(points, i, SquareX(meanX));
      TotalGrows(points, i, CrossXY(meanX, meanY));
      var dx, dy := points[i].x - meanX, points[i].y - meanY;
      PointTerms(points[i], meanX, meanY, dx, dy);
      sxx, sxy := sxx + dx * dx, sxy + dx * dy;
    }
    assert points[..|points|] == points;
  }

  method Assemble(meanX: real, meanY: real, sxx: real, sxy: real) returns (line: Line)
    ensures line == LineFrom(meanX, meanY, sxx, sxy)
  {
    var slope := 0.0;
    if sxx != 0.0 {
      slope := sxy / sxx;
    }
    line := Line(slope, meanY - slope * meanX);
  }

  method LinearRegression(points: seq<Point>) returns (line: Line)
    ensures line == Fit(points)
  {
    var n := |points|;
    if n == 0 {
      return Line(0.0, 0.0);
    }
    if n == 1 {
      return Line(0.0, points[0].y);
    }
    hide Total, SquareX, CrossXY, MeanX, MeanY, LineFrom;
    var meanX, meanY := Means(points);
    var sxx, sxy := Spread(points, meanX, meanY);
    line := Assemble(meanX, meanY, sxx, sxy);
  }

  // ----- squared error -----

  function Residual(p: Point, line: Line): real {
    p.y - line.At(p.x)
  }

  function SquareResidual(line: Line): Point -> real {
    (p: Point) => Residual(p, line) * Residual(p, line)
  }

  function SquaredError(points: seq<Point>, line: Line): real {
    Total(points, SquareResidual(line))
  }

  lemma SquareNonNeg(x: real)
    ensures x * x >= 0.0
  {
    if x >= 0.0 { MulNonNeg(x, x); } else { MulNonNeg(-x, -x); }
  }

  lemma {:induction false} TotalNonNeg(points: seq<Point>, f: Point -> real)
    requires forall p :: f(p) >= 0.0
    ensures Total(points, f) >= 0.0
    ensures forall i :: 0 <= i < |points| ==> f(points[i]) <= Total(points, f)
  {
    if points != [] {
      var init := points[..|points| - 1];
      TotalNonNeg(init, f);
      forall i | 0 <= i < |points| ensures f(points[i]) <= Total(points, f) {
        if i < |points| - 1 { assert init[i] == points[i]; }
      }
    }
  }

  function DeviationX(mx: real): Point -> real {
    (p: Point) => p.x - mx
  }

  function DeviationY(my: real): Point -> real {
    (p: Point) => p.y - my
  }

  lemma {:induction false} DeviationTotal(points: seq<Point>, mx: real, my: real)
    ensures Total(points, DeviationX(mx)) == Total(points, Abscissa()) - mx * |points| as real
    ensures Total(points, DeviationY(my)) == Total(points, Ordinate()) - my * |points| as real
  {
    if points != [] {
      DeviationTotal(points[..|points| - 1], mx, my);
      OneMore(mx, |points| - 1);
      OneMore(my, |points| - 1);
    }
  }

  lemma OneMore(m: real, n: nat)
    ensures m * (n + 1) as real == m * n as real + m
  {
  }

  lemma DeviationsCancel(points: seq<Point>)
    requires points != []
    ensures Total(points, DeviationX(MeanX(points))) == 0.0
    ensures Total(points, DeviationY(MeanY(points))) == 0.0
  {
    DeviationTotal(points, MeanX(points), MeanY(points));
  }

  /// The squared error of any line, from the five sums around (mx, my); `c` is how far the
  /// line passes above (mx, my).
  function Expanded(syy: real, sxy: real, sxx: real, dx: real, dy: real, n: real, s: real, c: real): real {
    syy - 2.0 * (s * sxy) + (s * s) * sxx + n * (c * c) - 2.0 * (c * dy) + 2.0 * ((s * c) * dx)
  }

  lemma ResidualSquare(v: real, u: real, s: real, c: real)
    ensures (v - s * u - c) * (v - s * u - c) == Expanded(v * v, u * v, u * u, u, v, 1.0, s, c)
  {
    var w := s * u;
    assert (v - w - c) * (v - w - c) == v * v - 2.0 * (w * v) + w * w + c * c - 2.0 * (c * v) + 2.0 * (w * c);
    MulAssoc(s, u, v);
    SquareOfProduct(s, u);
    assert w * c == (s * c) * u;
  }

  lemma SquareOfProduct(s: real, u: real)
    ensures (s * u) * (s * u) == (s * s) * (u * u)
  {
  }

  lemma ExpandedAdds(syy: real, sxy: real, sxx: real, dx: real, dy: real, n: real,
                     ayy: real, axy: real, axx: real, ax: real, ay: real, s: real, c: real)
    ensures Expanded(syy + ayy, sxy + axy, sxx + axx, dx + ax, dy + ay, n + 1.0, s, c)
         == Expanded(syy, sxy, sxx, dx, dy, n, s, c) + Expanded(ayy, axy, axx, ax, ay, 1.0, s, c)
  {
    assert s * (sxy + axy) == s * sxy + s * axy;
    assert (s * s) * (sxx + axx) == (s * s) * sxx + (s * s) * axx;
    assert (n + 1.0) * (c * c) == n * (c * c) + c * c;
    assert c * (dy + ay) == c * dy + c * ay;
    assert (s * c) * (dx + ax) == (s * c) * dx + (s * c) * ax;
  }

  lemma {:induction false} ErrorExpands(points: seq<Point>, mx: real, my: real, line: Line, c: real)
    requires line.intercept == my - line.slope * mx + c
    ensures SquaredError(points, line)
         == Expanded(Total(points, SquareY(my)), Total(points, CrossXY(mx, my)), Total(points, SquareX(mx)),
                     Total(points, DeviationX(mx)), Total(points, DeviationY(my)), |points| as real, line.slope, c)
  {
    hide Expanded;
    if points == [] {
      EmptyExpands(line.slope, c);
    } else {
      var init, p := points[..|points| - 1], points[|points| - 1];
      ErrorExpands(init, mx, my, line, c);
      OnePointExpands(p, mx, my, line, c);
      hide SquareResidual, SquareX, SquareY, CrossXY;
      ExpandedAdds(Total(init, SquareY(my)), Total(init, CrossXY(mx, my)), Total(init, SquareX(mx)),
                   Total(init, DeviationX(mx)), Total(init, DeviationY(my)), |init| as real,
                   SquareY(my)(p), CrossXY(mx, my)(p), SquareX(mx)(p), p.x - mx, p.y - my, line.slope, c);
    }
  }

  lemma OnePointExpands(p: Point, mx: real, my: real, line: Line, c: real)
    requires line.intercept == my - line.slope * mx + c
    ensures SquareResidual(line)(p)
         == Expanded(SquareY(my)(p), CrossXY(mx, my)(p), SquareX(mx)(p), p.x - mx, p.y - my, 1.0, line.slope, c)
  {
    LineResidual(p, mx, my, line, c);
    ResidualSquare(p.y - my, p.x - mx, line.slope, c);
  }

  lemma EmptyExpands(s: real, c: real)
    ensures Expanded(0.0, 0.0, 0.0, 0.0, 0.0, 0.0, s, c) == 0.0
  {
  }

  lemma LineResidual(p: Point, mx: real, my: real, line: Line, c: real)
    requires line.intercept == my - line.slope * mx + c
    ensures Residual(p, line) == (p.y - my) - line.slope * (p.x - mx) - c
  {
    assert line.slope * (p.x - mx) == line.slope * p.x - line.slope * mx;
  }

  /// If the abscissas all sit at the mean, the cross sum vanishes too.
  lemma {:induction false} CrossVanishes(points: seq<Point>, mx: real, my: real)
    requires Total(points, SquareX(mx)) == 0.0
    ensures Total(points, CrossXY(mx, my)) == 0.0
  {
    if points != [] {
      var init, p := points[..|points| - 1], points[|points| - 1];
      SquaresNonNeg(init, mx);
      SquareNonNeg(p.x - mx);
      CrossVanishes(init, mx, my);
      assert p.x - mx == 0.0 by { ZeroSquare(p.x - mx); }
    }
  }

  lemma SameSignProduct(x: real, y: real, z: real)
    requires (x > 0.0 && y > 0.0) || (x < 0.0 && y < 0.0)
    requires z == x * y
    ensures z > 0.0
  {
    if x > 0.0 { MulPos(x, y); } else { MulPos(-x, -y); }
  }

  lemma ZeroSquare(x: real)
    requires x * x == 0.0
    ensures x == 0.0
  {
    if x != 0.0 { SameSignProduct(x, x, x * x); }
  }

  lemma SquaresNonNeg(points: seq<Point>, mx: real)
    ensures Total(points, SquareX(mx)) >= 0.0
  {
    forall p: Point ensures SquareX(mx)(p) >= 0.0 { SquareNonNeg(p.x - mx); }
    TotalNonNeg(points, SquareX(mx));
  }

  lemma ErrorNonNeg(points: seq<Point>, line: Line)
    ensures SquaredError(points, line) >= 0.0
    ensures forall i :: 0 <= i < |points| ==> SquareResidual(line)(points[i]) <= SquaredError(points, line)
  {
    forall p: Point ensures SquareResidual(line)(p) >= 0.0 { SquareNonNeg(Residual(p, line)); }
    TotalNonNeg(points, SquareResidual(line));
  }

  /// With the slope that solves the normal equations, any other line costs more.
  lemma BestAlgebra(syy: real, sxy: real, sxx: real, n: real, fit: real, s: real, c: real)
    requires sxx >= 0.0 && n >= 0.0 && fit * sxx == sxy
    ensures Expanded(syy, sxy, sxx, 0.0, 0.0, n, fit, 0.0) <= Expanded(syy, sxy, sxx, 0.0, 0.0, n, s, c)
  {
    SquareNonNeg(c);
    MulNonNeg(n, c * c);
    SquareNonNeg(s - fit);
    MulNonNeg((s - fit) * (s - fit), sxx);
    CompleteSquare(s, fit, sxx, sxy);
  }

  lemma CompleteSquare(s: real, fit: real, sxx: real, sxy: real)
    requires fit * sxx == sxy
    ensures ((s - fit) * (s - fit)) * sxx == (s * s) * sxx - 2.0 * (s * sxy) - ((fit * fit) * sxx - 2.0 * (fit * sxy))
  {
    assert (s - fit) * (s - fit) == s * s - 2.0 * (s * fit) + fit * fit;
    ThreeTerms(s * s, s * fit, fit * fit, sxx);
    MulAssoc(s, fit, sxx);
    MulAssoc(fit, fit, sxx);
  }

  lemma ThreeTerms(a: real, b: real, c: real, z: real)
    ensures (a - 2.0 * b + c) * z == a * z - 2.0 * (b * z) + c * z
  {
  }

  /// No line whatever has a smaller squared error than the fitted one, for every list of points.
  lemma LeastSquares(points: seq<Point>, other: Line)
    ensures SquaredError(points, Fit(points)) <= SquaredError(points, other)
  {
    ErrorNonNeg(points, other);
    if |points| == 0 {
    } else if |points| == 1 {
      SinglePoint(points);
    } else {
      MoreThanOne(points, other);
    }
  }

  lemma SinglePoint(points: seq<Point>)
    requires |points| == 1
    ensures SquaredError(points, Fit(points)) == 0.0
  {
    var fit := Fit(points);
    assert points[..0] == [];
    assert fit.slope * points[0].x == 0.0;
    assert SquareResidual(fit)(points[0]) == 0.0;
    assert Total(points, SquareResidual(fit)) == Total([], SquareResidual(fit)) + SquareResidual(fit)(points[0]);
  }

  lemma DivMul(a: real, b: real)
    requires b != 0.0
    ensures (a / b) * b == a
  {
  }

  /// The fitted slope solves the normal equation, also when all abscissas coincide.
  lemma NormalEquation(points: seq<Point>)
    requires |points| >= 2
    ensures Fit(points).slope * Total(points, SquareX(MeanX(points)))
         == Total(points, CrossXY(MeanX(points), MeanY(points)))
    ensures Fit(points).intercept == MeanY(points) - Fit(points).slope * MeanX(points)
  {
    hide Total, MeanX, MeanY, SquareX, CrossXY;
    var sxx := Total(points, SquareX(MeanX(points)));
    var sxy := Total(points, CrossXY(MeanX(points), MeanY(points)));
    if sxx == 0.0 {
      CrossVanishes(points, MeanX(points), MeanY(points));
    } else {
      DivMul(sxy, sxx);
    }
  }

  lemma MoreThanOne(points: seq<Point>, other: Line)
    requires |points| >= 2
    ensures SquaredError(points, Fit(points)) <= SquaredError(points, other)
  {
    hide Fit, MeanX, MeanY, SquaredError, Expanded, Total, SquareX, SquareY, CrossXY, DeviationX, DeviationY;
    var mx, my, fit := MeanX(points), MeanY(points), Fit(points);
    NormalEquation(points);
    DeviationsCancel(points);
    SquaresNonNeg(points, mx);
    var c := Offset(mx, my, other);
    ErrorExpands(points, mx, my, fit, 0.0);
    ErrorExpands(points, mx, my, other, c);
    BestAlgebra(Total(points, SquareY(my)), Total(points, CrossXY(mx, my)), Total(points, SquareX(mx)),
                |points| as real, fit.slope, other.slope, c);
  }

  /// How far a line passes above (mx, my).
  function Offset(mx: real, my: real, line: Line): (c: real)
    ensures line.intercept == my - line.slope * mx + c
  {
    line.intercept - my + line.slope * mx
  }

  // ----- collinear points -----

  ghost predicate OnLine(points: seq<Point>, line: Line) {
    forall i :: 0 <= i < |points| ==> Residual(points[i], line) == 0.0
  }

  lemma {:induction false} OnLineNoError(points: seq<Point>, line: Line)
    requires OnLine(points, line)
    ensures SquaredError(points, line) == 0.0
  {
    if points != [] {
      var init := points[..|points| - 1];
      assert forall i :: 0 <= i < |init| ==> init[i] == points[i];
      OnLineNoError(init, line);
    }
  }

  /// The fit passes through collinear points exactly; if two abscissas differ it is their line.
  lemma FitRecoversLine(points: seq<Point>, line: Line)
    requires OnLine(points, line)
    ensures OnLine(points, Fit(points))
    ensures (exists i, j :: 0 <= i < |points| && 0 <= j < |points| && points[i].x != points[j].x) ==> Fit(points) == line
  {
    OnLineNoError(points, line);
    LeastSquares(points, line);
    ErrorNonNeg(points, Fit(points));
    var fit := Fit(points);
    forall i | 0 <= i < |points| ensures Residual(points[i], fit) == 0.0 {
      SquareNonNeg(Residual(points[i], fit));
      ZeroSquare(Residual(points[i], fit));
    }
    hide Fit, Total;
    if i, j :| 0 <= i < |points| && 0 <= j < |points| && points[i].x != points[j].x {
      TwoPoints(points[i], points[j], fit, line);
    }
  }

  lemma TwoPoints(p: Point, q: Point, a: Line, b: Line)
    requires p.x != q.x
    requires Residual(p, a) == 0.0 && Residual(q, a) == 0.0 && Residual(p, b) == 0.0 && Residual(q, b) == 0.0
    ensures a == b
  {
    var d, e := a.slope - b.slope, p.x - q.x;
    assert d * e == 0.0 by {
      assert d * e == a.slope * p.x - a.slope * q.x - b.slope * p.x + b.slope * q.x;
    }
    if d != 0.0 {
      NonZeroProduct(d, e);
    }
  }

  lemma NonZeroProduct(x: real, y: real)
    requires x != 0.0 && y != 0.0
    ensures x * y != 0.0
  {
    if x * y == 0.0 {
      var s, t := if x > 0.0 then x else -x, if y > 0.0 then y else -y;
      MulPos(s, t);
    }
  }

  // ----- when the abscissas cannot tell a slope -----

  lemma {:induction false} ConstantAbscissas(points: seq<Point>, x: real)
    requires forall i :: 0 <= i < |points| ==> points[i].x == x
    ensures Total(points, Abscissa()) == |points| as real * x
    ensures Total(points, SquareX(x)) == 0.0
  {
    if points != [] {
      ConstantAbscissas(points[..|points| - 1], x);
      OneMore(x, |points| - 1);
    }
  }

  /// If all abscissas agree, one point included, the fit is flat at the mean of the ordinates.
  lemma {:induction false} AgreeingAbscissasFitFlat(points: seq<Point>)
    requires forall i :: 0 <= i < |points| ==> points[i].x == points[0].x
    ensures Fit(points).slope == 0.0
    ensures Fit(points).intercept * |points| as real == Total(points, Ordinate())
    ensures points == [] ==> Fit(points).intercept == 0.0
  {
    if points == [] {
      return;
    }
    ConstantAbscissas(points, points[0].x);
    if |points| == 1 {
      assert points[..0] == [];
      assert Total(points, Ordinate()) == Total([], Ordinate()) + points[0].y;
    } else {
      var n := |points| as real;
      MeanOfConstant(points[0].x, n, Total(points, Abscissa()), MeanX(points));
      assert MeanY(points) * n == Total(points, Ordinate());
      hide Total;
    }
  }

  lemma {:induction false} MeanOfConstant(x: real, n: real, sum: real, mean: real)
    requires n > 0.0 && sum == n * x && mean == sum / n
    ensures mean == x
  {
    assert mean * n == sum;
    Scaled(mean, x, n, sum, sum);
    Scaled(x, mean, n, sum, sum);
  }
}
