/** How far two sources repeat each other once the outcome is known. */
module EvidenceCorrelation {
  import opened Common
  import opened Reals
  import opened Sums

  /** Two sources' calls on one window, and whether the market rose. */
  datatype Row = Row(a: int, b: int, rose: bool)

  const NO_SPREAD: real := 0.000000000001

  function A(r: Row): real { r.a as real }

  function B(r: Row): real { r.b as real }

  function Product(f: Row -> real, g: Row -> real): Row -> real {
    r => Times(f(r), g(r))
  }

  function Class(rows: seq<Row>, rose: bool): seq<Row> {
    if rows == [] then []
    else Class(Front(rows), rose) + (if Last(rows).rose == rose then [Last(rows)] else [])
  }

  // ----- The definition: calls centred within each class, products pooled over the two

  function Cross(f: Row -> real, g: Row -> real, mf: real, mg: real): Row -> real {
    r => Times(f(r) - mf, g(r) - mg)
  }

  function Centred(f: Row -> real, g: Row -> real, rows: seq<Row>): real {
    if rows == [] then 0.0 else SumOf(Cross(f, g, MeanBy(f, rows), MeanBy(g, rows)), rows)
  }

  function Pooled(f: Row -> real, g: Row -> real, rows: seq<Row>): real {
    Centred(f, g, Class(rows, true)) + Centred(f, g, Class(rows, false))
  }

  // ----- One pass

  /** The sums of one class. */
  datatype ClassSums = ClassSums(n: real, a: real, b: real, aa: real, bb: real, ab: real)

  function SumsOf(rows: seq<Row>): ClassSums {
    ClassSums(|rows| as real, SumOf(A, rows), SumOf(B, rows),
      SumOf(Product(A, A), rows), SumOf(Product(B, B), rows), SumOf(Product(A, B), rows))
  }

  function Added(s: ClassSums, r: Row): ClassSums {
    var x, y := A(r), B(r);
    ClassSums(s.n + 1.0, s.a + x, s.b + y, s.aa + Times(x, x), s.bb + Times(y, y), s.ab + Times(x, y))
  }

  lemma OneMoreRow(rows: seq<Row>, r: Row)
    ensures SumsOf(rows + [r]) == Added(SumsOf(rows), r)
  {
    hide Times;
    SumOfAdd(A, rows, r);
    SumOfAdd(B, rows, r);
    SumOfAdd(Product(A, A), rows, r);
    SumOfAdd(Product(B, B), rows, r);
    SumOfAdd(Product(A, B), rows, r);
  }

  function OnePass(n: real, f: real, g: real, fg: real): real {
    if n == 0.0 then 0.0 else fg - f * g / n
  }

  /** What a sum of centred products comes to beside the sum of the products. */
  function Shift(n: real, f: real, g: real, mf: real, mg: real): real {
    Linear(n, f, g, mf * mg, -mg, -mf)
  }

  lemma CrossOpens(x: real, y: real, mf: real, mg: real)
    ensures Times(x - mf, y - mg) == Times(x, y) + Shift(1.0, x, y, mf, mg)
  {
  }

  lemma {:induction false} CrossesOpen(f: Row -> real, g: Row -> real, mf: real, mg: real, rows: seq<Row>)
    ensures SumOf(Cross(f, g, mf, mg), rows)
      == SumOf(Product(f, g), rows) + Shift(|rows| as real, SumOf(f, rows), SumOf(g, rows), mf, mg)
  {
    if rows == [] {
    } else {
      hide Times, Linear;
      var rest, r := Front(rows), Last(rows);
      CrossesOpen(f, g, mf, mg, rest);
      CrossOpens(f(r), g(r), mf, mg);
      LinearAdds(|rest| as real, SumOf(f, rest), SumOf(g, rest), 1.0, f(r), g(r), mf * mg, -mg, -mf);
    }
  }

  lemma ShiftAtMeans(n: real, f: real, g: real, fg: real)
    requires n > 0.0
    ensures fg + Shift(n, f, g, f / n, g / n) == OnePass(n, f, g, fg)
  {
    var mf, mg := f / n, g / n;
    assert n * (mf * mg) == f * mg && g * mf == f * mg && f * mg == f * g / n;
  }

  /** One pass gives the centred sum of products. */
  lemma OnePassIsCentred(f: Row -> real, g: Row -> real, rows: seq<Row>)
    ensures OnePass(|rows| as real, SumOf(f, rows), SumOf(g, rows), SumOf(Product(f, g), rows)) == Centred(f, g, rows)
  {
    if rows != [] { OnePassOfRows(f, g, rows); }
  }

  lemma OnePassOfRows(f: Row -> real, g: Row -> real, rows: seq<Row>)
    requires rows != []
    ensures OnePass(|rows| as real, SumOf(f, rows), SumOf(g, rows), SumOf(Product(f, g), rows)) == Centred(f, g, rows)
  {
    hide Shift, OnePass;
    CrossesOpen(f, g, MeanBy(f, rows), MeanBy(g, rows), rows);
    ShiftAtMeans(|rows| as real, SumOf(f, rows), SumOf(g, rows), SumOf(Product(f, g), rows));
  }

  // ----- Cauchy-Schwarz

  function Quadratic(aa: real, ab: real, bb: real, t: real): real {
    Linear(aa, ab, bb, 1.0, -2.0 * t, t * t)
  }

  lemma QuadraticOfOne(x: real, y: real, t: real)
    ensures Quadratic(Times(x, x), Times(x, y), Times(y, y), t) >= 0.0
  {
    var z := x - t * y;
    assert Quadratic(Times(x, x), Times(x, y), Times(y, y), t) == z * z;
    assert z * z >= 0.0;
  }

  lemma {:induction false} QuadraticOfClass(ma: real, mb: real, rows: seq<Row>, t: real)
    ensures Quadratic(SumOf(Cross(A, A, ma, ma), rows), SumOf(Cross(A, B, ma, mb), rows),
      SumOf(Cross(B, B, mb, mb), rows), t) >= 0.0
  {
    if rows == [] {
    } else {
      hide Times, Linear;
      var rest, x, y := Front(rows), A(Last(rows)) - ma, B(Last(rows)) - mb;
      QuadraticOfClass(ma, mb, rest, t);
      QuadraticOfOne(x, y, t);
      LinearAdds(SumOf(Cross(A, A, ma, ma), rest), SumOf(Cross(A, B, ma, mb), rest), SumOf(Cross(B, B, mb, mb), rest),
        Times(x, x), Times(x, y), Times(y, y), 1.0, -2.0 * t, t * t);
    }
  }

  lemma QuadraticOfCentred(rows: seq<Row>, t: real)
    ensures Quadratic(Centred(A, A, rows), Centred(A, B, rows), Centred(B, B, rows), t) >= 0.0
  {
    if rows != [] { QuadraticOfClass(MeanBy(A, rows), MeanBy(B, rows), rows, t); }
  }

  lemma QuadraticOfPooled(rows: seq<Row>, t: real)
    ensures Quadratic(Pooled(A, A, rows), Pooled(A, B, rows), Pooled(B, B, rows), t) >= 0.0
  {
    hide Linear, Centred;
    var rising, falling := Class(rows, true), Class(rows, false);
    QuadraticOfCentred(rising, t);
    QuadraticOfCentred(falling, t);
    LinearAdds(Centred(A, A, rising), Centred(A, B, rising), Centred(B, B, rising),
      Centred(A, A, falling), Centred(A, B, falling), Centred(B, B, falling), 1.0, -2.0 * t, t * t);
  }

  lemma Discriminant(aa: real, ab: real, bb: real)
    requires bb > 0.0 && Quadratic(aa, ab, bb, ab / bb) >= 0.0
    ensures ab * ab <= aa * bb
  {
    var t := ab / bb;
    assert t * bb == ab;
    assert t * t * bb == t * ab;
    assert aa - t * ab >= 0.0;
    assert (aa - t * ab) * bb >= 0.0;
  }

  lemma SpreadNotNegative(f: Row -> real, rows: seq<Row>)
    ensures Centred(f, f, rows) >= 0.0
  {
    if rows != [] {
      hide Times;
      var m := MeanBy(f, rows);
      forall r | r in rows ensures Cross(f, f, m, m)(r) >= 0.0 {
        SquareNotNegative(f(r) - m);
      }
      SumOfNonNegative(Cross(f, f, m, m), rows);
    }
  }

  lemma Straight(aa: real, ab: real)
    requires ab != 0.0
    ensures Quadratic(aa, ab, 0.0, (aa + 1.0) / (2.0 * ab)) == -1.0
  {
    var t := (aa + 1.0) / (2.0 * ab);
    assert t * (2.0 * ab) == aa + 1.0;
    assert ab * (-2.0 * t) == -(t * (2.0 * ab));
  }

  /** The pooled covariance is no larger than the spreads allow; without spread in one source it is zero. */
  lemma CauchySchwarz(rows: seq<Row>)
    ensures Pooled(A, B, rows) * Pooled(A, B, rows) <= Pooled(A, A, rows) * Pooled(B, B, rows)
  {
    hide Quadratic, Centred;
    var aa, ab, bb := Pooled(A, A, rows), Pooled(A, B, rows), Pooled(B, B, rows);
    SpreadNotNegative(B, Class(rows, true));
    SpreadNotNegative(B, Class(rows, false));
    if bb > 0.0 {
      QuadraticOfPooled(rows, ab / bb);
      Discriminant(aa, ab, bb);
    } else if ab != 0.0 {
      QuadraticOfPooled(rows, (aa + 1.0) / (2.0 * ab));
      Straight(aa, ab);
    }
  }

  // ----- The correlation

  function Clamp(x: real): real {
    var least := if x < 1.0 then x else 1.0;
    if least > -1.0 then least else -1.0
  }

  function Correlation(root: real -> real, aa: real, bb: real, ab: real): real
    requires SquareRoot(root) && aa > 0.0 && bb > 0.0
  {
    RootOfProduct(root, aa, bb);
    ab / root(aa * bb)
  }

  lemma ClampKeeps(root: real -> real, aa: real, bb: real, ab: real)
    requires SquareRoot(root) && aa > 0.0 && bb > 0.0 && ab * ab <= aa * bb
    ensures Clamp(Correlation(root, aa, bb, ab)) == Correlation(root, aa, bb, ab)
  {
    RootOfProduct(root, aa, bb);
    var x := root(aa * bb);
    if ab > x { SquareOrder(ab, x); }
    if -ab > x { SquareOrder(-ab, x); }
    QuotientWithin(ab, x);
  }

  lemma ClassGrows(rows: seq<Row>, k: nat, rose: bool)
    requires k < |rows|
    ensures Class(rows[..k + 1], rose) == if rows[k].rose == rose then Class(rows[..k], rose) + [rows[k]]
      else Class(rows[..k], rose)
  {
    assert Front(rows[..k + 1]) == rows[..k];
  }

  method SumClasses(rows: seq<Row>) returns (rising: ClassSums, falling: ClassSums)
    ensures rising == SumsOf(Class(rows, true)) && falling == SumsOf(Class(rows, false))
  {
    hide SumsOf, Added;
    rising := NoSums();
    falling := NoSums();
    for k := 0 to |rows|
      invariant rising == SumsOf(Class(rows[..k], true)) && falling == SumsOf(Class(rows[..k], false))
    {
      ClassGrows(rows, k, true);
      ClassGrows(rows, k, false);
      OneMoreRow(Class(rows[..k], rows[k].rose), rows[k]);
      if rows[k].rose {
        rising := Added(rising, rows[k]);
      } else {
        falling := Added(falling, rows[k]);
      }
    }
    assert rows[..|rows|] == rows;
  }

  function NoSums(): (s: ClassSums)
    ensures s == SumsOf([])
  {
    ClassSums(0.0, 0.0, 0.0, 0.0, 0.0, 0.0)
  }

  lemma PooledInOnePass(f: Row -> real, g: Row -> real, rows: seq<Row>)
    ensures var rising, falling := Class(rows, true), Class(rows, false);
      OnePass(|rising| as real, SumOf(f, rising), SumOf(g, rising), SumOf(Product(f, g), rising))
      + OnePass(|falling| as real, SumOf(f, falling), SumOf(g, falling), SumOf(Product(f, g), falling))
      == Pooled(f, g, rows)
  {
    OnePassIsCentred(f, g, Class(rows, true));
    OnePassIsCentred(f, g, Class(rows, false));
  }

  /** The three pooled figures, from one pass over the rows. */
  method PoolRows(rows: seq<Row>) returns (aa: real, bb: real, ab: real)
    ensures aa == Pooled(A, A, rows) && bb == Pooled(B, B, rows) && ab == Pooled(A, B, rows)
  {
    hide Pooled, OnePass;
    var rising, falling := SumClasses(rows);
    aa := OnePass(rising.n, rising.a, rising.a, rising.aa) + OnePass(falling.n, falling.a, falling.a, falling.aa);
    bb := OnePass(rising.n, rising.b, rising.b, rising.bb) + OnePass(falling.n, falling.b, falling.b, falling.bb);
    ab := OnePass(rising.n, rising.a, rising.b, rising.ab) + OnePass(falling.n, falling.a, falling.b, falling.ab);
    PooledInOnePass(A, A, rows);
    PooledInOnePass(B, B, rows);
    PooledInOnePass(A, B, rows);
  }

  lemma RootOfProduct(root: real -> real, x: real, y: real)
    requires SquareRoot(root) && x > 0.0 && y > 0.0
    ensures root(x * y) > 0.0 && root(x * y) * root(x * y) == x * y
  {
    assert x * y > 0.0;
  }

  /**
   `residual_correlation`: the pooled correlation within the outcome classes. The clamp to [-1, 1] changes
   nothing.
   */
  method ResidualCorrelation(root: real -> real, rows: seq<Row>) returns (r: Option<real>)
    requires SquareRoot(root)
    ensures r.None? <==> Pooled(A, A, rows) <= NO_SPREAD || Pooled(B, B, rows) <= NO_SPREAD
    ensures r.Some? ==> r.value == Correlation(root, Pooled(A, A, rows), Pooled(B, B, rows), Pooled(A, B, rows))
    ensures r.Some? ==> -1.0 <= r.value <= 1.0
  {
    hide Pooled, SquareRoot, Correlation;
    var aa, bb, ab := PoolRows(rows);
    if aa <= NO_SPREAD || bb <= NO_SPREAD {
      return None;
    }
    CauchySchwarz(rows);
    ClampKeeps(root, aa, bb, ab);
    r := Some(Clamp(Correlation(root, aa, bb, ab)));
  }
}
