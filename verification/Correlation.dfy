/** Pearson correlation and the correlation matrix, over exact reals. */
module Correlation {
  import opened RealSeq

  // ---------------------------------------------------------------- what the code computes

  /** The most recent `n` points. */
  function Tail(s: seq<real>, n: nat): (t: seq<real>)
    requires n <= |s|
    ensures |t| == n
  {
    s[|s| - n..]
  }

  function Overlap(a: seq<real>, b: seq<real>): nat { if |a| <= |b| then |a| else |b| }

  function Clamp(r: real): real { Max2(-1.0, Min2(1.0, r)) }

  lemma RootIsPositive(p: real, q: real, root: real -> real)
    requires IsSqrt(root) && p >= 0.0 && q >= 0.0 && p != 0.0 && q != 0.0
    ensures Times(p, q) > 0.0 && root(Times(p, q)) > 0.0 && Square(root(Times(p, q))) == Times(p, q)
  {
    TimesPositive(p, q);
    hide Times;
    SquareIsPositive(root(Times(p, q)));
  }

  /** The clamped quotient of the accumulated moments; zero when either variance is zero. */
  function Ratio(cov: real, vx: real, vy: real, root: real -> real): real
    requires IsSqrt(root) && vx >= 0.0 && vy >= 0.0
  {
    if vx == 0.0 || vy == 0.0 then 0.0
    else
      RootIsPositive(vx, vy, root);
      Clamp(Over(cov, root(Times(vx, vy))))
  }

  function Coefficient(dx: seq<real>, dy: seq<real>, root: real -> real): real
    requires |dx| == |dy| && IsSqrt(root)
  {
    DotSelf(dx);
    DotSelf(dy);
    Ratio(Dot(dx, dy), Dot(dx, dx), Dot(dy, dy), root)
  }

  function Pearson(a: seq<real>, b: seq<real>, root: real -> real): real
    requires IsSqrt(root)
  {
    var n := Overlap(a, b);
    if n < 2 then 0.0 else Coefficient(Centred(Tail(a, n)), Centred(Tail(b, n)), root)
  }

  /** The source's accumulator loops. */
  method ComputePearson(a: seq<real>, b: seq<real>, root: real -> real) returns (r: real)
    requires IsSqrt(root)
    ensures r == Pearson(a, b, root)
  {
    hide Times;
    hide Over;
    hide IsSqrt;
    hide Ratio;
    var n := if |a| <= |b| then |a| else |b|;
    if n < 2 { return 0.0; }
    var xs, ys := Tail(a, n), Tail(b, n);
    var sx, sy := Sums(xs, ys);
    var cov, vx, vy := Moments(xs, ys, Over(sx, n as real), Over(sy, n as real));
    DotSelf(Centred(xs));
    DotSelf(Centred(ys));
    r := Ratio(cov, vx, vy, root);
  }

  method Sums(xs: seq<real>, ys: seq<real>) returns (sx: real, sy: real)
    requires |xs| == |ys|
    ensures sx == Sum(xs) && sy == Sum(ys)
  {
    sx, sy := 0.0, 0.0;
    for i := 0 to |xs|
      invariant sx == Sum(xs[..i]) && sy == Sum(ys[..i])
    {
      assert xs[..i + 1][..i] == xs[..i] && ys[..i + 1][..i] == ys[..i];
      sx, sy := sx + xs[i], sy + ys[i];
    }
    assert xs[..|xs|] == xs && ys[..|ys|] == ys;
  }

  method Moments(xs: seq<real>, ys: seq<real>, mx: real, my: real) returns (cov: real, vx: real, vy: real)
    requires |xs| == |ys|
    ensures cov == Dot(Shifted(xs, mx), Shifted(ys, my))
    ensures vx == Dot(Shifted(xs, mx), Shifted(xs, mx)) && vy == Dot(Shifted(ys, my), Shifted(ys, my))
  {
    hide Times;
    ghost var us, vs := Shifted(xs, mx), Shifted(ys, my);
    cov, vx, vy := 0.0, 0.0, 0.0;
    for i := 0 to |xs|
      invariant cov == Dot(us[..i], vs[..i])
      invariant vx == Dot(us[..i], us[..i]) && vy == Dot(vs[..i], vs[..i])
    {
      var dx := xs[i] - mx;
      var dy := ys[i] - my;
      assert us[..i + 1][..i] == us[..i] && vs[..i + 1][..i] == vs[..i];
      cov := cov + Times(dx, dy);
      vx := vx + Times(dx, dx);
      vy := vy + Times(dy, dy);
    }
    assert us[..|us|] == us && vs[..|vs|] == vs;
  }

  // ---------------------------------------------------------------- Cauchy-Schwarz

  /** The vector p*u - q*v. */
  function Combo(u: seq<real>, v: seq<real>, p: real, q: real): (w: seq<real>)
    requires |u| == |v|
    ensures |w| == |u|
  {
    seq(|u|, i requires 0 <= i < |u| => Times(p, u[i]) - Times(q, v[i]))
  }

  lemma SquareOfDifference(p: real, q: real, a: real, b: real)
    ensures var d := Times(p, a) - Times(q, b);
      Times(d, d) == Times(Times(p, p), Times(a, a)) - 2.0 * Times(Times(p, q), Times(a, b)) + Times(Times(q, q), Times(b, b))
  {
  }

  lemma {:induction false} ComboSquared(u: seq<real>, v: seq<real>, p: real, q: real)
    requires |u| == |v|
    ensures var w := Combo(u, v, p, q);
      Dot(w, w) == Times(Times(p, p), Dot(u, u)) - 2.0 * Times(Times(p, q), Dot(u, v)) + Times(Times(q, q), Dot(v, v))
  {
    hide Times;
    if u == [] {
      TimesIsZero(Times(p, p), 0.0);
      TimesIsZero(Times(p, q), 0.0);
      TimesIsZero(Times(q, q), 0.0);
    } else {
      var n := |u| - 1;
      ComboSquared(u[..n], v[..n], p, q);
      assert Combo(u, v, p, q)[..n] == Combo(u[..n], v[..n], p, q);
      SquareOfDifference(p, q, u[n], v[n]);
      TimesDistributesRight(Times(p, p), Dot(u[..n], u[..n]), Times(u[n], u[n]));
      TimesDistributesRight(Times(p, q), Dot(u[..n], v[..n]), Times(u[n], v[n]));
      TimesDistributesRight(Times(q, q), Dot(v[..n], v[..n]), Times(v[n], v[n]));
    }
  }

  lemma ComboAlgebra(a: real, b: real, c: real)
    ensures Times(Times(b, b), a) - 2.0 * Times(Times(b, c), c) + Times(Times(c, c), b) == Times(b, Times(a, b) - Square(c))
  {
  }

  /** Cauchy-Schwarz with its equality case: for a non-flat `v`, cov^2 <= vx*vy, with equality
      exactly when `u` is cov/vy times `v`. */
  lemma CauchySchwarz(u: seq<real>, v: seq<real>)
    requires |u| == |v| && !Flat(v)
    ensures var a, b, c := Dot(u, u), Dot(v, v), Dot(u, v);
      && b > 0.0
      && Square(c) <= Times(a, b)
      && (Square(c) == Times(a, b) <==> forall i :: 0 <= i < |u| ==> Times(b, u[i]) == Times(c, v[i]))
  {
    hide Times;
    hide Square;
    var a, b, c := Dot(u, u), Dot(v, v), Dot(u, v);
    var w := Combo(u, v, b, c);
    DotSelf(v);
    DotSelf(w);
    ComboSquared(u, v, b, c);
    ComboAlgebra(a, b, c);
    var gap := Times(a, b) - Square(c);
    TimesIsZero(b, gap);
    if gap < 0.0 {
      TimesPositive(b, -gap);
      TimesNegated(b, gap);
    }
    assert Flat(w) <==> forall i :: 0 <= i < |u| ==> Times(b, u[i]) == Times(c, v[i]) by {
      assert forall i :: 0 <= i < |u| ==> (w[i] == 0.0 <==> Times(b, u[i]) == Times(c, v[i]));
    }
  }

  // ---------------------------------------------------------------- the coefficient

  lemma UnitQuotient(c: real, r: real)
    requires r > 0.0
    ensures -r <= c <= r <==> -1.0 <= Over(c, r) <= 1.0
    ensures Over(c, r) == 1.0 <==> c == r
    ensures Over(c, r) == -1.0 <==> c == -r
  {
    var q := Over(c, r);
    OverTimes(c, r);
    TimesOne(r);
    TimesNegated(1.0, r);
    hide Times;
    hide Over;
    if q >= 1.0 { TimesMonotone(1.0, q, r); } else { TimesMonotone(q, 1.0, r); }
    if q >= -1.0 { TimesMonotone(-1.0, q, r); } else { TimesMonotone(q, -1.0, r); }
  }

  /** The quotient lies in [-1, 1] before the clamp, and meets an end exactly in the equality case. */
  lemma RatioIsBounded(cov: real, vx: real, vy: real, root: real -> real)
    requires IsSqrt(root) && vx > 0.0 && vy > 0.0 && Square(cov) <= Times(vx, vy)
    ensures root(Times(vx, vy)) > 0.0
    ensures -1.0 <= Over(cov, root(Times(vx, vy))) <= 1.0
    ensures Ratio(cov, vx, vy, root) == Over(cov, root(Times(vx, vy)))
    ensures Ratio(cov, vx, vy, root) == 1.0 <==> cov > 0.0 && Square(cov) == Times(vx, vy)
    ensures Ratio(cov, vx, vy, root) == -1.0 <==> cov < 0.0 && Square(cov) == Times(vx, vy)
  {
    RootIsPositive(vx, vy, root);
    var r := root(Times(vx, vy));
    hide Times;
    hide Over;
    hide IsSqrt;
    var m := if cov >= 0.0 then cov else -cov;
    NegatedSquare(cov);
    hide Square;
    if m < r { SquareGrows(m, r); } else { SquareGrows(r, m); }
    UnitQuotient(cov, r);
  }

  /** Moments of a multiple: cov = k*vy and vx = k*cov, so cov^2 = vx*vy and cov has the sign of k. */
  lemma MultipleIsExtreme(u: seq<real>, k: real, v: seq<real>)
    requires IsMultiple(u, k, v) && !Flat(v)
    ensures var a, b, c := Dot(u, u), Dot(v, v), Dot(u, v);
      && Square(c) == Times(a, b)
      && (c > 0.0 <==> k > 0.0) && (c < 0.0 <==> k < 0.0)
      && (k != 0.0 ==> !Flat(u))
  {
    var a, b, c := Dot(u, u), Dot(v, v), Dot(u, v);
    DotOfMultiple(u, k, v, v);
    DotOfMultiple(u, k, v, u);
    DotCommutes(u, v);
    DotSelf(v);
    SquareIsSelfTimes(c);
    hide Times;
    hide Square;
    TimesAssociates(k, c, b);
    TimesCommutes(c, b);
    TimesAssociates(k, b, c);
    SignOfProduct(k, b);
    if k != 0.0 {
      var i :| 0 <= i < |v| && v[i] != 0.0;
      TimesIsZero(k, v[i]);
      assert u[i] != 0.0;
    }
  }

  lemma SignOfProduct(k: real, b: real)
    requires b > 0.0
    ensures (Times(k, b) > 0.0 <==> k > 0.0) && (Times(k, b) < 0.0 <==> k < 0.0)
  {
  }

  lemma DivideThrough(b: real, x: real, c: real, y: real)
    requires b != 0.0 && Times(b, x) == Times(c, y)
    ensures x == Times(Over(c, b), y)
  {
  }

  lemma SignOfQuotient(c: real, b: real)
    requires b > 0.0
    ensures (Over(c, b) > 0.0 <==> c > 0.0) && (Over(c, b) < 0.0 <==> c < 0.0)
  {
  }

  /** The multiple that the equality case of Cauchy-Schwarz gives. */
  lemma ExtremeIsMultiple(u: seq<real>, v: seq<real>) returns (k: real)
    requires |u| == |v| && !Flat(v) && Square(Dot(u, v)) == Times(Dot(u, u), Dot(v, v))
    ensures IsMultiple(u, k, v)
    ensures (k > 0.0 <==> Dot(u, v) > 0.0) && (k < 0.0 <==> Dot(u, v) < 0.0)
  {
    hide Times;
    hide Square;
    hide Over;
    CauchySchwarz(u, v);
    var b, c := Dot(v, v), Dot(u, v);
    k := Over(c, b);
    SignOfQuotient(c, b);
    forall i | 0 <= i < |u| ensures u[i] == Times(k, v[i]) {
      DivideThrough(b, u[i], c, v[i]);
    }
  }

  /** r is 1, or -1, exactly when one centred tail is a positive, or negative, multiple of the other
      and that one is not flat. */
  lemma CoefficientIsExtreme(u: seq<real>, v: seq<real>, root: real -> real)
    requires |u| == |v| && IsSqrt(root)
    ensures -1.0 <= Coefficient(u, v, root) <= 1.0
    ensures Coefficient(u, v, root) == 1.0 <==> !Flat(v) && exists k :: k > 0.0 && IsMultiple(u, k, v)
    ensures Coefficient(u, v, root) == -1.0 <==> !Flat(v) && exists k :: k < 0.0 && IsMultiple(u, k, v)
  {
    hide Times;
    hide Square;
    hide IsSqrt;
    hide Over;
    hide Flat;
    DotSelf(u);
    DotSelf(v);
    var a, b, c := Dot(u, u), Dot(v, v), Dot(u, v);
    forall k | IsMultiple(u, k, v) && !Flat(v)
      ensures Square(c) == Times(a, b) && (c > 0.0 <==> k > 0.0) && (c < 0.0 <==> k < 0.0) && (k != 0.0 ==> !Flat(u))
    {
      MultipleIsExtreme(u, k, v);
    }
    if !Flat(v) && !Flat(u) {
      CauchySchwarz(u, v);
      RatioIsBounded(c, a, b, root);
      hide Ratio;
      hide IsMultiple;
      if Square(c) == Times(a, b) {
        var k := ExtremeIsMultiple(u, v);
      }
    }
  }

  // ---------------------------------------------------------------- laws of Pearson

  /** The centred tails that `Pearson` compares. */
  function Left(a: seq<real>, b: seq<real>): seq<real> { Centred(Tail(a, Overlap(a, b))) }

  function Right(a: seq<real>, b: seq<real>): seq<real> { Centred(Tail(b, Overlap(a, b))) }

  /** cov^2 <= vx*vy after alignment, so the clamp never changes the exact quotient. */
  lemma PearsonClampIsIdle(a: seq<real>, b: seq<real>, root: real -> real)
    requires IsSqrt(root) && Overlap(a, b) >= 2 && !Flat(Left(a, b)) && !Flat(Right(a, b))
    ensures var u, v := Left(a, b), Right(a, b);
      && Square(Dot(u, v)) <= Times(Dot(u, u), Dot(v, v))
      && root(Times(Dot(u, u), Dot(v, v))) > 0.0
      && Pearson(a, b, root) == Over(Dot(u, v), root(Times(Dot(u, u), Dot(v, v))))
  {
    hide Times;
    hide Over;
    hide Centred;
    hide IsSqrt;
    var u, v := Left(a, b), Right(a, b);
    DotSelf(u);
    DotSelf(v);
    CauchySchwarz(u, v);
    RatioIsBounded(Dot(u, v), Dot(u, u), Dot(v, v), root);
    hide Ratio;
  }

  lemma PearsonIsExtreme(a: seq<real>, b: seq<real>, root: real -> real)
    requires IsSqrt(root)
    ensures -1.0 <= Pearson(a, b, root) <= 1.0
    ensures Pearson(a, b, root) == 1.0 <==>
      Overlap(a, b) >= 2 && !Flat(Right(a, b)) && exists k :: k > 0.0 && IsMultiple(Left(a, b), k, Right(a, b))
    ensures Pearson(a, b, root) == -1.0 <==>
      Overlap(a, b) >= 2 && !Flat(Right(a, b)) && exists k :: k < 0.0 && IsMultiple(Left(a, b), k, Right(a, b))
  {
    CoefficientIsExtreme(Left(a, b), Right(a, b), root);
    hide Coefficient;
    hide Flat;
    hide IsMultiple;
    hide IsSqrt;
    hide Centred;
  }

  lemma PearsonIsSymmetric(a: seq<real>, b: seq<real>, root: real -> real)
    requires IsSqrt(root)
    ensures Pearson(a, b, root) == Pearson(b, a, root)
  {
    hide Times;
    hide Over;
    hide IsSqrt;
    var u, v := Left(a, b), Right(a, b);
    DotCommutes(u, v);
    DotSelf(u);
    DotSelf(v);
    hide Centred;
    TimesCommutes(Dot(u, u), Dot(v, v));
  }

  /** Points older than the overlap do not matter: only the most recent of the longer series are compared. */
  lemma OlderPointsDoNotMatter(older: seq<real>, a: seq<real>, b: seq<real>, root: real -> real)
    requires IsSqrt(root)
    ensures |b| <= |a| ==> Pearson(older + a, b, root) == Pearson(a, b, root)
    ensures |a| <= |b| ==> Pearson(a, older + b, root) == Pearson(a, b, root)
  {
    hide IsSqrt;
    hide Coefficient;
    if |b| <= |a| {
      assert (older + a)[|older + a| - |b|..] == a[|a| - |b|..];
    }
    if |a| <= |b| {
      assert (older + b)[|older + b| - |a|..] == b[|b| - |a|..];
    }
  }

  /** Of two series of one length, nothing is left out: r is their covariance over the root of the product of their
      variances, all about the means, and zero if there are fewer than two points or one of the series is constant. */
  lemma PearsonOfEqualLengths(a: seq<real>, b: seq<real>, root: real -> real)
    requires IsSqrt(root) && |a| == |b|
    ensures var u, v := Centred(a), Centred(b);
      if |a| < 2 || Constant(a) || Constant(b) then Pearson(a, b, root) == 0.0
      else root(Times(Dot(u, u), Dot(v, v))) > 0.0 &&
           Pearson(a, b, root) == Over(Dot(u, v), root(Times(Dot(u, u), Dot(v, v))))
  {
    if |a| >= 2 {
      assert Tail(a, |a|) == a && Tail(b, |a|) == b;
      FlatIsConstant(a);
      FlatIsConstant(b);
      if Constant(a) || Constant(b) {
        DotSelf(Centred(a));
        DotSelf(Centred(b));
      } else {
        PearsonClampIsIdle(a, b, root);
      }
    }
    hide Pearson;
    hide Times;
    hide Dot;
    hide Constant;
    hide Flat;
  }

  /** The matrix's forced unit diagonal is the self-correlation exactly for the series that have one. */
  lemma SelfPearson(s: seq<real>, root: real -> real)
    requires IsSqrt(root)
    ensures Pearson(s, s, root) == if |s| >= 2 && !Constant(s) then 1.0 else 0.0
  {
    if |s| >= 2 {
      assert Tail(s, |s|) == s;
      FlatIsConstant(s);
      var u := Centred(s);
      CoefficientIsExtreme(u, u, root);
      DotSelf(u);
      hide IsSqrt;
      if !Flat(u) {
        assert IsMultiple(u, 1.0, u);
      }
    }
  }

  // ---------------------------------------------------------------- affine maps

  lemma {:induction false} SumOfAffine(s: seq<real>, c: real, d: real)
    ensures Sum(Affine(s, c, d)) == Times(c, Sum(s)) + Times(d, |s| as real)
  {
    hide Times;
    var n := |s| - 1;
    if s == [] {
      TimesIsZero(c, 0.0);
      TimesIsZero(d, 0.0);
    } else {
      SumOfAffine(s[..n], c, d);
      assert Affine(s, c, d)[..n] == Affine(s[..n], c, d);
      TimesDistributesRight(c, Sum(s[..n]), s[n]);
      TimesDistributesRight(d, n as real, 1.0);
      TimesOne(d);
    }
  }

  lemma MeanOfAffine(c: real, d: real, sum: real, n: real)
    requires n != 0.0
    ensures Over(Times(c, sum) + Times(d, n), n) == Times(c, Over(sum, n)) + d
  {
  }

  lemma CentredAffine(s: seq<real>, c: real, d: real)
    ensures IsMultiple(Centred(Affine(s, c, d)), c, Centred(s))
  {
    if s != [] {
      hide Times;
      hide Over;
      SumOfAffine(s, c, d);
      MeanOfAffine(c, d, Sum(s), |s| as real);
      var m := Mean(s);
      forall i | 0 <= i < |s| ensures Centred(Affine(s, c, d))[i] == Times(c, Centred(s)[i]) {
        TimesDistributesRight(c, s[i], -m);
        TimesNegated(c, m);
      }
    }
  }

  lemma RootIsUnique(v: real, x: real, root: real -> real)
    requires IsSqrt(root) && x >= 0.0 && Square(x) == v
    ensures root(v) == x
  {
    SquareIsPositive(x);
    var r := root(v);
    assert r >= 0.0 && Square(r) == v;
    hide Square;
    if r < x { SquareGrows(r, x); } else { SquareGrows(x, r); if x < r { SquareGrows(x, r); } }
  }

  lemma ScaledQuotient(c: real, k: real, cov: real, r: real)
    requires r > 0.0 && ((c > 0.0 && k == c) || (c < 0.0 && k == -c))
    ensures Times(k, r) > 0.0
    ensures Over(Times(c, cov), Times(k, r)) == if c > 0.0 then Over(cov, r) else -Over(cov, r)
  {
  }

  lemma ScaledRatio(c: real, cov: real, vx: real, vy: real, root: real -> real)
    requires IsSqrt(root) && c != 0.0 && vx >= 0.0 && vy >= 0.0
    ensures Times(Square(c), vx) >= 0.0
    ensures Ratio(Times(c, cov), Times(Square(c), vx), vy, root)
         == if c > 0.0 then Ratio(cov, vx, vy, root) else -Ratio(cov, vx, vy, root)
  {
    hide Times;
    hide Over;
    SquareIsPositive(c);
    TimesIsZero(Square(c), vx);
    if vx > 0.0 { TimesPositive(Square(c), vx); }
    if vx > 0.0 && vy > 0.0 {
      var k := if c > 0.0 then c else -c;
      RootIsPositive(vx, vy, root);
      var r := root(Times(vx, vy));
      NegatedSquare(c);
      SquareOfProduct(k, r);
      TimesAssociates(Square(c), vx, vy);
      TimesPositive(k, r);
      RootIsUnique(Times(Times(Square(c), vx), vy), Times(k, r), root);
      ScaledQuotient(c, k, cov, r);
    }
    hide Square;
    hide IsSqrt;
  }

  lemma DotsOfMultiple(u: seq<real>, w: seq<real>, v: seq<real>, c: real)
    requires IsMultiple(w, c, u) && |u| == |v|
    ensures Dot(w, v) == Times(c, Dot(u, v)) && Dot(w, w) == Times(Square(c), Dot(u, u))
  {
    hide Times;
    DotOfMultiple(w, c, u, v);
    DotOfMultiple(w, c, u, w);
    DotCommutes(u, w);
    DotOfMultiple(w, c, u, u);
    TimesAssociates(c, c, Dot(u, u));
    SquareIsSelfTimes(c);
    hide Square;
    hide Dot;
  }

  /** A multiple of the first series keeps the coefficient or turns its sign. */
  lemma CoefficientOfMultiple(u: seq<real>, w: seq<real>, v: seq<real>, c: real, root: real -> real)
    requires IsSqrt(root) && c != 0.0 && IsMultiple(w, c, u) && |u| == |v|
    ensures Coefficient(w, v, root) == if c > 0.0 then Coefficient(u, v, root) else -Coefficient(u, v, root)
  {
    hide Times;
    hide Square;
    hide Ratio;
    hide IsSqrt;
    hide Dot;
    DotsOfMultiple(u, w, v, c);
    DotSelf(u);
    DotSelf(v);
    ScaledRatio(c, Dot(u, v), Dot(u, u), Dot(v, v), root);
    hide IsMultiple;
  }

  /** r is unchanged by positive affine maps and negated by decreasing ones. */
  lemma PearsonIsAffineInvariant(a: seq<real>, b: seq<real>, c: real, d: real, root: real -> real)
    requires IsSqrt(root) && c != 0.0
    ensures Pearson(Affine(a, c, d), b, root) == if c > 0.0 then Pearson(a, b, root) else -Pearson(a, b, root)
  {
    hide IsSqrt;
    hide Centred;
    hide Coefficient;
    var n := Overlap(a, b);
    if n >= 2 {
      var s := Tail(a, n);
      assert Tail(Affine(a, c, d), n) == Affine(s, c, d);
      CentredAffine(s, c, d);
      CoefficientOfMultiple(Centred(s), Centred(Affine(s, c, d)), Centred(Tail(b, n)), c, root);
    }
    hide IsMultiple;
  }

  // ---------------------------------------------------------------- the matrix

  /** The source's double loop. */
  method CorrelationMatrix(series: seq<seq<real>>, root: real -> real) returns (m: array2<real>)
    requires IsSqrt(root)
    ensures fresh(m) && m.Length0 == m.Length1 == |series|
    ensures forall i, j :: 0 <= i < |series| && 0 <= j < |series| ==>
      m[i, j] == if i == j then 1.0 else Pearson(series[i], series[j], root)
  {
    hide Pearson;
    hide IsSqrt;
    var n := |series|;
    m := new real[n, n]((i, j) => 0.0);
    for i := 0 to n
      invariant forall p, q :: 0 <= p < n && 0 <= q < n && (p < i || q < i) ==>
        m[p, q] == if p == q then 1.0 else Pearson(series[p], series[q], root)
    {
      m[i, i] := 1.0;
      for j := i + 1 to n
        invariant m[i, i] == 1.0
        invariant forall p, q :: 0 <= p < n && 0 <= q < n && (p < i || q < i) ==>
          m[p, q] == if p == q then 1.0 else Pearson(series[p], series[q], root)
        invariant forall q :: i < q < j ==>
          m[i, q] == Pearson(series[i], series[q], root) && m[q, i] == Pearson(series[q], series[i], root)
      {
        var r := ComputePearson(series[i], series[j], root);
        PearsonIsSymmetric(series[i], series[j], root);
        m[i, j] := r;
        m[j, i] := r;
      }
    }
  }
}
