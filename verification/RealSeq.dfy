/** Sums and extrema of sequences of exact reals, shared by the numeric modules. */
module RealSeq {

  function Max2(a: real, b: real): real { if a >= b then a else b }

  function Min2(a: real, b: real): real { if a <= b then a else b }

  /** A product with a name, so that a proof can hide the non-linear arithmetic. */
  function Times(a: real, b: real): real { a * b }

  /** A quotient with a name, for the same reason. */
  function Over(a: real, b: real): real
    requires b != 0.0
  {
    a / b
  }

  lemma OverTimes(a: real, b: real)
    requires b != 0.0
    ensures Times(Over(a, b), b) == a
  {
  }

  lemma TimesDistributes(a: real, b: real, c: real)
    ensures Times(a + b, c) == Times(a, c) + Times(b, c)
  {
  }

  lemma TimesPositive(a: real, b: real)
    requires a > 0.0 && b > 0.0
    ensures Times(a, b) > 0.0
  {
  }

  lemma TimesMonotone(a: real, b: real, c: real)
    requires a <= b && c >= 0.0
    ensures Times(a, c) <= Times(b, c) && Times(c, a) <= Times(c, b)
    ensures a < b && c > 0.0 ==> Times(a, c) < Times(b, c)
  {
    var d := b - a;
    assert Times(b, c) == Times(a, c) + d * c && Times(c, b) == Times(b, c) && Times(c, a) == Times(a, c);
    assert d * c >= 0.0;
    if d > 0.0 && c > 0.0 { assert d * c > 0.0; }
  }

  lemma TimesIsZero(a: real, b: real)
    ensures Times(a, b) == 0.0 <==> a == 0.0 || b == 0.0
  {
  }

  lemma TimesNegated(a: real, b: real)
    ensures Times(-a, b) == -Times(a, b) == Times(a, -b)
  {
  }

  lemma TimesCommutes(a: real, b: real)
    ensures Times(a, b) == Times(b, a)
  {
  }

  lemma TimesDistributesRight(c: real, a: real, b: real)
    ensures Times(c, a + b) == Times(c, a) + Times(c, b)
  {
  }

  lemma TimesAssociates(a: real, b: real, c: real)
    ensures Times(Times(a, b), c) == Times(a, Times(b, c))
  {
  }

  lemma TimesOne(d: real)
    ensures Times(d, 1.0) == d == Times(1.0, d)
  {
  }

  lemma OverUndoesTimes(a: real, b: real)
    requires b != 0.0
    ensures Over(Times(a, b), b) == a
  {
  }

  function Square(a: real): real { Times(a, a) }

  lemma SquareIsPositive(a: real)
    ensures Square(a) >= 0.0
    ensures Square(a) == 0.0 <==> a == 0.0
  {
    hide Times;
    if a > 0.0 {
      TimesPositive(a, a);
    } else if a < 0.0 {
      TimesPositive(-a, -a);
      TimesNegated(a, -a);
      TimesNegated(a, a);
    } else {
      TimesIsZero(a, a);
    }
  }

  lemma SquareGrows(s: real, t: real)
    requires 0.0 <= s <= t
    ensures Square(s) <= Square(t)
    ensures s < t ==> Square(s) < Square(t)
  {
    TimesMonotone(s, t, s);
    TimesMonotone(s, t, t);
    hide Times;
  }

  lemma NegatedSquare(c: real)
    ensures Square(-c) == Square(c)
  {
    TimesNegated(c, c);
    TimesNegated(c, -c);
    hide Times;
  }

  lemma SquareIsSelfTimes(a: real)
    ensures Square(a) == Times(a, a)
  {
  }

  lemma SquareOfProduct(k: real, r: real)
    ensures Square(Times(k, r)) == Times(Square(k), Square(r))
  {
  }

  /** The left-to-right sum, `reduce((a, b) => a + b, 0)`. */
  function Sum(s: seq<real>): real {
    if s == [] then 0.0 else Sum(s[..|s| - 1]) + s[|s| - 1]
  }

  function Max(s: seq<real>): real
    requires s != []
  {
    if |s| == 1 then s[0] else Max2(Max(s[..|s| - 1]), s[|s| - 1])
  }

  function Min(s: seq<real>): real
    requires s != []
  {
    if |s| == 1 then s[0] else Min2(Min(s[..|s| - 1]), s[|s| - 1])
  }

  ghost predicate NonNegative(s: seq<real>) { forall i :: 0 <= i < |s| ==> s[i] >= 0.0 }

  ghost predicate Positive(s: seq<real>) { forall i :: 0 <= i < |s| ==> s[i] > 0.0 }

  ghost predicate Descending(s: seq<real>) { forall i, j :: 0 <= i <= j < |s| ==> s[i] >= s[j] }

  lemma {:induction false} SumConcat(a: seq<real>, b: seq<real>)
    ensures Sum(a + b) == Sum(a) + Sum(b)
    decreases |b|
  {
    if b == [] {
      assert a + b == a;
    } else {
      assert (a + b)[..|a + b| - 1] == a + b[..|b| - 1];
      SumConcat(a, b[..|b| - 1]);
    }
  }

  lemma SumSplit(s: seq<real>, k: nat)
    requires k <= |s|
    ensures Sum(s) == Sum(s[..k]) + Sum(s[k..])
  {
    assert s == s[..k] + s[k..];
    SumConcat(s[..k], s[k..]);
  }

  lemma SumFront(s: seq<real>)
    requires s != []
    ensures Sum(s) == s[0] + Sum(s[1..])
  {
    SumSplit(s, 1);
    assert s[..1][..0] == [];
  }

  lemma {:induction false} SumNonNegative(s: seq<real>)
    requires NonNegative(s)
    ensures Sum(s) >= 0.0
    ensures Sum(s) == 0.0 <==> forall i :: 0 <= i < |s| ==> s[i] == 0.0
  {
    if s != [] {
      var p := s[..|s| - 1];
      SumNonNegative(p);
      if Sum(s) == 0.0 {
        forall i | 0 <= i < |s| ensures s[i] == 0.0 {
          if i < |p| { assert p[i] == s[i]; }
        }
      }
    }
  }

  lemma {:induction false} MaxIsLargest(s: seq<real>)
    requires s != []
    ensures Max(s) in s
    ensures forall i :: 0 <= i < |s| ==> s[i] <= Max(s)
  {
    if |s| > 1 {
      var p := s[..|s| - 1];
      MaxIsLargest(p);
      forall i | 0 <= i < |s| ensures s[i] <= Max(s) {
        if i < |p| { assert p[i] == s[i]; }
      }
      assert Max(s) in s by {
        assert forall v :: v in p ==> v in s;
        assert s[|s| - 1] in s;
      }
    }
  }

  lemma {:induction false} MinIsSmallest(s: seq<real>)
    requires s != []
    ensures Min(s) in s
    ensures forall i :: 0 <= i < |s| ==> Min(s) <= s[i]
  {
    if |s| > 1 {
      var p := s[..|s| - 1];
      MinIsSmallest(p);
      forall i | 0 <= i < |s| ensures Min(s) <= s[i] {
        if i < |p| { assert p[i] == s[i]; }
      }
      assert Min(s) in s by {
        assert forall v :: v in p ==> v in s;
        assert s[|s| - 1] in s;
      }
    }
  }

  // ---------------------------------------------------------------- means and moments

  /** `Math.sqrt` in exact arithmetic: any function that squares back to its argument. */
  ghost predicate IsSqrt(root: real -> real) {
    forall v: real :: v >= 0.0 ==> root(v) >= 0.0 && Square(root(v)) == v
  }

  function Mean(s: seq<real>): real
    requires s != []
  {
    Over(Sum(s), |s| as real)
  }

  function Shifted(s: seq<real>, m: real): (t: seq<real>)
    ensures |t| == |s|
  {
    seq(|s|, i requires 0 <= i < |s| => s[i] - m)
  }

  /** A series with its mean taken off. */
  function Centred(s: seq<real>): (t: seq<real>)
    ensures |t| == |s|
  {
    if s == [] then [] else Shifted(s, Mean(s))
  }

  function Dot(u: seq<real>, v: seq<real>): real
    requires |u| == |v|
  {
    if u == [] then 0.0
    else
      var n := |u| - 1;
      Dot(u[..n], v[..n]) + Times(u[n], v[n])
  }

  ghost predicate Flat(u: seq<real>) { forall i :: 0 <= i < |u| ==> u[i] == 0.0 }

  lemma {:induction false} DotSelf(u: seq<real>)
    ensures Dot(u, u) >= 0.0
    ensures Dot(u, u) == 0.0 <==> Flat(u)
  {
    hide Times;
    hide Square;
    if u != [] {
      var n := |u| - 1;
      DotSelf(u[..n]);
      SquareIsSelfTimes(u[n]);
      SquareIsPositive(u[n]);
      if Flat(u) { assert Flat(u[..n]) && u[n] == 0.0; }
      if Flat(u[..n]) && u[n] == 0.0 { assert forall i :: 0 <= i < |u| ==> u[i] == if i < n then u[..n][i] else u[n]; }
    }
  }

  ghost predicate IsMultiple(u: seq<real>, k: real, v: seq<real>) {
    |u| == |v| && forall i :: 0 <= i < |u| ==> u[i] == Times(k, v[i])
  }

  lemma {:induction false} DotCommutes(u: seq<real>, v: seq<real>)
    requires |u| == |v|
    ensures Dot(u, v) == Dot(v, u)
  {
    hide Times;
    if u != [] {
      var n := |u| - 1;
      DotCommutes(u[..n], v[..n]);
      TimesCommutes(u[n], v[n]);
    }
  }

  lemma {:induction false} DotOfMultiple(u: seq<real>, k: real, v: seq<real>, w: seq<real>)
    requires IsMultiple(u, k, v) && |w| == |u|
    ensures Dot(u, w) == Times(k, Dot(v, w))
  {
    hide Times;
    if u == [] {
      TimesIsZero(k, 0.0);
    } else {
      var n := |u| - 1;
      DotOfMultiple(u[..n], k, v[..n], w[..n]);
      TimesDistributesRight(k, Dot(v[..n], w[..n]), Times(v[n], w[n]));
      TimesAssociates(k, v[n], w[n]);
    }
  }

  ghost predicate Constant(s: seq<real>) { forall i, j :: 0 <= i < |s| && 0 <= j < |s| ==> s[i] == s[j] }

  lemma {:induction false} SumOfConstant(s: seq<real>, c: real)
    requires forall i :: 0 <= i < |s| ==> s[i] == c
    ensures Sum(s) == Times(c, |s| as real)
  {
    if s != [] {
      SumOfConstant(s[..|s| - 1], c);
    }
  }

  lemma FlatIsConstant(s: seq<real>)
    requires s != []
    ensures Flat(Centred(s)) <==> Constant(s)
  {
    var m := Mean(s);
    if Constant(s) {
      SumOfConstant(s, s[0]);
      OverUndoesTimes(s[0], |s| as real);
      hide Times;
      hide Over;
    } else {
      var i, j :| 0 <= i < |s| && 0 <= j < |s| && s[i] != s[j];
      assert Centred(s)[i] - Centred(s)[j] == s[i] - s[j];
    }
  }

  function Affine(s: seq<real>, c: real, d: real): (t: seq<real>)
    ensures |t| == |s|
  {
    seq(|s|, i requires 0 <= i < |s| => Times(c, s[i]) + d)
  }
}
