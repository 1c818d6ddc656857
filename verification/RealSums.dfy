/** Sums of reals, and what scaling and bounding the entries does to them. */
module RealSums {

  function Abs(x: real): real { if x < 0.0 then -x else x }
  function Min(x: real, y: real): real { if x <= y then x else y }
  function Max(x: real, y: real): real { if x < y then y else x }
  function Clamp(x: real, lo: real, hi: real): real { if x < lo then lo else if hi < x then hi else x }
  predicate Unit(x: real) { 0.0 <= x <= 1.0 }

  /** x is y moved into [lo, hi]. */
  predicate MovedInto(x: real, y: real, lo: real, hi: real) {
    lo <= x <= hi && (lo <= y <= hi ==> x == y) && (y < lo ==> x == lo) && (hi < y ==> x == hi)
  }

  ghost predicate NonNegative(c: seq<real>) { forall i :: 0 <= i < |c| ==> c[i] >= 0.0 }

  function Sum(ts: seq<real>): real { if ts == [] then 0.0 else Sum(ts[..|ts| - 1]) + ts[|ts| - 1] }

  lemma MulMonotone(x: real, y: real, c: real)
    requires x <= y && 0.0 <= c
    ensures x * c <= y * c
  {
    assert 0.0 <= (y - x) * c;
  }

  ghost predicate AtMost(s: seq<real>, t: seq<real>) {
    |s| == |t| && forall i :: 0 <= i < |s| ==> s[i] <= t[i]
  }

  lemma {:induction false} SumAtMost(s: seq<real>, t: seq<real>)
    requires AtMost(s, t)
    ensures Sum(s) <= Sum(t)
  {
    if s != [] {
      SumAtMost(s[..|s| - 1], t[..|t| - 1]);
    }
  }

  lemma {:induction false} SumNonNegative(s: seq<real>)
    requires NonNegative(s)
    ensures Sum(s) >= 0.0
  {
    if s != [] {
      SumNonNegative(s[..|s| - 1]);
    }
  }

  lemma {:induction false} SumConcat(a: seq<real>, b: seq<real>)
    ensures Sum(a + b) == Sum(a) + Sum(b)
  {
    if b == [] {
      assert a + b == a;
    } else {
      var n := |b| - 1;
      SumConcat(a, b[..n]);
      assert (a + b)[..|a + b| - 1] == a + b[..n];
    }
  }

  lemma SumSnoc(s: seq<real>, x: real)
    ensures Sum(s + [x]) == Sum(s) + x
  {
    assert (s + [x])[..|s|] == s;
  }

  lemma SumPrepend(x: real, s: seq<real>)
    ensures Sum([x]) == x && Sum([x] + s) == x + Sum(s)
  {
    assert [x][..0] == [];
    SumConcat([x], s);
  }

  lemma {:induction false} SumUpdated(s: seq<real>, k: nat, x: real)
    requires k < |s|
    ensures Sum(s[k := x]) == Sum(s) - s[k] + x
  {
    var n := |s| - 1;
    if k < n {
      SumUpdated(s[..n], k, x);
      assert s[k := x][..n] == s[..n][k := x];
    } else {
      assert s[k := x][..n] == s[..n];
    }
  }

  lemma {:induction false} SumOfZeros(s: seq<real>)
    requires forall i :: 0 <= i < |s| ==> s[i] == 0.0
    ensures Sum(s) == 0.0
  {
    if s != [] {
      SumOfZeros(s[..|s| - 1]);
    }
  }

  ghost predicate Adds(g: real -> real, x: real, y: real) { g(x + y) == g(x) + g(y) }

  ghost predicate Additive(g: real -> real) {
    g(0.0) == 0.0 && forall x, y :: Adds(g, x, y)
  }

  ghost predicate Image(s: seq<real>, t: seq<real>, g: real -> real) {
    |s| == |t| && forall i :: 0 <= i < |s| ==> s[i] == g(t[i])
  }

  lemma {:induction false} SumOfImage(s: seq<real>, t: seq<real>, g: real -> real)
    requires Image(s, t, g) && Additive(g)
    ensures Sum(s) == g(Sum(t))
  {
    if s != [] {
      var n := |s| - 1;
      SumOfImage(s[..n], t[..n], g);
      assert Adds(g, Sum(t[..n]), t[n]);
    }
  }

  lemma ScalingIsAdditive(f: real)
    ensures Additive((x: real) => f * x)
  {
    var g := (x: real) => f * x;
    forall x, y ensures Adds(g, x, y) {
      Distribute(f, x, y);
    }
  }

  lemma Distribute(f: real, x: real, y: real)
    ensures f * (x + y) == f * x + f * y
  {
  }

  lemma FactorInUnit(cap: real, load: real)
    requires 0.0 <= cap < load
    ensures 0.0 <= cap / load <= 1.0 && cap / load * load == cap
  {
  }
}
