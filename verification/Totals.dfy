/** Weighted totals over a sequence of thread states. A 0/1 weight counts threads; other weights
    are used for termination measures and sums of values. */
module Totals {

  function Total<T>(s: seq<T>, f: T -> nat): nat {
    if s == [] then 0 else f(s[0]) + Total(s[1..], f)
  }

  /** Replacing one element moves the total by the difference of the two weights. */
  lemma {:induction false} TotalUpdate<T>(s: seq<T>, i: nat, x: T, f: T -> nat)
    requires i < |s|
    ensures Total(s[i := x], f) + f(s[i]) == Total(s, f) + f(x)
  {
    if i == 0 {
      assert s[i := x][1..] == s[1..];
    } else {
      assert s[i := x][1..] == s[1..][i - 1 := x];
      TotalUpdate(s[1..], i - 1, x, f);
    }
  }

  /** No element weighs more than the whole. */
  lemma {:induction false} TotalAtLeast<T>(s: seq<T>, i: nat, f: T -> nat)
    requires i < |s|
    ensures f(s[i]) <= Total(s, f)
  {
    if i > 0 {
      TotalAtLeast(s[1..], i - 1, f);
    }
  }

  /** Two distinct elements together weigh no more than the whole. */
  lemma {:induction false} TotalAtLeastTwo<T>(s: seq<T>, i: nat, j: nat, f: T -> nat)
    requires i < j < |s|
    ensures f(s[i]) + f(s[j]) <= Total(s, f)
  {
    if i > 0 {
      TotalAtLeastTwo(s[1..], i - 1, j - 1, f);
    } else {
      TotalAtLeast(s[1..], j - 1, f);
    }
  }

  /** A positive total has an element of positive weight. */
  lemma {:induction false} TotalWitness<T>(s: seq<T>, f: T -> nat) returns (i: nat)
    requires Total(s, f) > 0
    ensures i < |s| && f(s[i]) > 0
  {
    if f(s[0]) > 0 {
      i := 0;
    } else {
      var j := TotalWitness(s[1..], f);
      i := j + 1;
    }
  }

  function Times(d: nat, n: nat): nat {
    if n == 0 then 0 else d + Times(d, n - 1)
  }

  lemma {:induction false} TimesIsProduct(d: nat, n: nat)
    ensures Times(d, n) == d * n
  {
    if n > 0 {
      TimesIsProduct(d, n - 1);
      assert d * n == d * (n - 1) + d;
    }
  }

  lemma {:induction false} TotalBoundTimes<T>(s: seq<T>, t: seq<T>, f: T -> nat, g: T -> nat, d: nat)
    requires |s| == |t|
    requires forall i :: 0 <= i < |s| ==> f(s[i]) <= g(t[i]) + d
    ensures Total(s, f) <= Total(t, g) + Times(d, |s|)
  {
    if s != [] {
      assert f(s[0]) <= g(t[0]) + d;
      assert forall i :: 0 <= i < |s[1..]| ==> s[1..][i] == s[i + 1] && t[1..][i] == t[i + 1];
      TotalBoundTimes(s[1..], t[1..], f, g, d);
    }
  }

  /** Elementwise domination, up to a constant per element, carries over to totals. */
  lemma TotalBound<T>(s: seq<T>, t: seq<T>, f: T -> nat, g: T -> nat, d: nat)
    requires |s| == |t|
    requires forall i :: 0 <= i < |s| ==> f(s[i]) <= g(t[i]) + d
    ensures Total(s, f) <= Total(t, g) + d * |s|
  {
    TotalBoundTimes(s, t, f, g, d);
    TimesIsProduct(d, |s|);
  }

  /** Elementwise equal weights have equal totals. */
  lemma TotalSame<T>(s: seq<T>, t: seq<T>, f: T -> nat, g: T -> nat)
    requires |s| == |t|
    requires forall i :: 0 <= i < |s| ==> f(s[i]) == g(t[i])
    ensures Total(s, f) == Total(t, g)
  {
    TotalBound(s, t, f, g, 0);
    TotalBound(t, s, g, f, 0);
  }

  lemma TotalZero<T>(s: seq<T>, f: T -> nat)
    requires forall i :: 0 <= i < |s| ==> f(s[i]) == 0
    ensures Total(s, f) == 0
  {
    if Total(s, f) > 0 {
      var i := TotalWitness(s, f);
    }
  }

  lemma {:induction false} TotalAppend<T>(s: seq<T>, x: T, f: T -> nat)
    ensures Total(s + [x], f) == Total(s, f) + f(x)
  {
    if s != [] {
      assert (s + [x])[1..] == s[1..] + [x];
      TotalAppend(s[1..], x, f);
    }
  }

  lemma {:induction false} TotalConcat<T>(a: seq<T>, b: seq<T>, f: T -> nat)
    ensures Total(a + b, f) == Total(a, f) + Total(b, f)
  {
    if a == [] {
      assert a + b == b;
    } else {
      assert (a + b)[1..] == a[1..] + b;
      TotalConcat(a[1..], b, f);
    }
  }

  lemma {:induction false} TotalOnes<T>(s: seq<T>, f: T -> nat)
    requires forall i :: 0 <= i < |s| ==> f(s[i]) == 1
    ensures Total(s, f) == |s|
  {
    if s != [] {
      assert forall i :: 0 <= i < |s[1..]| ==> s[1..][i] == s[i + 1];
      TotalOnes(s[1..], f);
    }
  }

  /** Elementwise domination that is strict somewhere is strict on totals. */
  lemma {:induction false} TotalStrict<T>(s: seq<T>, i: nat, f: T -> nat, g: T -> nat)
    requires i < |s| && f(s[i]) < g(s[i])
    requires forall j :: 0 <= j < |s| ==> f(s[j]) <= g(s[j])
    ensures Total(s, f) < Total(s, g)
  {
    assert forall j :: 0 <= j < |s[1..]| ==> s[1..][j] == s[j + 1];
    if i == 0 {
      TotalBound(s[1..], s[1..], f, g, 0);
    } else {
      TotalStrict(s[1..], i - 1, f, g);
    }
  }
}
