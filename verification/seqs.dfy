/** Sequence folds shared by the collectors: concatenating pages of a
    paginated listing, processing each item of a listing where one failure
    ends the whole listing, and summing. */
module Seqs {
  import opened Wrappers

  /** The items of every page, in page order. */
  function Concat<T>(xss: seq<seq<T>>): seq<T> {
    if |xss| == 0 then [] else Concat(xss[..|xss| - 1]) + xss[|xss| - 1]
  }

  function TotalLength<T>(xss: seq<seq<T>>): nat {
    if |xss| == 0 then 0 else TotalLength(xss[..|xss| - 1]) + |xss[|xss| - 1]|
  }

  /** Concatenation keeps every item: the pages, in order, are consecutive
      slices of the result. */
  lemma {:induction false} ConcatSlices<T>(xss: seq<seq<T>>)
    ensures |Concat(xss)| == TotalLength(xss)
    ensures forall k :: 0 <= k < |xss| ==>
              TotalLength(xss[..k]) + |xss[k]| <= |Concat(xss)|
              && Concat(xss)[TotalLength(xss[..k])..TotalLength(xss[..k]) + |xss[k]|] == xss[k]
  {
    if |xss| > 0 {
      var n := |xss| - 1;
      var init := xss[..n];
      var last := xss[n];
      ConcatSlices(init);
      var c0 := Concat(init);
      var c := Concat(xss);
      assert c == c0 + last;
      forall k | 0 <= k < |xss|
        ensures TotalLength(xss[..k]) + |xss[k]| <= |c|
        ensures c[TotalLength(xss[..k])..TotalLength(xss[..k]) + |xss[k]|] == xss[k]
      {
        if k < n {
          assert xss[..k] == init[..k] && xss[k] == init[k];
          SliceOfLeft(c0, last, TotalLength(init[..k]), |init[k]|);
        } else {
          assert xss[..k] == init;
          SliceOfRight(c0, last);
        }
      }
    }
  }

  lemma SliceOfLeft<T>(a: seq<T>, b: seq<T>, from: int, len: int)
    requires 0 <= from && 0 <= len && from + len <= |a|
    ensures (a + b)[from..from + len] == a[from..from + len]
  {
  }

  lemma SliceOfRight<T>(a: seq<T>, b: seq<T>)
    ensures (a + b)[|a|..|a| + |b|] == b
  {
  }

  /** Every item of the concatenation comes from one of the pages. */
  lemma {:induction false} ConcatMember<T>(xss: seq<seq<T>>, x: T)
    requires x in Concat(xss)
    ensures exists i :: 0 <= i < |xss| && x in xss[i]
  {
    var init := xss[..|xss| - 1];
    if x in Concat(init) {
      ConcatMember(init, x);
      var i :| 0 <= i < |init| && x in init[i];
      assert xss[i] == init[i];
    } else {
      assert x in xss[|xss| - 1];
    }
  }

  /** Being a prefix is transitive. */
  lemma PrefixTrans<T>(a: seq<T>, b: seq<T>, c: seq<T>)
    requires a <= b && b <= c
    ensures a <= c
  {
    assert b == c[..|b|];
    assert a == b[..|a|] == c[..|a|];
  }

  /** `[f(x) for x in xs]` where `f` may raise: the first error ends the listing. */
  function MapResult<A, B>(f: A -> Result<B>, xs: seq<A>): Result<seq<B>> {
    if |xs| == 0 then Success([])
    else match MapResult(f, xs[..|xs| - 1])
      case Failure(e) => Failure(e)
      case Success(ys) =>
        match f(xs[|xs| - 1])
        case Failure(e) => Failure(e)
        case Success(y) => Success(ys + [y])
  }

  /** The listing succeeds iff every item does, with one result per item,
      in order; otherwise the error is that of the first failing item. */
  lemma {:induction false} MapResultAll<A, B>(f: A -> Result<B>, xs: seq<A>)
    ensures MapResult(f, xs).Success? <==> forall i :: 0 <= i < |xs| ==> f(xs[i]).Success?
    ensures MapResult(f, xs).Success? ==>
              |MapResult(f, xs).value| == |xs|
              && forall i :: 0 <= i < |xs| ==> MapResult(f, xs).value[i] == f(xs[i]).value
    ensures MapResult(f, xs).Failure? ==>
              exists k :: 0 <= k < |xs| && f(xs[k]).Failure? && MapResult(f, xs).error == f(xs[k]).error
                          && forall i :: 0 <= i < k ==> f(xs[i]).Success?
  {
    if |xs| > 0 {
      var init := xs[..|xs| - 1];
      MapResultAll(f, init);
      assert forall i :: 0 <= i < |init| ==> init[i] == xs[i];
      if MapResult(f, init).Failure? {
        var k :| 0 <= k < |init| && f(init[k]).Failure? && MapResult(f, init).error == f(init[k]).error
                 && forall i :: 0 <= i < k ==> f(init[i]).Success?;
        assert xs[k] == init[k];
      }
    }
  }

  /** The index of the first item satisfying `p`, if any: a `for` loop
      that breaks at its first hit. */
  function FindFirst<T>(xs: seq<T>, p: T -> bool): (r: Option<nat>)
    ensures r.Some? ==> r.value < |xs| && p(xs[r.value]) && forall j :: 0 <= j < r.value ==> !p(xs[j])
    ensures r.None? <==> forall j :: 0 <= j < |xs| ==> !p(xs[j])
  {
    if |xs| == 0 then None
    else if p(xs[0]) then Some(0)
    else match FindFirst(xs[1..], p)
      case None => None
      case Some(k) => Some(k + 1)
  }

  /** `[x for x in xs if p(x)]`. */
  function Filter<T>(xs: seq<T>, p: T -> bool): (r: seq<T>)
    ensures forall i :: 0 <= i < |r| ==> r[i] in xs && p(r[i])
    ensures forall i :: 0 <= i < |xs| && p(xs[i]) ==> xs[i] in r
    ensures |r| <= |xs|
    ensures (forall i :: 0 <= i < |xs| ==> !p(xs[i])) ==> r == []
  {
    if |xs| == 0 then []
    else
      var last := xs[|xs| - 1];
      assert forall i :: 0 <= i < |xs| - 1 ==> xs[i] == xs[..|xs| - 1][i];
      Filter(xs[..|xs| - 1], p) + (if p(last) then [last] else [])
  }

  /** Every item filtering keeps has each property every item has. */
  lemma FilterAll<T>(xs: seq<T>, p: T -> bool, q: T -> bool)
    requires forall i :: 0 <= i < |xs| ==> q(xs[i])
    ensures forall j :: 0 <= j < |Filter(xs, p)| ==> q(Filter(xs, p)[j])
  {
    var r := Filter(xs, p);
    forall j | 0 <= j < |r| ensures q(r[j]) {
      var i :| 0 <= i < |xs| && xs[i] == r[j];
    }
  }

  /** Filtering keeps the order: filtering two lists one after the other
      is filtering their concatenation. */
  lemma {:induction false} FilterConcat<T>(a: seq<T>, b: seq<T>, p: T -> bool)
    ensures Filter(a + b, p) == Filter(a, p) + Filter(b, p)
  {
    if |b| == 0 {
      assert a + b == a;
    } else {
      assert (a + b)[..|a + b| - 1] == a + b[..|b| - 1];
      FilterConcat(a, b[..|b| - 1], p);
    }
  }

  /** `[d for x in xs if (d := f(x)) is not None]`: the results that are present, in order. */
  function FilterMap<T, U>(xs: seq<T>, f: T -> Option<U>): (r: seq<U>)
    ensures |r| <= |xs|
  {
    if |xs| == 0 then []
    else FilterMap(xs[..|xs| - 1], f) + (match f(xs[|xs| - 1]) case Some(d) => [d] case None => [])
  }

  /** When `f` gives a result exactly on the items satisfying `p`, the
      results are those of the items `p` keeps, in order. */
  lemma {:induction false} FilterMapIsMapOfFilter<T, U>(xs: seq<T>, f: T -> Option<U>, p: T -> bool)
    requires forall x :: x in xs ==> (f(x).Some? <==> p(x))
    ensures |FilterMap(xs, f)| == |Filter(xs, p)|
    ensures forall i :: 0 <= i < |Filter(xs, p)| ==> FilterMap(xs, f)[i] == f(Filter(xs, p)[i]).value
  {
    if |xs| > 0 {
      var n := |xs| - 1;
      var init := xs[..n];
      var last := xs[n];
      assert forall x :: x in init ==> x in xs;
      FilterMapIsMapOfFilter(init, f, p);
      var c0 := Filter(init, p);
      var r0 := FilterMap(init, f);
      var c := Filter(xs, p);
      var r := FilterMap(xs, f);
      assert c == c0 + (if p(last) then [last] else []);
      assert r == r0 + (match f(last) case Some(d) => [d] case None => []);
      forall i | 0 <= i < |c| ensures r[i] == f(c[i]).value {
        if i < |c0| {
          assert c[i] == c0[i] && r[i] == r0[i];
        }
      }
    }
  }

  function Sum(xs: seq<int>): int {
    if |xs| == 0 then 0 else Sum(xs[..|xs| - 1]) + xs[|xs| - 1]
  }

  lemma {:induction false} SumAppend(xs: seq<int>, ys: seq<int>)
    ensures Sum(xs + ys) == Sum(xs) + Sum(ys)
  {
    if |ys| > 0 {
      assert (xs + ys)[..|xs + ys| - 1] == xs + ys[..|ys| - 1];
      SumAppend(xs, ys[..|ys| - 1]);
    } else {
      assert xs + ys == xs;
    }
  }

  lemma {:induction false} SumNonNegative(xs: seq<int>)
    requires forall i :: 0 <= i < |xs| ==> xs[i] >= 0
    ensures Sum(xs) >= 0
  {
    if |xs| > 0 {
      SumNonNegative(xs[..|xs| - 1]);
    }
  }
}
