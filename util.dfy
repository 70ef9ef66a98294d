/** Generic sequence helpers shared by the parser and the aggregation engine:
    an Option type, Array.prototype.filter (Keep), a first-match search and a
    last-match search, with the lemmas that characterise them. */
module Util {

  datatype Option<+T> = None | Some(value: T)

  /** Array.prototype.filter: the elements of xs satisfying p, in order. */
  function Keep<T>(xs: seq<T>, p: T -> bool): (r: seq<T>)
    ensures |r| <= |xs|
    ensures forall i :: 0 <= i < |r| ==> p(r[i])
  {
    if xs == [] then []
    else if p(xs[0]) then [xs[0]] + Keep(xs[1..], p)
    else Keep(xs[1..], p)
  }

  /** Filtering keeps exactly the elements satisfying p, and each no more
      often than it occurs. */
  lemma {:induction false} KeepMembers<T>(xs: seq<T>, p: T -> bool)
    ensures forall x :: x in Keep(xs, p) <==> x in xs && p(x)
    ensures multiset(Keep(xs, p)) <= multiset(xs)
  {
    if xs != [] {
      KeepMembers(xs[1..], p);
      assert xs == [xs[0]] + xs[1..];
    }
  }

  lemma {:induction false} KeepAppend<T>(a: seq<T>, b: seq<T>, p: T -> bool)
    ensures Keep(a + b, p) == Keep(a, p) + Keep(b, p)
  {
    if a != [] {
      assert (a + b)[1..] == a[1..] + b;
      KeepAppend(a[1..], b, p);
    } else {
      assert a + b == b;
    }
  }

  /** Filtering twice is filtering once by the conjunction. */
  lemma {:induction false} KeepKeep<T>(xs: seq<T>, p: T -> bool, q: T -> bool, pq: T -> bool)
    requires forall x :: pq(x) == (p(x) && q(x))
    ensures Keep(Keep(xs, p), q) == Keep(xs, pq)
  {
    if xs != [] {
      KeepKeep(xs[1..], p, q, pq);
    }
  }

  /** Two predicates that agree on every element filter the same. */
  lemma {:induction false} KeepExt<T>(xs: seq<T>, p: T -> bool, q: T -> bool)
    requires forall i :: 0 <= i < |xs| ==> p(xs[i]) == q(xs[i])
    ensures Keep(xs, p) == Keep(xs, q)
  {
    if xs != [] {
      KeepExt(xs[1..], p, q);
    }
  }

  /** A filter whose predicate holds everywhere keeps everything. */
  lemma {:induction false} KeepAll<T>(xs: seq<T>, p: T -> bool)
    requires forall i :: 0 <= i < |xs| ==> p(xs[i])
    ensures Keep(xs, p) == xs
  {
    if xs != [] {
      KeepAll(xs[1..], p);
    }
  }

  /** Keep on a sequence with `k` taken out drops exactly the element at `k`
      when p rejects it. */
  lemma {:induction false} KeepDropsOne<T>(xs: seq<T>, k: nat, p: T -> bool)
    requires k < |xs|
    requires !p(xs[k])
    requires forall i :: 0 <= i < |xs| && i != k ==> p(xs[i])
    ensures Keep(xs, p) == xs[..k] + xs[k + 1..]
  {
    var pre, post := xs[..k], xs[k + 1..];
    assert xs == (pre + [xs[k]]) + post;
    KeepAppend(pre + [xs[k]], post, p);
    KeepAppend(pre, [xs[k]], p);
    assert Keep([xs[k]], p) == [] by {
      assert [xs[k]][1..] == [];
    }
    assert forall i :: 0 <= i < |pre| ==> p(pre[i]) by {
      forall i | 0 <= i < |pre| ensures p(pre[i]) { assert pre[i] == xs[i]; }
    }
    KeepAll(pre, p);
    assert forall i :: 0 <= i < |post| ==> p(post[i]) by {
      forall i | 0 <= i < |post| ensures p(post[i]) { assert post[i] == xs[k + 1 + i]; }
    }
    KeepAll(post, p);
  }

  /** Array.prototype.findIndex, with None for -1. */
  function FindIndex<T>(xs: seq<T>, p: T -> bool): (r: Option<nat>)
    ensures r.Some? ==> r.value < |xs|
  {
    if xs == [] then None
    else if p(xs[0]) then Some(0)
    else match FindIndex(xs[1..], p)
      case Some(i) => Some(i + 1)
      case None => None
  }

  /** findIndex returns the smallest index whose element satisfies p, and
      none exactly when no element does. */
  lemma {:induction false} FindIndexMeaning<T>(xs: seq<T>, p: T -> bool)
    ensures FindIndex(xs, p).Some? ==>
              p(xs[FindIndex(xs, p).value]) && forall j :: 0 <= j < FindIndex(xs, p).value ==> !p(xs[j])
    ensures FindIndex(xs, p).None? <==> forall j :: 0 <= j < |xs| ==> !p(xs[j])
  {
    if xs != [] && !p(xs[0]) {
      FindIndexMeaning(xs[1..], p);
      assert forall j :: 1 <= j < |xs| ==> xs[j] == xs[1..][j - 1];
    }
  }

  /** Conversely, the smallest index satisfying p is what findIndex finds. */
  lemma FindIndexAt<T>(xs: seq<T>, p: T -> bool, k: nat)
    requires k < |xs| && p(xs[k])
    requires forall j :: 0 <= j < k ==> !p(xs[j])
    ensures FindIndex(xs, p) == Some(k)
  {
    FindIndexMeaning(xs, p);
  }

  /** Array.prototype.find, with None for undefined. */
  function Find<T>(xs: seq<T>, p: T -> bool): Option<T>
  {
    match FindIndex(xs, p)
    case Some(i) => Some(xs[i])
    case None => None
  }

  /** The value produced by the first element on which f yields a value
      (the source's "first match wins" loops, and Array.prototype.find). */
  function First<A, T>(xs: seq<A>, f: A -> Option<T>): Option<T>
  {
    if xs == [] then None
    else if f(xs[0]).Some? then f(xs[0])
    else First(xs[1..], f)
  }

  /** First finds nothing exactly when no element yields a value. */
  lemma {:induction false} FirstNone<A, T>(xs: seq<A>, f: A -> Option<T>)
    ensures First(xs, f).None? <==> forall k :: 0 <= k < |xs| ==> f(xs[k]).None?
  {
    if xs != [] {
      FirstNone(xs[1..], f);
      assert forall k :: 1 <= k < |xs| ==> xs[k] == xs[1..][k - 1];
    }
  }

  /** First returns the result of the earliest element that yields one. */
  lemma {:induction false} FirstIsEarliest<A, T>(xs: seq<A>, f: A -> Option<T>)
    requires First(xs, f).Some?
    ensures exists k :: 0 <= k < |xs| && f(xs[k]) == First(xs, f) &&
                        forall j :: 0 <= j < k ==> f(xs[j]).None?
  {
    if f(xs[0]).None? {
      FirstIsEarliest(xs[1..], f);
      var k :| 0 <= k < |xs[1..]| && f(xs[1..][k]) == First(xs[1..], f) &&
               forall j :: 0 <= j < k ==> f(xs[1..][j]).None?;
      assert forall j :: 0 <= j < k + 1 ==> f(xs[j]).None? by {
        forall j | 0 <= j < k + 1 ensures f(xs[j]).None? {
          if j > 0 { assert xs[j] == xs[1..][j - 1]; }
        }
      }
      assert f(xs[k + 1]) == First(xs, f);
    } else {
      assert f(xs[0]) == First(xs, f);
    }
  }

  /** Conversely, the earliest element that yields a value determines First. */
  lemma {:induction false} FirstAt<A, T>(xs: seq<A>, f: A -> Option<T>, k: nat)
    requires k < |xs| && f(xs[k]).Some?
    requires forall j :: 0 <= j < k ==> f(xs[j]).None?
    ensures First(xs, f) == f(xs[k])
  {
    if k > 0 {
      assert f(xs[0]).None?;
      FirstAt(xs[1..], f, k - 1);
    }
  }

  /** Extending the sequence only matters when no earlier element matched:
      this is what lets a loop compute First one element at a time. */
  lemma {:induction false} FirstSnoc<A, T>(xs: seq<A>, x: A, f: A -> Option<T>)
    ensures First(xs + [x], f) == if First(xs, f).Some? then First(xs, f) else f(x)
  {
    if xs == [] {
      assert xs + [x] == [x];
      assert [x][1..] == [];
    } else {
      assert (xs + [x])[0] == xs[0];
      assert (xs + [x])[1..] == xs[1..] + [x];
      FirstSnoc(xs[1..], x, f);
    }
  }

  /** The value produced by the last element on which f yields one (the
      source's "last match wins" loop). */
  function Last<A, T>(xs: seq<A>, f: A -> Option<T>): Option<T>
  {
    if xs == [] then None
    else if f(xs[|xs| - 1]).Some? then f(xs[|xs| - 1])
    else Last(xs[..|xs| - 1], f)
  }

  /** Last finds nothing exactly when no element yields a value. */
  lemma {:induction false} LastNone<A, T>(xs: seq<A>, f: A -> Option<T>)
    ensures Last(xs, f).None? <==> forall k :: 0 <= k < |xs| ==> f(xs[k]).None?
  {
    if xs != [] {
      var init := xs[..|xs| - 1];
      LastNone(init, f);
      assert forall k :: 0 <= k < |init| ==> xs[k] == init[k];
    }
  }

  /** Last returns the result of the latest element that yields one. */
  lemma {:induction false} LastIsLatest<A, T>(xs: seq<A>, f: A -> Option<T>)
    requires Last(xs, f).Some?
    ensures exists k :: 0 <= k < |xs| && f(xs[k]) == Last(xs, f) &&
                        forall j :: k < j < |xs| ==> f(xs[j]).None?
  {
    var n := |xs| - 1;
    if f(xs[n]).None? {
      var init := xs[..n];
      LastIsLatest(init, f);
      var k :| 0 <= k < |init| && f(init[k]) == Last(init, f) &&
               forall j :: k < j < |init| ==> f(init[j]).None?;
      assert f(xs[k]) == Last(xs, f);
      forall j | k < j < |xs| ensures f(xs[j]).None? {
        if j < n { assert xs[j] == init[j]; }
      }
    } else {
      assert f(xs[n]) == Last(xs, f);
    }
  }

  /** Conversely, the latest element that yields a value determines Last. */
  lemma {:induction false} LastAt<A, T>(xs: seq<A>, f: A -> Option<T>, k: nat)
    requires k < |xs| && f(xs[k]).Some?
    requires forall j :: k < j < |xs| ==> f(xs[j]).None?
    ensures Last(xs, f) == f(xs[k])
  {
    var n := |xs| - 1;
    if k < n {
      var init := xs[..n];
      assert f(xs[n]).None?;
      assert forall j :: k < j < |init| ==> init[j] == xs[j];
      LastAt(init, f, k);
    }
  }

  /** A new last element that yields a value overrides all before it. */
  lemma LastSnoc<A, T>(xs: seq<A>, x: A, f: A -> Option<T>)
    ensures Last(xs + [x], f) == if f(x).Some? then f(x) else Last(xs, f)
  {
    assert (xs + [x])[..|xs|] == xs;
  }
}
