/** Generic list operations with the meaning of JavaScript's `Array.prototype.find`,
    `filter` and a `map` that rewrites only the elements a predicate selects.
    The stores and screens are written on top of these. */
module Seqs {
  import opened Wrappers

  /** The first element of `s` that satisfies `p` (`s.find(p)`). */
  function FindFirst<T>(s: seq<T>, p: T -> bool): (r: Option<T>)
    ensures r.None? <==> forall i :: 0 <= i < |s| ==> !p(s[i])
    ensures r.Some? ==> r.value in s && p(r.value)
    ensures forall i :: 0 <= i < |s| && p(s[i]) && (forall j :: 0 <= j < i ==> !p(s[j])) ==> r == Some(s[i])
  {
    if s == [] then None
    else if p(s[0]) then Some(s[0])
    else
      var r := FindFirst(s[1..], p);
      assert forall i :: 1 <= i < |s| ==> s[i] == s[1..][i - 1];
      r
  }

  /** The elements of `s` that satisfy `p`, in their original order (`s.filter(p)`). */
  function Filter<T>(s: seq<T>, p: T -> bool): (r: seq<T>)
    ensures |r| <= |s|
    ensures forall k :: 0 <= k < |r| ==> p(r[k])
    ensures forall i :: 0 <= i < |s| && p(s[i]) ==> s[i] in r
  {
    if s == [] then []
    else
      var rest := Filter(s[1..], p);
      assert s == [s[0]] + s[1..];
      assert forall i :: 1 <= i < |s| ==> s[i] == s[1..][i - 1];
      if p(s[0]) then [s[0]] + rest else rest
  }

  /** `s` with every element that satisfies `p` replaced by its image under `f`
      (`s.map(x => p(x) ? f(x) : x)`). */
  function MapWhere<T>(s: seq<T>, p: T -> bool, f: T -> T): (r: seq<T>)
    ensures |r| == |s|
    ensures forall i :: 0 <= i < |s| && p(s[i]) ==> r[i] == f(s[i])
    ensures forall i :: 0 <= i < |s| && !p(s[i]) ==> r[i] == s[i]
  {
    if s == [] then []
    else
      var rest := MapWhere(s[1..], p, f);
      [if p(s[0]) then f(s[0]) else s[0]] + rest
  }

  /** `idx` lists, in strictly increasing order, positions of `s` whose elements
      are the elements of `r`: `r` sits inside `s` in the same relative order. */
  ghost predicate IsEmbedding<T>(r: seq<T>, s: seq<T>, idx: seq<nat>)
  {
    && |idx| == |r|
    && (forall k :: 0 <= k < |idx| ==> idx[k] < |s| && r[k] == s[idx[k]])
    && (forall k, l :: 0 <= k < l < |idx| ==> idx[k] < idx[l])
  }

  /** Adds `n` to every position in `idx`. */
  function Shift(idx: seq<nat>, n: nat): (r: seq<nat>)
    ensures |r| == |idx|
    ensures forall k :: 0 <= k < |idx| ==> r[k] == idx[k] + n
  {
    seq(|idx|, k requires 0 <= k < |idx| => idx[k] + n)
  }

  /** The positions of `s` whose elements satisfy `p`, in increasing order. */
  function FilterIndices<T>(s: seq<T>, p: T -> bool): seq<nat>
  {
    if s == [] then []
    else
      var rest := Shift(FilterIndices(s[1..], p), 1);
      if p(s[0]) then [0] + rest else rest
  }

  /** The positions `FilterIndices` lists are in range and strictly increasing. */
  lemma {:induction false} FilterIndicesIncrease<T>(s: seq<T>, p: T -> bool)
    ensures forall k :: 0 <= k < |FilterIndices(s, p)| ==> FilterIndices(s, p)[k] < |s|
    ensures forall k, l :: 0 <= k < l < |FilterIndices(s, p)| ==> FilterIndices(s, p)[k] < FilterIndices(s, p)[l]
  {
    if s != [] {
      FilterIndicesIncrease(s[1..], p);
      var tail := FilterIndices(s[1..], p);
      var rest := Shift(tail, 1);
      assert forall k :: 0 <= k < |rest| ==> 1 <= rest[k] < |s|;
      assert forall k, l :: 0 <= k < l < |rest| ==> rest[k] < rest[l];
    }
  }

  /** `Filter` keeps as many elements as `FilterIndices` lists positions. */
  lemma {:induction false} FilterIndicesLength<T>(s: seq<T>, p: T -> bool)
    ensures |Filter(s, p)| == |FilterIndices(s, p)|
  {
    if s != [] {
      FilterIndicesLength(s[1..], p);
    }
  }

  /** The `k`-th element `Filter` keeps is the element at the `k`-th listed position. */
  lemma {:induction false} FilterAtIndices<T>(s: seq<T>, p: T -> bool, k: nat)
    requires k < |Filter(s, p)|
    ensures k < |FilterIndices(s, p)| && FilterIndices(s, p)[k] < |s|
    ensures Filter(s, p)[k] == s[FilterIndices(s, p)[k]]
  {
    FilterIndicesLength(s, p);
    FilterIndicesLength(s[1..], p);
    var tail := FilterIndices(s[1..], p);
    var ft := Filter(s[1..], p);
    if p(s[0]) && k == 0 {
      assert Filter(s, p)[0] == s[0];
      assert FilterIndices(s, p)[0] == 0;
    } else {
      var j := if p(s[0]) then k - 1 else k;
      FilterAtIndices(s[1..], p, j);
      assert Filter(s, p)[k] == ft[j];
      assert FilterIndices(s, p)[k] == Shift(tail, 1)[j] == tail[j] + 1;
      assert s[1..][tail[j]] == s[tail[j] + 1];
    }
  }

  /** A position is listed by `FilterIndices` exactly when its element satisfies `p`. */
  lemma {:induction false} FilterIndicesExact<T>(s: seq<T>, p: T -> bool)
    ensures forall i :: 0 <= i < |s| ==> (i in FilterIndices(s, p) <==> p(s[i]))
  {
    if s != [] {
      FilterIndicesExact(s[1..], p);
      var tail := FilterIndices(s[1..], p);
      var rest := Shift(tail, 1);
      forall i | 1 <= i < |s|
        ensures i in rest <==> p(s[i])
      {
        assert s[1..][i - 1] == s[i];
        if i - 1 in tail {
          var k :| 0 <= k < |tail| && tail[k] == i - 1;
          assert rest[k] == i;
        }
        if i in rest {
          var k :| 0 <= k < |rest| && rest[k] == i;
          assert tail[k] == i - 1;
        }
      }
      assert 0 !in rest;
    }
  }

  /** `Filter` keeps exactly the positions whose elements satisfy `p`, and keeps
      them in their original order. */
  lemma FilterPreservesOrder<T>(s: seq<T>, p: T -> bool)
    ensures IsEmbedding(Filter(s, p), s, FilterIndices(s, p))
    ensures forall i :: 0 <= i < |s| ==> (i in FilterIndices(s, p) <==> p(s[i]))
  {
    FilterIndicesIncrease(s, p);
    FilterIndicesLength(s, p);
    forall k | 0 <= k < |Filter(s, p)|
      ensures FilterIndices(s, p)[k] < |s| && Filter(s, p)[k] == s[FilterIndices(s, p)[k]]
    {
      FilterAtIndices(s, p, k);
    }
    FilterIndicesExact(s, p);
  }

  /** Two filters with complementary predicates split `s`: every element lands
      in exactly one of them, so the sizes add up to `|s|`. */
  lemma {:induction false} FilterPartition<T>(s: seq<T>, p: T -> bool, q: T -> bool)
    requires forall x :: q(x) <==> !p(x)
    ensures |Filter(s, p)| + |Filter(s, q)| == |s|
    ensures multiset(Filter(s, p)) + multiset(Filter(s, q)) == multiset(s)
  {
    if s != [] {
      FilterPartition(s[1..], p, q);
      assert s == [s[0]] + s[1..];
    }
  }
}
