/**
 * The array operations the pages build their lists with: `Array.prototype.filter`,
 * the distinct values of a `Set` in insertion order, and the `Array.isArray`
 * guard applied to response bodies.
 */
module Lists {

  /** `xs.filter(keep)`: the elements `keep` accepts, in their original order. */
  function Filter<T(!new)>(xs: seq<T>, keep: T -> bool): (ys: seq<T>)
    ensures |ys| <= |xs|
    ensures forall y :: y in ys <==> y in xs && keep(y)
  {
    if xs == [] then []
    else if keep(xs[0]) then [xs[0]] + Filter(xs[1..], keep)
    else Filter(xs[1..], keep)
  }

  /** `idx` picks `ys` out of `xs`: strictly increasing positions of `xs` holding the elements of `ys`. */
  ghost predicate SelectsFrom<T>(ys: seq<T>, xs: seq<T>, idx: seq<nat>) {
    |idx| == |ys|
    && (forall k :: 0 <= k < |idx| ==> idx[k] < |xs| && ys[k] == xs[idx[k]])
    && (forall k, l :: 0 <= k < l < |idx| ==> idx[k] < idx[l])
  }

  /** `ys` is `xs` with some elements left out and the rest kept in order. */
  ghost predicate IsSubsequence<T>(ys: seq<T>, xs: seq<T>) {
    exists idx :: SelectsFrom(ys, xs, idx)
  }

  function Shift(idx: seq<nat>): (r: seq<nat>)
    ensures |r| == |idx| && forall k :: 0 <= k < |idx| ==> r[k] == idx[k] + 1
  {
    seq(|idx|, k requires 0 <= k < |idx| => idx[k] + 1)
  }

  /** Positions picked from the tail, moved one place right, pick the same elements from the whole. */
  lemma ShiftSelects<T>(ys: seq<T>, xs: seq<T>, rest: seq<nat>)
    requires xs != [] && SelectsFrom(ys, xs[1..], rest)
    ensures SelectsFrom(ys, xs, Shift(rest))
    ensures SelectsFrom([xs[0]] + ys, xs, [0] + Shift(rest))
    ensures 0 !in Shift(rest)
    ensures forall i :: 1 <= i ==> (i in Shift(rest) <==> i - 1 in rest)
  {
    var shifted := Shift(rest);
    forall i | 1 <= i
      ensures i in shifted <==> i - 1 in rest
    {
      if i - 1 in rest {
        var k :| 0 <= k < |rest| && rest[k] == i - 1;
        assert shifted[k] == i;
      }
    }
  }

  /** The positions a filter keeps are exactly those whose element `keep` accepts. */
  lemma {:induction false} FilterPositions<T(!new)>(xs: seq<T>, keep: T -> bool) returns (idx: seq<nat>)
    ensures SelectsFrom(Filter(xs, keep), xs, idx)
    ensures forall i :: 0 <= i < |xs| ==> (keep(xs[i]) <==> i in idx)
  {
    if xs == [] {
      idx := [];
    } else {
      var rest := FilterPositions(xs[1..], keep);
      var tail := Filter(xs[1..], keep);
      ShiftSelects(tail, xs, rest);
      if keep(xs[0]) {
        assert Filter(xs, keep) == [xs[0]] + tail;
        idx := [0] + Shift(rest);
      } else {
        assert Filter(xs, keep) == tail;
        idx := Shift(rest);
      }
      forall i | 1 <= i < |xs|
        ensures keep(xs[i]) <==> i in idx
      {
        assert xs[i] == xs[1..][i - 1];
      }
    }
  }

  lemma FilterIsSubsequence<T(!new)>(xs: seq<T>, keep: T -> bool)
    ensures IsSubsequence(Filter(xs, keep), xs)
  {
    var idx := FilterPositions(xs, keep);
  }

  /** The callback accepting what both `p` and `q` accept. */
  function Both<T(!new)>(p: T -> bool, q: T -> bool): (both: T -> bool)
    ensures forall x :: both(x) == (p(x) && q(x))
  {
    x => p(x) && q(x)
  }

  /** Filtering twice is filtering once by both conditions. */
  lemma {:induction false} FilterFuse<T(!new)>(xs: seq<T>, p: T -> bool, q: T -> bool)
    ensures Filter(Filter(xs, p), q) == Filter(xs, Both(p, q))
  {
    if xs != [] {
      FilterFuse(xs[1..], p, q);
      if p(xs[0]) {
        assert ([xs[0]] + Filter(xs[1..], p))[1..] == Filter(xs[1..], p);
      }
    }
  }

  /** Filters by conditions that agree on every element give the same list. */
  lemma {:induction false} FilterCongruent<T(!new)>(xs: seq<T>, p: T -> bool, q: T -> bool)
    requires forall i :: 0 <= i < |xs| ==> p(xs[i]) == q(xs[i])
    ensures Filter(xs, p) == Filter(xs, q)
  {
    if xs != [] {
      FilterCongruent(xs[1..], p, q);
    }
  }

  /** A filter that accepts every element returns the list unchanged. */
  lemma {:induction false} FilterKeepsAll<T(!new)>(xs: seq<T>, keep: T -> bool)
    requires forall i :: 0 <= i < |xs| ==> keep(xs[i])
    ensures Filter(xs, keep) == xs
  {
    if xs != [] {
      FilterKeepsAll(xs[1..], keep);
    }
  }

  /** `[...new Set(xs)]`: each value once, where it first occurs. */
  function Distinct<T(==,!new)>(xs: seq<T>): (ys: seq<T>)
    ensures forall y :: y in ys <==> y in xs
    ensures forall i, j :: 0 <= i < j < |ys| ==> ys[i] != ys[j]
  {
    if xs == [] then []
    else
      var seen := Distinct(xs[..|xs| - 1]);
      assert forall y :: y in xs <==> y in xs[..|xs| - 1] || y == xs[|xs| - 1] by {
        assert xs == xs[..|xs| - 1] + [xs[|xs| - 1]];
      }
      if xs[|xs| - 1] in seen then seen else seen + [xs[|xs| - 1]]
  }

  /** The distinct values sit at their first occurrences, so they come out in
    * order of first occurrence. */
  lemma {:induction false} DistinctFirstOccurrences<T(!new)>(xs: seq<T>) returns (idx: seq<nat>)
    ensures SelectsFrom(Distinct(xs), xs, idx)
    ensures forall k, i :: 0 <= k < |idx| && 0 <= i < idx[k] ==> xs[i] != Distinct(xs)[k]
  {
    if xs == [] {
      idx := [];
    } else {
      var init := xs[..|xs| - 1];
      var last := xs[|xs| - 1];
      var prior := DistinctFirstOccurrences(init);
      assert forall k :: 0 <= k < |prior| ==> xs[prior[k]] == init[prior[k]];
      if last in Distinct(init) {
        assert Distinct(xs) == Distinct(init);
        idx := prior;
      } else {
        assert Distinct(xs) == Distinct(init) + [last];
        idx := prior + [|xs| - 1];
        forall i | 0 <= i < |xs| - 1
          ensures xs[i] != last
        {
          assert xs[i] == init[i];
          assert init[i] in init;
        }
      }
    }
  }

  /** A response body: an array, or anything else. */
  datatype Payload<T> = JsonArray(elements: seq<T>) | NotArray

  /** `Array.isArray(data) ? data : []`. */
  function ElementsOrEmpty<T>(p: Payload<T>): (r: seq<T>)
    ensures p.JsonArray? ==> r == p.elements
    ensures p.NotArray? ==> r == []
  {
    match p
    case JsonArray(elements) => elements
    case NotArray => []
  }
}
