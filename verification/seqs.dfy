/** The "keep some elements, transform each kept one, preserve order" shape shared by the
    reader's row loop and the parser's line loop. */
module Seqs {

  /** The elements of `xs` that satisfy `keep`, each mapped through `f`, in input order. */
  function FilterMap<A, B>(xs: seq<A>, keep: A -> bool, f: A -> B): (r: seq<B>)
    ensures |r| <= |xs|
  {
    if |xs| == 0 then []
    else if keep(xs[0]) then [f(xs[0])] + FilterMap(xs[1..], keep, f)
    else FilterMap(xs[1..], keep, f)
  }

  /** Adds one to every element: re-bases indices of `xs[1..]` onto `xs`. */
  function Shift(s: seq<nat>): (r: seq<nat>)
    ensures |r| == |s|
    ensures forall k :: 0 <= k < |s| ==> r[k] == s[k] + 1
  {
    seq(|s|, k requires 0 <= k < |s| => s[k] + 1)
  }

  /** Positions of the elements of `xs` that satisfy `keep`, ascending. */
  function KeptIndices<A>(xs: seq<A>, keep: A -> bool): seq<nat>
  {
    if |xs| == 0 then []
    else if keep(xs[0]) then [0] + Shift(KeptIndices(xs[1..], keep))
    else Shift(KeptIndices(xs[1..], keep))
  }

  /** The kept positions are strictly increasing and lie inside `xs`; a position is kept
      iff its element satisfies `keep`. */
  lemma {:induction false} KeptIndicesSpec<A>(xs: seq<A>, keep: A -> bool)
    ensures forall k :: 0 <= k < |KeptIndices(xs, keep)| ==> KeptIndices(xs, keep)[k] < |xs|
    ensures forall k, l :: 0 <= k < l < |KeptIndices(xs, keep)| ==>
      KeptIndices(xs, keep)[k] < KeptIndices(xs, keep)[l]
    ensures forall i :: 0 <= i < |xs| ==> (keep(xs[i]) <==> i in KeptIndices(xs, keep))
  {
    if |xs| > 0 {
      var tl := xs[1..];
      KeptIndicesSpec(tl, keep);
      var idx := KeptIndices(tl, keep);
      var sh := Shift(idx);
      assert 0 !in sh;
      forall i | 0 < i < |xs|
        ensures keep(xs[i]) <==> i in sh
      {
        assert xs[i] == tl[i - 1];
        if i in sh {
          var k :| 0 <= k < |sh| && sh[k] == i;
          assert idx[k] == i - 1;
        }
      }
    }
  }

  /** `FilterMap` is the order-preserving selection of the kept positions: it has one element
      per kept position, and its k-th element is `f` of the element at the k-th kept position. */
  lemma {:induction false} FilterMapSpec<A, B>(xs: seq<A>, keep: A -> bool, f: A -> B)
    ensures |FilterMap(xs, keep, f)| == |KeptIndices(xs, keep)|
    ensures forall k :: 0 <= k < |KeptIndices(xs, keep)| ==>
      KeptIndices(xs, keep)[k] < |xs| && FilterMap(xs, keep, f)[k] == f(xs[KeptIndices(xs, keep)[k]])
  {
    if |xs| > 0 {
      var tl := xs[1..];
      FilterMapSpec(tl, keep, f);
      var idx, r := KeptIndices(tl, keep), FilterMap(tl, keep, f);
      var sh := Shift(idx);
      assert forall k :: 0 <= k < |idx| ==> sh[k] < |xs| && xs[sh[k]] == tl[idx[k]];
      if keep(xs[0]) {
        var all, out := [0] + sh, [f(xs[0])] + r;
        assert KeptIndices(xs, keep) == all && FilterMap(xs, keep, f) == out;
        forall k | 0 <= k < |all|
          ensures all[k] < |xs| && out[k] == f(xs[all[k]])
        {
          if k > 0 {
            assert all[k] == sh[k - 1] && out[k] == r[k - 1];
          }
        }
      } else {
        assert KeptIndices(xs, keep) == sh && FilterMap(xs, keep, f) == r;
      }
    }
  }

  /** Filtering distributes over concatenation: the result for `a + b` is the result for `a`
      followed by the result for `b`. */
  lemma {:induction false} FilterMapConcat<A, B>(a: seq<A>, b: seq<A>, keep: A -> bool, f: A -> B)
    ensures FilterMap(a + b, keep, f) == FilterMap(a, keep, f) + FilterMap(b, keep, f)
  {
    if |a| == 0 {
      assert a + b == b;
    } else {
      assert (a + b)[1..] == a[1..] + b;
      FilterMapConcat(a[1..], b, keep, f);
    }
  }

  /** An element that fails `keep` contributes nothing wherever it sits. */
  lemma FilterMapSkip<A, B>(a: seq<A>, x: A, b: seq<A>, keep: A -> bool, f: A -> B)
    requires !keep(x)
    ensures FilterMap(a + [x] + b, keep, f) == FilterMap(a + b, keep, f)
  {
    assert a + [x] + b == a + ([x] + b);
    FilterMapConcat(a, [x] + b, keep, f);
    FilterMapConcat(a, b, keep, f);
    assert ([x] + b)[1..] == b;
  }
}
