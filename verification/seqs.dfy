/** Filtering and counting over sequences, as `Array.prototype.filter` and a
    counting `reduce` do them: left to right, keeping the original order. */
module Seqs {

  /** `s.filter(p)`. */
  function Filter<T>(s: seq<T>, p: T -> bool): (r: seq<T>)
    ensures |r| <= |s|
    ensures forall x :: x in r ==> x in s && p(x)
    ensures forall x :: x in s && p(x) ==> x in r
    decreases |s|
  {
    if s == [] then []
    else
      var init := s[..|s| - 1];
      assert s == init + [s[|s| - 1]];
      Filter(init, p) + (if p(s[|s| - 1]) then [s[|s| - 1]] else [])
  }

  /** The positions of `s` that satisfy `p`, in increasing order. */
  function KeptIndices<T>(s: seq<T>, p: T -> bool): (idx: seq<nat>)
    ensures forall k :: 0 <= k < |idx| ==> idx[k] < |s|
    decreases |s|
  {
    if s == [] then []
    else
      var n := |s| - 1;
      KeptIndices(s[..n], p) + (if p(s[n]) then [n] else [])
  }

  lemma {:induction false} KeptIndicesLength<T>(s: seq<T>, p: T -> bool)
    ensures |Filter(s, p)| == |KeptIndices(s, p)|
    decreases |s|
  {
    if s != [] {
      KeptIndicesLength(s[..|s| - 1], p);
    }
  }

  lemma {:induction false} KeptIndicesIncrease<T>(s: seq<T>, p: T -> bool)
    ensures forall k, l :: 0 <= k < l < |KeptIndices(s, p)| ==> KeptIndices(s, p)[k] < KeptIndices(s, p)[l]
    decreases |s|
  {
    if s != [] {
      var n := |s| - 1;
      KeptIndicesIncrease(s[..n], p);
      var front := KeptIndices(s[..n], p);
      var idx := KeptIndices(s, p);
      assert forall k :: 0 <= k < |front| ==> front[k] < n && idx[k] == front[k];
      forall k, l | 0 <= k < l < |idx| ensures idx[k] < idx[l] {
        if l >= |front| {
          assert idx[l] == n;
          assert idx[k] == front[k] < n;
        } else {
          assert idx[k] == front[k] && idx[l] == front[l];
        }
      }
    }
  }

  lemma {:induction false} KeptIndicesExact<T>(s: seq<T>, p: T -> bool)
    ensures forall i :: 0 <= i < |s| ==> (i in KeptIndices(s, p) <==> p(s[i]))
    decreases |s|
  {
    if s != [] {
      var n := |s| - 1;
      var init := s[..n];
      KeptIndicesExact(init, p);
      var front := KeptIndices(init, p);
      assert forall k :: 0 <= k < |front| ==> front[k] < n;
      forall i | 0 <= i < |s| ensures i in KeptIndices(s, p) <==> p(s[i]) {
        if i < n {
          assert init[i] == s[i];
        }
      }
    }
  }

  lemma {:induction false} KeptIndicesPick<T>(s: seq<T>, p: T -> bool)
    ensures |Filter(s, p)| == |KeptIndices(s, p)|
    ensures var idx := KeptIndices(s, p);
      forall k :: 0 <= k < |idx| ==> Filter(s, p)[k] == s[idx[k]]
    decreases |s|
  {
    KeptIndicesLength(s, p);
    if s != [] {
      var n := |s| - 1;
      var init := s[..n];
      KeptIndicesPick(init, p);
      var front := KeptIndices(init, p);
      var kept := Filter(init, p);
      var idx := KeptIndices(s, p);
      forall k | 0 <= k < |idx| ensures Filter(s, p)[k] == s[idx[k]] {
        if k < |front| {
          assert idx[k] == front[k];
          assert Filter(s, p)[k] == kept[k];
          assert init[front[k]] == s[front[k]];
        }
      }
    }
  }

  /** The filter's result is the subsequence of `s` at the increasing positions
      `KeptIndices(s, p)`, and those are exactly the positions satisfying `p`. */
  lemma FilterIsOrderedSubsequence<T>(s: seq<T>, p: T -> bool)
    ensures var idx := KeptIndices(s, p);
      && |Filter(s, p)| == |idx|
      && (forall k :: 0 <= k < |idx| ==> Filter(s, p)[k] == s[idx[k]])
      && (forall k, l :: 0 <= k < l < |idx| ==> idx[k] < idx[l])
      && (forall i :: 0 <= i < |s| ==> (i in idx <==> p(s[i])))
  {
    KeptIndicesPick(s, p);
    KeptIndicesIncrease(s, p);
    KeptIndicesExact(s, p);
  }

  /** Filtering twice with the same test changes nothing the second time. */
  lemma {:induction false} FilterIdempotent<T>(s: seq<T>, p: T -> bool)
    ensures Filter(Filter(s, p), p) == Filter(s, p)
    decreases |s|
  {
    if s != [] {
      var n := |s| - 1;
      FilterIdempotent(s[..n], p);
      var kept := Filter(s[..n], p);
      if p(s[n]) {
        var r := kept + [s[n]];
        assert Filter(s, p) == r;
        assert r[..|r| - 1] == kept;
        assert p(r[|r| - 1]);
        assert Filter(r, p) == Filter(kept, p) + [s[n]];
      } else {
        assert Filter(s, p) == kept;
      }
    }
  }

  /** Filtering one more element at the end adds it when it passes. */
  lemma FilterSnoc<T>(s: seq<T>, x: T, p: T -> bool)
    ensures Filter(s + [x], p) == Filter(s, p) + (if p(x) then [x] else [])
  {
    assert (s + [x])[..|s|] == s;
  }

  /** Filtering a concatenation filters each part and concatenates the results. */
  lemma {:induction false} FilterAppend<T>(a: seq<T>, b: seq<T>, p: T -> bool)
    ensures Filter(a + b, p) == Filter(a, p) + Filter(b, p)
    decreases |b|
  {
    if b == [] {
      assert a + b == a;
    } else {
      var n := |b| - 1;
      var x := b[n];
      assert b == b[..n] + [x];
      assert a + b == (a + b[..n]) + [x];
      FilterAppend(a, b[..n], p);
      FilterSnoc(a + b[..n], x, p);
      FilterSnoc(b[..n], x, p);
    }
  }

  /** The filter keeps the whole sequence exactly when every element passes. */
  lemma {:induction false} FilterKeepsAll<T>(s: seq<T>, p: T -> bool)
    ensures Filter(s, p) == s <==> forall i :: 0 <= i < |s| ==> p(s[i])
    ensures |Filter(s, p)| == |s| <==> forall i :: 0 <= i < |s| ==> p(s[i])
    decreases |s|
  {
    if s != [] {
      var n := |s| - 1;
      FilterKeepsAll(s[..n], p);
      assert s == s[..n] + [s[n]];
      if forall i :: 0 <= i < |s| ==> p(s[i]) {
        assert forall i :: 0 <= i < n ==> p(s[..n][i]);
      } else {
        var j :| 0 <= j < |s| && !p(s[j]);
        if j < n {
          assert !p(s[..n][j]);
        }
      }
    }
  }

  /** The number of elements satisfying `p`, counted left to right. */
  function Count<T>(s: seq<T>, p: T -> bool): (n: nat)
    ensures n <= |s|
    decreases |s|
  {
    if s == [] then 0 else Count(s[..|s| - 1], p) + (if p(s[|s| - 1]) then 1 else 0)
  }

  /** Nothing satisfies `p`, so nothing is counted. */
  lemma {:induction false} CountNone<T>(s: seq<T>, p: T -> bool)
    requires forall x :: x in s ==> !p(x)
    ensures Count(s, p) == 0
    decreases |s|
  {
    if s != [] {
      var init := s[..|s| - 1];
      assert forall x :: x in init ==> x in s;
      CountNone(init, p);
    }
  }
}
