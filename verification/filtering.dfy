/** `Array.prototype.filter` on sequences: keep, in order, the elements a predicate accepts. */
module Filtering {

  function Keep<T>(s: seq<T>, p: T -> bool): (r: seq<T>)
    ensures |r| <= |s|
    ensures forall k :: 0 <= k < |r| ==> r[k] in s && p(r[k])
  {
    if |s| == 0 then []
    else
      var init := Keep(s[..|s| - 1], p);
      if p(s[|s| - 1]) then init + [s[|s| - 1]] else init
  }

  /** `idx` lists, in increasing order, the positions of `s` that `sub` takes its elements from. */
  ghost predicate SelectsPositions<T>(sub: seq<T>, s: seq<T>, idx: seq<int>)
  {
    && |idx| == |sub|
    && (forall k :: 0 <= k < |idx| ==> 0 <= idx[k] < |s| && sub[k] == s[idx[k]])
    && (forall j, k :: 0 <= j < k < |idx| ==> idx[j] < idx[k])
  }

  /** Appending an element to both sequences extends a selection by the new last position. */
  lemma SelectsExtend<T>(sub: seq<T>, s: seq<T>, idx: seq<int>, x: T)
    requires SelectsPositions(sub, s, idx)
    ensures SelectsPositions(sub + [x], s + [x], idx + [|s|])
  {
    var sub', s', idx' := sub + [x], s + [x], idx + [|s|];
    forall k | 0 <= k < |idx'|
      ensures 0 <= idx'[k] < |s'| && sub'[k] == s'[idx'[k]]
    {
      if k < |idx| {
        assert idx'[k] == idx[k] && sub'[k] == sub[k] && s'[idx[k]] == s[idx[k]];
      }
    }
  }

  /** Appending an element to the source alone keeps a selection valid. */
  lemma SelectsWiden<T>(sub: seq<T>, s: seq<T>, idx: seq<int>, x: T)
    requires SelectsPositions(sub, s, idx)
    ensures SelectsPositions(sub, s + [x], idx)
  {
    forall k | 0 <= k < |idx|
      ensures (s + [x])[idx[k]] == s[idx[k]]
    {
    }
  }

  /** The kept elements are a subsequence of `s` taken at exactly the positions `p` accepts. */
  lemma {:induction false} KeepIsOrderedSelection<T>(s: seq<T>, p: T -> bool) returns (idx: seq<int>)
    ensures SelectsPositions(Keep(s, p), s, idx)
    ensures forall i :: 0 <= i < |s| ==> (i in idx <==> p(s[i]))
  {
    if |s| == 0 {
      return [];
    }
    var n := |s| - 1;
    var front := s[..n];
    assert s == front + [s[n]];
    var prev := KeepIsOrderedSelection(front, p);
    if p(s[n]) {
      idx := prev + [n];
      SelectsExtend(Keep(front, p), front, prev, s[n]);
    } else {
      idx := prev;
      SelectsWiden(Keep(front, p), front, prev, s[n]);
    }
    forall i | 0 <= i < |s|
      ensures i in idx <==> p(s[i])
    {
      if i < n {
        assert front[i] == s[i];
      }
    }
  }

  /** An element is kept exactly when it occurs in `s` and `p` accepts it. */
  lemma KeepMembership<T>(s: seq<T>, p: T -> bool, x: T)
    ensures x in Keep(s, p) <==> x in s && p(x)
  {
    if x in s && p(x) {
      var idx := KeepIsOrderedSelection(s, p);
      var i :| 0 <= i < |s| && s[i] == x;
      var k :| 0 <= k < |idx| && idx[k] == i;
      assert Keep(s, p)[k] == x;
    }
  }

  /** When `p` accepts every element, nothing is dropped. */
  lemma {:induction false} KeepAllAccepted<T>(s: seq<T>, p: T -> bool)
    requires forall i :: 0 <= i < |s| ==> p(s[i])
    ensures Keep(s, p) == s
  {
    if |s| > 0 {
      KeepAllAccepted(s[..|s| - 1], p);
    }
  }

  /** Filtering twice is filtering once. */
  lemma {:induction false} KeepIdempotent<T>(s: seq<T>, p: T -> bool)
    ensures Keep(Keep(s, p), p) == Keep(s, p)
  {
    if |s| > 0 {
      var front := s[..|s| - 1];
      var init := Keep(front, p);
      KeepIdempotent(front, p);
      if p(s[|s| - 1]) {
        var r := init + [s[|s| - 1]];
        assert r[..|r| - 1] == init;
      }
    }
  }

  /** Filtering distributes over concatenation. */
  lemma {:induction false} KeepAppend<T>(a: seq<T>, b: seq<T>, p: T -> bool)
    ensures Keep(a + b, p) == Keep(a, p) + Keep(b, p)
    decreases |b|
  {
    if |b| == 0 {
      assert a + b == a;
    } else {
      var bf := b[..|b| - 1];
      assert (a + b)[..|a + b| - 1] == a + bf;
      KeepAppend(a, bf, p);
    }
  }
}
