/**
 * Order-preserving filtering of a sequence, the shape of the explorer's
 * "for x in xs: if keep(x): out.append(x)" loops.
 */
module Sequences {

  /** The elements of `s` that satisfy `keep`, in their original order. */
  function Sift<T>(s: seq<T>, keep: T -> bool): (r: seq<T>)
    ensures |r| <= |s|
  {
    if s == [] then []
    else Sift(s[..|s| - 1], keep) + (if keep(s[|s| - 1]) then [s[|s| - 1]] else [])
  }

  /**
   * The sifted sequence is a subsequence of exactly the kept elements: `idx` gives,
   * in increasing order, the position in `s` of each survivor, and every position
   * whose element is kept appears in it.
   */
  lemma {:induction false} SiftIndices<T>(s: seq<T>, keep: T -> bool) returns (idx: seq<nat>)
    ensures |idx| == |Sift(s, keep)|
    ensures forall k :: 0 <= k < |idx| ==> idx[k] < |s| && Sift(s, keep)[k] == s[idx[k]]
    ensures forall k, l :: 0 <= k < l < |idx| ==> idx[k] < idx[l]
    ensures forall j :: 0 <= j < |s| ==> (j in idx <==> keep(s[j]))
  {
    if s == [] {
      idx := [];
    } else {
      var n := |s| - 1;
      var init := s[..n];
      var before := SiftIndices(init, keep);
      assert forall j :: 0 <= j < n ==> s[j] == init[j];
      if keep(s[n]) {
        idx := before + [n];
      } else {
        idx := before;
      }
    }
  }

  /** An element survives iff it occurs and is kept. */
  lemma {:induction false} SiftIff<T>(s: seq<T>, keep: T -> bool, x: T)
    ensures x in Sift(s, keep) <==> x in s && keep(x)
  {
    if s != [] {
      var init := s[..|s| - 1];
      SiftIff(init, keep, x);
      assert s == init + [s[|s| - 1]];
    }
  }

  /** When everything is kept nothing is dropped. */
  lemma {:induction false} SiftKeepsAll<T>(s: seq<T>, keep: T -> bool)
    requires forall j :: 0 <= j < |s| ==> keep(s[j])
    ensures Sift(s, keep) == s
  {
    if s != [] {
      SiftKeepsAll(s[..|s| - 1], keep);
      assert s[..|s| - 1] + [s[|s| - 1]] == s;
    }
  }

  /** Sifting a second time with the same test changes nothing. */
  lemma SiftIdempotent<T>(s: seq<T>, keep: T -> bool)
    ensures Sift(Sift(s, keep), keep) == Sift(s, keep)
  {
    var r := Sift(s, keep);
    forall j | 0 <= j < |r|
      ensures keep(r[j])
    {
      SiftIff(s, keep, r[j]);
    }
    SiftKeepsAll(r, keep);
  }
}
