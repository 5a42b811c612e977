/** Order-preserving filtering of sequences: the shape of a Python list
    comprehension `[x for x in s if p(x)]`. */
module Seqs {

  /** The elements of `s` that satisfy `p`, in their original order. */
  function Filter<T>(s: seq<T>, p: T -> bool): (r: seq<T>)
    ensures |r| <= |s|
    ensures forall x :: x in r ==> x in s && p(x)
  {
    if s == [] then []
    else Filter(s[..|s| - 1], p) + (if p(s[|s| - 1]) then [s[|s| - 1]] else [])
  }

  /** The positions in `s` of the elements that satisfy `p`, in increasing order. */
  ghost function Positions<T>(s: seq<T>, p: T -> bool): (r: seq<nat>)
    ensures |r| == |Filter(s, p)|
    ensures forall k :: 0 <= k < |r| ==> r[k] < |s|
  {
    if s == [] then []
    else Positions(s[..|s| - 1], p) + (if p(s[|s| - 1]) then [|s| - 1] else [])
  }

  ghost predicate StrictlyIncreasing(xs: seq<nat>)
  {
    forall i, j :: 0 <= i < j < |xs| ==> xs[i] < xs[j]
  }

  lemma {:induction false} PositionsIncreasing<T>(s: seq<T>, p: T -> bool)
    ensures StrictlyIncreasing(Positions(s, p))
  {
    if s != [] {
      PositionsIncreasing(s[..|s| - 1], p);
    }
  }

  /** The k-th kept element is the element of `s` at the k-th position. */
  lemma {:induction false} PositionsSelect<T>(s: seq<T>, p: T -> bool)
    ensures forall k :: 0 <= k < |Positions(s, p)| ==> Filter(s, p)[k] == s[Positions(s, p)[k]]
  {
    if s != [] {
      var init := s[..|s| - 1];
      PositionsSelect(init, p);
      assert forall i :: 0 <= i < |init| ==> init[i] == s[i];
    }
  }

  /** A position is listed exactly when its element satisfies `p`. */
  lemma {:induction false} PositionsComplete<T>(s: seq<T>, p: T -> bool)
    ensures forall i :: 0 <= i < |s| ==> (i in Positions(s, p) <==> p(s[i]))
  {
    if s != [] {
      var init := s[..|s| - 1];
      PositionsComplete(init, p);
      assert forall i :: 0 <= i < |init| ==> init[i] == s[i];
    }
  }

  /** `Filter(s, p)` is exactly the subsequence of `s` taken at the positions
      whose elements satisfy `p`: nothing is dropped that satisfies `p`,
      nothing is kept that does not, and the relative order is unchanged. */
  lemma FilterByPositions<T>(s: seq<T>, p: T -> bool)
    ensures |Positions(s, p)| == |Filter(s, p)|
    ensures StrictlyIncreasing(Positions(s, p))
    ensures forall k :: 0 <= k < |Positions(s, p)| ==>
              Positions(s, p)[k] < |s| && Filter(s, p)[k] == s[Positions(s, p)[k]]
    ensures forall i :: 0 <= i < |s| ==> (i in Positions(s, p) <==> p(s[i]))
  {
    PositionsIncreasing(s, p);
    PositionsSelect(s, p);
    PositionsComplete(s, p);
  }
}
