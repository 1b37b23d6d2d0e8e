/** Keeping the elements of a sequence that pass a test, in their order: the shape
    of every "new entries" list the scripts build, whether by comprehension or by
    appending inside a loop. */
module Selection {

  /** The elements of `xs` for which `keep` holds, in the order of `xs`. */
  function Select<T(!new)>(xs: seq<T>, keep: T -> bool): seq<T> {
    if xs == [] then []
    else Select(xs[..|xs| - 1], keep) + (if keep(xs[|xs| - 1]) then [xs[|xs| - 1]] else [])
  }

  /** An element is selected exactly when it occurs in `xs` and passes. */
  lemma {:induction false} SelectMembership<T(!new)>(xs: seq<T>, keep: T -> bool)
    ensures |Select(xs, keep)| <= |xs|
    ensures forall x :: x in Select(xs, keep) <==> x in xs && keep(x)
  {
    if xs != [] {
      var front, last := xs[..|xs| - 1], xs[|xs| - 1];
      assert xs == front + [last];
      SelectMembership(front, keep);
    }
  }

  /** One more element at the end: the selection grows by it exactly when it passes. */
  lemma SelectSnoc<T(!new)>(xs: seq<T>, x: T, keep: T -> bool)
    ensures Select(xs + [x], keep) == Select(xs, keep) + (if keep(x) then [x] else [])
  {
    assert (xs + [x])[..|xs|] == xs;
  }

  /** Nothing is kept when nothing passes. */
  lemma {:induction false} SelectNone<T(!new)>(xs: seq<T>, keep: T -> bool)
    requires forall i :: 0 <= i < |xs| ==> !keep(xs[i])
    ensures Select(xs, keep) == []
  {
    if xs != [] {
      SelectNone(xs[..|xs| - 1], keep);
    }
  }

  /** Reference definition: the positions of `xs` whose element passes, ascending. */
  function KeptIndices<T(!new)>(xs: seq<T>, keep: T -> bool): (ix: seq<nat>)
    ensures forall j :: 0 <= j < |ix| ==> ix[j] < |xs| && keep(xs[ix[j]])
    ensures forall j, k :: 0 <= j < k < |ix| ==> ix[j] < ix[k]
    ensures forall i :: 0 <= i < |xs| && keep(xs[i]) ==> i in ix
  {
    if xs == [] then []
    else
      var n := |xs| - 1;
      var front := KeptIndices(xs[..n], keep);
      front + (if keep(xs[n]) then [n] else [])
  }

  /** The selection is the subsequence of `xs` at exactly the passing positions:
      playlist order is kept and no passing element is lost or repeated. */
  lemma {:induction false} SelectIsKeptSubsequence<T(!new)>(xs: seq<T>, keep: T -> bool)
    ensures |Select(xs, keep)| == |KeptIndices(xs, keep)|
    ensures forall j :: 0 <= j < |KeptIndices(xs, keep)| ==>
      Select(xs, keep)[j] == xs[KeptIndices(xs, keep)[j]]
  {
    if xs != [] {
      var n := |xs| - 1;
      var front := xs[..n];
      SelectIsKeptSubsequence(front, keep);
      var sel, ix := Select(xs, keep), KeptIndices(xs, keep);
      var sel', ix' := Select(front, keep), KeptIndices(front, keep);
      assert sel == sel' + (if keep(xs[n]) then [xs[n]] else []);
      assert ix == ix' + (if keep(xs[n]) then [n] else []);
      forall j | 0 <= j < |ix| ensures sel[j] == xs[ix[j]] {
        if j < |ix'| {
          assert sel[j] == sel'[j] && ix[j] == ix'[j];
          assert front[ix'[j]] == xs[ix'[j]];
        }
      }
    }
  }
}
