/** Parts of a list, in order. */
module Order {

  /** xs is ys without some of its elements, in the same order: picks are the positions. */
  ghost predicate Picks<T>(xs: seq<T>, ys: seq<T>, picks: seq<int>) {
    && |picks| == |xs|
    && (forall i :: 0 <= i < |xs| ==> 0 <= picks[i] < |ys| && xs[i] == ys[picks[i]])
    && (forall i, j :: 0 <= i < j < |xs| ==> picks[i] < picks[j])
  }

  ghost predicate Subsequence<T(!new)>(xs: seq<T>, ys: seq<T>) {
    exists picks: seq<int> :: Picks(xs, ys, picks)
  }

  lemma SubsequenceReflexive<T(!new)>(xs: seq<T>)
    ensures Subsequence(xs, xs)
  {
    assert Picks(xs, xs, seq(|xs|, i => i));
  }

  lemma SubsequenceTransitive<T(!new)>(xs: seq<T>, ys: seq<T>, zs: seq<T>)
    requires Subsequence(xs, ys) && Subsequence(ys, zs)
    ensures Subsequence(xs, zs)
  {
    var p: seq<int> :| Picks(xs, ys, p);
    var q: seq<int> :| Picks(ys, zs, q);
    assert Picks(xs, zs, seq(|xs|, i requires 0 <= i < |xs| => q[p[i]]));
  }

  lemma SubsequenceAfter<T(!new)>(front: seq<T>, xs: seq<T>, ys: seq<T>)
    requires Subsequence(xs, ys)
    ensures Subsequence(front + xs, front + ys)
  {
    var p: seq<int> :| Picks(xs, ys, p);
    var n := |front|;
    assert Picks(front + xs, front + ys, seq(n + |xs|, i requires 0 <= i < n + |xs| => if i < n then i else n + p[i - n]));
  }

  lemma PicksMore<T>(xs: seq<T>, ys: seq<T>, picks: seq<int>, y: T)
    requires Picks(xs, ys, picks)
    ensures Picks(xs, ys + [y], picks) && Picks(xs + [y], ys + [y], picks + [|ys|])
  {
  }

  /** Every position up to len is in one of two lists, and not in both. */
  ghost predicate Complement(picks: seq<int>, rest: seq<int>, len: int) {
    forall j :: 0 <= j < len ==> (j in picks <==> j !in rest)
  }

  lemma ComplementMore(picks: seq<int>, rest: seq<int>, len: int)
    requires Complement(picks, rest, len) && len >= 0
    requires forall j :: j in picks || j in rest ==> j < len
    ensures Complement(picks + [len], rest, len + 1) && Complement(picks, rest + [len], len + 1)
  {
  }
}
