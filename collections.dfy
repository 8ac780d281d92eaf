/** Sequence helpers shared by the quiz engines and the setup transform. */
module Collections {

  /** The number of `true` entries of `s`; defined from the back so that appending is one step. */
  function CountTrue(s: seq<bool>): (n: nat)
    ensures n <= |s|
    ensures n == 0 <== (forall i :: 0 <= i < |s| ==> !s[i])
  {
    if s == [] then 0 else CountTrue(s[..|s| - 1]) + (if s[|s| - 1] then 1 else 0)
  }

  /** Appending one entry adds one to the count exactly when that entry is `true`. */
  lemma CountTrueAppend(s: seq<bool>, b: bool)
    ensures CountTrue(s + [b]) == CountTrue(s) + (if b then 1 else 0)
  {
    assert (s + [b])[..|s|] == s;
  }

  /** The count reaches the length exactly when every entry is `true`. */
  lemma {:induction false} CountTrueFull(s: seq<bool>)
    ensures CountTrue(s) == |s| <==> forall i :: 0 <= i < |s| ==> s[i]
  {
    if s != [] {
      var init := s[..|s| - 1];
      CountTrueFull(init);
      assert forall i :: 0 <= i < |init| ==> init[i] == s[i];
    }
  }

  /**
   * A shuffle driven by explicit random draws: the element at the position named
   * by the next draw is taken next (the first remaining one when the draw is out
   * of range or the draws have run out). Whatever the draws, the result is a
   * rearrangement of `xs`.
   */
  function Shuffle<T>(xs: seq<T>, draws: seq<nat>): (ys: seq<T>)
    ensures multiset(ys) == multiset(xs)
    decreases |xs|
  {
    if xs == [] then []
    else
      var k := if draws != [] && draws[0] < |xs| then draws[0] else 0;
      assert xs == xs[..k] + [xs[k]] + xs[k + 1..];
      [xs[k]] + Shuffle(xs[..k] + xs[k + 1..], if draws == [] then [] else draws[1..])
  }

  /** Removing the element at `k` removes one occurrence of it from the multiset. */
  lemma RemoveAt<T>(xs: seq<T>, k: nat)
    requires k < |xs|
    ensures multiset(xs[..k] + xs[k + 1..]) == multiset(xs) - multiset{xs[k]}
  {
    assert xs == xs[..k] + [xs[k]] + xs[k + 1..];
  }

  /** A draw in range takes exactly the element it names. */
  lemma ShuffleStep<T>(xs: seq<T>, draws: seq<nat>)
    requires draws != [] && draws[0] < |xs|
    ensures Shuffle(xs, draws) == [xs[draws[0]]] + Shuffle(xs[..draws[0]] + xs[draws[0] + 1..], draws[1..])
  {
  }

  lemma HeadTail<T>(s: seq<T>)
    requires s != []
    ensures s == [s[0]] + s[1..]
  {
  }

  /** Taking a matching element out of both sides keeps two rearrangements rearrangements of each other. */
  lemma RemoveMatching<T>(xs: seq<T>, ys: seq<T>, k: nat)
    requires multiset(ys) == multiset(xs) && k < |xs| && ys != [] && xs[k] == ys[0]
    ensures multiset(xs[..k] + xs[k + 1..]) == multiset(ys[1..])
  {
    RemoveAt(xs, k);
    RemoveAt(ys, 0);
    assert ys[..0] + ys[1..] == ys[1..];
  }

  /** A draw naming the first element of `ys` extends draws that produce the rest of it. */
  lemma PrependDraw<T>(xs: seq<T>, ys: seq<T>, k: nat, d: seq<nat>)
    requires k < |xs| && ys != [] && xs[k] == ys[0]
    requires Shuffle(xs[..k] + xs[k + 1..], d) == ys[1..]
    ensures Shuffle(xs, [k] + d) == ys
  {
    var draws := [k] + d;
    assert draws[0] == k && draws[1..] == d;
    ShuffleStep(xs, draws);
    HeadTail(ys);
  }

  /** Every rearrangement of `xs` is produced by some sequence of draws. */
  lemma {:induction false} ShuffleReachesEveryPermutation<T>(xs: seq<T>, ys: seq<T>)
    requires multiset(ys) == multiset(xs)
    ensures exists draws :: Shuffle(xs, draws) == ys
    decreases |xs|
  {
    assert |ys| == |xs| by {
      assert |multiset(ys)| == |ys|;
    }
    if xs == [] {
      assert Shuffle(xs, []) == ys;
    } else {
      assert ys[0] in multiset(xs);
      var k :| 0 <= k < |xs| && xs[k] == ys[0];
      RemoveMatching(xs, ys, k);
      ShuffleReachesEveryPermutation(xs[..k] + xs[k + 1..], ys[1..]);
      var d :| Shuffle(xs[..k] + xs[k + 1..], d) == ys[1..];
      PrependDraw(xs, ys, k, d);
    }
  }
}
