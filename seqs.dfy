/** List operations of Python that the model needs: `list.remove(x)` and de-duplication. */
module Seqs {

  /** `xs.remove(x)`: drops the first element equal to `x`; `xs` is unchanged when `x` is absent. */
  function RemoveFirst<T(==)>(xs: seq<T>, x: T): (r: seq<T>)
    ensures x in xs ==> |r| == |xs| - 1
    ensures x !in xs ==> r == xs
  {
    if xs == [] then []
    else if xs[0] == x then xs[1..]
    else [xs[0]] + RemoveFirst(xs[1..], x)
  }

  /** `xs.remove(x)` takes out one occurrence of `x` and keeps all else. */
  lemma {:induction false} RemoveFirstCount<T>(xs: seq<T>, x: T)
    requires x in xs
    ensures multiset(RemoveFirst(xs, x)) == multiset(xs) - multiset{x}
  {
    assert xs == [xs[0]] + xs[1..];
    if xs[0] != x {
      RemoveFirstCount(xs[1..], x);
    }
  }

  /** `xs.remove(xs[i])` when no element before index `i` equals `xs[i]`. */
  lemma {:induction false} RemoveFirstAt<T>(xs: seq<T>, i: nat)
    requires i < |xs| && forall k :: 0 <= k < i ==> xs[k] != xs[i]
    ensures RemoveFirst(xs, xs[i]) == xs[..i] + xs[i + 1..]
  {
    if i > 0 {
      var t := xs[1..];
      assert t[i - 1] == xs[i] && xs[0] != xs[i];
      assert forall k :: 0 <= k < i - 1 ==> t[k] == xs[k + 1];
      RemoveFirstAt(t, i - 1);
      assert t[..i - 1] == xs[1..i] && t[i..] == xs[i + 1..];
      assert xs[..i] == [xs[0]] + xs[1..i];
    }
  }

  predicate NoDuplicates<T(==)>(xs: seq<T>) {
    forall i, j :: 0 <= i < j < |xs| ==> xs[i] != xs[j]
  }

  /** The distinct elements of `xs`, in order of first occurrence. */
  function Distinct<T(==)>(xs: seq<T>): (r: seq<T>)
    ensures NoDuplicates(r)
    ensures forall i :: 0 <= i < |r| ==> r[i] in xs
    ensures forall i :: 0 <= i < |xs| ==> xs[i] in r
  {
    if xs == [] then []
    else
      var rest := Distinct(xs[..|xs| - 1]);
      var last := xs[|xs| - 1];
      assert xs == xs[..|xs| - 1] + [last];
      if last in rest then rest else rest + [last]
  }
}
