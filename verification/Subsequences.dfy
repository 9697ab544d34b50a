/** One sequence within another: the same elements in the same order, each used at most once. */
module Subsequences {

  predicate Within<T(==)>(a: seq<T>, b: seq<T>) {
    if a == [] then true
    else if b == [] then false
    else
      var c, d := a[..|a| - 1], b[..|b| - 1];
      (a[|a| - 1] == b[|b| - 1] && Within(c, d)) || Within(a, d)
  }

  /** What that means: places in `b`, in order, that hold the elements of `a`. */
  lemma {:induction false} WithinMeans<T>(a: seq<T>, b: seq<T>) returns (at: seq<nat>)
    requires Within(a, b)
    ensures |at| == |a|
    ensures forall i :: 0 <= i < |a| ==> at[i] < |b| && b[at[i]] == a[i]
    ensures forall i, j :: 0 <= i < j < |a| ==> at[i] < at[j]
    decreases |b|
  {
    if a == [] {
      at := [];
    } else if a[|a| - 1] == b[|b| - 1] && Within(a[..|a| - 1], b[..|b| - 1]) {
      at := WithinMeans(a[..|a| - 1], b[..|b| - 1]);
      at := at + [|b| - 1];
    } else {
      at := WithinMeans(a, b[..|b| - 1]);
    }
  }

  lemma WithinSkips<T>(a: seq<T>, b: seq<T>, y: T)
    requires Within(a, b)
    ensures Within(a, b + [y])
  {
    assert (b + [y])[..|b|] == b;
  }

  lemma WithinTakes<T>(a: seq<T>, b: seq<T>, y: T)
    requires Within(a, b)
    ensures Within(a + [y], b + [y])
  {
    assert (a + [y])[..|a|] == a && (b + [y])[..|b|] == b;
  }

  lemma {:induction false} WithinDrops<T>(a: seq<T>, x: T, b: seq<T>)
    requires Within(a + [x], b)
    ensures Within(a, b)
    decreases |b|
  {
    var d := b[..|b| - 1];
    assert (a + [x])[..|a|] == a;
    assert b == d + [b[|b| - 1]];
    if !Within(a, d) {
      WithinDrops(a, x, d);
    }
    WithinSkips(a, d, b[|b| - 1]);
  }
}
