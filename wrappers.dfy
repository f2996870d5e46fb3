/** The optional value used wherever the source returns null or a "not found" flag. */
module Wrappers {
  datatype Option<+T> = None | Some(value: T)

  /** The present values of a sequence of options, in order (a `List.Add` guarded by a filter). */
  function Somes<T>(xs: seq<Option<T>>): (r: seq<T>)
    ensures |r| <= |xs|
  {
    if xs == [] then []
    else (match xs[0] case Some(x) => [x] case None => []) + Somes(xs[1..])
  }

  /** Extending a prefix by one option extends its present values by at most that one. */
  lemma SomesPrefix<T>(xs: seq<Option<T>>, i: int)
    requires 0 <= i < |xs|
    ensures Somes(xs[..i + 1]) == Somes(xs[..i]) + (if xs[i].Some? then [xs[i].value] else [])
  {
    assert xs[..i + 1] == xs[..i] + [xs[i]];
    SomesAppend(xs[..i], [xs[i]]);
    assert [xs[i]][1..] == [];
  }

  /** Exactly the present values survive. */
  lemma {:induction false} SomesMembers<T>(xs: seq<Option<T>>)
    ensures forall i :: 0 <= i < |Somes(xs)| ==> Some(Somes(xs)[i]) in xs
    ensures forall i :: 0 <= i < |xs| && xs[i].Some? ==> xs[i].value in Somes(xs)
    decreases |xs|
  {
    if xs != [] {
      SomesMembers(xs[1..]);
      assert forall i :: 0 < i < |xs| ==> xs[i] == xs[1..][i - 1];
    }
  }

  lemma {:induction false} SomesAppend<T>(a: seq<Option<T>>, b: seq<Option<T>>)
    ensures Somes(a + b) == Somes(a) + Somes(b)
    decreases |a|
  {
    if a == [] {
      assert a + b == b;
    } else {
      assert (a + b)[1..] == a[1..] + b;
      SomesAppend(a[1..], b);
    }
  }
}
