/** The usual optional-value wrapper, and the values present in a sequence of them. */
module Wrappers {
  datatype Option<+T> = None | Some(value: T)

  /** The values of the `Some` elements of `xs`, in order. */
  function Somes<T>(xs: seq<Option<T>>): (r: seq<T>)
    ensures |r| <= |xs|
    decreases |xs|
  {
    if xs == [] then []
    else Somes(xs[..|xs| - 1]) + (if xs[|xs| - 1].Some? then [xs[|xs| - 1].value] else [])
  }

  /** The positions of the `Some` elements of `xs`, in order. */
  function SomeIndices<T>(xs: seq<Option<T>>): seq<nat>
    decreases |xs|
  {
    if xs == [] then []
    else SomeIndices(xs[..|xs| - 1]) + (if xs[|xs| - 1].Some? then [|xs| - 1] else [])
  }

  /**
   * `Somes(xs)[i]` is the value at position `SomeIndices(xs)[i]`; the
   * positions increase; and every position not listed holds `None`.
   */
  lemma {:induction false} SomesAt<T>(xs: seq<Option<T>>)
    ensures |Somes(xs)| == |SomeIndices(xs)| <= |xs|
    ensures forall i :: 0 <= i < |SomeIndices(xs)| ==>
              SomeIndices(xs)[i] < |xs| && xs[SomeIndices(xs)[i]] == Some(Somes(xs)[i])
    ensures forall i, j :: 0 <= i < j < |SomeIndices(xs)| ==> SomeIndices(xs)[i] < SomeIndices(xs)[j]
    ensures forall k :: 0 <= k < |xs| && k !in SomeIndices(xs) ==> xs[k].None?
    decreases |xs|
  {
    if xs != [] {
      var n := |xs| - 1;
      var init := xs[..n];
      SomesAt(init);
      var o, e := SomeIndices(init), Somes(init);
      forall i | 0 <= i < |o|
        ensures o[i] < n && xs[o[i]] == Some(e[i])
      {
        assert init[o[i]] == xs[o[i]];
      }
      forall k | 0 <= k < |xs| && k !in SomeIndices(xs)
        ensures xs[k].None?
      {
        if k < n {
          assert k !in o;
          assert init[k] == xs[k];
        }
      }
    }
  }
}
