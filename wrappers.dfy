/** Null-able values and the uncaught-exception outcome shared by every screen. */
module Wrappers {

  /** A Java reference that may be null: None stands for null. */
  datatype Option<T> = None | Some(value: T)

  /** The outcome of a database callback: either it ran to the end and produced a value,
      or an exception escaped from it (which ends the application). */
  datatype Fetch<T> = Fetched(value: T) | Crashed

  /** The values of the non-null entries of s, in their original order. */
  function Somes<T>(s: seq<Option<T>>): (r: seq<T>)
    ensures |r| <= |s|
    ensures forall i :: 0 <= i < |r| ==> Some(r[i]) in s
    ensures forall i :: 0 <= i < |s| && s[i].Some? ==> s[i].value in r
  {
    if s == [] then []
    else
      var init := s[..|s| - 1];
      assert s == init + [s[|s| - 1]];
      Somes(init) + (if s[|s| - 1].Some? then [s[|s| - 1].value] else [])
  }

  /** Somes maps concatenation to concatenation, so order is preserved. */
  lemma {:induction false} SomesAppend<T>(a: seq<Option<T>>, b: seq<Option<T>>)
    ensures Somes(a + b) == Somes(a) + Somes(b)
    decreases |b|
  {
    if b == [] {
      assert a + b == a;
    } else {
      var b' := b[..|b| - 1];
      assert (a + b)[..|a + b| - 1] == a + b';
      SomesAppend(a, b');
    }
  }
}
