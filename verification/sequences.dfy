/** Facts about sequences shared by the other modules. */
module Sequences {

  /** No element occurs twice. */
  predicate NoDuplicates<T(==)>(s: seq<T>)
  {
    forall i, j :: 0 <= i < j < |s| ==> s[i] != s[j]
  }

  /**
   * `Stream.distinct()`: the first occurrence of each element, in encounter
   * order; nothing is lost and nothing is repeated.
   */
  function Distinct(s: seq<string>): (r: seq<string>)
    ensures NoDuplicates(r)
    ensures forall x :: x in r <==> x in s
    decreases |s|
  {
    if s == [] then []
    else
      var r := Distinct(s[..|s| - 1]);
      assert forall x :: x in s <==> x in s[..|s| - 1] || x == s[|s| - 1];
      if s[|s| - 1] in r then r else r + [s[|s| - 1]]
  }
}
