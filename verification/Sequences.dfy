/** Facts about sequences that several modules need. */
module Sequences {

  ghost predicate Distinct<T>(s: seq<T>) {
    forall i, j :: 0 <= i < j < |s| ==> s[i] != s[j]
  }

  /** What is left when the element at `n` is cut out. */
  lemma CutIndex<T>(s: seq<T>, n: nat)
    requires n < |s|
    ensures var u := s[..n] + s[n + 1..];
      |u| == |s| - 1 && forall i :: 0 <= i < |u| ==> u[i] == s[if i < n then i else i + 1]
  {
  }
}
