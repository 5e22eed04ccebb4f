/** Sequences with elements left out. */
module Sequences {

  /** `part` is `whole` with some of its elements left out. */
  ghost predicate Subsequence<T(!new)>(part: seq<T>, whole: seq<T>)
    decreases |whole|
  {
    if part == [] then true
    else if whole == [] then false
    else
      || (part[|part| - 1] == whole[|whole| - 1] && Subsequence(part[..|part| - 1], whole[..|whole| - 1]))
      || Subsequence(part, whole[..|whole| - 1])
  }

  lemma {:induction false} SubsequenceWithin<T(!new)>(part: seq<T>, whole: seq<T>)
    requires Subsequence(part, whole)
    ensures |part| <= |whole| && forall x :: x in part ==> x in whole
    decreases |whole|
  {
    if part != [] {
      var most := whole[..|whole| - 1];
      assert whole == most + [whole[|whole| - 1]];
      if part[|part| - 1] == whole[|whole| - 1] && Subsequence(part[..|part| - 1], most) {
        SubsequenceWithin(part[..|part| - 1], most);
        assert part == part[..|part| - 1] + [part[|part| - 1]];
      } else {
        SubsequenceWithin(part, most);
      }
    }
  }

  lemma SubsequenceEmpty<T(!new)>(whole: seq<T>)
    ensures Subsequence([], whole)
  {
  }

  lemma SubsequenceSkip<T(!new)>(part: seq<T>, whole: seq<T>, x: T)
    requires Subsequence(part, whole)
    ensures Subsequence(part, whole + [x])
  {
    assert (whole + [x])[..|whole|] == whole;
  }

  lemma SubsequenceTake<T(!new)>(part: seq<T>, whole: seq<T>, x: T)
    requires Subsequence(part, whole)
    ensures Subsequence(part + [x], whole + [x])
  {
    assert (whole + [x])[..|whole|] == whole && (part + [x])[..|part|] == part;
  }
}
