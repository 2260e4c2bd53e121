/** Order-preserving selection from a list. */
module Sequences {
  /** `a` is `b` with some entries left out, the rest in their order. */
  predicate SubsequenceOf<T(==)>(a: seq<T>, b: seq<T>)
    decreases |b|
  {
    if a == [] then true
    else if b == [] then false
    else (a[0] == b[0] && SubsequenceOf(a[1..], b[1..])) || SubsequenceOf(a, b[1..])
  }

  /** A subsequence of the tail is a subsequence of the whole list. */
  lemma SkipFront<T>(a: seq<T>, b: seq<T>)
    requires b != [] && SubsequenceOf(a, b[1..])
    ensures SubsequenceOf(a, b)
  {
  }

  /** Keeping the head and a subsequence of the tail gives a subsequence. */
  lemma KeepFront<T>(a: seq<T>, b: seq<T>)
    requires b != [] && SubsequenceOf(a, b[1..])
    ensures SubsequenceOf([b[0]] + a, b)
  {
    assert ([b[0]] + a)[1..] == a;
  }
}
