/** Small facts about sequences, each proved on its own so that the proofs
    using them need no reasoning about sequence elements. */
module SeqFacts {

  lemma ConsTail<T>(s: seq<T>)
    requires |s| > 0
    ensures [s[0]] + s[1..] == s
  {
  }

  lemma AppendAssoc<T>(a: seq<T>, b: seq<T>, c: seq<T>)
    ensures a + b + c == a + (b + c)
  {
  }

  lemma AppendEmpty<T>(a: seq<T>)
    ensures a + [] == a && [] + a == a
  {
  }

  lemma TakeAll<T>(s: seq<T>)
    ensures s[..|s|] == s
  {
  }

  lemma TakeStep<T>(s: seq<T>, i: int)
    requires 0 <= i < |s|
    ensures s[..i + 1] == s[..i] + [s[i]]
  {
  }

  lemma LastOfCons<T>(x: T, s: seq<T>)
    requires |s| > 0
    ensures |[x] + s| == |s| + 1 && ([x] + s)[|s|] == s[|s| - 1]
  {
  }
}
