/** Two facts about concatenation that the verifier does not look for by itself. */
module Sequences {
  lemma Assoc<T>(a: seq<T>, b: seq<T>, c: seq<T>)
    ensures (a + b) + c == a + (b + c)
  {}

  lemma Nothing<T>(s: seq<T>)
    ensures s + [] == s
  {}
}
