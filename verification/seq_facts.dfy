/** Two facts about sequence concatenation that the solver does not find on
    its own when the operands are large terms. */
module SeqFacts {
  lemma AppendAssoc<T>(a: seq<T>, b: seq<T>, c: seq<T>)
    ensures a + b + c == a + (b + c)
  {
  }

  lemma AppendEmpty<T>(a: seq<T>, b: seq<T>)
    requires a == []
    ensures a + b == b
  {
  }
}
