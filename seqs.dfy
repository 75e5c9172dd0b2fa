/** Two facts about sequence concatenation that the decoding and sending
    proofs use at a single step each. */
module Seqs {

  /** Splitting off the head of a non-empty sequence and concatenating. */
  lemma ConsAppend<T>(s: seq<T>, x: seq<T>)
    requires s != []
    ensures [s[0]] + (s[1..] + x) == s + x
  {
    assert s == [s[0]] + s[1..];
  }

  /** Concatenation is associative. */
  lemma AppendAssoc<T>(a: seq<T>, b: seq<T>, c: seq<T>)
    ensures (a + b) + c == a + (b + c)
  {
  }
}
