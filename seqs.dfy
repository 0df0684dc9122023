/** Small facts about sequences shared by the other modules. */
module Seqs {

  /** Concatenation is associative; used to regroup strings built piece by piece. */
  lemma AppendAssoc<T>(a: seq<T>, b: seq<T>, c: seq<T>)
    ensures (a + b) + c == a + (b + c)
  {
  }
}
