/**
 A predicate whose content is a `forall` over `Look` at a fact is seen into only where
 a look at that fact is mentioned. Proofs that merely hand it on stay small.
*/
module Seals {
  datatype Fact = Balancing | Booking | Cutting | Silencing | Dividing | Delivering | Recording | Remembering | Turning | Transforming

  predicate Look(fact: Fact, n: nat) {
    true
  }
}
