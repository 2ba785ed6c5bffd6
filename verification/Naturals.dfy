/** Values not used before. */
module Naturals {

  lemma FreshId(used: set<nat>) returns (id: nat)
    ensures id !in used
  {
    id := UpperBound(used);
  }

  lemma {:induction false} UpperBound(used: set<nat>) returns (bound: nat)
    ensures forall n <- used :: n < bound
  {
    if used == {} {
      bound := 0;
    } else {
      var x :| x in used;
      var b := UpperBound(used - {x});
      bound := if x < b then b else x + 1;
      assert forall n <- used :: n == x || n in used - {x};
    }
  }
}
