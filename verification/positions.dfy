/** Ascending lists of positions into a sequence, as `filter` keeps them. */
module Positions {

  /** Every position one further on. */
  function Bump(idx: seq<nat>): (r: seq<nat>)
    ensures |r| == |idx| && forall t :: 0 <= t < |idx| ==> r[t] == idx[t] + 1
  {
    seq(|idx|, t requires 0 <= t < |idx| => idx[t] + 1)
  }

  /** Each position lies strictly before the next. */
  predicate Ascending(idx: seq<nat>) {
    forall s, t :: 0 <= s < t < |idx| ==> idx[s] < idx[t]
  }

  /** Prepending position 0 (or nothing) to the shifted positions keeps them ascending. */
  lemma AscendingCons(head: seq<nat>, rest: seq<nat>)
    requires Ascending(rest) && (head == [] || head == [0])
    ensures Ascending(head + Bump(rest))
  {
    var idx := head + Bump(rest);
    forall s, t | 0 <= s < t < |idx| ensures idx[s] < idx[t] {
      if s >= |head| {
        assert idx[s] == rest[s - |head|] + 1 && idx[t] == rest[t - |head|] + 1;
      }
    }
  }

}
