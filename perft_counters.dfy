/** The counters a perft run collects (crates/engine/src/perft/perft.rs).
    The `u64` fields are unbounded here. */
module PerftCounters {

  datatype PerftStats = PerftStats(nodes: nat, captures: nat, enPassants: nat, castles: nat, promotions: nat)

  /** `PerftStats::default`. */
  const Zero := PerftStats(0, 0, 0, 0, 0)

  /** `+=`: every counter is added to its own kind. */
  function Add(a: PerftStats, b: PerftStats): PerftStats
  {
    PerftStats(a.nodes + b.nodes, a.captures + b.captures, a.enPassants + b.enPassants,
               a.castles + b.castles, a.promotions + b.promotions)
  }

  /** Summing a list of counters in order, as the loop over the moves does. */
  function Sum(s: seq<PerftStats>): PerftStats
  {
    if |s| == 0 then Zero else Add(Sum(s[..|s| - 1]), s[|s| - 1])
  }

  /** Adding counters forms a commutative monoid with `Zero`, so the order
      in which the moves are visited does not change the totals. */
  lemma AddMonoid(a: PerftStats, b: PerftStats, c: PerftStats)
    ensures Add(a, Zero) == a && Add(Zero, a) == a
    ensures Add(a, b) == Add(b, a)
    ensures Add(Add(a, b), c) == Add(a, Add(b, c))
  {
  }

  /** Summing two lists of counters one after the other is adding their
      sums. */
  lemma {:induction false} SumConcat(s: seq<PerftStats>, t: seq<PerftStats>)
    ensures Sum(s + t) == Add(Sum(s), Sum(t))
    decreases |t|
  {
    if |t| == 0 {
      assert s + t == s;
      AddMonoid(Sum(s), Zero, Zero);
    } else {
      var init, last := t[..|t| - 1], t[|t| - 1];
      assert (s + t)[..|s + t| - 1] == s + init;
      assert (s + t)[|s + t| - 1] == last;
      SumConcat(s, init);
      calc {
        Sum(s + t);
        Add(Sum(s + init), last);
        Add(Add(Sum(s), Sum(init)), last);
        { AddMonoid(Sum(s), Sum(init), last); }
        Add(Sum(s), Add(Sum(init), last));
        Add(Sum(s), Sum(t));
      }
    }
  }
}
