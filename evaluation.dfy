/** The static evaluation (crates/engine/src/evaluation/evaluation.rs):
    the PeSTO midgame and endgame scores tapered by the game phase, plus
    50 for a bishop pair, all from the point of view of the side to move.
    The board's running scores, its game phase and whether a side owns a
    bishop pair are inputs. The `i32` arithmetic is unbounded here. */
module Evaluation {
  import opened Pieces

  /** The phase at which the midgame score counts in full. */
  const MaxPhase: int := 24
  const BishopPairBonus: int := 50

  /** Rust's `/` on integers: the quotient truncated toward zero. */
  function TruncDiv(a: int, d: int): (q: int)
    requires d > 0
    ensures a >= 0 ==> q == a / d
    ensures a < 0 ==> q == -((-a) / d)
  {
    if a >= 0 then a / d else -((-a) / d)
  }

  /** Truncating division is odd: it commutes with negation. */
  lemma TruncDivOdd(a: int, d: int)
    requires d > 0
    ensures TruncDiv(-a, d) == -TruncDiv(a, d)
  {
  }

  /** `pesto_evaluation`: the score differences tapered by the phase,
      which is clamped to at most 24. */
  function Pesto(midgame: Color -> int, endgame: Color -> int, gamephase: int, active: Color): int
  {
    var midgameScore := midgame(active) - midgame(Other(active));
    var endgameScore := endgame(active) - endgame(Other(active));
    var midgamePhase := if gamephase > MaxPhase then MaxPhase else gamephase;
    var endgamePhase := MaxPhase - midgamePhase;
    TruncDiv(midgameScore * midgamePhase + endgameScore * endgamePhase, MaxPhase)
  }

  /** `get_bishop_pair_eval`. */
  function BishopPairEval(hasBishopPair: Color -> bool, color: Color): int
  {
    if hasBishopPair(color) then BishopPairBonus else 0
  }

  /** `get_bishop_pair_difference`: the side to move's bonus less the
      opponent's. */
  function BishopPairDifference(hasBishopPair: Color -> bool, active: Color): (d: int)
    ensures d == BishopPairBonus <==> hasBishopPair(active) && !hasBishopPair(Other(active))
    ensures d == -BishopPairBonus <==> !hasBishopPair(active) && hasBishopPair(Other(active))
    ensures d == 0 <==> hasBishopPair(active) == hasBishopPair(Other(active))
  {
    BishopPairEval(hasBishopPair, active) - BishopPairEval(hasBishopPair, Other(active))
  }

  /** `evaluate`. */
  function Evaluate(midgame: Color -> int, endgame: Color -> int, gamephase: int,
                    hasBishopPair: Color -> bool, active: Color): int
  {
    Pesto(midgame, endgame, gamephase, active) + BishopPairDifference(hasBishopPair, active)
  }

  /** The evaluation is zero-sum: what one side gains, the other loses,
      even with the truncating division. */
  lemma EvaluateAntisymmetric(midgame: Color -> int, endgame: Color -> int, gamephase: int,
                              hasBishopPair: Color -> bool, active: Color)
    ensures Evaluate(midgame, endgame, gamephase, hasBishopPair, active)
         == -Evaluate(midgame, endgame, gamephase, hasBishopPair, Other(active))
  {
    var other := Other(active);
    assert Other(other) == active;
    var mp := if gamephase > MaxPhase then MaxPhase else gamephase;
    var x := (midgame(active) - midgame(other)) * mp + (endgame(active) - endgame(other)) * (MaxPhase - mp);
    assert (midgame(other) - midgame(active)) * mp + (endgame(other) - endgame(active)) * (MaxPhase - mp) == -x;
    TruncDivOdd(x, MaxPhase);
  }

  /** At full phase (24 or more) only the midgame score counts; at phase 0
      only the endgame score. */
  lemma PestoEndpoints(midgame: Color -> int, endgame: Color -> int, gamephase: int, active: Color)
    ensures gamephase >= MaxPhase ==>
      Pesto(midgame, endgame, gamephase, active) == midgame(active) - midgame(Other(active))
    ensures gamephase == 0 ==>
      Pesto(midgame, endgame, gamephase, active) == endgame(active) - endgame(Other(active))
  {
    var m := midgame(active) - midgame(Other(active));
    var e := endgame(active) - endgame(Other(active));
    assert TruncDiv(m * MaxPhase, MaxPhase) == m;
    assert TruncDiv(e * MaxPhase, MaxPhase) == e;
  }

  /** For a phase in `[0, 24]` the tapered score lies between the endgame
      and the midgame score differences. */
  lemma PestoBetween(midgame: Color -> int, endgame: Color -> int, gamephase: int, active: Color)
    requires 0 <= gamephase
    ensures var m, e := midgame(active) - midgame(Other(active)), endgame(active) - endgame(Other(active));
      var p := Pesto(midgame, endgame, gamephase, active);
      (m <= p <= e) || (e <= p <= m)
  {
    var m, e := midgame(active) - midgame(Other(active)), endgame(active) - endgame(Other(active));
    var mp := if gamephase > MaxPhase then MaxPhase else gamephase;
    WeightedTruncDiv(m, e, mp);
  }

  /** The truncated average of `m` and `e` with integer weights `w` and
      `24 - w` lies between them. */
  lemma WeightedTruncDiv(m: int, e: int, w: int)
    requires 0 <= w <= MaxPhase
    ensures var q := TruncDiv(m * w + e * (MaxPhase - w), MaxPhase);
      (m <= q <= e) || (e <= q <= m)
  {
    var x := m * w + e * (MaxPhase - w);
    if m <= e {
      WeightedBetween(m, e, w);
      DivBetween(x, m, e);
    } else {
      WeightedBetween(e, m, MaxPhase - w);
      assert x == e * (MaxPhase - w) + m * (MaxPhase - (MaxPhase - w));
      DivBetween(x, e, m);
    }
  }

  /** A weighted sum of `lo <= hi` with weights `w` and `24 - w` lies
      between 24 times each. */
  lemma WeightedBetween(lo: int, hi: int, w: int)
    requires lo <= hi && 0 <= w <= MaxPhase
    ensures lo * MaxPhase <= lo * w + hi * (MaxPhase - w) <= hi * MaxPhase
  {
    var d := hi - lo;
    assert lo * w + hi * (MaxPhase - w) == lo * MaxPhase + d * (MaxPhase - w);
    assert hi * MaxPhase - (lo * w + hi * (MaxPhase - w)) == d * w;
    assert d * w >= 0 && d * (MaxPhase - w) >= 0;
  }

  lemma DivBetween(x: int, lo: int, hi: int)
    requires lo * MaxPhase <= x <= hi * MaxPhase
    ensures lo <= TruncDiv(x, MaxPhase) <= hi
  {
    if x >= 0 {
      assert (x / MaxPhase) * MaxPhase <= x < (x / MaxPhase + 1) * MaxPhase;
    } else {
      assert ((-x) / MaxPhase) * MaxPhase <= -x < ((-x) / MaxPhase + 1) * MaxPhase;
    }
  }
}
