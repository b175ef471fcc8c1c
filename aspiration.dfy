/** The aspiration window around the previous iteration's evaluation
    (crates/engine/src/search/aspiration.rs). The negamax search it calls
    is a parameter: a function from a window to an evaluation or the
    reason the search stopped. */
module Aspiration {
  import opened Wrappers
  import opened Search
  import NegamaxRules

  const AspirationWindow: int := 20

  /** `aspiration`: a search of `[last - 20, last + 20]`; a result on or
      outside either bound is searched again with the full window
      `[MIN_EVAL, MAX_EVAL]`. A stop of either search is returned as it is. */
  function AspirationSearch(search: (int, int) -> Result<int, StopReason>, lastEval: int): (r: Result<int, StopReason>)
    ensures var alpha, beta := lastEval - AspirationWindow, lastEval + AspirationWindow;
      match search(alpha, beta)
      case Err(reason) => r == Err(reason)
      case Ok(eval) =>
        if alpha < eval < beta then r == Ok(eval) else r == search(MinEval, MaxEval)
  {
    var alpha := lastEval - AspirationWindow;
    var beta := lastEval + AspirationWindow;
    match search(alpha, beta)
    case Err(reason) => Err(reason)
    case Ok(eval) =>
      if eval <= alpha || eval >= beta then search(MinEval, MaxEval) else Ok(eval)
  }

  /** If every search answers fail-soft for the position's true value `v`,
      and `v` is strictly inside the full window, the aspiration search
      finds `v` whenever it is not stopped: a first result inside the
      narrow window is exact, and otherwise the full-window search is. */
  lemma AspirationFindsValue(search: (int, int) -> Result<int, StopReason>, lastEval: int, v: int)
    requires forall a, b :: search(a, b).Ok? ==> NegamaxRules.FailSoft(a, b, search(a, b).value, v)
    requires MinEval < v < MaxEval
    ensures AspirationSearch(search, lastEval).Ok? ==> AspirationSearch(search, lastEval) == Ok(v)
  {
    var alpha, beta := lastEval - AspirationWindow, lastEval + AspirationWindow;
    var first := search(alpha, beta);
    var full := search(MinEval, MaxEval);
    if first.Ok? && (first.value <= alpha || first.value >= beta) && full.Ok? {
      assert NegamaxRules.FailSoft(MinEval, MaxEval, full.value, v);
    }
  }
}
