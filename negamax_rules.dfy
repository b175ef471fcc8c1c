/** The bookkeeping rules of the older principal-variation search
    (src/search/negamax.rs): how a transposition entry narrows the
    window, mate-distance pruning, the evaluations of finished games, the
    loop over the ordered moves with its alpha raise and beta cutoff, the
    killer rule and the bound flag of the stored result. The recursive
    calls themselves are not modelled: the move loop receives the child
    evaluations and principal variations the calls returned.

    A result `e` of a search of window `(alpha, beta)` for a position of
    true value `v` is read fail-soft (`FailSoft`): `e <= alpha` promises
    `v <= e`, `e >= beta` promises `v >= e`, and a result strictly
    inside the window is exact. */
module NegamaxRules {
  import opened Wrappers
  import opened Search
  import PackedMoves

  /** `NULL_DEPTH_REDUCTION` of the older search (src/search/mod.rs). */
  const NullReduction: nat := 2

  datatype TranspositionFlag = Exact | LowerBound | UpperBound

  /** A transposition entry as the search writes and reads it: the depth
      it was searched to, its flag and evaluation, the nodes visited and
      the best move found. */
  datatype TranspositionEntry = TranspositionEntry(
    key: nat, depth: U8, flag: TranspositionFlag, eval: int, nodes: nat,
    bestMove: Option<PackedMoves.PackedMove>)

  function Max(a: int, b: int): int { if a >= b then a else b }
  function Min(a: int, b: int): int { if a <= b then a else b }

  /** `e` is a fail-soft result of window `(alpha, beta)` for true value `v`. */
  predicate FailSoft(alpha: int, beta: int, e: int, v: int)
  {
    && (e <= alpha ==> v <= e)
    && (e >= beta ==> v >= e)
    && (alpha < e < beta ==> v == e)
  }

  /** What a flag promises about the true value `v` of its position. */
  predicate Bounds(flag: TranspositionFlag, eval: int, v: int)
  {
    match flag
    case Exact => v == eval
    case LowerBound => v >= eval
    case UpperBound => v <= eval
  }

  // ----- The bound flag of a stored result -----

  /** `store`: a result at or above beta is a lower bound, one at or below
      alpha an upper bound, and one strictly inside the window exact. */
  function StoreFlag(alpha: int, beta: int, eval: int): (f: TranspositionFlag)
    ensures f == LowerBound <==> eval >= beta
    ensures f == UpperBound <==> eval < beta && eval <= alpha
    ensures f == Exact <==> alpha < eval < beta
  {
    if eval >= beta then LowerBound
    else if eval <= alpha then UpperBound
    else Exact
  }

  /** The flag `store` writes for a fail-soft result is a true statement
      about the position's value. */
  lemma StoreFlagSound(alpha: int, beta: int, e: int, v: int)
    requires FailSoft(alpha, beta, e, v)
    ensures Bounds(StoreFlag(alpha, beta, e), e, v)
  {
  }

  // ----- Probing the transposition table -----

  /** What happens to a node's window before its moves are searched:
      either the node returns `eval` at once, or it searches the window
      `(alpha, beta)`. */
  datatype NodeWindow = Cut(eval: int) | Window(alpha: int, beta: int)

  /** An entry is used only when it was searched at least as deep. */
  predicate Usable(entry: Option<TranspositionEntry>, depth: U8)
  {
    entry.Some? && entry.value.depth >= depth
  }

  /** The probe at the top of `negamax`: an exact entry returns its
      evaluation, a lower bound raises alpha and an upper bound lowers
      beta; a window left empty returns the entry's evaluation. */
  function ProbeWindow(entry: Option<TranspositionEntry>, depth: U8, alpha: int, beta: int): (r: NodeWindow)
    ensures !Usable(entry, depth) ==> r == Window(alpha, beta)
    ensures r.Cut? ==> Usable(entry, depth) && r.eval == entry.value.eval
    ensures Usable(entry, depth) && r.Window? ==> alpha <= r.alpha && r.beta <= beta && r.alpha < r.beta
  {
    if !Usable(entry, depth) then Window(alpha, beta)
    else
      var e := entry.value;
      match e.flag
      case Exact => Cut(e.eval)
      case LowerBound =>
        var a := Max(alpha, e.eval);
        if a >= beta then Cut(e.eval) else Window(a, beta)
      case UpperBound =>
        var b := Min(beta, e.eval);
        if alpha >= b then Cut(e.eval) else Window(alpha, b)
  }

  /** The principal-variation move after the probe: a usable entry with a
      best move replaces it. */
  function ProbePvMove(entry: Option<TranspositionEntry>, depth: U8, pvMove: Option<PackedMoves.PackedMove>): (r: Option<PackedMoves.PackedMove>)
    ensures r != pvMove ==> Usable(entry, depth) && r == entry.value.bestMove && r.Some?
  {
    if Usable(entry, depth) && entry.value.bestMove.Some? then entry.value.bestMove else pvMove
  }

  /** Probing is sound: if the entry's flag is true of the position, an
      early return is a fail-soft result of the original window, and any
      fail-soft result of the narrowed window is one of the original
      window too. */
  lemma ProbeWindowSound(entry: Option<TranspositionEntry>, depth: U8, alpha: int, beta: int, v: int, e: int)
    requires alpha < beta
    requires entry.Some? ==> Bounds(entry.value.flag, entry.value.eval, v)
    ensures var r := ProbeWindow(entry, depth, alpha, beta);
      && (r.Cut? ==> FailSoft(alpha, beta, r.eval, v))
      && (r.Window? && FailSoft(r.alpha, r.beta, e, v) ==> FailSoft(alpha, beta, e, v))
  {
  }

  // ----- Mate-distance pruning -----

  /** Mate-distance pruning at `ply`: no score can beat being mated or
      mating at this ply, so beta drops to `CHECKMATE - ply` and alpha
      rises to `-(CHECKMATE - ply)`; an empty window returns the bound. */
  function MateDistance(alpha: int, beta: int, ply: U8): (r: NodeWindow)
    ensures r.Window? ==> alpha <= r.alpha && r.beta <= beta
    ensures r.Window? ==> r.beta <= Checkmate - ply
    ensures r.Window? ==> r.alpha >= -(Checkmate - ply)
    ensures r.Window? && alpha < beta ==> r.alpha < r.beta
    ensures r.Cut? ==> r.eval == Checkmate - ply || r.eval == -(Checkmate - ply)
  {
    var mateValue := Checkmate - ply;
    var b := if mateValue < beta then mateValue else beta;
    if mateValue < beta && alpha >= mateValue then Cut(mateValue)
    else
      var a := if -mateValue > alpha then -mateValue else alpha;
      if -mateValue > alpha && b <= -mateValue then Cut(-mateValue)
      else Window(a, b)
  }

  /** Mate-distance pruning is sound for every position whose value lies
      within the mate scores reachable from `ply`. */
  lemma MateDistanceSound(alpha: int, beta: int, ply: U8, v: int, e: int)
    requires -(Checkmate - ply) <= v <= Checkmate - ply
    ensures var r := MateDistance(alpha, beta, ply);
      && (r.Cut? ==> FailSoft(alpha, beta, r.eval, v))
      && (r.Window? && FailSoft(r.alpha, r.beta, e, v) ==> FailSoft(alpha, beta, e, v))
  {
  }

  // ----- Finished games -----

  /** The evaluation of a checkmated side at `ply`. */
  function MatedEval(ply: U8): int
  {
    -Checkmate + ply
  }

  /** A checkmate found at most `MAX_DEPTH` plies deep is recognised as a
      mate score, lies within the mate-distance bounds of its ply, and
      records that ply. */
  lemma MatedEvalIsMate(ply: U8)
    requires ply <= MaxDepth
    ensures MatedEval(ply) <= -CheckmateMin
    ensures -(Checkmate - ply) <= MatedEval(ply) <= Checkmate - ply
    ensures Checkmate + MatedEval(ply) == ply
  {
  }

  /** What the node returns before generating its moves, in the order the
      source tests: at depth 0 the quiescence evaluation, then a draw for
      the fifty-move rule, a threefold repetition or a stalemate, then
      the mated evaluation; `None` when the moves must be searched. */
  function LeafEval(depth: U8, halfmoves: nat, threefold: bool, stalemate: bool, checkmate: bool,
                    ply: U8, quiescenceEval: int): (r: Option<int>)
    ensures depth == 0 ==> r == Some(quiescenceEval)
    ensures depth > 0 && (halfmoves >= 50 || threefold || stalemate) ==> r == Some(Draw)
    ensures depth > 0 && halfmoves < 50 && !threefold && !stalemate ==>
              r == if checkmate then Some(MatedEval(ply)) else None
  {
    if depth == 0 then Some(quiescenceEval)
    else if halfmoves >= 50 then Some(Draw)
    else if threefold then Some(Draw)
    else if stalemate then Some(Draw)
    else if checkmate then Some(MatedEval(ply))
    else None
  }

  // ----- Depth adjustments -----

  /** The depth of the null-move search, which is tried only from depth 5. */
  function NullMoveDepth(depth: U8): (d: U8)
    requires depth >= 5
    ensures 2 <= d < depth
  {
    depth - 1 - NullReduction
  }

  /** The reduced depth of a late quiet move, tried only from depth 3. */
  function ReducedDepth(depth: U8): (d: U8)
    requires depth >= 3
    ensures 1 <= d < depth - 1
  {
    depth - 2
  }

  /** The check extension as written: a node in check gains a ply only
      when `extended` is already set. */
  function CheckExtension(depth: U8, isCheck: bool, extended: bool): (r: (U8, bool))
    requires depth < 255
  {
    if isCheck && extended then (depth + 1, true) else (depth, extended)
  }

  /** The root passes `extended = false` and every child receives the
      flag unchanged, so as written the extension never fires. */
  lemma CheckExtensionNeverFires(depth: U8, isCheck: bool)
    requires depth < 255
    ensures CheckExtension(depth, isCheck, false) == (depth, false)
  {
  }

  /** The evidently intended extension: a node in check gains one ply
      unless an ancestor was already extended, and then marks the line
      as extended. */
  function CheckExtensionOnce(depth: U8, isCheck: bool, extended: bool): (r: (U8, bool))
    requires depth < 255
    ensures r.0 == depth + 1 <==> isCheck && !extended
    ensures r.0 == depth || r.0 == depth + 1
    ensures r.1 == (extended || isCheck)
  {
    if isCheck && !extended then (depth + 1, true) else (depth, extended)
  }

  // ----- The move loop -----

  /** The state of the move loop after some moves. */
  datatype LoopState = LoopState(bestEval: int, alpha: int, best: Option<nat>, cutoff: bool, visited: nat)

  /** One move of the loop: `best_eval` takes the maximum, a best
      evaluation above alpha raises alpha and records the move, and alpha
      reaching beta cuts the loop off. */
  function Step(st: LoopState, i: nat, eval: int, beta: int): LoopState
  {
    var bestEval := Max(st.bestEval, eval);
    var improved := bestEval > st.alpha;
    var alpha := if improved then bestEval else st.alpha;
    LoopState(bestEval, alpha, if improved then Some(i) else st.best, alpha >= beta, i + 1)
  }

  /** The loop over the first `k` child evaluations, stopping at a cutoff. */
  function Scan(evals: seq<int>, alpha0: int, beta: int, k: nat): (st: LoopState)
    requires k <= |evals|
    ensures st.visited <= k && (st.best.Some? ==> st.best.value < st.visited)
    ensures st.cutoff ==> st.visited > 0
  {
    if k == 0 then LoopState(MinEval, alpha0, None, false, 0)
    else
      var st := Scan(evals, alpha0, beta, k - 1);
      if st.cutoff then st else Step(st, k - 1, evals[k - 1], beta)
  }

  /** Every child evaluation is the negation of a score in
      `[MIN_EVAL, MAX_EVAL]`, so none lies below `MIN_EVAL`. */
  predicate EvalsInRange(evals: seq<int>)
  {
    forall j :: 0 <= j < |evals| ==> MinEval <= evals[j]
  }

  /** The largest of the first `n` evaluations, starting from `MIN_EVAL`. */
  function Best(evals: seq<int>, n: nat): int
    requires n <= |evals|
  {
    if n == 0 then MinEval else Max(Best(evals, n - 1), evals[n - 1])
  }

  /** What the loop computes: after it, `best_eval` is the largest child
      evaluation visited (or `MIN_EVAL`), alpha is the larger of the
      initial alpha and `best_eval`, the recorded move is the first one
      reaching `best_eval` when that beats the initial alpha, and the loop
      stops after the first move that brings alpha to beta. */
  lemma {:induction false} ScanMeaning(evals: seq<int>, alpha0: int, beta: int, k: nat)
    requires k <= |evals| && EvalsInRange(evals)
    ensures var st := Scan(evals, alpha0, beta, k);
      && st.visited <= k
      && (!st.cutoff ==> st.visited == k)
      && (st.cutoff <==> st.visited > 0 && st.alpha >= beta)
      && st.bestEval == Best(evals, st.visited)
      && st.alpha == (if st.visited == 0 then alpha0 else Max(alpha0, st.bestEval))
      && (st.best.Some? ==>
            st.best.value < st.visited && evals[st.best.value] == st.bestEval && st.bestEval > alpha0
            && forall j :: 0 <= j < st.best.value ==> evals[j] < st.bestEval)
      && (st.best.None? && st.visited > 0 ==> st.bestEval <= alpha0)
      && (alpha0 < beta ==> forall j :: 0 <= j < st.visited - 1 ==> evals[j] < beta)
      && (alpha0 < beta && !st.cutoff ==> forall j :: 0 <= j < st.visited ==> evals[j] < beta)
    decreases k
  {
    if k > 0 {
      ScanMeaning(evals, alpha0, beta, k - 1);
      var st := Scan(evals, alpha0, beta, k - 1);
      if !st.cutoff {
        BestBound(evals, k - 1);
      }
    }
  }

  /** Every visited evaluation is at most the best one. */
  lemma {:induction false} BestBound(evals: seq<int>, n: nat)
    requires n <= |evals|
    ensures forall j :: 0 <= j < n ==> evals[j] <= Best(evals, n)
    decreases n
  {
    if n > 0 {
      BestBound(evals, n - 1);
    }
  }

  /** The flag of the final `store` as written: it is passed the alpha
      the loop raised. */
  function FinalFlagAsWritten(evals: seq<int>, alpha0: int, beta: int): TranspositionFlag
  {
    var st := Scan(evals, alpha0, beta, |evals|);
    StoreFlag(st.alpha, beta, st.bestEval)
  }

  /** Because the raised alpha is never below `best_eval`, the final store
      as written never records an exact result: an exact node is stored
      as an upper bound. The loop always has a move: a node without
      moves has returned as a stalemate or a checkmate. */
  lemma FinalFlagNeverExact(evals: seq<int>, alpha0: int, beta: int)
    requires |evals| > 0 && EvalsInRange(evals)
    ensures FinalFlagAsWritten(evals, alpha0, beta) != Exact
    ensures var st := Scan(evals, alpha0, beta, |evals|);
      alpha0 < st.bestEval < beta ==> FinalFlagAsWritten(evals, alpha0, beta) == UpperBound
  {
    ScanMeaning(evals, alpha0, beta, |evals|);
  }

  /** The flag the final store evidently intends: the result classified
      against the window the node was entered with. */
  function FinalFlag(evals: seq<int>, alpha0: int, beta: int): (f: TranspositionFlag)
    ensures var st := Scan(evals, alpha0, beta, |evals|);
      f == StoreFlag(alpha0, beta, st.bestEval)
  {
    var st := Scan(evals, alpha0, beta, |evals|);
    StoreFlag(alpha0, beta, st.bestEval)
  }

  /** With the entry window, a node whose best child lands strictly inside
      it is stored exact; a node that improves alpha without a cutoff
      is such a node. */
  lemma FinalFlagExact(evals: seq<int>, alpha0: int, beta: int)
    requires alpha0 < beta && |evals| > 0 && EvalsInRange(evals)
    ensures var st := Scan(evals, alpha0, beta, |evals|);
      FinalFlag(evals, alpha0, beta) == Exact <==> st.best.Some? && !st.cutoff
  {
    ScanMeaning(evals, alpha0, beta, |evals|);
  }

  /** The kind of killer a cutoff move becomes. */
  datatype KillerKind = NoKiller | MateKiller | Killer

  /** On a beta cutoff only a non-capture becomes a killer, and it is a
      mate killer when alpha is a mate score. */
  function CutoffKiller(isCapture: bool, alpha: int): (k: KillerKind)
    ensures k == NoKiller <==> isCapture
    ensures k == MateKiller <==> !isCapture && (alpha >= CheckmateMin || alpha <= -CheckmateMin)
  {
    if isCapture then NoKiller
    else if (if alpha < 0 then -alpha else alpha) >= CheckmateMin then MateKiller
    else Killer
  }

  /** A cutoff by a quiet move that mates at most `MAX_DEPTH` plies deep
      is stored as a mate killer. */
  lemma MatingCutoffIsMateKiller(ply: U8)
    requires ply <= MaxDepth
    ensures CutoffKiller(false, -MatedEval(ply)) == MateKiller
  {
  }

  /** The move loop of `negamax`: the `i`-th move's child search returned
      `evals[i]` and principal variation `childPvs[i]`. Returns the best
      evaluation, the raised alpha, the best move, the principal
      variation left in `parent_pv` (which keeps `pvIn` if no move beats
      alpha), the killer the cutoff move becomes, and the flag of the
      final store with the entry window. */
  method SearchMoves(moves: seq<PackedMoves.PackedMove>, evals: seq<int>, childPvs: seq<seq<PackedMoves.PackedMove>>,
                     pvIn: seq<PackedMoves.PackedMove>, alpha0: int, beta: int)
    returns (bestEval: int, alpha: int, bestMove: Option<PackedMoves.PackedMove>,
             pv: seq<PackedMoves.PackedMove>, killer: KillerKind, flag: TranspositionFlag)
    requires |evals| == |moves| && |childPvs| == |moves|
    ensures var st := Scan(evals, alpha0, beta, |evals|);
      && bestEval == st.bestEval && alpha == st.alpha
      && bestMove == (if st.best.Some? then Some(moves[st.best.value]) else None)
      && pv == (if st.best.Some? then [moves[st.best.value]] + childPvs[st.best.value] else pvIn)
      && killer == (if st.cutoff then CutoffKiller(PackedMoves.IsCapture(moves[st.visited - 1]), alpha) else NoKiller)
      && flag == FinalFlag(evals, alpha0, beta)
  {
    bestEval := MinEval;
    alpha := alpha0;
    bestMove := None;
    pv := pvIn;
    killer := NoKiller;
    ghost var best: Option<nat> := None;
    var moveIndex := 0;
    while moveIndex < |moves|
      invariant moveIndex <= |moves|
      invariant Scan(evals, alpha0, beta, moveIndex) == LoopState(bestEval, alpha, best, false, moveIndex)
      invariant best.Some? ==> best.value < moveIndex
      invariant bestMove == (if best.Some? then Some(moves[best.value]) else None)
      invariant pv == (if best.Some? then [moves[best.value]] + childPvs[best.value] else pvIn)
    {
      var childEval := evals[moveIndex];
      bestEval := Max(bestEval, childEval);
      if bestEval > alpha {
        alpha := bestEval;
        bestMove := Some(moves[moveIndex]);
        best := Some(moveIndex);
        pv := [moves[moveIndex]] + childPvs[moveIndex];
      }
      if alpha >= beta {
        killer := CutoffKiller(PackedMoves.IsCapture(moves[moveIndex]), alpha);
        ScanAfterCutoff(evals, alpha0, beta, moveIndex + 1, |evals|);
        break;
      }
      moveIndex := moveIndex + 1;
    }
    flag := StoreFlag(alpha0, beta, bestEval);
  }

  /** After a cutoff the loop state no longer changes. */
  lemma {:induction false} ScanAfterCutoff(evals: seq<int>, alpha0: int, beta: int, k: nat, n: nat)
    requires k <= n <= |evals|
    requires Scan(evals, alpha0, beta, k).cutoff
    ensures Scan(evals, alpha0, beta, n) == Scan(evals, alpha0, beta, k)
    decreases n - k
  {
    if n > k {
      ScanAfterCutoff(evals, alpha0, beta, k, n - 1);
    }
  }
}
