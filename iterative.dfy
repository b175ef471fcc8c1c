/** Iterative deepening (crates/engine/src/search/iterative.rs): the
    search is repeated at depth 1, 2, ... up to the maximum depth, each
    time around the previous evaluation, keeping the first move of the
    principal variation read back from the transposition table.

    The aspiration search of one depth, the principal variation read
    after it and the time it took are inputs (functions of the depth and
    of the previous evaluation); so are the positions, their
    transposition-table moves, their legal moves and making a move. */
module Iterative {
  import opened Wrappers
  import opened Moves
  import opened Search
  import Evaluation

  // ----- Reporting a mate -----

  /** The score sent to the interface: a mate in a number of moves, or
      centipawns. */
  datatype Score = Mate(moves: int) | Centipawns(cp: int)

  function Abs(x: int): nat { if x < 0 then -x else x }

  function Signum(x: int): int { if x > 0 then 1 else if x < 0 then -1 else 0 }

  /** Rust's `%`: the remainder takes the dividend's sign. */
  function RustRem(a: int, d: int): int
    requires d > 0
  {
    a - d * Evaluation.TruncDiv(a, d)
  }

  /** An evaluation at least `CHECKMATE_MIN` in magnitude is reported as a
      mate: the plies to mate are `CHECKMATE - |eval|`, and the moves are
      half of them rounded up, carrying the evaluation's sign. */
  function ScoreOf(eval: int): (s: Score)
    ensures s.Mate? <==> Abs(eval) >= CheckmateMin
    ensures s.Centipawns? ==> s.cp == eval
  {
    if Abs(eval) >= CheckmateMin then
      var ply := Checkmate - Abs(eval);
      var isOdd := RustRem(ply, 2) == 1;
      var moves := if isOdd then Evaluation.TruncDiv(ply + 1, 2) else Evaluation.TruncDiv(ply, 2);
      Mate(moves * Signum(eval))
    else
      Centipawns(eval)
  }

  /** Mating in `ply` plies (at most `MAX_DEPTH`) is reported as mate in
      `ceil(ply / 2)` moves, and being mated in `ply` plies as the same
      number negated. */
  lemma ScoreOfMate(ply: nat)
    requires 0 < ply <= MaxDepth
    ensures ScoreOf(Checkmate - ply) == Mate((ply + 1) / 2)
    ensures ScoreOf(-(Checkmate - ply)) == Mate(-((ply + 1) / 2))
  {
    assert Abs(Checkmate - ply) == Checkmate - ply;
    assert Abs(-(Checkmate - ply)) == Checkmate - ply;
    if ply % 2 == 1 {
      assert RustRem(ply, 2) == 1;
      assert Evaluation.TruncDiv(ply + 1, 2) == (ply + 1) / 2;
    } else {
      assert RustRem(ply, 2) == 0;
      assert Evaluation.TruncDiv(ply, 2) == (ply + 1) / 2;
    }
  }

  // ----- The depth loop -----

  /** Why the loop ended. */
  datatype EndReason = DepthLimit | Stopped(reason: StopReason) | OutOfTime | MateFound

  /** The loop's result: the best move kept, the last evaluation, the
      last depth completed, and why the loop ended. */
  datatype Outcome = Outcome(best: Option<Move>, lastEval: int, completed: nat, end: EndReason)

  function First(line: seq<Move>): Option<Move>
  {
    if |line| == 0 then None else Some(line[0])
  }

  /** The loop from `depth` on, with the last evaluation and best move so
      far. A stopped search ends the loop and keeps the previous best
      move; a completed one takes the first move of its principal
      variation. Unless the search is infinite, it ends when the
      iteration took more than half the move time (the next would take
      about twice as long) or found a mate. */
  function Deepen(maxDepth: nat, search: (nat, int) -> Result<int, StopReason>, pvLine: nat -> seq<Move>,
                  elapsed: nat -> nat, moveTime: nat, infinite: bool,
                  depth: nat, lastEval: int, best: Option<Move>): Outcome
    requires 1 <= depth <= maxDepth + 1
    decreases maxDepth + 1 - depth
  {
    if depth > maxDepth then Outcome(best, lastEval, maxDepth, DepthLimit)
    else
      match search(depth, lastEval)
      case Err(reason) => Outcome(best, lastEval, depth - 1, Stopped(reason))
      case Ok(eval) =>
        var b := First(pvLine(depth));
        if !infinite && elapsed(depth) * 2 > moveTime then Outcome(b, eval, depth, OutOfTime)
        else if !infinite && eval >= CheckmateMin then Outcome(b, eval, depth, MateFound)
        else Deepen(maxDepth, search, pvLine, elapsed, moveTime, infinite, depth + 1, eval, b)
  }

  /** Why and where the loop ends: the depth limit means every depth was
      completed; a stop means the search of the next depth reported it;
      running out of time or finding a mate only end a finite search. The
      best move is that of the last completed depth, or the one held
      before if none was completed. */
  lemma {:induction false} DeepenOutcome(maxDepth: nat, search: (nat, int) -> Result<int, StopReason>, pvLine: nat -> seq<Move>,
                                         elapsed: nat -> nat, moveTime: nat, infinite: bool,
                                         depth: nat, lastEval: int, best: Option<Move>)
    requires 1 <= depth <= maxDepth + 1
    ensures var o := Deepen(maxDepth, search, pvLine, elapsed, moveTime, infinite, depth, lastEval, best);
      && depth - 1 <= o.completed <= maxDepth
      && (o.end == DepthLimit ==> o.completed == maxDepth)
      && (o.end.Stopped? ==> search(o.completed + 1, o.lastEval) == Err(o.end.reason))
      && (o.end == OutOfTime ==> !infinite && elapsed(o.completed) * 2 > moveTime)
      && (o.end == MateFound ==> !infinite && o.lastEval >= CheckmateMin)
      && (infinite ==> o.end == DepthLimit || o.end.Stopped?)
      && (o.completed >= depth ==> o.best == First(pvLine(o.completed)))
      && (o.completed == depth - 1 ==> o.best == best && o.lastEval == lastEval)
    decreases maxDepth + 1 - depth
  {
    if depth <= maxDepth {
      var r := search(depth, lastEval);
      if r.Ok? {
        var eval := r.value;
        var b := First(pvLine(depth));
        if !(!infinite && elapsed(depth) * 2 > moveTime) && !(!infinite && eval >= CheckmateMin) {
          DeepenOutcome(maxDepth, search, pvLine, elapsed, moveTime, infinite, depth + 1, eval, b);
        }
      }
    }
  }

  /** `iterative_deepening`: runs the depth loop from depth 1 with last
      evaluation 0 and no best move. Without a best move it plays
      `fallback`, the best-scored legal move of the root. */
  method IterativeDeepening(maxDepth: U8, search: (nat, int) -> Result<int, StopReason>, pvLine: nat -> seq<Move>,
                            elapsed: nat -> nat, moveTime: nat, infinite: bool, fallback: Move)
    returns (bestMove: Move)
    ensures var o := Deepen(maxDepth, search, pvLine, elapsed, moveTime, infinite, 1, 0, None);
      bestMove == if o.best.Some? then o.best.value else fallback
  {
    var lastEval := 0;
    var best: Option<Move> := None;
    var depth := 1;
    while depth <= maxDepth
      invariant 1 <= depth <= maxDepth + 1
      invariant Deepen(maxDepth, search, pvLine, elapsed, moveTime, infinite, depth, lastEval, best)
             == Deepen(maxDepth, search, pvLine, elapsed, moveTime, infinite, 1, 0, None)
      decreases maxDepth + 1 - depth
    {
      var result := search(depth, lastEval);
      if result.Err? {
        break;
      }
      var eval := result.value;
      lastEval := eval;
      var line := pvLine(depth);
      best := if |line| == 0 then None else Some(line[0]);
      if !infinite && elapsed(depth) * 2 > moveTime {
        break;
      }
      if !infinite && eval >= CheckmateMin {
        break;
      }
      depth := depth + 1;
    }
    bestMove := if best.Some? then best.value else fallback;
  }

  // ----- Reading the principal variation -----

  /** `probe_pv_move`: the transposition table's move for the position, if
      it is one of the position's legal moves. */
  function ProbePv<P>(p: P, hashMove: P -> Option<Move>, legalMoves: P -> seq<Move>): (r: Option<Move>)
    ensures r.Some? ==> hashMove(p) == r && r.value in legalMoves(p)
    ensures r.None? ==> hashMove(p).None? || hashMove(p).value !in legalMoves(p)
  {
    match hashMove(p)
    case None => None
    case Some(m) => if m in legalMoves(p) then Some(m) else None
  }

  /** `get_pv_line`: follows table moves from `p` for at most `n` plies. */
  function PvLine<P>(p: P, n: nat, hashMove: P -> Option<Move>, legalMoves: P -> seq<Move>, make: (P, Move) -> P): (line: seq<Move>)
    ensures |line| <= n
    decreases n
  {
    if n == 0 then []
    else
      match ProbePv(p, hashMove, legalMoves)
      case None => []
      case Some(m) => [m] + PvLine(make(p, m), n - 1, hashMove, legalMoves, make)
  }

  /** The position reached by playing `line` from `p`. */
  function Play<P>(p: P, line: seq<Move>, make: (P, Move) -> P): P
    decreases |line|
  {
    if |line| == 0 then p else Play(make(p, line[0]), line[1..], make)
  }

  /** Every move is legal where it is played. */
  predicate LegalLine<P>(p: P, line: seq<Move>, legalMoves: P -> seq<Move>, make: (P, Move) -> P)
    decreases |line|
  {
    |line| == 0 || (line[0] in legalMoves(p) && LegalLine(make(p, line[0]), line[1..], legalMoves, make))
  }

  /** The line is legal move by move, and a line shorter than `n` ends
      where the table has no move or only an illegal one. */
  lemma {:induction false} PvLineLegal<P>(p: P, n: nat, hashMove: P -> Option<Move>, legalMoves: P -> seq<Move>, make: (P, Move) -> P)
    ensures var line := PvLine(p, n, hashMove, legalMoves, make);
      && LegalLine(p, line, legalMoves, make)
      && (|line| < n ==> ProbePv(Play(p, line, make), hashMove, legalMoves).None?)
    decreases n
  {
    if n > 0 {
      var r := ProbePv(p, hashMove, legalMoves);
      if r.Some? {
        var line := PvLine(p, n, hashMove, legalMoves, make);
        PvLineLegal(make(p, r.value), n - 1, hashMove, legalMoves, make);
        assert line[1..] == PvLine(make(p, r.value), n - 1, hashMove, legalMoves, make);
      }
    }
  }

  /** `move_exists`: the move is among the generated moves. */
  method MoveExists(moves: seq<Move>, given: Move) returns (b: bool)
    ensures b <==> given in moves
  {
    for i := 0 to |moves|
      invariant given !in moves[..i]
    {
      if moves[i] == given {
        return true;
      }
    }
    return false;
  }

  /** `probe_pv_move` with the legality check done by `move_exists`. */
  method ProbePvMove<P>(p: P, hashMove: P -> Option<Move>, legalMoves: P -> seq<Move>) returns (r: Option<Move>)
    ensures r == ProbePv(p, hashMove, legalMoves)
  {
    var entry := hashMove(p);
    if entry.None? {
      return None;
    }
    var found := MoveExists(legalMoves(p), entry.value);
    if !found {
      return None;
    }
    return entry;
  }

  /** `get_pv_line` on a copy of the board. */
  method GetPvLine<P>(root: P, maxDepth: U8, hashMove: P -> Option<Move>, legalMoves: P -> seq<Move>, make: (P, Move) -> P)
    returns (pv: seq<Move>)
    ensures pv == PvLine(root, maxDepth, hashMove, legalMoves, make)
  {
    pv := [];
    var board := root;
    for i := 0 to maxDepth
      invariant pv + PvLine(board, maxDepth - i, hashMove, legalMoves, make) == PvLine(root, maxDepth, hashMove, legalMoves, make)
    {
      var pvMove := ProbePvMove(board, hashMove, legalMoves);
      if pvMove.None? {
        assert PvLine(board, maxDepth - i, hashMove, legalMoves, make) == [];
        assert pv + [] == pv;
        return;
      }
      assert PvLine(board, maxDepth - i, hashMove, legalMoves, make)
          == [pvMove.value] + PvLine(make(board, pvMove.value), maxDepth - i - 1, hashMove, legalMoves, make);
      board := make(board, pvMove.value);
      pv := pv + [pvMove.value];
    }
  }
}
