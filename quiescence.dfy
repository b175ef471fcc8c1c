/** Quiescence search (crates/engine/src/search/quiescence.rs): from a
    leaf of the main search, only captures are searched, with the static
    evaluation of the side to move as a "standing pat" lower bound, and
    every result is kept inside the window (fail-hard).

    The board is abstracted to the tree of positions the search visits:
    each node carries its static evaluation, whether the node-count poll
    at that node asks the search to stop, and its captures in the order
    `pick_next_move` hands them out, each with the position it leads to. */
module Quiescence {
  import opened Wrappers
  import opened Moves
  import opened Search
  import opened Killers

  datatype QNode = QNode(standPat: int, stop: Option<StopReason>, captures: seq<QCapture>)
  datatype QCapture = QCapture(mov: Move, node: QNode)

  function Max(a: int, b: int): int { if a >= b then a else b }
  function Min(a: int, b: int): int { if a <= b then a else b }

  /** `quiescence(alpha, beta)` on a node. */
  function QSearch(n: QNode, alpha: int, beta: int): Result<int, StopReason>
    decreases n, |n.captures| + 1
  {
    if n.stop.Some? then Err(n.stop.value)
    else if n.standPat >= beta then Ok(beta)
    else QLoop(n, 0, if n.standPat > alpha then n.standPat else alpha, beta)
  }

  /** The capture loop of a node from its `i`-th capture on: each child is
      searched with the negated window, alpha rises to the negated child
      result, and alpha reaching beta returns beta. A stopped child stops
      the node. */
  function QLoop(n: QNode, i: nat, alpha: int, beta: int): Result<int, StopReason>
    requires i <= |n.captures|
    decreases n, |n.captures| - i
  {
    if i == |n.captures| then Ok(alpha)
    else
      match QSearch(n.captures[i].node, -beta, -alpha)
      case Err(reason) => Err(reason)
      case Ok(result) =>
        var a := Max(alpha, -result);
        if a >= beta then Ok(beta) else QLoop(n, i + 1, a, beta)
  }

  /** The fail-hard bounds: for a non-empty window every result lies in
      `[alpha, beta]`. */
  lemma {:induction false} QSearchFailHard(n: QNode, alpha: int, beta: int)
    requires alpha < beta
    ensures QSearch(n, alpha, beta).Ok? ==> alpha <= QSearch(n, alpha, beta).value <= beta
    decreases n, |n.captures| + 1
  {
    if n.stop.None? && n.standPat < beta {
      QLoopFailHard(n, 0, if n.standPat > alpha then n.standPat else alpha, beta);
    }
  }

  lemma {:induction false} QLoopFailHard(n: QNode, i: nat, alpha: int, beta: int)
    requires i <= |n.captures| && alpha < beta
    ensures QLoop(n, i, alpha, beta).Ok? ==> alpha <= QLoop(n, i, alpha, beta).value <= beta
    decreases n, |n.captures| - i
  {
    if i < |n.captures| {
      var child := QSearch(n.captures[i].node, -beta, -alpha);
      if child.Ok? && Max(alpha, -child.value) < beta {
        QLoopFailHard(n, i + 1, Max(alpha, -child.value), beta);
      }
    }
  }

  // ----- The value the search computes -----

  /** The quiescence value of a node: the better of standing pat and the
      best capture, each capture worth the negated value of its child. */
  function Value(n: QNode): int
    decreases n, |n.captures| + 1
  {
    ValueFrom(n, 0, n.standPat)
  }

  /** The best of `acc` and the captures from the `i`-th on. */
  function ValueFrom(n: QNode, i: nat, acc: int): int
    requires i <= |n.captures|
    decreases n, |n.captures| - i
  {
    if i == |n.captures| then acc else ValueFrom(n, i + 1, Max(acc, -Value(n.captures[i].node)))
  }

  /** No node of the tree asks the search to stop. */
  predicate NoStop(n: QNode)
    decreases n
  {
    n.stop.None? && forall i :: 0 <= i < |n.captures| ==> NoStop(n.captures[i].node)
  }

  /** `v` clamped to `[alpha, beta]`. */
  function Clamp(v: int, alpha: int, beta: int): int
  {
    if v <= alpha then alpha else if v >= beta then beta else v
  }

  lemma {:induction false} ValueFromMax(n: QNode, i: nat, a: int, b: int)
    requires i <= |n.captures|
    ensures ValueFrom(n, i, Max(a, b)) == Max(a, ValueFrom(n, i, b))
    ensures ValueFrom(n, i, b) >= b
    decreases |n.captures| - i
  {
    if i < |n.captures| {
      var c := -Value(n.captures[i].node);
      assert Max(Max(a, b), c) == Max(a, Max(b, c));
      ValueFromMax(n, i + 1, a, Max(b, c));
    }
  }

  /** Without stops, the fail-hard search of a non-empty window returns
      exactly the quiescence value clamped to the window: the window
      only saves work, never changes an answer inside it. */
  lemma {:induction false} QSearchIsClampedValue(n: QNode, alpha: int, beta: int)
    requires alpha < beta && NoStop(n)
    ensures QSearch(n, alpha, beta) == Ok(Clamp(Value(n), alpha, beta))
    decreases n, |n.captures| + 1
  {
    ValueFromMax(n, 0, alpha, n.standPat);
    if n.standPat < beta {
      var a := if n.standPat > alpha then n.standPat else alpha;
      QLoopIsClampedValue(n, 0, a, beta);
      ValueFromMax(n, 0, a, a);
    }
  }

  lemma {:induction false} QLoopIsClampedValue(n: QNode, i: nat, alpha: int, beta: int)
    requires i <= |n.captures| && alpha < beta && NoStop(n)
    ensures QLoop(n, i, alpha, beta) == Ok(Min(beta, ValueFrom(n, i, alpha)))
    decreases n, |n.captures| - i
  {
    if i < |n.captures| {
      var child := n.captures[i].node;
      var v := Value(child);
      QSearchIsClampedValue(child, -beta, -alpha);
      var a := Max(alpha, -Clamp(v, -beta, -alpha));
      ValueFromMax(n, i + 1, -v, Max(alpha, -v));
      if a < beta {
        QLoopIsClampedValue(n, i + 1, a, beta);
      }
    }
  }

  // ----- The search with its side effects -----

  /** Every node with captures lies less than `MAX_DEPTH` plies from the
      root, so a cutoff there can store a killer: the killer tables hold
      `MAX_DEPTH` rows and a deeper cutoff would index past them. */
  predicate KillerPliesInRange(n: QNode, ply: nat)
    decreases n
  {
    |n.captures| == 0
    || (ply < MaxDepth && forall i :: 0 <= i < |n.captures| ==> KillerPliesInRange(n.captures[i].node, ply + 1))
  }

  /** `quiescence`, visiting the captures in order, counting the ply down
      the line, and storing the cutoff capture as a killer (a mate killer
      when alpha is a mate score) at the current ply. The ply is given
      back before a stopped child's reason is returned, and killer rows
      above the current ply are never touched. */
  method Quiesce(n: QNode, alpha: int, beta: int, stats: SearchStats, killers: Killers, mateKillers: Killers)
    returns (r: Result<int, StopReason>)
    requires stats.Valid() && killers.Valid() && mateKillers.Valid() && killers.moves != mateKillers.moves
    requires KillerPliesInRange(n, stats.ply)
    modifies stats, killers.moves, mateKillers.moves
    ensures stats.Valid() && killers.Valid() && mateKillers.Valid()
    ensures r == QSearch(n, alpha, beta)
    ensures stats.ply == old(stats.ply) && stats.depth == old(stats.depth)
    ensures forall p, j :: 0 <= p < old(stats.ply) && p < MaxDepth && 0 <= j < MaxKillers ==>
              killers.moves[p, j] == old(killers.moves[p, j]) && mateKillers.moves[p, j] == old(mateKillers.moves[p, j])
    decreases n
  {
    if n.stop.Some? {
      return Err(n.stop.value);
    }
    if n.standPat >= beta {
      return Ok(beta);
    }
    var a := alpha;
    if n.standPat > a {
      a := n.standPat;
    }
    ghost var ply0 := stats.ply;
    ghost var a0 := a;
    for moveIndex := 0 to |n.captures|
      invariant stats.Valid() && killers.Valid() && mateKillers.Valid()
      invariant stats.ply == ply0 && stats.depth == old(stats.depth)
      invariant QLoop(n, moveIndex, a, beta) == QLoop(n, 0, a0, beta)
      invariant forall p, j :: 0 <= p < ply0 && p < MaxDepth && 0 <= j < MaxKillers ==>
                  killers.moves[p, j] == old(killers.moves[p, j]) && mateKillers.moves[p, j] == old(mateKillers.moves[p, j])
    {
      var capture := n.captures[moveIndex];
      stats.IncreasePly();
      var result := Quiesce(capture.node, -beta, -a, stats, killers, mateKillers);
      stats.DecreasePly();
      if result.Err? {
        return Err(result.error);
      }
      a := Max(a, -result.value);
      if a >= beta {
        if (if a < 0 then -a else a) >= CheckmateMin {
          mateKillers.Store(capture.mov, stats.ply);
        } else {
          killers.Store(capture.mov, stats.ply);
        }
        return Ok(beta);
      }
    }
    return Ok(a);
  }
}
