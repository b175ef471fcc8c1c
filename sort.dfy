/** Move ordering: scores by tier (principal variation move, captures by
    most valuable victim and least valuable attacker, mate killers,
    killers, the rest) and the selection step that brings the best
    remaining move forward (crates/engine/src/search/sort.rs). */
module Sort {
  import opened Wrappers
  import opened Pieces
  import opened Moves
  import opened Search
  import opened Killers

  /** `usize::MAX / 5` on a 64-bit target. */
  const ScoreSlice: nat := 0xFFFF_FFFF_FFFF_FFFF / 5
  const PvScore: nat := ScoreSlice * 5
  const MvvLvaScore: nat := ScoreSlice * 4
  const MateKillerScore: nat := ScoreSlice * 3
  const KillerScore: nat := ScoreSlice * 2

  /** The `MVV_LVA[victim][attacker]` table, indexed by piece index. */
  const MvvLvaTable: seq<seq<nat>> := [
    [0,  0,  0,  0,  0,  0,  0],
    [0, 15, 14, 13, 12, 11, 10],
    [0, 25, 24, 23, 22, 21, 20],
    [0, 35, 34, 33, 32, 31, 30],
    [0, 45, 44, 43, 42, 41, 40],
    [0, 55, 54, 53, 52, 51, 50],
    [0,  0,  0,  0,  0,  0,  0]
  ]

  function MvvLva(victim: Piece, attacker: Piece): nat
  {
    MvvLvaTable[PieceIndex(victim)][PieceIndex(attacker)]
  }

  /** A pawn to queen victim always outranks a cheaper one, and among
      equal victims the cheaper attacker comes first: the entry is ten
      per victim index plus six less the attacker index. A king victim
      and the empty piece score nothing. */
  lemma MvvLvaOrder(victim: Piece, attacker: Piece)
    ensures victim != NoPiece && victim != King && attacker != NoPiece ==>
              MvvLva(victim, attacker) == 10 * PieceIndex(victim) + 6 - PieceIndex(attacker)
    ensures victim == NoPiece || victim == King || attacker == NoPiece ==> MvvLva(victim, attacker) == 0
    ensures MvvLva(victim, attacker) <= 55
  {
  }

  datatype ScoredMove = ScoredMove(mov: Move, score: nat)

  /** `score_move`, given what the source reads from the move and the
      killer tables: whether it is the PV move, whether it is a capture
      with its victim and attacker, and its slot in the mate killer and
      killer rows of this ply. */
  function Score(isPv: bool, isCapture: bool, victim: Piece, attacker: Piece,
                 mateKiller: Option<nat>, killer: Option<nat>): (s: nat)
    requires mateKiller.Some? ==> mateKiller.value < MaxKillers
    requires killer.Some? ==> killer.value < MaxKillers
    ensures isPv ==> s == PvScore
    ensures !isPv && isCapture ==> MvvLvaScore <= s <= MvvLvaScore + 55
    ensures !isPv && !isCapture && mateKiller.Some? ==>
              MateKillerScore - MateKillerReduction <= s <= MateKillerScore
    ensures !isPv && !isCapture && mateKiller.None? && killer.Some? ==>
              KillerScore - KillerReduction <= s <= KillerScore
    ensures !isPv && !isCapture && mateKiller.None? && killer.None? ==> s == 0
  {
    if isPv then PvScore
    else if isCapture then MvvLvaScore + MvvLva(victim, attacker)
    else if mateKiller.Some? then MateKillerScore - mateKiller.value * MateKillerReduction
    else if killer.Some? then KillerScore - killer.value * KillerReduction
    else 0
  }

  /** The tiers never overlap: the PV move beats every capture, every
      capture beats every mate killer, every mate killer beats every
      killer and every killer beats a move without a tier; all scores
      fit a `usize`. */
  lemma TiersSeparate()
    ensures MvvLvaScore + 55 < PvScore
    ensures MateKillerScore < MvvLvaScore
    ensures KillerScore < MateKillerScore - MateKillerReduction
    ensures 0 < KillerScore - KillerReduction
    ensures PvScore == 0xFFFF_FFFF_FFFF_FFFF
  {
  }

  /** `score_move` on the killer tables: reads the slots of the move in
      the mate killer and killer rows of the ply and scores by tier. The
      source reads a row only when the earlier tiers do not apply, which
      does not change the score. */
  method ScoreMove(ply: nat, mov: Move, pvMove: Option<Move>, killers: Killers, mateKillers: Killers,
                   victim: Piece, attacker: Piece)
    returns (score: nat)
    requires Moves.Valid(mov) && ply < MaxDepth && killers.Valid() && mateKillers.Valid()
    ensures score == Score(pvMove == Some(mov), IsCapture(mov), victim, attacker,
                           mateKillers.Slot(mov, ply), killers.Slot(mov, ply))
  {
    var mateIndex := mateKillers.Get(mov, ply);
    var index := killers.Get(mov, ply);
    score := Score(pvMove == Some(mov), IsCapture(mov), victim, attacker, mateIndex, index);
  }

  /** `score_moves`: each move paired with its score, in the order
      given. The victim and the attacker of a move are read from it by
      the two functions. */
  method ScoreMoves(moves: seq<Move>, ply: nat, pvMove: Option<Move>, killers: Killers, mateKillers: Killers,
                    victimOf: Move -> Piece, attackerOf: Move -> Piece)
    returns (scored: seq<ScoredMove>)
    requires forall m :: m in moves ==> Moves.Valid(m)
    requires ply < MaxDepth && killers.Valid() && mateKillers.Valid()
    ensures |scored| == |moves|
    ensures forall i :: 0 <= i < |moves| ==>
      scored[i] == ScoredMove(moves[i], Score(pvMove == Some(moves[i]), IsCapture(moves[i]), victimOf(moves[i]),
                                              attackerOf(moves[i]), mateKillers.Slot(moves[i], ply), killers.Slot(moves[i], ply)))
  {
    scored := [];
    for i := 0 to |moves|
      invariant |scored| == i
      invariant forall j :: 0 <= j < i ==>
        scored[j] == ScoredMove(moves[j], Score(pvMove == Some(moves[j]), IsCapture(moves[j]), victimOf(moves[j]),
                                                attackerOf(moves[j]), mateKillers.Slot(moves[j], ply), killers.Slot(moves[j], ply)))
    {
      var mov := moves[i];
      var score := ScoreMove(ply, mov, pvMove, killers, mateKillers, victimOf(mov), attackerOf(mov));
      scored := scored + [ScoredMove(mov, score)];
    }
  }

  // ----- Selection -----

  /** The loop of `pick_next_move` over `s[i..k]`: the index and score of
      the first entry whose score beats every earlier one, starting from
      index `i` and score 0. */
  function Scan(s: seq<ScoredMove>, i: nat, k: nat): (best: (nat, nat))
    requires i <= k <= |s|
    decreases k - i
  {
    if k == i then (i, 0)
    else
      var prev := Scan(s, i, k - 1);
      if s[k - 1].score > prev.1 then (k - 1, s[k - 1].score) else prev
  }

  /** The entry `pick_next_move` brings forward to slot `i`. */
  function BestIndex(s: seq<ScoredMove>, i: nat): (b: nat)
    requires i < |s|
    ensures i <= b < |s|
  {
    ScanMeaning(s, i, |s|);
    Scan(s, i, |s|).0
  }

  /** The scan keeps the largest score seen, the index of its first
      occurrence, and the starting index while nothing beats 0. */
  lemma {:induction false} ScanMeaning(s: seq<ScoredMove>, i: nat, k: nat)
    requires i < k <= |s|
    ensures var (b, m) := Scan(s, i, k);
      && i <= b < k && s[b].score == m
      && (forall j :: i <= j < k ==> s[j].score <= m)
      && (forall j :: i <= j < b ==> s[j].score < m)
    decreases k - i
  {
    if k - 1 > i {
      ScanMeaning(s, i, k - 1);
    }
  }

  /** Every score is 0: the scan keeps the starting index. */
  lemma {:induction false} ScanAllZero(s: seq<ScoredMove>, i: nat, k: nat)
    requires i <= k <= |s|
    requires forall j :: i <= j < k ==> s[j].score == 0
    ensures Scan(s, i, k) == (i, 0)
    decreases k - i
  {
    if k > i {
      ScanAllZero(s, i, k - 1);
    }
  }

  /** The best entry of `s[i..]` holds its largest score, and no entry
      before it ties that score. */
  lemma BestIndexMaximal(s: seq<ScoredMove>, i: nat)
    requires i < |s|
    ensures i <= BestIndex(s, i) < |s|
    ensures forall j :: i <= j < |s| ==> s[j].score <= s[BestIndex(s, i)].score
    ensures forall j :: i <= j < BestIndex(s, i) ==> s[j].score < s[BestIndex(s, i)].score
  {
    ScanMeaning(s, i, |s|);
  }

  /** With all scores 0 the entry at `i` stays where it is. */
  lemma BestIndexAllZero(s: seq<ScoredMove>, i: nat)
    requires i < |s|
    requires forall j :: i <= j < |s| ==> s[j].score == 0
    ensures BestIndex(s, i) == i
  {
    ScanAllZero(s, i, |s|);
  }

  /** `Vec::swap`. */
  function Swap<T>(s: seq<T>, i: nat, j: nat): (r: seq<T>)
    requires i < |s| && j < |s|
    ensures |r| == |s| && r[i] == s[j] && r[j] == s[i]
    ensures forall k :: 0 <= k < |s| && k != i && k != j ==> r[k] == s[k]
    ensures multiset(r) == multiset(s)
  {
    s[i := s[j]][j := s[i]]
  }

  /** `pick_next_move`: swaps the best entry of `moves[move_index..]`
      into slot `move_index` and returns its move. The slots before
      `move_index` are untouched and the list stays a permutation of
      itself; `BestIndexMaximal` says the move returned has the largest
      remaining score. */
  method PickNextMove(moveIndex: nat, moves: array<ScoredMove>) returns (next: Move)
    requires moveIndex < moves.Length
    modifies moves
    ensures moves[..] == Swap(old(moves[..]), moveIndex, BestIndex(old(moves[..]), moveIndex))
    ensures next == moves[moveIndex].mov
    ensures forall j :: moveIndex <= j < moves.Length ==> moves[j].score <= moves[moveIndex].score
  {
    ghost var s := moves[..];
    var bestIndex := moveIndex;
    var bestScore := 0;
    for index := moveIndex to moves.Length
      invariant (bestIndex, bestScore) == Scan(s, moveIndex, index)
    {
      var moveScore := moves[index].score;
      if moveScore > bestScore {
        bestScore := moveScore;
        bestIndex := index;
      }
    }
    BestIndexMaximal(s, moveIndex);
    var tmp := moves[moveIndex];
    moves[moveIndex] := moves[bestIndex];
    moves[bestIndex] := tmp;
    assert moves[..] == Swap(s, moveIndex, bestIndex);
    next := moves[moveIndex].mov;
  }
}
