/** The king moves of the side to move: the steps onto unattacked squares
    and the four castlings (crates/engine/src/generator/pieces/king.rs). */
module KingGenerator {
  import opened Wrappers
  import opened Pieces
  import opened Squares
  import opened Bitboards
  import opened Moves
  import opened MoveFlags
  import opened Positions
  import opened Generator
  import MoveTables
  import RayTables
  import Directions
  import Boards

  /** The two knight squares of the back ranks, which no move constant
      names. */
  const B1: Square := 1
  const B8: Square := 57

  // ----- Steps -----

  /** `pseudo_legals`: the king table cut down to `allowed`. */
  function PseudoLegals(source: Square, allowed: Bitboard): (r: Bitboard)
    ensures forall q :: q in r <==> q in MoveTables.KingMoves(source) && q in allowed
  {
    MoveTables.KingMoves(source) * allowed
  }

  /** What the king step the loop pushes for a target is: from the king to
      the target, a capture as the move type or (for a generator of both)
      the target square says, never a promotion, castling or en passant. */
  predicate StepOf(mt: MoveType, t: Tiles, king: Square, target: Square, m: Move)
  {
    && Valid(m) && From(m) == king && To(m) == target
    && !IsEnPassant(m) && !IsCastling(m) && !IsPromotion(m)
    && (IsCapture(m) <==> if mt.quiet && mt.capture then t[target].Some? else mt.capture)
  }

  lemma PackedStep(mt: MoveType, t: Tiles, king: Square, target: Square, f: MoveFlag)
    requires f == Capture || f == MoveFlag.Quiet
    requires f == Capture <==> if mt.quiet && mt.capture then t[target].Some? else mt.capture
    ensures StepOf(mt, t, king, target, Pack(king, target, f))
  {
  }

  /** The body of the target loop: one capture or quiet move, nothing for
      a generator of neither kind. */
  function StepMoves(mt: MoveType, t: Tiles, king: Square, target: Square): (ms: seq<Move>)
    ensures forall m :: m in ms ==> StepOf(mt, t, king, target, m)
    ensures mt.quiet || mt.capture ==> |ms| == 1
    ensures !mt.quiet && !mt.capture ==> ms == []
  {
    if mt.capture && mt.quiet then
      if t[target].Some? then
        PackedStep(mt, t, king, target, Capture);
        [CaptureMove(king, target)]
      else
        PackedStep(mt, t, king, target, MoveFlag.Quiet);
        [QuietMove(king, target)]
    else if mt.capture then
      PackedStep(mt, t, king, target, Capture);
      [CaptureMove(king, target)]
    else if mt.quiet then
      PackedStep(mt, t, king, target, MoveFlag.Quiet);
      [QuietMove(king, target)]
    else
      []
  }

  function StepMovesOf(mt: MoveType, t: Tiles, king: Square): Square -> seq<Move>
  {
    (target: Square) => StepMoves(mt, t, king, target)
  }

  /** The king's targets: the table squares the move type permits that no
      enemy piece attacks. */
  function Targets(mt: MoveType, p: Position, king: Square): Bitboard
    requires mt.quiet || mt.capture
  {
    PseudoLegals(king, Allowed(mt, p, Not(p.state.attacked)))
  }

  function StepLegals(mt: MoveType, p: Position, king: Square): seq<Move>
    requires mt.quiet || mt.capture
  {
    FlatMap(Ascending(Targets(mt, p, king)), StepMovesOf(mt, p.tiles, king))
  }

  // ----- Castling -----

  /** The square the king castles from. */
  function KingFrom(c: Color): Square
  {
    if c == White then E1 else E8
  }

  /** The square the king castles to. */
  function KingTo(c: Color, kingside: bool): Square
  {
    if c == White then (if kingside then G1 else C1) else (if kingside then G8 else C8)
  }

  /** The corner the castling rook stands on. */
  function RookFrom(c: Color, kingside: bool): Square
  {
    if c == White then (if kingside then H1 else A1) else (if kingside then H8 else A8)
  }

  /** The castling right for one side and one wing. */
  function Right(st: GameState, c: Color, kingside: bool): bool
  {
    if c == White then (if kingside then st.whiteKingside else st.whiteQueenside)
    else (if kingside then st.blackKingside else st.blackQueenside)
  }

  /** The test of one castling: nothing between king and rook, and neither
      the king's destination nor the square it passes attacked. */
  predicate PathClear(p: Position, c: Color, kingside: bool)
  {
    && RayTables.BetweenSquares(KingFrom(c), RookFrom(c, kingside)) * AllOccupied(p) == {}
    && (RayTables.BetweenSquares(KingFrom(c), KingTo(c, kingside)) + {KingTo(c, kingside)}) * p.state.attacked == {}
  }

  /** One castling, pushed when the right is held and the path is clear. */
  function CastleMove(p: Position, c: Color, kingside: bool): seq<Move>
  {
    if Right(p.state, c, kingside) && PathClear(p, c, kingside) then
      [Castle(KingFrom(c), KingTo(c, kingside), kingside)]
    else []
  }

  /** Out of check and for generators of quiet moves, queenside then
      kingside castling of the side to move. */
  function CastleMoves(mt: MoveType, inCheck: bool, p: Position): seq<Move>
  {
    if !inCheck && mt.quiet then
      CastleMove(p, p.state.active, false) + CastleMove(p, p.state.active, true)
    else []
  }

  /** `legals`: the king steps in ascending order of target, then
      castling. */
  function KingLegals(mt: MoveType, inCheck: bool, p: Position, king: Square): seq<Move>
    requires mt.quiet || mt.capture
  {
    StepLegals(mt, p, king) + CastleMoves(mt, inCheck, p)
  }

  // ----- The castling squares -----

  /** The squares between king and rook, which must be empty. */
  function EmptySquares(c: Color, kingside: bool): set<Square>
  {
    if c == White then (if kingside then {F1, G1} else {B1, C1, D1})
    else (if kingside then {F8, G8} else {B8, C8, D8})
  }

  /** The squares the king passes and lands on, which must not be
      attacked. */
  function SafeSquares(c: Color, kingside: bool): set<Square>
  {
    if c == White then (if kingside then {F1, G1} else {C1, D1})
    else (if kingside then {F8, G8} else {C8, D8})
  }

  /** From a king on the e-file of any rank, the squares between it and
      the a-file. */
  lemma QueensideRookBetween(e: Square)
    requires File(e) == 4
    ensures RayTables.BetweenSquares(e, e - 4) == {e - 1, e - 2, e - 3}
  {
    assert Directions.Between(e, e - 4) == Directions.West;
    QueensideRookTail(e);
    RayTables.WalkRankStep(e, Directions.West, 1, e - 4);
  }

  /** The walk from the king towards the a-file rook, from its second
      step on. */
  lemma QueensideRookTail(e: Square)
    requires File(e) == 4
    ensures RayTables.Walk(e, Directions.West, 2, e - 4) == {e - 2, e - 3}
  {
    RayTables.WalkRankStep(e, Directions.West, 4, e - 4);
    RayTables.WalkRankStep(e, Directions.West, 3, e - 4);
    RayTables.WalkRankStep(e, Directions.West, 2, e - 4);
  }

  /** From a king on the e-file of any rank, the squares between it and
      the c-file. */
  lemma QueensideKingBetween(e: Square)
    requires File(e) == 4
    ensures RayTables.BetweenSquares(e, e - 2) == {e - 1}
  {
    assert Directions.Between(e, e - 2) == Directions.West;
    RayTables.WalkRankStep(e, Directions.West, 2, e - 2);
    RayTables.WalkRankStep(e, Directions.West, 1, e - 2);
  }

  /** From a king on the e-file of any rank, the squares between it and
      the h-file. */
  lemma KingsideRookBetween(e: Square)
    requires File(e) == 4
    ensures RayTables.BetweenSquares(e, e + 3) == {e + 1, e + 2}
  {
    assert Directions.Between(e, e + 3) == Directions.East;
    RayTables.WalkRankStep(e, Directions.East, 3, e + 3);
    RayTables.WalkRankStep(e, Directions.East, 2, e + 3);
    RayTables.WalkRankStep(e, Directions.East, 1, e + 3);
  }

  /** From a king on the e-file of any rank, the squares between it and
      the g-file. */
  lemma KingsideKingBetween(e: Square)
    requires File(e) == 4
    ensures RayTables.BetweenSquares(e, e + 2) == {e + 1}
  {
    assert Directions.Between(e, e + 2) == Directions.East;
    RayTables.WalkRankStep(e, Directions.East, 2, e + 2);
    RayTables.WalkRankStep(e, Directions.East, 1, e + 2);
  }

  /** The between table gives the squares between king and rook. */
  lemma RookPath(c: Color, kingside: bool)
    ensures RayTables.BetweenSquares(KingFrom(c), RookFrom(c, kingside)) == EmptySquares(c, kingside)
  {
    var e := KingFrom(c);
    if kingside {
      KingsideRookBetween(e);
    } else {
      QueensideRookBetween(e);
    }
  }

  /** The between table and the destination give the squares the king
      crosses. */
  lemma KingPath(c: Color, kingside: bool)
    ensures RayTables.BetweenSquares(KingFrom(c), KingTo(c, kingside)) + {KingTo(c, kingside)} == SafeSquares(c, kingside)
  {
    var e := KingFrom(c);
    if kingside {
      KingsideKingBetween(e);
    } else {
      QueensideKingBetween(e);
    }
  }

  /** The path of a castling is clear exactly when the squares between
      king and rook are empty and the squares the king passes and lands on
      are not attacked. */
  lemma PathClearSquares(p: Position, c: Color, kingside: bool)
    ensures PathClear(p, c, kingside) <==>
      && (forall s :: s in EmptySquares(c, kingside) ==> p.tiles[s].None?)
      && SafeSquares(c, kingside) * p.state.attacked == {}
  {
    RookPath(c, kingside);
    KingPath(c, kingside);
    assert PathClear(p, c, kingside) <==>
      EmptySquares(c, kingside) * AllOccupied(p) == {} && SafeSquares(c, kingside) * p.state.attacked == {};
    EmptyOfPieces(p, EmptySquares(c, kingside));
  }

  /** A set of squares shares none with the occupied squares exactly when
      every one of its tiles is empty. */
  lemma EmptyOfPieces(p: Position, squares: set<Square>)
    ensures squares * AllOccupied(p) == {} <==> forall s :: s in squares ==> p.tiles[s].None?
  {
    forall s | s in squares
      ensures s in AllOccupied(p) <==> p.tiles[s].Some?
    {
      Boards.SelectedMembers(p.tiles, Boards.AnyPiece, s);
    }
    if forall s :: s in squares ==> p.tiles[s].None? {
      assert squares * AllOccupied(p) == {};
    } else {
      var s :| s in squares && p.tiles[s].Some?;
      assert s in squares * AllOccupied(p);
    }
  }

  // ----- What is generated -----

  /** Every step goes from the king to a table square that no enemy piece
      attacks and that holds no own piece; quiet-only generators step
      only onto empty squares, capture-only ones only onto enemy pieces. */
  lemma StepLegalsSound(mt: MoveType, p: Position, king: Square, m: Move)
    requires mt.quiet || mt.capture
    requires m in StepLegals(mt, p, king)
    ensures StepOf(mt, p.tiles, king, To(m), m)
    ensures To(m) in MoveTables.KingMoves(king) && To(m) !in p.state.attacked
    ensures To(m) !in Occupied(p, p.state.active)
    ensures !mt.capture ==> To(m) !in AllOccupied(p)
    ensures !mt.quiet ==> To(m) in Occupied(p, Other(p.state.active))
  {
    var targets := Ascending(Targets(mt, p, king));
    var f := StepMovesOf(mt, p.tiles, king);
    FlatMapMembers(targets, f, m);
    var i :| 0 <= i < |targets| && m in f(targets[i]);
    AscendingMembers(Targets(mt, p, king), targets[i]);
  }

  /** Every castling move is one of the four, out of check, for a
      generator of quiet moves, with the right held and the path clear. */
  lemma CastleMovesSound(mt: MoveType, inCheck: bool, p: Position, m: Move)
    requires m in CastleMoves(mt, inCheck, p)
    ensures !inCheck && mt.quiet
    ensures exists kingside: bool ::
      && m == Castle(KingFrom(p.state.active), KingTo(p.state.active, kingside), kingside)
      && Right(p.state, p.state.active, kingside) && PathClear(p, p.state.active, kingside)
  {
    if m in CastleMove(p, p.state.active, false) {
      assert m == Castle(KingFrom(p.state.active), KingTo(p.state.active, false), false);
    } else {
      assert m == Castle(KingFrom(p.state.active), KingTo(p.state.active, true), true);
    }
  }

  /** A castling move is never a king step. */
  lemma CastleNotStep(mt: MoveType, p: Position, king: Square, c: Color, kingside: bool)
    requires mt.quiet || mt.capture
    ensures Castle(KingFrom(c), KingTo(c, kingside), kingside) !in StepLegals(mt, p, king)
  {
    var m := Castle(KingFrom(c), KingTo(c, kingside), kingside);
    if m in StepLegals(mt, p, king) {
      StepLegalsSound(mt, p, king, m);
      assert false;
    }
  }

  /** Each castling is pushed exactly out of check, for a generator of
      quiet moves, with the right held and the path clear. */
  lemma CastleMovesMembers(mt: MoveType, inCheck: bool, p: Position, kingside: bool)
    ensures var c := p.state.active;
      Castle(KingFrom(c), KingTo(c, kingside), kingside) in CastleMoves(mt, inCheck, p) <==>
      !inCheck && mt.quiet && Right(p.state, c, kingside) && PathClear(p, c, kingside)
  {
    var c := p.state.active;
    var m := Castle(KingFrom(c), KingTo(c, kingside), kingside);
    CastleOtherWing(c, kingside);
    assert m !in CastleMove(p, c, !kingside);
    assert m in CastleMove(p, c, kingside) <==> Right(p.state, c, kingside) && PathClear(p, c, kingside);
  }

  /** The castlings of the two wings are different moves. */
  lemma CastleOtherWing(c: Color, kingside: bool)
    ensures Castle(KingFrom(c), KingTo(c, kingside), kingside) != Castle(KingFrom(c), KingTo(c, !kingside), !kingside)
  {
    ConstructorsRecover(KingFrom(c), KingTo(c, kingside), kingside, Queen, false);
    ConstructorsRecover(KingFrom(c), KingTo(c, !kingside), !kingside, Queen, false);
  }

  /** A castling is generated exactly out of check, for a generator of
      quiet moves, with the right held, the squares between king and rook
      empty and the squares the king crosses unattacked. */
  lemma CastleGenerated(mt: MoveType, inCheck: bool, p: Position, king: Square, kingside: bool)
    requires mt.quiet || mt.capture
    ensures var c := p.state.active;
      Castle(KingFrom(c), KingTo(c, kingside), kingside) in KingLegals(mt, inCheck, p, king) <==>
      && !inCheck && mt.quiet && Right(p.state, c, kingside)
      && (forall s :: s in EmptySquares(c, kingside) ==> p.tiles[s].None?)
      && SafeSquares(c, kingside) * p.state.attacked == {}
  {
    var c := p.state.active;
    PathClearSquares(p, c, kingside);
    CastleNotStep(mt, p, king, c, kingside);
    CastleMovesMembers(mt, inCheck, p, kingside);
  }

  /** Under a generator of all moves, every table square that holds no
      own piece and that no enemy piece attacks gets its king step. */
  lemma StepLegalsComplete(inCheck: bool, p: Position, king: Square, target: Square)
    requires target in MoveTables.KingMoves(king)
    requires target !in p.state.attacked && target !in Occupied(p, p.state.active)
    ensures StepMoves(LegalType, p.tiles, king, target) != []
    ensures forall m :: m in StepMoves(LegalType, p.tiles, king, target) ==> m in KingLegals(LegalType, inCheck, p, king)
  {
    var targets := Targets(LegalType, p, king);
    assert target in targets;
    AscendingMembers(targets, target);
    FlatMapIncludes(Ascending(targets), StepMovesOf(LegalType, p.tiles, king), target);
  }

  // ----- Generation -----

  /** One castling: the right, the between test, the attack test, and the
      push. */
  method PushCastle(g: MoveGenerator, p: Position, c: Color, kingside: bool)
    requires g.Valid() && g.size + |CastleMove(p, c, kingside)| <= MaxMoves
    modifies g`size, g.moves
    ensures g.Valid() && g.index == old(g.index)
    ensures g.Pushed() == old(g.Pushed()) + CastleMove(p, c, kingside)
  {
    if Right(p.state, c, kingside) {
      var nothingInbetween := RayTables.BetweenSquares(KingFrom(c), RookFrom(c, kingside)) * AllOccupied(p) == {};
      var attackedThroughMove := (RayTables.BetweenSquares(KingFrom(c), KingTo(c, kingside)) + {KingTo(c, kingside)}) * p.state.attacked != {};
      if nothingInbetween && !attackedThroughMove {
        g.Push(Castle(KingFrom(c), KingTo(c, kingside), kingside));
      }
    }
  }

  /** `legals`: pushes exactly `KingLegals`, in its order. The buffer must
      have room for them. */
  method Legals(g: MoveGenerator, mt: MoveType, inCheck: bool, p: Position, king: Square)
    requires g.Valid() && (mt.quiet || mt.capture)
    requires g.size + |KingLegals(mt, inCheck, p, king)| <= MaxMoves
    modifies g`size, g.moves
    ensures g.Valid() && g.index == old(g.index)
    ensures g.Pushed() == old(g.Pushed()) + KingLegals(mt, inCheck, p, king)
  {
    var allowed := Allowed(mt, p, Not(p.state.attacked));
    var moves := PseudoLegals(king, allowed);
    var targets := SquaresOf(moves);
    PushEach(g, targets, StepMovesOf(mt, p.tiles, king));
    ghost var steps := StepLegals(mt, p, king);
    if !inCheck && mt.quiet {
      var c := p.state.active;
      PushCastle(g, p, c, false);
      AppendAssoc(old(g.Pushed()), steps, CastleMove(p, c, false));
      PushCastle(g, p, c, true);
      AppendAssoc(old(g.Pushed()), steps + CastleMove(p, c, false), CastleMove(p, c, true));
      AppendAssoc(steps, CastleMove(p, c, false), CastleMove(p, c, true));
    } else {
      assert KingLegals(mt, inCheck, p, king) == steps + [];
    }
  }
}
