/** `MoveGenerator::new`: which piece generators run for the number of
    pieces giving check (crates/engine/src/generator/generator.rs). */
module MoveGeneration {
  import opened Pieces
  import opened Squares
  import opened Bitboards
  import opened Moves
  import opened Positions
  import opened Generator
  import PawnGenerator
  import KingGenerator
  import MoveTables

  /** The knight, bishop, rook and queen generators, one after another,
      for a position and whether the side to move is in check. */
  type OtherPieces = (Position, bool) -> seq<Move>

  /** The moves `new` pushes: out of check and in single check every
      generator in the order pawn, knight, bishop, rook, queen, king; in
      double check the king generator alone. */
  function Generated(p: Position, king: Square, sliders: PawnGenerator.Sliders, others: OtherPieces): seq<Move>
  {
    var checkers := p.state.checkers;
    if checkers == {} then
      PawnGenerator.PawnLegals(LegalType, false, p, king, sliders) + others(p, false)
      + KingGenerator.KingLegals(LegalType, false, p, king)
    else if |checkers| == 1 then
      PawnGenerator.PawnLegals(LegalType, true, p, king, sliders) + others(p, true)
      + KingGenerator.KingLegals(LegalType, true, p, king)
    else
      KingGenerator.KingLegals(LegalType, true, p, king)
  }

  /** In check there is no castling. */
  lemma NoCastleInCheck(p: Position, king: Square, m: Move)
    requires m in KingGenerator.KingLegals(LegalType, true, p, king)
    ensures m in KingGenerator.StepLegals(LegalType, p, king)
  {
  }

  /** With two or more pieces giving check only the king moves: every
      move goes from the king to a neighbouring square that no enemy piece
      attacks and that holds no own piece. */
  lemma DoubleCheckOnlyKing(p: Position, king: Square, sliders: PawnGenerator.Sliders, others: OtherPieces, m: Move)
    requires |p.state.checkers| >= 2
    requires m in Generated(p, king, sliders, others)
    ensures Valid(m) && From(m) == king && !IsCastling(m)
    ensures To(m) in MoveTables.KingMoves(king) && To(m) !in p.state.attacked
    ensures To(m) !in Occupied(p, p.state.active)
  {
    NoCastleInCheck(p, king, m);
    KingGenerator.StepLegalsSound(LegalType, p, king, m);
  }

  /** Out of check and in single check the pawn moves come first and the
      king moves last, with the other pieces between them. */
  lemma GeneratedOrder(p: Position, king: Square, sliders: PawnGenerator.Sliders, others: OtherPieces)
    requires |p.state.checkers| <= 1
    ensures var inCheck := |p.state.checkers| == 1;
      var pawns := PawnGenerator.PawnLegals(LegalType, inCheck, p, king, sliders);
      var g := Generated(p, king, sliders, others);
      && g[..|pawns|] == pawns
      && g[|g| - |KingGenerator.KingLegals(LegalType, inCheck, p, king)|..] == KingGenerator.KingLegals(LegalType, inCheck, p, king)
  {
    if p.state.checkers != {} {
      assert |p.state.checkers| == 1;
    }
  }

  /** `MoveGenerator::new`: a fresh buffer filled with the generated moves;
      the buffer must have room for them. */
  method New(p: Position, king: Square, sliders: PawnGenerator.Sliders, others: OtherPieces)
    returns (g: MoveGenerator)
    requires |Generated(p, king, sliders, others)| <= MaxMoves
    ensures fresh(g) && fresh(g.moves) && g.Valid() && g.index == 0
    ensures g.Pushed() == Generated(p, king, sliders, others)
  {
    g := new MoveGenerator();
    var checkers := p.state.checkers;
    if checkers == {} {
      PushAllPieces(g, false, p, king, sliders, others);
    } else if |checkers| == 1 {
      PushAllPieces(g, true, p, king, sliders, others);
    } else {
      KingGenerator.Legals(g, LegalType, true, p, king);
    }
  }

  /** The six generators in turn into an empty buffer. */
  method PushAllPieces(g: MoveGenerator, inCheck: bool, p: Position, king: Square,
                       sliders: PawnGenerator.Sliders, others: OtherPieces)
    requires g.Valid() && g.Pushed() == [] && (inCheck <==> |p.state.checkers| == 1)
    requires |p.state.checkers| <= 1
    requires |PawnGenerator.PawnLegals(LegalType, inCheck, p, king, sliders) + others(p, inCheck)
              + KingGenerator.KingLegals(LegalType, inCheck, p, king)| <= MaxMoves
    modifies g`size, g.moves
    ensures g.Valid() && g.index == old(g.index)
    ensures g.Pushed() == PawnGenerator.PawnLegals(LegalType, inCheck, p, king, sliders) + others(p, inCheck)
                          + KingGenerator.KingLegals(LegalType, inCheck, p, king)
  {
    ghost var pawns := PawnGenerator.PawnLegals(LegalType, inCheck, p, king, sliders);
    PawnGenerator.Legals(g, LegalType, inCheck, p, king, sliders);
    assert g.Pushed() == pawns;
    PushAll(g, others(p, inCheck));
    KingGenerator.Legals(g, LegalType, inCheck, p, king);
  }
}
