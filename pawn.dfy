/** The pawn moves of the side to move: single and double pushes,
    diagonal captures, the four promotions per promotion square and en
    passant (crates/engine/src/generator/pieces/pawn.rs). */
module PawnGenerator {
  import opened Wrappers
  import opened Pieces
  import opened Squares
  import opened Bitboards
  import opened Moves
  import opened MoveFlags
  import opened Positions
  import opened Generator
  import MoveTables
  import RayTables
  import SquareBoards
  import Boards

  /** `get_bishop_attacks` and `get_rook_attacks`, which read the magic
      attack tables: the squares a slider on the first square reaches past
      the blockers. */
  datatype Sliders = Sliders(bishop: (Square, Bitboard) -> Bitboard, rook: (Square, Bitboard) -> Bitboard)

  /** The order `push_pawn_moves` pushes the four promotions in. */
  const PromotionOrder: seq<Piece> := [Queen, Rook, Bishop, Knight]

  // ----- Masks -----

  /** The squares that answer a single check: the checker and the
      squares between it and the king. */
  ghost predicate AnswersCheck(mask: Bitboard, checker: Square, king: Square)
  {
    forall q :: q in mask <==> q in RayTables.BetweenSquares(checker, king) || q == checker
  }

  /** The check mask: with one checker, the squares between it and the
      king and the checker itself; out of check, every square. */
  function CheckMask(inCheck: bool, p: Position, king: Square): (mask: Bitboard)
    requires inCheck ==> |p.state.checkers| == 1
    ensures inCheck ==> AnswersCheck(mask, SquareBoards.SquareFromBitboard(p.state.checkers), king)
    ensures !inCheck ==> mask == AllBits
  {
    if inCheck then
      var checker := SquareBoards.SquareFromBitboard(p.state.checkers);
      RayTables.BetweenMembers(checker, king, checker);
      Xor(RayTables.BetweenSquares(checker, king), {checker})
    else
      AllBits
  }

  /** The destinations a move type permits, as written: the first test
      reads `M::QUIET && M::QUIET`, so a quiet-only generator takes the
      branch meant for quiet-and-capture generators. */
  function AllowedAsWritten(mt: MoveType, p: Position, mask: Bitboard): Bitboard
    requires mt.quiet || mt.capture
  {
    if mt.quiet && mt.quiet then Not(Occupied(p, p.state.active)) * mask
    else if mt.quiet then Not(AllOccupied(p)) * mask
    else Occupied(p, Other(p.state.active)) * mask
  }

  /** A quiet-only generator as written lets a pawn onto an enemy piece,
      which the corrected mask does not. */
  lemma AllowedAsWrittenAdmitsCaptures(p: Position, mask: Bitboard, s: Square)
    requires s in mask && p.tiles[s].Some? && p.tiles[s].value.color == Other(p.state.active)
    ensures s in AllowedAsWritten(QuietType, p, mask)
    ensures s !in Allowed(QuietType, p, mask)
  {
    Boards.SelectedMembers(p.tiles, Boards.OfColor(p.state.active), s);
    Boards.SelectedMembers(p.tiles, Boards.AnyPiece, s);
  }

  // ----- Targets -----

  /** The targets a pawn may reach: the table pushes onto empty squares,
      a double push only over an empty square, the table attacks onto
      occupied squares. */
  ghost predicate PawnTargets(c: Color, source: Square, blockers: Bitboard, r: Bitboard)
  {
    && (forall q :: q in r ==>
         || (q in MoveTables.PawnPushes(c, source) && q !in blockers)
         || (q in MoveTables.PawnAttacks(c, source) && q in blockers))
    && (c == White && source + 16 < 64 && source + 16 in r ==> source + 8 !in blockers)
    && (c == Black && source >= 16 && source - 16 in r ==> source - 8 !in blockers)
  }

  /** `pseudo_legals`, cut down to `allowed`. */
  function PseudoLegals(p: Position, source: Square, allowed: Bitboard, blockers: Bitboard): (r: Bitboard)
    ensures r <= allowed
    ensures PawnTargets(p.state.active, source, blockers, r)
  {
    var active := p.state.active;
    var shifted := Xor(blockers, {source});
    var doublePushBlockers := if Other(active) == Black then Shl(shifted, 8) else Shr(shifted, 8);
    var pushes := MoveTables.PawnPushes(active, source) * Not(blockers) * Not(doublePushBlockers);
    var attacks := MoveTables.PawnAttacks(active, source);
    (pushes + attacks * blockers) * allowed
  }

  /** `is_double_pawn`: from the second or seventh rank, sixteen squares
      away. */
  function IsDoublePawnPush(from: Square, to: Square): bool
  {
    var sourceRank := Rank(from);
    if sourceRank == 1 || sourceRank == 6 then Abs(from - to) == 16 else false
  }

  /** `is_promotion`: onto the first or the last rank. */
  function IsPromotionSquare(to: Square): bool
  {
    var targetRank := Rank(to);
    targetRank == 0 || targetRank == 7
  }

  lemma SquareParts(s: Square)
    ensures s == Rank(s) * 8 + File(s)
  {
  }

  /** Among the pushes of the table, `is_double_pawn` picks exactly the
      two-rank push from the start rank. */
  lemma DoublePawnIsTwoRankPush(c: Color, from: Square, to: Square)
    requires to in MoveTables.PawnPushes(c, from)
    ensures IsDoublePawnPush(from, to) <==>
      Rank(from) == MoveTables.StartRank(c) && Rank(to) == Rank(from) + 2 * MoveTables.Forward(c)
  {
    SquareParts(from);
    SquareParts(to);
  }

  /** A pawn lands on a promotion square exactly when it moves from the
      rank before its last. */
  lemma PromotionFromSeventh(c: Color, from: Square, to: Square)
    requires to in MoveTables.PawnPushes(c, from) || to in MoveTables.PawnAttacks(c, from)
    ensures IsPromotionSquare(to) <==> Rank(from) == (if c == White then 6 else 1)
  {
  }

  // ----- Pushing -----

  /** The four promotions of one pawn move, queen first. */
  function Promotions(source: Square, target: Square, isCapture: bool): seq<Move>
  {
    [Promotion(source, target, Queen, isCapture), Promotion(source, target, Rook, isCapture),
     Promotion(source, target, Bishop, isCapture), Promotion(source, target, Knight, isCapture)]
  }

  /** What a move `push_pawn_moves` pushes is: from the source to the
      target, never en passant or castling, a capture as the move type or
      (for a generator of both) the target square says, a promotion
      exactly onto the last rank, a double push exactly when it is a
      plain two-rank push. */
  predicate PawnMoveOf(mt: MoveType, t: Tiles, source: Square, target: Square, m: Move)
  {
    && Valid(m) && From(m) == source && To(m) == target
    && !IsEnPassant(m) && !IsCastling(m)
    && (IsCapture(m) <==> if mt.quiet && mt.capture then t[target].Some? else mt.capture)
    && (IsPromotion(m) <==> IsPromotionSquare(target))
    && (IsDoublePawn(m) <==> !IsCapture(m) && !IsPromotionSquare(target) && IsDoublePawnPush(source, target))
  }

  /** Four promotions, to queen, rook, bishop and knight in that order. */
  predicate PromotesInOrder(ms: seq<Move>)
  {
    |ms| == 4 && forall i :: 0 <= i < 4 ==> Valid(ms[i]) && PromotionPiece(Flag(ms[i])) == PromotionOrder[i]
  }

  lemma PackedPawnMove(mt: MoveType, t: Tiles, source: Square, target: Square, f: MoveFlag)
    requires f != EnPassant && f != KingCastle && f != QueenCastle
    requires IsCaptureFlag(f) <==> if mt.quiet && mt.capture then t[target].Some? else mt.capture
    requires IsPromotionFlag(f) <==> IsPromotionSquare(target)
    requires f == DoublePawn <==> !IsCaptureFlag(f) && !IsPromotionSquare(target) && IsDoublePawnPush(source, target)
    ensures PawnMoveOf(mt, t, source, target, Pack(source, target, f))
  {
  }

  lemma PromotionsOf(mt: MoveType, t: Tiles, source: Square, target: Square, isCapture: bool)
    requires IsPromotionSquare(target)
    requires isCapture <==> if mt.quiet && mt.capture then t[target].Some? else mt.capture
    ensures forall m :: m in Promotions(source, target, isCapture) ==> PawnMoveOf(mt, t, source, target, m)
    ensures PromotesInOrder(Promotions(source, target, isCapture))
  {
    PackedPawnMove(mt, t, source, target, PromotionFlag(Queen, isCapture));
    PackedPawnMove(mt, t, source, target, PromotionFlag(Rook, isCapture));
    PackedPawnMove(mt, t, source, target, PromotionFlag(Bishop, isCapture));
    PackedPawnMove(mt, t, source, target, PromotionFlag(Knight, isCapture));
  }

  /** `push_pawn_moves`: the moves pushed for one source and target; four
      promotions queen first onto the last rank, one move otherwise,
      nothing for a generator of neither kind. */
  function PushPawnMoves(mt: MoveType, t: Tiles, source: Square, target: Square): (ms: seq<Move>)
    ensures forall m :: m in ms ==> PawnMoveOf(mt, t, source, target, m)
    ensures !mt.quiet && !mt.capture ==> ms == []
    ensures (mt.quiet || mt.capture) && !IsPromotionSquare(target) ==> |ms| == 1
    ensures (mt.quiet || mt.capture) && IsPromotionSquare(target) ==> PromotesInOrder(ms)
  {
    var isPromotion := IsPromotionSquare(target);
    if mt.capture && mt.quiet then
      var isCapture := t[target].Some?;
      if isPromotion then
        PromotionsOf(mt, t, source, target, isCapture);
        Promotions(source, target, isCapture)
      else if isCapture then
        PackedPawnMove(mt, t, source, target, Capture);
        [CaptureMove(source, target)]
      else if IsDoublePawnPush(source, target) then
        PackedPawnMove(mt, t, source, target, DoublePawn);
        [DoublePawnMove(source, target)]
      else
        PackedPawnMove(mt, t, source, target, MoveFlag.Quiet);
        [QuietMove(source, target)]
    else if mt.capture then
      if isPromotion then
        PromotionsOf(mt, t, source, target, true);
        Promotions(source, target, true)
      else
        PackedPawnMove(mt, t, source, target, Capture);
        [CaptureMove(source, target)]
    else if mt.quiet then
      if isPromotion then
        PromotionsOf(mt, t, source, target, false);
        Promotions(source, target, false)
      else if IsDoublePawnPush(source, target) then
        PackedPawnMove(mt, t, source, target, DoublePawn);
        [DoublePawnMove(source, target)]
      else
        PackedPawnMove(mt, t, source, target, MoveFlag.Quiet);
        [QuietMove(source, target)]
    else
      []
  }

  /** The moves of one source, for each target in ascending order. */
  function TargetMovesOf(mt: MoveType, t: Tiles, source: Square): Square -> seq<Move>
  {
    (target: Square) => PushPawnMoves(mt, t, source, target)
  }

  /** What a pinned pawn may reach: the allowed squares on its line to the
      king. */
  function LineAllowed(allowed: Bitboard, pinnedTo: Option<Square>, source: Square): Bitboard
  {
    if pinnedTo.Some? then allowed * RayTables.LineSquares(pinnedTo.value, source) else allowed
  }

  /** The moves of one pawn: `pseudo_legals`, then `push_pawn_moves` for
      each target. */
  function SourceMoves(mt: MoveType, p: Position, allowed: Bitboard, blockers: Bitboard,
                       pinnedTo: Option<Square>, source: Square): seq<Move>
  {
    var targets := PseudoLegals(p, source, LineAllowed(allowed, pinnedTo, source), blockers);
    FlatMap(Ascending(targets), TargetMovesOf(mt, p.tiles, source))
  }

  function SourceMovesOf(mt: MoveType, p: Position, allowed: Bitboard, blockers: Bitboard,
                         pinnedTo: Option<Square>): Square -> seq<Move>
  {
    (source: Square) => SourceMoves(mt, p, allowed, blockers, pinnedTo, source)
  }

  /** `is_legal_en_passant`: with the two pawns gone and the capturing one
      on the target, no enemy bishop, rook or queen sees the king. The two
      attacker sets are combined with `^`, as written. */
  function IsLegalEnPassant(p: Position, king: Square, sliders: Sliders, source: Square, ep: EnPassantTarget): bool
  {
    var blockers := Xor(Xor(Xor(AllOccupied(p), {source}), {ep.toCapture}), {ep.toMove});
    var them := Other(p.state.active);
    var queens := PieceBoard(p, them, Queen);
    var bishops := PieceBoard(p, them, Bishop);
    var bishopAttackers := Xor({}, sliders.bishop(king, blockers) * (bishops + queens));
    var rooks := PieceBoard(p, them, Rook);
    var attackers := Xor(bishopAttackers, sliders.rook(king, blockers) * (rooks + queens));
    attackers == {}
  }

  /** The en-passant move of one pawn, if the legality test passes. */
  function EnPassantMoves(p: Position, king: Square, sliders: Sliders, ep: EnPassantTarget, source: Square): (ms: seq<Move>)
    ensures forall m :: m in ms ==>
      Valid(m) && IsEnPassant(m) && From(m) == source && To(m) == ep.toMove && IsLegalEnPassant(p, king, sliders, source, ep)
  {
    if IsLegalEnPassant(p, king, sliders, source, ep) then [EnPassantMove(source, ep.toMove)] else []
  }

  function EnPassantMovesOf(p: Position, king: Square, sliders: Sliders, ep: EnPassantTarget): Square -> seq<Move>
  {
    (source: Square) => EnPassantMoves(p, king, sliders, ep, source)
  }

  /** The pawns that may take en passant: on the rank of the pawn to be
      taken, on a file next to it. */
  function EnPassantSources(p: Position, ep: EnPassantTarget): Bitboard
  {
    PieceBoard(p, p.state.active, Pawn) * SquareBoards.RankBb(ep.toCapture) * RayTables.AdjacentFiles(ep.toCapture)
  }

  predicate Setup(mt: MoveType, inCheck: bool, p: Position)
  {
    (mt.quiet || mt.capture) && (inCheck ==> |p.state.checkers| == 1)
  }

  /** The moves of a group of pawns, each in ascending order. */
  function GroupMoves(mt: MoveType, p: Position, allowed: Bitboard, blockers: Bitboard,
                      pinnedTo: Option<Square>, sources: Bitboard): seq<Move>
  {
    FlatMap(Ascending(sources), SourceMovesOf(mt, p, allowed, blockers, pinnedTo))
  }

  /** The en-passant captures, for generators of captures when the
      position has a target. */
  function EnPassantLegals(mt: MoveType, p: Position, king: Square, sliders: Sliders): seq<Move>
  {
    if mt.capture && p.state.enPassant.Some? then
      var ep := p.state.enPassant.value;
      FlatMap(Ascending(EnPassantSources(p, ep)), EnPassantMovesOf(p, king, sliders, ep))
    else []
  }

  /** `legals`: unpinned pawns, then (out of check) pinned pawns along
      their pin line, then en passant for generators of captures. */
  function PawnLegals(mt: MoveType, inCheck: bool, p: Position, king: Square, sliders: Sliders): seq<Move>
    requires Setup(mt, inCheck, p)
  {
    var pawns := PieceBoard(p, p.state.active, Pawn);
    var all := AllOccupied(p);
    var allowed := Allowed(mt, p, CheckMask(inCheck, p, king));
    GroupMoves(mt, p, allowed, all, None, pawns * Not(p.state.pinned))
    + (if inCheck then [] else GroupMoves(mt, p, allowed, all, Some(king), pawns * p.state.pinned))
    + EnPassantLegals(mt, p, king, sliders)
  }

  // ----- What is generated -----

  /** Every move of one pawn goes from it to one of its pseudo-legal
      targets. */
  lemma SourceMovesLand(mt: MoveType, p: Position, allowed: Bitboard, blockers: Bitboard,
                        pinnedTo: Option<Square>, source: Square, m: Move)
    requires m in SourceMoves(mt, p, allowed, blockers, pinnedTo, source)
    ensures Valid(m) && From(m) == source && !IsEnPassant(m)
    ensures To(m) in PseudoLegals(p, source, LineAllowed(allowed, pinnedTo, source), blockers)
  {
    var targets := PseudoLegals(p, source, LineAllowed(allowed, pinnedTo, source), blockers);
    var f := TargetMovesOf(mt, p.tiles, source);
    FlatMapMembers(Ascending(targets), f, m);
    var i :| 0 <= i < |Ascending(targets)| && m in f(Ascending(targets)[i]);
    AscendingMembers(targets, Ascending(targets)[i]);
  }

  /** Every move of a set of pawns goes from one of them. */
  lemma SourcesMovesLand(mt: MoveType, p: Position, allowed: Bitboard, blockers: Bitboard,
                         pinnedTo: Option<Square>, sources: Bitboard, m: Move)
    requires m in FlatMap(Ascending(sources), SourceMovesOf(mt, p, allowed, blockers, pinnedTo))
    ensures Valid(m) && From(m) in sources && !IsEnPassant(m)
    ensures To(m) in PseudoLegals(p, From(m), LineAllowed(allowed, pinnedTo, From(m)), blockers)
  {
    var f := SourceMovesOf(mt, p, allowed, blockers, pinnedTo);
    FlatMapMembers(Ascending(sources), f, m);
    var i :| 0 <= i < |Ascending(sources)| && m in f(Ascending(sources)[i]);
    var source := Ascending(sources)[i];
    AscendingMembers(sources, source);
    SourceMovesLand(mt, p, allowed, blockers, pinnedTo, source, m);
  }

  /** Every en-passant move comes from a pawn beside the pawn to be taken,
      lands on the target and passes the legality test. */
  lemma EnPassantMovesLand(p: Position, king: Square, sliders: Sliders, ep: EnPassantTarget, m: Move)
    requires m in FlatMap(Ascending(EnPassantSources(p, ep)), EnPassantMovesOf(p, king, sliders, ep))
    ensures Valid(m) && IsEnPassant(m) && To(m) == ep.toMove
    ensures From(m) in EnPassantSources(p, ep) && IsLegalEnPassant(p, king, sliders, From(m), ep)
  {
    var f := EnPassantMovesOf(p, king, sliders, ep);
    var sources := Ascending(EnPassantSources(p, ep));
    FlatMapMembers(sources, f, m);
    var i :| 0 <= i < |sources| && m in f(sources[i]);
    var source := sources[i];
    AscendingMembers(EnPassantSources(p, ep), source);
  }

  /** What `legals` pushes: moves of the side's pawns; every move but en
      passant lands on an allowed square inside the check mask, and a
      pinned pawn moves only along its line to the king and only out of
      check; en passant comes only from a pawn beside the pawn to be
      taken, only for generators of captures, and only when the legality
      test passes. */
  lemma PawnLegalsSound(mt: MoveType, inCheck: bool, p: Position, king: Square, sliders: Sliders, m: Move)
    requires Setup(mt, inCheck, p)
    requires m in PawnLegals(mt, inCheck, p, king, sliders)
    ensures Valid(m) && From(m) in PieceBoard(p, p.state.active, Pawn)
    ensures !IsEnPassant(m) ==>
      && To(m) in Allowed(mt, p, CheckMask(inCheck, p, king))
      && (From(m) in p.state.pinned ==> !inCheck && To(m) in RayTables.LineSquares(king, From(m)))
    ensures IsEnPassant(m) ==>
      && mt.capture && p.state.enPassant.Some?
      && To(m) == p.state.enPassant.value.toMove
      && From(m) in EnPassantSources(p, p.state.enPassant.value)
      && IsLegalEnPassant(p, king, sliders, From(m), p.state.enPassant.value)
  {
    var pawns := PieceBoard(p, p.state.active, Pawn);
    var all := AllOccupied(p);
    var allowed := Allowed(mt, p, CheckMask(inCheck, p, king));
    var unpinned := FlatMap(Ascending(pawns * Not(p.state.pinned)), SourceMovesOf(mt, p, allowed, all, None));
    var pinned := if inCheck then [] else FlatMap(Ascending(pawns * p.state.pinned), SourceMovesOf(mt, p, allowed, all, Some(king)));
    if m in unpinned {
      SourcesMovesLand(mt, p, allowed, all, None, pawns * Not(p.state.pinned), m);
    } else if m in pinned {
      SourcesMovesLand(mt, p, allowed, all, Some(king), pawns * p.state.pinned, m);
    } else {
      var ep := p.state.enPassant.value;
      EnPassantMovesLand(p, king, sliders, ep, m);
    }
  }

  /** In check, no pawn move but en passant leaves the check mask: it
      takes the checker or lands between the checker and the king. */
  lemma PawnLegalsInCheck(mt: MoveType, p: Position, king: Square, sliders: Sliders, m: Move)
    requires Setup(mt, true, p)
    requires m in PawnLegals(mt, true, p, king, sliders)
    ensures Valid(m)
    ensures !IsEnPassant(m) ==> var checker := SquareBoards.SquareFromBitboard(p.state.checkers);
      From(m) !in p.state.pinned && (To(m) == checker || To(m) in RayTables.BetweenSquares(checker, king))
  {
    PawnLegalsSound(mt, true, p, king, sliders, m);
  }

  /** Every target of every unpinned pawn gets all its moves pushed. */
  lemma PawnLegalsComplete(mt: MoveType, inCheck: bool, p: Position, king: Square, sliders: Sliders,
                           source: Square, target: Square)
    requires Setup(mt, inCheck, p)
    requires source in PieceBoard(p, p.state.active, Pawn) && source !in p.state.pinned
    requires target in PseudoLegals(p, source, Allowed(mt, p, CheckMask(inCheck, p, king)), AllOccupied(p))
    ensures forall m :: m in PushPawnMoves(mt, p.tiles, source, target) ==> m in PawnLegals(mt, inCheck, p, king, sliders)
  {
    var pawns := PieceBoard(p, p.state.active, Pawn);
    var all := AllOccupied(p);
    var allowed := Allowed(mt, p, CheckMask(inCheck, p, king));
    var sources := Ascending(pawns * Not(p.state.pinned));
    AscendingMembers(pawns * Not(p.state.pinned), source);
    FlatMapIncludes(sources, SourceMovesOf(mt, p, allowed, all, None), source);
    var targets := Ascending(PseudoLegals(p, source, allowed, all));
    AscendingMembers(PseudoLegals(p, source, allowed, all), target);
    FlatMapIncludes(targets, TargetMovesOf(mt, p.tiles, source), target);
  }

  // ----- Generation -----

  /** The loop over the targets of one pawn, in ascending order, pushing
      `push_pawn_moves` for each. */
  method PushSource(g: MoveGenerator, mt: MoveType, p: Position, allowed: Bitboard, blockers: Bitboard,
                    pinnedTo: Option<Square>, source: Square)
    requires g.Valid() && g.size + |SourceMovesOf(mt, p, allowed, blockers, pinnedTo)(source)| <= MaxMoves
    modifies g`size, g.moves
    ensures g.Valid() && g.index == old(g.index)
    ensures g.Pushed() == old(g.Pushed()) + SourceMovesOf(mt, p, allowed, blockers, pinnedTo)(source)
  {
    var targetBoard := PseudoLegals(p, source, LineAllowed(allowed, pinnedTo, source), blockers);
    var targets := SquaresOf(targetBoard);
    PushEach(g, targets, TargetMovesOf(mt, p.tiles, source));
  }

  /** The loop over one group of pawns, in ascending order. */
  method PushSources(g: MoveGenerator, mt: MoveType, p: Position, allowed: Bitboard, blockers: Bitboard,
                     pinnedTo: Option<Square>, sources: Bitboard)
    requires g.Valid()
    requires g.size + |GroupMoves(mt, p, allowed, blockers, pinnedTo, sources)| <= MaxMoves
    modifies g`size, g.moves
    ensures g.Valid() && g.index == old(g.index)
    ensures g.Pushed() == old(g.Pushed()) + GroupMoves(mt, p, allowed, blockers, pinnedTo, sources)
  {
    var squares := SquaresOf(sources);
    var f := SourceMovesOf(mt, p, allowed, blockers, pinnedTo);
    for i := 0 to |squares|
      invariant g.Valid() && g.index == old(g.index)
      invariant g.Pushed() == old(g.Pushed()) + FlatMap(squares[..i], f)
    {
      FlatMapStep(squares, i, f);
      PushSource(g, mt, p, allowed, blockers, pinnedTo, squares[i]);
      AppendAssoc(old(g.Pushed()), FlatMap(squares[..i], f), f(squares[i]));
    }
    assert squares[..|squares|] == squares;
  }

  /** `legals`: pushes exactly `PawnLegals`, in its order. The buffer must
      have room for them. */
  method Legals(g: MoveGenerator, mt: MoveType, inCheck: bool, p: Position, king: Square, sliders: Sliders)
    requires g.Valid() && Setup(mt, inCheck, p)
    requires g.size + |PawnLegals(mt, inCheck, p, king, sliders)| <= MaxMoves
    modifies g`size, g.moves
    ensures g.Valid() && g.index == old(g.index)
    ensures g.Pushed() == old(g.Pushed()) + PawnLegals(mt, inCheck, p, king, sliders)
  {
    var pawns := PieceBoard(p, p.state.active, Pawn);
    var all := AllOccupied(p);
    var allowed := Allowed(mt, p, CheckMask(inCheck, p, king));
    ghost var unpinned := GroupMoves(mt, p, allowed, all, None, pawns * Not(p.state.pinned));
    ghost var pinned := if inCheck then [] else GroupMoves(mt, p, allowed, all, Some(king), pawns * p.state.pinned);
    ghost var enPassant := EnPassantLegals(mt, p, king, sliders);
    assert PawnLegals(mt, inCheck, p, king, sliders) == unpinned + pinned + enPassant;
    PushSources(g, mt, p, allowed, all, None, pawns * Not(p.state.pinned));
    if !inCheck {
      PushSources(g, mt, p, allowed, all, Some(king), pawns * p.state.pinned);
      AppendAssoc(old(g.Pushed()), unpinned, pinned);
    } else {
      assert unpinned + pinned == unpinned;
    }
    assert g.Pushed() == old(g.Pushed()) + (unpinned + pinned);
    PushEnPassant(g, mt, p, king, sliders);
    AppendAssoc(old(g.Pushed()), unpinned + pinned, enPassant);
  }

  /** The loop over the pawns that may take en passant. */
  method PushEnPassant(g: MoveGenerator, mt: MoveType, p: Position, king: Square, sliders: Sliders)
    requires g.Valid() && g.size + |EnPassantLegals(mt, p, king, sliders)| <= MaxMoves
    modifies g`size, g.moves
    ensures g.Valid() && g.index == old(g.index)
    ensures g.Pushed() == old(g.Pushed()) + EnPassantLegals(mt, p, king, sliders)
  {
    if mt.capture && p.state.enPassant.Some? {
      var ep := p.state.enPassant.value;
      var sources := SquaresOf(EnPassantSources(p, ep));
      PushEach(g, sources, EnPassantMovesOf(p, king, sliders, ep));
    }
  }
}
