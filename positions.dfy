/** The position a board holds and how `make`, `unmake`, `make_null` and
    `unmake_null` change it (crates/base/src/board/board.rs), as values:
    the 64 tiles, the game state (hash, side to move, counters, en-passant
    target, castling rights, the checkers/pins/attacks of the side to
    move, the last captured piece) and the stack of saved game states.

    Each source step is one function on positions, and `make` and
    `unmake` are their composition in the source's order. The piece
    bitboards and the material sums the board also keeps are functions of
    the tiles (see module Boards). The pin/check/attack analysis reads
    magic attack tables and is a parameter. */
module Positions {
  import opened Wrappers
  import opened Pieces
  import opened Squares
  import opened MoveFlags
  import opened Moves
  import opened Zobrist
  import Bitboards

  /** The `u16` move counters. */
  type U16 = x: int | 0 <= x < 0x1_0000

  /** `+= 1` on a `u16` as a release build computes it. */
  function IncU16(x: U16): (r: U16)
    ensures x < 0xFFFF ==> r == x + 1
    ensures x == 0xFFFF ==> r == 0
  {
    (x + 1) % 0x1_0000
  }

  /** The 64 tiles of `pieces`, indexed by square. */
  type Tiles = t: seq<Option<Tile>> | |t| == 64 witness seq(64, _ => None)

  /** No tile holds `Piece::None`. */
  predicate NoEmptyTiles(t: Tiles)
  {
    forall s: Square :: t[s].Some? ==> t[s].value.piece != NoPiece
  }

  /** `EnPassant`: the square a double-pushed pawn passed over, where the
      capturing pawn lands, and the square of the pawn to be taken. */
  datatype EnPassantTarget = EnPassantTarget(toMove: Square, toCapture: Square)

  /** `GameState`: everything `make` saves and `unmake` restores. */
  datatype GameState = GameState(
    hash: ZobristHash,
    active: Color,
    halfmoves: U16,
    fullmoves: U16,
    enPassant: Option<EnPassantTarget>,
    whiteKingside: bool,
    whiteQueenside: bool,
    blackKingside: bool,
    blackQueenside: bool,
    pinned: Bitboards.Bitboard,
    checkers: Bitboards.Bitboard,
    attacked: Bitboards.Bitboard,
    capturedPiece: Piece)

  /** `GameState::default()`. */
  const DefaultState: GameState :=
    GameState(Zero, White, 0, 0, None, false, false, false, false, {}, {}, {}, NoPiece)

  /** What `update_game_state` computes for the side to move. */
  datatype Analysis = Analysis(pinned: Bitboards.Bitboard, checkers: Bitboards.Bitboard, attacked: Bitboards.Bitboard)

  /** `update_game_state`, which reads the magic attack tables, as a
      function of the tiles and the side to move. */
  type Analyser = (Tiles, Color) -> Analysis

  datatype Position = Position(tiles: Tiles, state: GameState, history: seq<GameState>)

  /** The rights held, by their castling-key index. */
  function RightsOf(st: GameState): set<nat>
  {
    Rights(st.whiteKingside, st.whiteQueenside, st.blackKingside, st.blackQueenside)
  }

  /** The square whose file keys the hash: the pawn that can be taken. */
  function EnPassantCapture(st: GameState): Option<Square>
  {
    if st.enPassant.Some? then Some(st.enPassant.value.toCapture) else None
  }

  /** The incrementally kept hash equals `hash()` recomputed from scratch. */
  ghost predicate Synced(p: Position)
  {
    p.state.hash == Hash(p.tiles, p.state.active, RightsOf(p.state), EnPassantCapture(p.state))
  }

  // ----- The steps -----

  /** `toggle`: an occupied square is emptied and an empty one receives
      the tile, and the piece key is XORed into the hash either way. */
  function TogglePos(p: Position, color: Color, piece: Piece, s: Square): Position
    requires piece != NoPiece
  {
    p.(tiles := ToggleTile(p.tiles, color, piece, s), state := p.state.(hash := Xor(p.state.hash, PieceHash(piece, color, s))))
  }

  /** What `toggle` does to the tiles. */
  function ToggleTile(t: Tiles, color: Color, piece: Piece, s: Square): Tiles
  {
    t[s := if t[s].Some? then None else Some(Tile(piece, color))]
  }

  /** The toggles of a move in the source always meet a square that is
      empty or holds exactly the toggled tile. */
  predicate Fits(p: Position, color: Color, piece: Piece, s: Square)
  {
    p.tiles[s].None? || p.tiles[s] == Some(Tile(piece, color))
  }

  /** A fitting toggle keeps the hash in step with the tiles. */
  lemma ToggleSynced(p: Position, color: Color, piece: Piece, s: Square)
    requires piece != NoPiece && Fits(p, color, piece, s) && Synced(p)
    ensures Synced(TogglePos(p, color, piece, s))
  {
    var st := p.state;
    if p.tiles[s].Some? {
      HashLift(p.tiles, st.active, RightsOf(st), EnPassantCapture(st), s, Tile(piece, color));
    } else {
      HashPlace(p.tiles, st.active, RightsOf(st), EnPassantCapture(st), s, Tile(piece, color));
    }
  }

  /** Toggling a fitting square twice restores the position. */
  lemma ToggleTwice(p: Position, color: Color, piece: Piece, s: Square)
    requires piece != NoPiece && Fits(p, color, piece, s)
    ensures TogglePos(TogglePos(p, color, piece, s), color, piece, s) == p
  {
    ToggleTileTwice(p.tiles, color, piece, s);
    XorGroup(p.state.hash, PieceHash(piece, color, s), PieceHash(piece, color, s));
  }

  lemma ToggleTileTwice(t: Tiles, color: Color, piece: Piece, s: Square)
    requires t[s].None? || t[s] == Some(Tile(piece, color))
    ensures ToggleTile(ToggleTile(t, color, piece, s), color, piece, s) == t
  {
    assert t[s := t[s]] == t;
  }

  /** The castling-key index of a right: white kingside 0, white queenside
      1, black kingside 2, black queenside 3. */
  function RightIndex(color: Color, short: bool): (i: nat)
    ensures i < 4
  {
    if color == White then (if short then 0 else 1) else (if short then 2 else 3)
  }

  /** `remove_castle`: a right that is held is cleared and its key XORed
      out; a right already gone changes nothing. */
  function RemoveCastle(p: Position, color: Color, short: bool): Position
  {
    var st := p.state;
    match (color, short)
    case (White, true) =>
      if st.whiteKingside then p.(state := st.(whiteKingside := false, hash := Xor(st.hash, CastlingHash(0)))) else p
    case (White, false) =>
      if st.whiteQueenside then p.(state := st.(whiteQueenside := false, hash := Xor(st.hash, CastlingHash(1)))) else p
    case (Black, true) =>
      if st.blackKingside then p.(state := st.(blackKingside := false, hash := Xor(st.hash, CastlingHash(2)))) else p
    case (Black, false) =>
      if st.blackQueenside then p.(state := st.(blackQueenside := false, hash := Xor(st.hash, CastlingHash(3)))) else p
  }

  /** `remove_castle` drops exactly the one right, XORs its key only when
      the right was held, touches nothing else, and is idempotent. */
  lemma RemoveCastleSpec(p: Position, color: Color, short: bool)
    ensures var q := RemoveCastle(p, color, short); var i := RightIndex(color, short);
      && RightsOf(q.state) == RightsOf(p.state) - {i}
      && q.state.hash == (if i in RightsOf(p.state) then Xor(p.state.hash, CastlingHash(i)) else p.state.hash)
      && q.tiles == p.tiles && q.history == p.history
      && q.state.(hash := p.state.hash, whiteKingside := p.state.whiteKingside, whiteQueenside := p.state.whiteQueenside,
                  blackKingside := p.state.blackKingside, blackQueenside := p.state.blackQueenside) == p.state
      && RemoveCastle(q, color, short) == q
  {
  }

  /** Dropping a right keeps the hash in step. */
  lemma RemoveCastleSynced(p: Position, color: Color, short: bool)
    requires Synced(p)
    ensures Synced(RemoveCastle(p, color, short))
  {
    var st := p.state;
    var i := RightIndex(color, short);
    RemoveCastleSpec(p, color, short);
    if i in RightsOf(st) {
      HashDropRight(p.tiles, st.active, RightsOf(st), EnPassantCapture(st), i);
    }
  }

  /** `swap_active`. */
  function SwapActive(p: Position): Position
  {
    p.(state := p.state.(active := Other(p.state.active), hash := Xor(p.state.hash, SideHash())))
  }

  lemma SwapActiveSynced(p: Position)
    requires Synced(p)
    ensures Synced(SwapActive(p))
  {
    HashSide(p.tiles, p.state.active, RightsOf(p.state), EnPassantCapture(p.state));
  }

  /** The en-passant target of the previous move is cleared, with its key. */
  function ClearEnPassant(p: Position): Position
  {
    match p.state.enPassant
    case Some(ep) => p.(state := p.state.(hash := Xor(p.state.hash, EnPassantHash(ep.toCapture)), enPassant := None))
    case None => p
  }

  lemma ClearEnPassantSynced(p: Position)
    requires Synced(p)
    ensures Synced(ClearEnPassant(p))
  {
    var st := p.state;
    if st.enPassant.Some? {
      var s := st.enPassant.value.toCapture;
      HashEnPassant(p.tiles, st.active, RightsOf(st), s);
      XorGroup(Hash(p.tiles, st.active, RightsOf(st), None), EnPassantHash(s), EnPassantHash(s));
    }
  }

  /** The move counters: the halfmove clock restarts on a pawn move and
      otherwise counts up; the fullmove number counts up after Black. */
  function CountMove(p: Position, pawnMoved: bool): Position
  {
    var st := p.state;
    p.(state := st.(halfmoves := if pawnMoved then 0 else IncU16(st.halfmoves),
                    fullmoves := if st.active == Black then IncU16(st.fullmoves) else st.fullmoves))
  }

  /** A double push from `to`'s pawn: the square it passed over is one
      rank behind `to` from the mover's side. */
  predicate DoublePushInRange(c: Color, to: Square)
  {
    0 <= to + EnPassantOffset(c) < 64
  }

  /** A double push makes its pawn takeable en passant; the key of the
      passed-over square is XORed in. */
  function SetEnPassant(p: Position, to: Square): Position
    requires DoublePushInRange(p.state.active, to)
  {
    var toMove: Square := to + EnPassantOffset(p.state.active);
    p.(state := p.state.(enPassant := Some(EnPassantTarget(toMove, to)), hash := Xor(p.state.hash, EnPassantHash(toMove))))
  }

  /** The passed-over square and the pawn's square share a file, so the
      key XORed in is the one `hash()` takes from the pawn's square. */
  lemma SetEnPassantSynced(p: Position, to: Square)
    requires DoublePushInRange(p.state.active, to) && p.state.enPassant.None? && Synced(p)
    ensures Synced(SetEnPassant(p, to))
  {
    var st := p.state;
    var toMove: Square := to + EnPassantOffset(st.active);
    assert File(toMove) == File(to);
    EnPassantHashFile(toMove, to);
    HashEnPassant(p.tiles, st.active, RightsOf(st), to);
  }

  /** A rook standing on, or taken on, a corner drops that corner's right,
      whichever colour the rook has. */
  function CornerRights(p: Position, piece: Piece, s: Square): Position
  {
    if piece != Rook then p
    else if s == A1 then RemoveCastle(p, White, false)
    else if s == H1 then RemoveCastle(p, White, true)
    else if s == A8 then RemoveCastle(p, Black, false)
    else if s == H8 then RemoveCastle(p, Black, true)
    else p
  }

  /** The capture of the piece on `to` (not en passant): it is toggled
      off, recorded, the halfmove clock restarts, and a rook taken on a
      corner drops that corner's right. */
  function TakePiece(p: Position, to: Square): Position
    requires p.tiles[to].Some? && p.tiles[to].value.piece != NoPiece
  {
    var captured := p.tiles[to].value.piece;
    var q := TogglePos(p, Other(p.state.active), captured, to);
    CornerRights(q.(state := q.state.(capturedPiece := captured, halfmoves := 0)), captured, to)
  }

  /** A piece of the side to move goes from `from` to `to`. */
  function MovePiece(p: Position, piece: Piece, from: Square, to: Square): Position
    requires piece != NoPiece
  {
    TogglePos(TogglePos(p, p.state.active, piece, from), p.state.active, piece, to)
  }

  /** The mover's rights: a king move drops both of its side's rights, a
      rook leaving a corner drops that corner's. */
  function MoverRights(p: Position, piece: Piece, from: Square): Position
  {
    if piece == King then RemoveCastle(RemoveCastle(p, p.state.active, false), p.state.active, true)
    else CornerRights(p, piece, from)
  }

  predicate IsCastleTarget(to: Square)
  {
    to == G1 || to == C1 || to == G8 || to == C8
  }

  /** The squares the castling rook leaves and enters, for the king's
      target square. */
  function RookSquares(to: Square): (r: (Square, Square))
    requires IsCastleTarget(to)
  {
    if to == G1 then (H1, F1)
    else if to == C1 then (A1, D1)
    else if to == G8 then (H8, F8)
    else (A8, D8)
  }

  /** The rook's part of a castling move; toggling the same two squares
      also takes it back. */
  function CastleRook(p: Position, to: Square): Position
    requires IsCastleTarget(to)
  {
    var (rookFrom, rookTo) := RookSquares(to);
    TogglePos(TogglePos(p, p.state.active, Rook, rookFrom), p.state.active, Rook, rookTo)
  }

  /** A promotion: the pawn is toggled at `from` and the promoted piece at
      `to` (placing the one and lifting the other in `make`, the reverse
      in `unmake`). */
  function Promote(p: Position, pawn: Piece, promoted: Piece, from: Square, to: Square): Position
    requires pawn != NoPiece && promoted != NoPiece
  {
    TogglePos(TogglePos(p, p.state.active, pawn, from), p.state.active, promoted, to)
  }

  /** `update_game_state`. */
  function Analyse(p: Position, analyse: Analyser): Position
  {
    var a := analyse(p.tiles, p.state.active);
    p.(state := p.state.(pinned := a.pinned, checkers := a.checkers, attacked := a.attacked))
  }

  predicate IsCastleFlag(flag: MoveFlag)
  {
    flag == KingCastle || flag == QueenCastle
  }

  // ----- make -----

  /** What `make` needs not to panic: a piece on `from`, the target to
      take for an en-passant move, a piece on `to` for any other capture,
      a passed-over square on the board for a double push, and a castling
      target among g1, c1, g8, c8. */
  predicate MakeDefined(p: Position, from: Square, to: Square, flag: MoveFlag)
  {
    && p.tiles[from].Some? && p.tiles[from].value.piece != NoPiece
    && (flag == EnPassant ==> p.state.enPassant.Some?)
    && (IsCaptureFlag(flag) && flag != EnPassant ==> p.tiles[to].Some? && p.tiles[to].value.piece != NoPiece)
    && (flag == DoublePawn ==> DoublePushInRange(p.state.active, to))
    && (IsCastleFlag(flag) ==> IsCastleTarget(to))
  }

  /** `make`, step by step in the source's order: the bookkeeping first,
      then the pieces, then the side to move and the analysis. */
  function MakePosition(p: Position, from: Square, to: Square, flag: MoveFlag, analyse: Analyser): Position
    requires MakeDefined(p, from, to, flag)
  {
    var piece := p.tiles[from].value.piece;
    Analyse(SwapActive(MakePieces(MakeBookkeeping(p, from, to, flag), piece, from, to, flag)), analyse)
  }

  /** The first half of `make`: the state is saved, an en-passant capture
      lifts the taken pawn, the old en-passant target is cleared, the
      counters move on, and a double push sets the new target. */
  function MakeBookkeeping(p: Position, from: Square, to: Square, flag: MoveFlag): Position
    requires MakeDefined(p, from, to, flag)
  {
    var piece := p.tiles[from].value.piece;
    var p1 := p.(history := p.history + [p.state]);
    var p2 := if flag == EnPassant then TogglePos(p1, Other(p1.state.active), Pawn, p1.state.enPassant.value.toCapture) else p1;
    var p3 := ClearEnPassant(p2);
    var p4 := CountMove(p3, piece == Pawn);
    if flag == DoublePawn then SetEnPassant(p4, to) else p4
  }

  /** The second half of `make`: a capture, the moving piece, the mover's
      rights, and the rook of a castling move or the promoted piece. */
  function MakePieces(p: Position, piece: Piece, from: Square, to: Square, flag: MoveFlag): Position
    requires piece != NoPiece
    requires IsCaptureFlag(flag) && flag != EnPassant ==> p.tiles[to].Some? && p.tiles[to].value.piece != NoPiece
    requires IsCastleFlag(flag) ==> IsCastleTarget(to)
  {
    PlacePieces(if IsCaptureFlag(flag) && flag != EnPassant then TakePiece(p, to) else p, piece, from, to, flag)
  }

  /** The moving piece, the mover's rights, and the rook of a castling move
      or the promoted piece. */
  function PlacePieces(p: Position, piece: Piece, from: Square, to: Square, flag: MoveFlag): Position
    requires piece != NoPiece
    requires IsCastleFlag(flag) ==> IsCastleTarget(to)
  {
    var p7 := if !IsPromotionFlag(flag) then MovePiece(p, piece, from, to) else p;
    var p8 := MoverRights(p7, piece, from);
    if IsCastleFlag(flag) then CastleRook(p8, to)
    else if IsPromotionFlag(flag) then Promote(p8, piece, PromotionPiece(flag), from, to)
    else p8
  }

  // ----- unmake -----

  /** What `unmake` needs not to panic: a piece on `to`, a castling target
      among g1, c1, g8, c8, a recorded captured piece for a capture, and,
      when there is a saved state, its en-passant target for an en-passant
      move. */
  predicate UnmakeDefined(p: Position, from: Square, to: Square, flag: MoveFlag)
  {
    && p.tiles[to].Some? && p.tiles[to].value.piece != NoPiece
    && (IsCastleFlag(flag) ==> IsCastleTarget(to))
    && (IsCaptureFlag(flag) && flag != EnPassant ==> p.state.capturedPiece != NoPiece)
    && (flag == EnPassant && |p.history| > 0 ==> p.history[|p.history| - 1].enPassant.Some?)
  }

  /** The toggles of `unmake`, for the mover restored as the side to
      move: the castling rook or the promotion is taken back, the piece
      returns from `to` to `from`, and a recorded capture is put back on
      `to`. */
  function UnmakePieces(p: Position, from: Square, to: Square, flag: MoveFlag): Position
    requires p.tiles[to].Some? && p.tiles[to].value.piece != NoPiece
    requires IsCastleFlag(flag) ==> IsCastleTarget(to)
    requires IsCaptureFlag(flag) && flag != EnPassant ==> p.state.capturedPiece != NoPiece
  {
    var piece := p.tiles[to].value.piece;
    var p2 := if IsCastleFlag(flag) then CastleRook(p, to)
              else if IsPromotionFlag(flag) then Promote(p, Pawn, PromotionPiece(flag), from, to)
              else p;
    var p3 := if !IsPromotionFlag(flag) then MovePiece(p2, piece, from, to) else p2;
    if IsCaptureFlag(flag) && flag != EnPassant
    then TogglePos(p3, Other(p3.state.active), p3.state.capturedPiece, to) else p3
  }

  /** `unmake`, step by step in the source's order: the side to move is
      swapped back, the tiles are toggled back, then the saved state is
      popped (its en-passant pawn put back) and replaces the current one.
      With nothing saved, the toggles are all that happens. */
  function UnmakePosition(p: Position, from: Square, to: Square, flag: MoveFlag): Position
    requires UnmakeDefined(p, from, to, flag)
  {
    var p4 := UnmakePieces(SwapActive(p), from, to, flag);
    if |p4.history| == 0 then p4
    else
      var saved := p4.history[|p4.history| - 1];
      var p5 := if flag == EnPassant then TogglePos(p4, Other(p4.state.active), Pawn, saved.enPassant.value.toCapture) else p4;
      Position(p5.tiles, saved, p4.history[..|p4.history| - 1])
  }

  /** The position fits the move as the generator produces it: the side
      to move has its piece on `from`; `to` is empty except for a capture,
      where a piece of the other side stands there; an en-passant move
      takes a pawn of the other side on a third square; a promotion moves
      a pawn; castling moves the side's rook from a third square onto an
      empty fourth one. */
  predicate MakeLegal(p: Position, from: Square, to: Square, flag: MoveFlag)
  {
    var c := p.state.active;
    && MakeDefined(p, from, to, flag)
    && from != to
    && p.tiles[from].value.color == c
    && (if IsCaptureFlag(flag) && flag != EnPassant then p.tiles[to].value.color == Other(c) else p.tiles[to].None?)
    && (flag == EnPassant ==>
          var x := p.state.enPassant.value.toCapture;
          x != from && x != to && p.tiles[x] == Some(Tile(Pawn, Other(c))))
    && (IsPromotionFlag(flag) ==> p.tiles[from].value.piece == Pawn)
    && (IsCastleFlag(flag) ==>
          var (rookFrom, rookTo) := RookSquares(to);
          && rookFrom != from && rookTo != from && rookFrom != to && rookTo != to
          && p.tiles[rookFrom] == Some(Tile(Rook, c)) && p.tiles[rookTo].None?)
  }

  /** The castling rook's toggles on the tiles. */
  function CastleTiles(t: Tiles, c: Color, to: Square): Tiles
    requires IsCastleTarget(to)
  {
    var (rookFrom, rookTo) := RookSquares(to);
    ToggleTile(ToggleTile(t, c, Rook, rookFrom), c, Rook, rookTo)
  }

  /** What `make` does to the tiles, for the mover `c`. */
  function MakeTiles(t: Tiles, c: Color, ep: Option<EnPassantTarget>, from: Square, to: Square, flag: MoveFlag): Tiles
    requires t[from].Some?
    requires flag == EnPassant ==> ep.Some?
    requires IsCaptureFlag(flag) && flag != EnPassant ==> t[to].Some?
    requires IsCastleFlag(flag) ==> IsCastleTarget(to)
  {
    var t1 := if flag == EnPassant then ToggleTile(t, Other(c), Pawn, ep.value.toCapture) else t;
    PieceTiles(t1, c, t[from].value.piece, from, to, flag)
  }

  /** What the second half of `make` does to the tiles. */
  function PieceTiles(t: Tiles, c: Color, piece: Piece, from: Square, to: Square, flag: MoveFlag): Tiles
    requires IsCaptureFlag(flag) && flag != EnPassant ==> t[to].Some?
    requires IsCastleFlag(flag) ==> IsCastleTarget(to)
  {
    PlaceTiles(if IsCaptureFlag(flag) && flag != EnPassant then ToggleTile(t, Other(c), t[to].value.piece, to) else t,
               c, piece, from, to, flag)
  }

  /** What `PlacePieces` does to the tiles. */
  function PlaceTiles(t: Tiles, c: Color, piece: Piece, from: Square, to: Square, flag: MoveFlag): Tiles
    requires IsCastleFlag(flag) ==> IsCastleTarget(to)
  {
    var t3 := if !IsPromotionFlag(flag) then ToggleTile(ToggleTile(t, c, piece, from), c, piece, to) else t;
    if IsCastleFlag(flag) then CastleTiles(t3, c, to)
    else if IsPromotionFlag(flag) then ToggleTile(ToggleTile(t3, c, piece, from), c, PromotionPiece(flag), to)
    else t3
  }

  /** What the toggles of `unmake` do to the tiles, for the mover `c` and
      the recorded captured piece. */
  function UnmakePieceTiles(t: Tiles, c: Color, captured: Piece, from: Square, to: Square, flag: MoveFlag): Tiles
    requires t[to].Some?
    requires IsCastleFlag(flag) ==> IsCastleTarget(to)
  {
    var piece := t[to].value.piece;
    var t1 := if IsCastleFlag(flag) then CastleTiles(t, c, to)
              else if IsPromotionFlag(flag) then ToggleTile(ToggleTile(t, c, Pawn, from), c, PromotionPiece(flag), to)
              else t;
    var t2 := if !IsPromotionFlag(flag) then ToggleTile(ToggleTile(t1, c, piece, from), c, piece, to) else t1;
    if IsCaptureFlag(flag) && flag != EnPassant then ToggleTile(t2, Other(c), captured, to) else t2
  }

  /** What `unmake` does to the tiles when a state is saved, for the mover
      `c`, the recorded captured piece and the saved en-passant target. */
  function UnmakeTiles(t: Tiles, c: Color, captured: Piece, ep: Option<EnPassantTarget>,
                       from: Square, to: Square, flag: MoveFlag): Tiles
    requires t[to].Some?
    requires IsCastleFlag(flag) ==> IsCastleTarget(to)
    requires flag == EnPassant ==> ep.Some?
  {
    var t3 := UnmakePieceTiles(t, c, captured, from, to, flag);
    if flag == EnPassant then ToggleTile(t3, Other(c), Pawn, ep.value.toCapture) else t3
  }

  /** Two positions with the same tiles, saved states, side to move and
      recorded capture. */
  predicate SameBoard(p: Position, q: Position)
  {
    q.tiles == p.tiles && q.history == p.history && q.state.active == p.state.active
    && q.state.capturedPiece == p.state.capturedPiece
  }

  /** The steps that only touch the game state's other fields. */
  lemma StateSteps(p: Position, pawnMoved: bool, piece: Piece, s: Square)
    ensures SameBoard(p, ClearEnPassant(p)) && SameBoard(p, CountMove(p, pawnMoved))
    ensures DoublePushInRange(p.state.active, s) ==> SameBoard(p, SetEnPassant(p, s))
    ensures SameBoard(p, CornerRights(p, piece, s)) && SameBoard(p, MoverRights(p, piece, s))
  {
    RemoveCastleSame(p, White, true);
    RemoveCastleSame(p, White, false);
    RemoveCastleSame(p, Black, true);
    RemoveCastleSame(p, Black, false);
    RemoveCastleSame(RemoveCastle(p, p.state.active, false), p.state.active, true);
  }

  lemma RemoveCastleSame(p: Position, color: Color, short: bool)
    ensures SameBoard(p, RemoveCastle(p, color, short))
  {
  }

  lemma BookkeepingParts(p: Position, from: Square, to: Square, flag: MoveFlag)
    requires MakeDefined(p, from, to, flag)
    ensures var q := MakeBookkeeping(p, from, to, flag);
      && q.tiles == (if flag == EnPassant then ToggleTile(p.tiles, Other(p.state.active), Pawn, p.state.enPassant.value.toCapture) else p.tiles)
      && q.history == p.history + [p.state]
      && q.state.active == p.state.active
      && q.state.capturedPiece == p.state.capturedPiece
  {
    var piece := p.tiles[from].value.piece;
    var p1 := p.(history := p.history + [p.state]);
    var p2 := if flag == EnPassant then TogglePos(p1, Other(p1.state.active), Pawn, p1.state.enPassant.value.toCapture) else p1;
    StateSteps(p2, piece == Pawn, piece, to);
    var p3 := ClearEnPassant(p2);
    StateSteps(p3, piece == Pawn, piece, to);
    var p4 := CountMove(p3, piece == Pawn);
    StateSteps(p4, piece == Pawn, piece, to);
  }

  lemma PiecesParts(p: Position, piece: Piece, from: Square, to: Square, flag: MoveFlag)
    requires piece != NoPiece
    requires IsCaptureFlag(flag) && flag != EnPassant ==> p.tiles[to].Some? && p.tiles[to].value.piece != NoPiece
    requires IsCastleFlag(flag) ==> IsCastleTarget(to)
    ensures var q := MakePieces(p, piece, from, to, flag);
      && q.tiles == PieceTiles(p.tiles, p.state.active, piece, from, to, flag)
      && q.history == p.history
      && q.state.active == p.state.active
      && q.state.capturedPiece == (if IsCaptureFlag(flag) && flag != EnPassant then p.tiles[to].value.piece else p.state.capturedPiece)
  {
    var p6 := if IsCaptureFlag(flag) && flag != EnPassant then TakePiece(p, to) else p;
    if IsCaptureFlag(flag) && flag != EnPassant {
      var captured := p.tiles[to].value.piece;
      var t := TogglePos(p, Other(p.state.active), captured, to);
      StateSteps(t.(state := t.state.(capturedPiece := captured, halfmoves := 0)), false, captured, to);
    }
    PlaceParts(p6, piece, from, to, flag);
  }

  lemma PlaceParts(p: Position, piece: Piece, from: Square, to: Square, flag: MoveFlag)
    requires piece != NoPiece
    requires IsCastleFlag(flag) ==> IsCastleTarget(to)
    ensures var q := PlacePieces(p, piece, from, to, flag);
      && q.tiles == PlaceTiles(p.tiles, p.state.active, piece, from, to, flag)
      && q.history == p.history
      && q.state.active == p.state.active
      && q.state.capturedPiece == p.state.capturedPiece
  {
    var p7 := if !IsPromotionFlag(flag) then MovePiece(p, piece, from, to) else p;
    StateSteps(p7, false, piece, from);
  }

  /** `make` moves the tiles as `MakeTiles` says, saves the state it
      started from, records a captured piece and passes the move. */
  lemma MakeParts(p: Position, from: Square, to: Square, flag: MoveFlag, analyse: Analyser)
    requires MakeDefined(p, from, to, flag)
    ensures var q := MakePosition(p, from, to, flag, analyse);
      && q.tiles == MakeTiles(p.tiles, p.state.active, p.state.enPassant, from, to, flag)
      && q.history == p.history + [p.state]
      && q.state.active == Other(p.state.active)
      && q.state.capturedPiece == (if IsCaptureFlag(flag) && flag != EnPassant then p.tiles[to].value.piece else p.state.capturedPiece)
  {
    var b := MakeBookkeeping(p, from, to, flag);
    BookkeepingParts(p, from, to, flag);
    PiecesParts(b, p.tiles[from].value.piece, from, to, flag);
  }

  /** With a saved state, `unmake` moves the tiles as `UnmakeTiles` says
      and pops that state. */
  lemma UnmakeParts(q: Position, from: Square, to: Square, flag: MoveFlag)
    requires UnmakeDefined(q, from, to, flag) && |q.history| > 0
    ensures var r := UnmakePosition(q, from, to, flag); var saved := q.history[|q.history| - 1];
      && r.tiles == UnmakeTiles(q.tiles, Other(q.state.active), q.state.capturedPiece, saved.enPassant, from, to, flag)
      && r.state == saved
      && r.history == q.history[..|q.history| - 1]
  {
    UnmakePiecesParts(SwapActive(q), from, to, flag);
  }

  lemma UnmakePiecesParts(p: Position, from: Square, to: Square, flag: MoveFlag)
    requires p.tiles[to].Some? && p.tiles[to].value.piece != NoPiece
    requires IsCastleFlag(flag) ==> IsCastleTarget(to)
    requires IsCaptureFlag(flag) && flag != EnPassant ==> p.state.capturedPiece != NoPiece
    ensures var q := UnmakePieces(p, from, to, flag);
      && q.tiles == UnmakePieceTiles(p.tiles, p.state.active, p.state.capturedPiece, from, to, flag)
      && q.history == p.history && q.state.active == p.state.active
  {
  }

  /** The tiles fit the move (the tile part of `MakeLegal`). */
  predicate TilesLegal(t: Tiles, c: Color, ep: Option<EnPassantTarget>, from: Square, to: Square, flag: MoveFlag)
  {
    && t[from].Some?
    && (flag == EnPassant ==>
          ep.Some? && var x := ep.value.toCapture;
          x != from && x != to && t[x] == Some(Tile(Pawn, Other(c))))
    && PiecesLegal(t, c, t[from].value.piece, from, to, flag)
  }

  /** The tiles fit the second half of the move: `piece` of the mover on
      `from`, a piece of the other side on `to` for a capture other than
      en passant and an empty `to` otherwise, a pawn for a promotion, and
      the mover's rook ready to castle. */
  predicate PiecesLegal(t: Tiles, c: Color, piece: Piece, from: Square, to: Square, flag: MoveFlag)
  {
    && piece != NoPiece && t[from] == Some(Tile(piece, c))
    && from != to
    && (if IsCaptureFlag(flag) && flag != EnPassant
        then t[to].Some? && t[to].value.color == Other(c) && t[to].value.piece != NoPiece
        else t[to].None?)
    && (IsPromotionFlag(flag) ==> piece == Pawn)
    && (IsCastleFlag(flag) ==>
          IsCastleTarget(to) &&
          var (rookFrom, rookTo) := RookSquares(to);
          && rookFrom != from && rookTo != from && rookFrom != to && rookTo != to
          && t[rookFrom] == Some(Tile(Rook, c)) && t[rookTo].None?)
  }

  lemma MakeLegalTiles(p: Position, from: Square, to: Square, flag: MoveFlag)
    requires MakeLegal(p, from, to, flag)
    ensures TilesLegal(p.tiles, p.state.active, p.state.enPassant, from, to, flag)
  {
  }

  /** Taking back the tiles of a fitting move restores them; the piece
      recorded as captured matters only for a capture, where it is the
      piece taken. */
  lemma UnmakeMakeTiles(t: Tiles, c: Color, ep: Option<EnPassantTarget>, from: Square, to: Square, flag: MoveFlag, captured: Piece)
    requires TilesLegal(t, c, ep, from, to, flag)
    requires IsCaptureFlag(flag) && flag != EnPassant ==> captured == t[to].value.piece
    ensures MakeTiles(t, c, ep, from, to, flag)[to].Some?
    ensures UnmakeTiles(MakeTiles(t, c, ep, from, to, flag), c, captured, ep, from, to, flag) == t
  {
    if IsCastleFlag(flag) {
      UnmakeMakeCastle(t, c, ep, from, to, flag, captured);
    } else if IsPromotionFlag(flag) {
      UnmakeMakePromotion(t, c, ep, from, to, flag, captured);
    } else if flag == EnPassant {
      UnmakeMakeEnPassant(t, c, ep, from, to, captured);
    } else {
      UnmakeMakePlain(t, c, ep, from, to, flag, captured);
    }
  }

  lemma UnmakeMakePlain(t: Tiles, c: Color, ep: Option<EnPassantTarget>, from: Square, to: Square, flag: MoveFlag, captured: Piece)
    requires TilesLegal(t, c, ep, from, to, flag)
    requires flag == Quiet || flag == DoublePawn || flag == Capture
    requires flag == Capture ==> captured == t[to].value.piece
    ensures MakeTiles(t, c, ep, from, to, flag)[to].Some?
    ensures UnmakeTiles(MakeTiles(t, c, ep, from, to, flag), c, captured, ep, from, to, flag) == t
  {
    var piece := t[from].value.piece;
    var t2 := if flag == Capture then ToggleTile(t, Other(c), t[to].value.piece, to) else t;
    assert t2 == t[to := None];
    var u := ToggleTile(ToggleTile(t2, c, piece, from), c, piece, to);
    assert u == t[to := None][from := None][to := Some(Tile(piece, c))];
    assert MakeTiles(t, c, ep, from, to, flag) == u;
    var v := ToggleTile(ToggleTile(u, c, piece, from), c, piece, to);
    assert v == t[to := None];
  }

  lemma UnmakeMakeEnPassant(t: Tiles, c: Color, ep: Option<EnPassantTarget>, from: Square, to: Square, captured: Piece)
    requires TilesLegal(t, c, ep, from, to, EnPassant)
    ensures MakeTiles(t, c, ep, from, to, EnPassant)[to].Some?
    ensures UnmakeTiles(MakeTiles(t, c, ep, from, to, EnPassant), c, captured, ep, from, to, EnPassant) == t
  {
    var piece := t[from].value.piece;
    var x := ep.value.toCapture;
    var t1 := ToggleTile(t, Other(c), Pawn, x);
    assert t1 == t[x := None];
    var u := ToggleTile(ToggleTile(t1, c, piece, from), c, piece, to);
    assert u == t[x := None][from := None][to := Some(Tile(piece, c))];
    assert MakeTiles(t, c, ep, from, to, EnPassant) == u;
    var v := ToggleTile(ToggleTile(u, c, piece, from), c, piece, to);
    assert v == t[x := None];
  }

  lemma UnmakeMakeCastle(t: Tiles, c: Color, ep: Option<EnPassantTarget>, from: Square, to: Square, flag: MoveFlag, captured: Piece)
    requires TilesLegal(t, c, ep, from, to, flag) && IsCastleFlag(flag)
    ensures MakeTiles(t, c, ep, from, to, flag)[to].Some?
    ensures UnmakeTiles(MakeTiles(t, c, ep, from, to, flag), c, captured, ep, from, to, flag) == t
  {
    var piece := t[from].value.piece;
    var (rookFrom, rookTo) := RookSquares(to);
    var t3 := ToggleTile(ToggleTile(t, c, piece, from), c, piece, to);
    assert t3 == t[from := None][to := Some(Tile(piece, c))];
    var u := CastleTiles(t3, c, to);
    assert u == t3[rookFrom := None][rookTo := Some(Tile(Rook, c))];
    assert MakeTiles(t, c, ep, from, to, flag) == u;
    var v1 := CastleTiles(u, c, to);
    assert v1 == t3;
    var v := ToggleTile(ToggleTile(v1, c, piece, from), c, piece, to);
    assert v == t;
  }

  lemma UnmakeMakePromotion(t: Tiles, c: Color, ep: Option<EnPassantTarget>, from: Square, to: Square, flag: MoveFlag, captured: Piece)
    requires TilesLegal(t, c, ep, from, to, flag) && IsPromotionFlag(flag)
    requires IsCaptureFlag(flag) ==> captured == t[to].value.piece
    ensures MakeTiles(t, c, ep, from, to, flag)[to].Some?
    ensures UnmakeTiles(MakeTiles(t, c, ep, from, to, flag), c, captured, ep, from, to, flag) == t
  {
    var promoted := PromotionPiece(flag);
    var t2 := if IsCaptureFlag(flag) then ToggleTile(t, Other(c), t[to].value.piece, to) else t;
    assert t2 == t[to := None];
    var u := ToggleTile(ToggleTile(t2, c, Pawn, from), c, promoted, to);
    assert u == t[to := None][from := None][to := Some(Tile(promoted, c))];
    assert MakeTiles(t, c, ep, from, to, flag) == u;
    var v := ToggleTile(ToggleTile(u, c, Pawn, from), c, promoted, to);
    assert v == t[to := None];
  }

  /** `unmake` takes back a fitting `make` exactly: tiles, game state and
      saved states are all as before. */
  lemma UnmakeMake(p: Position, from: Square, to: Square, flag: MoveFlag, analyse: Analyser)
    requires MakeLegal(p, from, to, flag)
    ensures UnmakeDefined(MakePosition(p, from, to, flag, analyse), from, to, flag)
    ensures UnmakePosition(MakePosition(p, from, to, flag, analyse), from, to, flag) == p
  {
    MakeParts(p, from, to, flag, analyse);
    UnmakeAfterMake(p, MakePosition(p, from, to, flag, analyse), from, to, flag);
  }

  /** The same, for any position `q` that agrees with `make`'s result on
      what `unmake` reads. */
  lemma UnmakeAfterMake(p: Position, q: Position, from: Square, to: Square, flag: MoveFlag)
    requires MakeLegal(p, from, to, flag)
    requires q.tiles == MakeTiles(p.tiles, p.state.active, p.state.enPassant, from, to, flag)
    requires q.history == p.history + [p.state]
    requires q.state.active == Other(p.state.active)
    requires q.state.capturedPiece == (if IsCaptureFlag(flag) && flag != EnPassant then p.tiles[to].value.piece else p.state.capturedPiece)
    ensures UnmakeDefined(q, from, to, flag)
    ensures UnmakePosition(q, from, to, flag) == p
  {
    var c := p.state.active;
    MakeLegalTiles(p, from, to, flag);
    UnmakeMakeTiles(p.tiles, c, p.state.enPassant, from, to, flag, q.state.capturedPiece);
    OtherInvolution(c);
    assert q.history[|q.history| - 1] == p.state;
    UnmakeParts(q, from, to, flag);
    assert q.history[..|q.history| - 1] == p.history;
  }

  /** The first half of a fitting `make` keeps the hash in step. */
  lemma BookkeepingSynced(p: Position, from: Square, to: Square, flag: MoveFlag)
    requires MakeLegal(p, from, to, flag) && Synced(p)
    ensures Synced(MakeBookkeeping(p, from, to, flag))
  {
    var piece := p.tiles[from].value.piece;
    var p1 := p.(history := p.history + [p.state]);
    assert Synced(p1);
    var p2 := if flag == EnPassant then TogglePos(p1, Other(p1.state.active), Pawn, p1.state.enPassant.value.toCapture) else p1;
    if flag == EnPassant {
      ToggleSynced(p1, Other(p1.state.active), Pawn, p1.state.enPassant.value.toCapture);
    }
    var p3 := ClearEnPassant(p2);
    ClearEnPassantSynced(p2);
    var p4 := CountMove(p3, piece == Pawn);
    assert Synced(p4);
    if flag == DoublePawn {
      SetEnPassantSynced(p4, to);
    }
  }

  /** After the first half of a fitting `make`, the second half finds the
      tiles it needs. */
  lemma BookkeepingLegal(p: Position, from: Square, to: Square, flag: MoveFlag)
    requires MakeLegal(p, from, to, flag)
    ensures PiecesLegal(MakeBookkeeping(p, from, to, flag).tiles, p.state.active, p.tiles[from].value.piece, from, to, flag)
  {
    BookkeepingParts(p, from, to, flag);
    MakeLegalTiles(p, from, to, flag);
  }

  /** The second half of `make` keeps the hash in step on fitting tiles. */
  lemma PiecesSynced(p: Position, piece: Piece, from: Square, to: Square, flag: MoveFlag)
    requires PiecesLegal(p.tiles, p.state.active, piece, from, to, flag) && Synced(p)
    ensures Synced(MakePieces(p, piece, from, to, flag))
  {
    if IsCastleFlag(flag) {
      PiecesSyncedCastle(p, piece, from, to, flag);
    } else if IsPromotionFlag(flag) {
      PiecesSyncedPromotion(p, piece, from, to, flag);
    } else {
      PiecesSyncedPlain(p, piece, from, to, flag);
    }
  }

  /** The capture, if any, and the move of the piece. */
  lemma TakeAndMoveSynced(p: Position, piece: Piece, from: Square, to: Square, flag: MoveFlag)
    requires PiecesLegal(p.tiles, p.state.active, piece, from, to, flag) && Synced(p) && !IsPromotionFlag(flag)
    ensures var p6 := if IsCaptureFlag(flag) && flag != EnPassant then TakePiece(p, to) else p;
      var p7 := MovePiece(p6, piece, from, to);
      && Synced(p7) && p7.state.active == p.state.active
      && p7.tiles == p.tiles[to := None][from := None][to := Some(Tile(piece, p.state.active))]
  {
    var p6 := if IsCaptureFlag(flag) && flag != EnPassant then TakePiece(p, to) else p;
    if IsCaptureFlag(flag) && flag != EnPassant {
      TakePieceSynced(p, to);
    } else {
      assert p.tiles[to := None] == p.tiles;
    }
    MovePieceSynced(p6, piece, from, to);
  }

  lemma PiecesSyncedPlain(p: Position, piece: Piece, from: Square, to: Square, flag: MoveFlag)
    requires PiecesLegal(p.tiles, p.state.active, piece, from, to, flag) && Synced(p)
    requires !IsCastleFlag(flag) && !IsPromotionFlag(flag)
    ensures Synced(MakePieces(p, piece, from, to, flag))
  {
    TakeAndMoveSynced(p, piece, from, to, flag);
    var p6 := if IsCaptureFlag(flag) && flag != EnPassant then TakePiece(p, to) else p;
    MoverRightsSynced(MovePiece(p6, piece, from, to), piece, from);
  }

  lemma PiecesSyncedCastle(p: Position, piece: Piece, from: Square, to: Square, flag: MoveFlag)
    requires PiecesLegal(p.tiles, p.state.active, piece, from, to, flag) && Synced(p) && IsCastleFlag(flag)
    ensures Synced(MakePieces(p, piece, from, to, flag))
  {
    TakeAndMoveSynced(p, piece, from, to, flag);
    var p7 := MovePiece(p, piece, from, to);
    var p8 := MoverRights(p7, piece, from);
    MoverRightsSynced(p7, piece, from);
    StateSteps(p7, false, piece, from);
    var (rookFrom, rookTo) := RookSquares(to);
    assert p8.tiles[rookFrom] == p.tiles[rookFrom] && p8.tiles[rookTo] == p.tiles[rookTo];
    CastleRookSynced(p8, to);
  }

  lemma PiecesSyncedPromotion(p: Position, piece: Piece, from: Square, to: Square, flag: MoveFlag)
    requires PiecesLegal(p.tiles, p.state.active, piece, from, to, flag) && Synced(p) && IsPromotionFlag(flag)
    ensures Synced(MakePieces(p, piece, from, to, flag))
  {
    var p6 := if IsCaptureFlag(flag) then TakePiece(p, to) else p;
    if IsCaptureFlag(flag) {
      TakePieceSynced(p, to);
    }
    MakePiecesPromotion(p, piece, from, to, flag);
    PromoteSynced(p6, piece, PromotionPiece(flag), from, to);
  }

  /** A promotion's pieces: the capture, if any, then the pawn replaced. */
  lemma MakePiecesPromotion(p: Position, piece: Piece, from: Square, to: Square, flag: MoveFlag)
    requires PiecesLegal(p.tiles, p.state.active, piece, from, to, flag) && IsPromotionFlag(flag)
    ensures var p6 := if IsCaptureFlag(flag) then TakePiece(p, to) else p;
      MakePieces(p, piece, from, to, flag) == Promote(p6, piece, PromotionPiece(flag), from, to)
  {
    var p6 := if IsCaptureFlag(flag) then TakePiece(p, to) else p;
    assert MoverRights(p6, piece, from) == p6;
  }

  lemma TakePieceSynced(p: Position, to: Square)
    requires p.tiles[to].Some? && p.tiles[to].value.piece != NoPiece && p.tiles[to].value.color == Other(p.state.active)
    requires Synced(p)
    ensures var q := TakePiece(p, to);
      Synced(q) && q.tiles == p.tiles[to := None] && q.state.active == p.state.active
  {
    var captured := p.tiles[to].value.piece;
    var q := TogglePos(p, Other(p.state.active), captured, to);
    ToggleSynced(p, Other(p.state.active), captured, to);
    var r := q.(state := q.state.(capturedPiece := captured, halfmoves := 0));
    assert Synced(r);
    CornerRightsSynced(r, captured, to);
    StateSteps(r, false, captured, to);
  }

  lemma MovePieceSynced(p: Position, piece: Piece, from: Square, to: Square)
    requires piece != NoPiece && from != to
    requires p.tiles[from] == Some(Tile(piece, p.state.active)) && p.tiles[to].None? && Synced(p)
    ensures var q := MovePiece(p, piece, from, to);
      && Synced(q) && q.tiles == p.tiles[from := None][to := Some(Tile(piece, p.state.active))]
      && q.state.active == p.state.active
  {
    var c := p.state.active;
    var m := TogglePos(p, c, piece, from);
    ToggleSynced(p, c, piece, from);
    ToggleSynced(m, c, piece, to);
  }

  lemma CastleRookSynced(p: Position, to: Square)
    requires IsCastleTarget(to) && Synced(p)
    requires var (rookFrom, rookTo) := RookSquares(to);
      p.tiles[rookFrom] == Some(Tile(Rook, p.state.active)) && p.tiles[rookTo].None?
    ensures Synced(CastleRook(p, to))
  {
    var c := p.state.active;
    var (rookFrom, rookTo) := RookSquares(to);
    var m := TogglePos(p, c, Rook, rookFrom);
    ToggleSynced(p, c, Rook, rookFrom);
    ToggleSynced(m, c, Rook, rookTo);
  }

  lemma PromoteSynced(p: Position, pawn: Piece, promoted: Piece, from: Square, to: Square)
    requires pawn != NoPiece && promoted != NoPiece && from != to
    requires p.tiles[from] == Some(Tile(pawn, p.state.active)) && p.tiles[to].None? && Synced(p)
    ensures Synced(Promote(p, pawn, promoted, from, to))
  {
    var c := p.state.active;
    var m := TogglePos(p, c, pawn, from);
    ToggleSynced(p, c, pawn, from);
    ToggleSynced(m, c, promoted, to);
  }

  lemma CornerRightsSynced(p: Position, piece: Piece, s: Square)
    requires Synced(p)
    ensures Synced(CornerRights(p, piece, s))
  {
    if piece == Rook {
      if s == A1 { RemoveCastleSynced(p, White, false); }
      else if s == H1 { RemoveCastleSynced(p, White, true); }
      else if s == A8 { RemoveCastleSynced(p, Black, false); }
      else if s == H8 { RemoveCastleSynced(p, Black, true); }
    }
  }

  lemma MoverRightsSynced(p: Position, piece: Piece, from: Square)
    requires Synced(p)
    ensures Synced(MoverRights(p, piece, from))
  {
    if piece == King {
      var c := p.state.active;
      RemoveCastleSynced(p, c, false);
      RemoveCastleSpec(p, c, false);
      RemoveCastleSynced(RemoveCastle(p, c, false), c, true);
    } else {
      CornerRightsSynced(p, piece, from);
    }
  }

  /** A fitting `make` keeps the incremental hash equal to the hash of the
      new position computed from scratch. */
  lemma MakeSynced(p: Position, from: Square, to: Square, flag: MoveFlag, analyse: Analyser)
    requires MakeLegal(p, from, to, flag) && Synced(p)
    ensures Synced(MakePosition(p, from, to, flag, analyse))
  {
    var piece := p.tiles[from].value.piece;
    var b := MakeBookkeeping(p, from, to, flag);
    BookkeepingSynced(p, from, to, flag);
    BookkeepingLegal(p, from, to, flag);
    BookkeepingParts(p, from, to, flag);
    PiecesSynced(b, piece, from, to, flag);
    var m := MakePieces(b, piece, from, to, flag);
    SwapActiveSynced(m);
  }

  // ----- what make does to the game state -----

  /** Whether castling right `i` (numbered as `RightIndex` numbers them)
      is held. */
  predicate HasRight(st: GameState, i: nat)
  {
    if i == 0 then st.whiteKingside else if i == 1 then st.whiteQueenside
    else if i == 2 then st.blackKingside else if i == 3 then st.blackQueenside else false
  }

  lemma HasRightIsRightsOf(st: GameState, i: nat)
    ensures HasRight(st, i) <==> i in RightsOf(st)
  {
  }

  /** The side a castling right belongs to. */
  function RightColor(i: nat): Color
  {
    if i < 2 then White else Black
  }

  /** The corner the rook of castling right `i` starts on. */
  function RookHome(i: nat): Square
  {
    if i == 0 then H1 else if i == 1 then A1 else if i == 2 then H8 else A8
  }

  /** Castling right `i` is lost by a move of `piece` of colour `c` from
      `from` that takes `taken` on `to` (`NoPiece` when nothing is taken
      there): its king moves, a rook leaves its rook's corner, or a rook
      is taken on that corner. */
  predicate LosesRight(i: nat, c: Color, piece: Piece, from: Square, taken: Piece, to: Square)
  {
    || (piece == King && RightColor(i) == c)
    || (piece == Rook && from == RookHome(i))
    || (taken == Rook && to == RookHome(i))
  }

  /** The counters, the en-passant target and the side to move agree. */
  predicate SameClock(a: GameState, b: GameState)
  {
    a.halfmoves == b.halfmoves && a.fullmoves == b.fullmoves && a.enPassant == b.enPassant && a.active == b.active
  }

  lemma CornerRightsState(p: Position, piece: Piece, s: Square)
    ensures var q := CornerRights(p, piece, s);
      && SameClock(q.state, p.state) && q.state.capturedPiece == p.state.capturedPiece
      && forall i: nat :: HasRight(q.state, i) <==> HasRight(p.state, i) && !(piece == Rook && s == RookHome(i))
  {
    if piece == Rook {
      if s == A1 { RemoveCastleSpec(p, White, false); }
      else if s == H1 { RemoveCastleSpec(p, White, true); }
      else if s == A8 { RemoveCastleSpec(p, Black, false); }
      else if s == H8 { RemoveCastleSpec(p, Black, true); }
    }
  }

  lemma MoverRightsState(p: Position, piece: Piece, from: Square)
    ensures var q := MoverRights(p, piece, from);
      && SameClock(q.state, p.state) && q.state.capturedPiece == p.state.capturedPiece
      && forall i: nat :: HasRight(q.state, i) <==>
           HasRight(p.state, i) && !LosesRight(i, p.state.active, piece, from, NoPiece, from)
  {
    if piece == King {
      var c := p.state.active;
      RemoveCastleSpec(p, c, false);
      RemoveCastleSpec(RemoveCastle(p, c, false), c, true);
    } else {
      CornerRightsState(p, piece, from);
    }
  }

  lemma TakePieceState(p: Position, to: Square)
    requires p.tiles[to].Some? && p.tiles[to].value.piece != NoPiece
    ensures var q := TakePiece(p, to); var taken := p.tiles[to].value.piece;
      && q.state.halfmoves == 0 && q.state.capturedPiece == taken
      && q.state.fullmoves == p.state.fullmoves && q.state.enPassant == p.state.enPassant
      && q.state.active == p.state.active
      && forall i: nat :: HasRight(q.state, i) <==> HasRight(p.state, i) && !(taken == Rook && to == RookHome(i))
  {
    var taken := p.tiles[to].value.piece;
    var t := TogglePos(p, Other(p.state.active), taken, to);
    CornerRightsState(t.(state := t.state.(capturedPiece := taken, halfmoves := 0)), taken, to);
  }

  /** The four castling rights agree. */
  predicate SameRights(a: GameState, b: GameState)
  {
    && a.whiteKingside == b.whiteKingside && a.whiteQueenside == b.whiteQueenside
    && a.blackKingside == b.blackKingside && a.blackQueenside == b.blackQueenside
  }

  lemma BookkeepingState(p: Position, from: Square, to: Square, flag: MoveFlag)
    requires MakeDefined(p, from, to, flag)
    ensures var q := MakeBookkeeping(p, from, to, flag); var c := p.state.active;
      && q.state.halfmoves == (if p.tiles[from].value.piece == Pawn then 0 else IncU16(p.state.halfmoves))
      && q.state.fullmoves == (if c == Black then IncU16(p.state.fullmoves) else p.state.fullmoves)
      && q.state.enPassant == (if flag == DoublePawn then Some(EnPassantTarget(to + EnPassantOffset(c), to)) else None)
      && q.state.active == c
      && SameRights(q.state, p.state)
  {
    var piece := p.tiles[from].value.piece;
    var p1 := p.(history := p.history + [p.state]);
    var p2 := if flag == EnPassant then TogglePos(p1, Other(p1.state.active), Pawn, p1.state.enPassant.value.toCapture) else p1;
    assert SameClock(p2.state, p.state) && SameRights(p2.state, p.state);
    BookkeepingTail(p2, piece == Pawn, to, flag);
  }

  /** Clearing the target, counting the move and, for a double push,
      setting the new target. */
  lemma BookkeepingTail(p: Position, pawnMoved: bool, to: Square, flag: MoveFlag)
    requires flag == DoublePawn ==> DoublePushInRange(p.state.active, to)
    ensures var p4 := CountMove(ClearEnPassant(p), pawnMoved);
      var q := if flag == DoublePawn then SetEnPassant(p4, to) else p4; var c := p.state.active;
      && q.state.halfmoves == (if pawnMoved then 0 else IncU16(p.state.halfmoves))
      && q.state.fullmoves == (if c == Black then IncU16(p.state.fullmoves) else p.state.fullmoves)
      && q.state.enPassant == (if flag == DoublePawn then Some(EnPassantTarget(to + EnPassantOffset(c), to)) else None)
      && q.state.active == c
      && SameRights(q.state, p.state)
  {
    var p3 := ClearEnPassant(p);
    assert p3.state.enPassant.None? && SameRights(p3.state, p.state) && p3.state.halfmoves == p.state.halfmoves
      && p3.state.fullmoves == p.state.fullmoves && p3.state.active == p.state.active;
  }

  lemma PiecesState(p: Position, piece: Piece, from: Square, to: Square, flag: MoveFlag)
    requires piece != NoPiece
    requires IsCaptureFlag(flag) && flag != EnPassant ==> p.tiles[to].Some? && p.tiles[to].value.piece != NoPiece
    requires IsCastleFlag(flag) ==> IsCastleTarget(to)
    ensures var q := MakePieces(p, piece, from, to, flag);
      var capture := IsCaptureFlag(flag) && flag != EnPassant;
      var taken := if capture then p.tiles[to].value.piece else NoPiece;
      && q.state.halfmoves == (if capture then 0 else p.state.halfmoves)
      && q.state.fullmoves == p.state.fullmoves && q.state.enPassant == p.state.enPassant
      && q.state.active == p.state.active
      && forall i: nat :: HasRight(q.state, i) <==>
           HasRight(p.state, i) && !LosesRight(i, p.state.active, piece, from, taken, to)
  {
    var capture := IsCaptureFlag(flag) && flag != EnPassant;
    var p6 := if capture then TakePiece(p, to) else p;
    if capture {
      TakePieceState(p, to);
    }
    PlaceState(p6, piece, from, to, flag);
  }

  lemma PlaceState(p: Position, piece: Piece, from: Square, to: Square, flag: MoveFlag)
    requires piece != NoPiece
    requires IsCastleFlag(flag) ==> IsCastleTarget(to)
    ensures var q := PlacePieces(p, piece, from, to, flag);
      && SameClock(q.state, p.state)
      && forall i: nat :: HasRight(q.state, i) <==>
           HasRight(p.state, i) && !LosesRight(i, p.state.active, piece, from, NoPiece, from)
  {
    var p7 := if !IsPromotionFlag(flag) then MovePiece(p, piece, from, to) else p;
    PieceTogglesState(p, piece, from, to, flag);
    MoverRightsState(p7, piece, from);
    var p8 := MoverRights(p7, piece, from);
    RookOrPromotionState(p8, piece, from, to, flag);
    RightsThroughPlace(p, p7, p8, PlacePieces(p, piece, from, to, flag), piece, from);
  }

  /** The mover's rights step is the only one of `PlacePieces` that
      touches the rights or the clock. */
  lemma RightsThroughPlace(p: Position, p7: Position, p8: Position, q: Position, piece: Piece, from: Square)
    requires SameClock(p7.state, p.state) && SameRights(p7.state, p.state)
    requires SameClock(p8.state, p7.state)
    requires forall i: nat :: HasRight(p8.state, i) <==>
               HasRight(p7.state, i) && !LosesRight(i, p7.state.active, piece, from, NoPiece, from)
    requires SameClock(q.state, p8.state) && SameRights(q.state, p8.state)
    ensures SameClock(q.state, p.state)
    ensures forall i: nat :: HasRight(q.state, i) <==>
              HasRight(p.state, i) && !LosesRight(i, p.state.active, piece, from, NoPiece, from)
  {
    forall i: nat
      ensures HasRight(q.state, i) == HasRight(p8.state, i) && HasRight(p7.state, i) == HasRight(p.state, i)
    {
    }
  }

  /** The piece's toggles leave the game state as it was, except the hash. */
  lemma PieceTogglesState(p: Position, piece: Piece, from: Square, to: Square, flag: MoveFlag)
    requires piece != NoPiece
    ensures var q := if !IsPromotionFlag(flag) then MovePiece(p, piece, from, to) else p;
      SameClock(q.state, p.state) && SameRights(q.state, p.state)
  {
  }

  lemma RookOrPromotionState(p: Position, piece: Piece, from: Square, to: Square, flag: MoveFlag)
    requires piece != NoPiece
    requires IsCastleFlag(flag) ==> IsCastleTarget(to)
    ensures var q := if IsCastleFlag(flag) then CastleRook(p, to)
                     else if IsPromotionFlag(flag) then Promote(p, piece, PromotionPiece(flag), from, to)
                     else p;
      SameClock(q.state, p.state) && SameRights(q.state, p.state)
  {
  }

  /** `make` on the game state: the side to move flips; the halfmove clock
      restarts on a pawn move or a capture and counts on otherwise; the
      fullmove number counts after Black's move; a double push, and only
      a double push, leaves the square it passed over as the en-passant
      target; a castling right survives exactly when neither its king nor
      its rook's corner was involved; and the pins, checkers and attacked
      squares are those of the new tiles for the new side to move. */
  lemma MakeRules(p: Position, from: Square, to: Square, flag: MoveFlag, analyse: Analyser)
    requires MakeDefined(p, from, to, flag)
    ensures var q := MakePosition(p, from, to, flag, analyse);
      var c := p.state.active; var piece := p.tiles[from].value.piece;
      var capture := IsCaptureFlag(flag) && flag != EnPassant;
      var taken := if capture then p.tiles[to].value.piece else NoPiece;
      && q.state.active == Other(c)
      && q.state.halfmoves == (if piece == Pawn || capture then 0 else IncU16(p.state.halfmoves))
      && q.state.fullmoves == (if c == Black then IncU16(p.state.fullmoves) else p.state.fullmoves)
      && q.state.enPassant == (if flag == DoublePawn then Some(EnPassantTarget(to + EnPassantOffset(c), to)) else None)
      && (forall i: nat :: HasRight(q.state, i) <==> HasRight(p.state, i) && !LosesRight(i, c, piece, from, taken, to))
      && q.state.pinned == analyse(q.tiles, Other(c)).pinned
      && q.state.checkers == analyse(q.tiles, Other(c)).checkers
      && q.state.attacked == analyse(q.tiles, Other(c)).attacked
  {
    var piece := p.tiles[from].value.piece;
    var capture := IsCaptureFlag(flag) && flag != EnPassant;
    var b := MakeBookkeeping(p, from, to, flag);
    BookkeepingState(p, from, to, flag);
    BookkeepingParts(p, from, to, flag);
    PiecesState(b, piece, from, to, flag);
    var m := MakePieces(b, piece, from, to, flag);
    RulesThroughStages(p, b, m, MakePosition(p, from, to, flag, analyse), piece,
                       if capture then p.tiles[to].value.piece else NoPiece, from, to, flag, analyse);
  }

  /** The rules of `make` from the facts about its two stages, with the
      stages as plain values. */
  lemma RulesThroughStages(p: Position, b: Position, m: Position, q: Position, piece: Piece, taken: Piece,
                           from: Square, to: Square, flag: MoveFlag, analyse: Analyser)
    requires flag == DoublePawn ==> DoublePushInRange(p.state.active, to)
    requires var c := p.state.active;
      && b.state.halfmoves == (if piece == Pawn then 0 else IncU16(p.state.halfmoves))
      && b.state.fullmoves == (if c == Black then IncU16(p.state.fullmoves) else p.state.fullmoves)
      && b.state.enPassant == (if flag == DoublePawn then Some(EnPassantTarget(to + EnPassantOffset(c), to)) else None)
      && b.state.active == c && SameRights(b.state, p.state)
    requires var capture := IsCaptureFlag(flag) && flag != EnPassant;
      && m.state.halfmoves == (if capture then 0 else b.state.halfmoves)
      && m.state.fullmoves == b.state.fullmoves && m.state.enPassant == b.state.enPassant
      && m.state.active == b.state.active
      && (forall i: nat :: HasRight(m.state, i) <==> HasRight(b.state, i) && !LosesRight(i, b.state.active, piece, from, taken, to))
    requires q == Analyse(SwapActive(m), analyse)
    ensures var c := p.state.active;
      var capture := IsCaptureFlag(flag) && flag != EnPassant;
      && q.state.active == Other(c)
      && q.state.halfmoves == (if piece == Pawn || capture then 0 else IncU16(p.state.halfmoves))
      && q.state.fullmoves == (if c == Black then IncU16(p.state.fullmoves) else p.state.fullmoves)
      && q.state.enPassant == (if flag == DoublePawn then Some(EnPassantTarget(to + EnPassantOffset(c), to)) else None)
      && (forall i: nat :: HasRight(q.state, i) <==> HasRight(p.state, i) && !LosesRight(i, c, piece, from, taken, to))
      && q.state.pinned == analyse(q.tiles, Other(c)).pinned
      && q.state.checkers == analyse(q.tiles, Other(c)).checkers
      && q.state.attacked == analyse(q.tiles, Other(c)).attacked
  {
    forall i: nat
      ensures HasRight(q.state, i) == HasRight(m.state, i) && HasRight(b.state, i) == HasRight(p.state, i)
    {
    }
  }

  // ----- null moves -----

  /** `make_null`: the state is saved, the en-passant target cleared, the
      fullmove number counted after Black, and the side to move flipped. */
  function MakeNullPosition(p: Position, analyse: Analyser): Position
  {
    var p1 := ClearEnPassant(p.(history := p.history + [p.state]));
    var p2 := p1.(state := p1.state.(fullmoves := if p1.state.active == Black then IncU16(p1.state.fullmoves) else p1.state.fullmoves));
    Analyse(SwapActive(p2), analyse)
  }

  /** `unmake_null`: the saved state, if any, replaces the current one. */
  function UnmakeNullPosition(p: Position): Position
  {
    if |p.history| == 0 then p
    else p.(state := p.history[|p.history| - 1], history := p.history[..|p.history| - 1])
  }

  /** A null move keeps the tiles and changes neither the halfmove clock
      nor the rights; it clears the en-passant target and passes the move. */
  lemma MakeNullSpec(p: Position, analyse: Analyser)
    ensures var q := MakeNullPosition(p, analyse);
      && q.tiles == p.tiles && q.history == p.history + [p.state]
      && q.state.active == Other(p.state.active) && q.state.enPassant.None?
      && q.state.halfmoves == p.state.halfmoves && RightsOf(q.state) == RightsOf(p.state)
  {
  }

  /** `unmake_null` takes a null move back exactly. */
  lemma UnmakeNullMakeNull(p: Position, analyse: Analyser)
    ensures UnmakeNullPosition(MakeNullPosition(p, analyse)) == p
  {
    var q := MakeNullPosition(p, analyse);
    assert q.history == p.history + [p.state];
    assert q.history[..|q.history| - 1] == p.history;
  }

  /** A null move keeps the hash in step. */
  lemma MakeNullSynced(p: Position, analyse: Analyser)
    requires Synced(p)
    ensures Synced(MakeNullPosition(p, analyse))
  {
    var p0 := p.(history := p.history + [p.state]);
    var p1 := ClearEnPassant(p0);
    ClearEnPassantSynced(p0);
    var p2 := p1.(state := p1.state.(fullmoves := if p1.state.active == Black then IncU16(p1.state.fullmoves) else p1.state.fullmoves));
    assert Synced(p2);
    SwapActiveSynced(p2);
  }

  // ----- threefold repetition -----

  /** How many saved states carry hash `h`. */
  function HashCount(history: seq<GameState>, h: ZobristHash): (n: nat)
    ensures n <= |history|
  {
    if |history| == 0 then 0
    else HashCount(history[..|history| - 1], h) + (if history[|history| - 1].hash == h then 1 else 0)
  }

  /** Counting over two stretches of saved states adds up. */
  lemma {:induction false} HashCountConcat(a: seq<GameState>, b: seq<GameState>, h: ZobristHash)
    ensures HashCount(a + b, h) == HashCount(a, h) + HashCount(b, h)
    decreases |b|
  {
    if |b| > 0 {
      var b' := b[..|b| - 1];
      assert (a + b)[..|a + b| - 1] == a + b';
      HashCountConcat(a, b', h);
    } else {
      assert a + b == a;
    }
  }

  /** `is_threefold_repetition`, as the source decides it: at least three
      saved states carry the current hash. */
  predicate IsThreefold(p: Position)
  {
    HashCount(p.history, p.state.hash) >= 3
  }
}
