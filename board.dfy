/** The board object (crates/base/src/board/board.rs): the 64 tiles, the
    piece bitboards per colour and kind, the colour and occupancy
    bitboards, the tapered-evaluation sums kept per colour and the game
    phase, the game state and the history stack, all updated in place.

    Everything but the tiles, the game state and the history is derived:
    `Valid()` ties each derived field to a function of the tiles, and every
    method states its effect as the step of module Positions it performs,
    so the properties proved there (make/unmake round trip, the hash kept
    in step, the state rules) carry over to the object. */
module Boards {
  import opened Wrappers
  import opened Pieces
  import opened Squares
  import opened MoveFlags
  import opened Moves
  import opened Zobrist
  import opened Positions
  import Bitboards
  import Fen

  /** The PeSTO tables a board reads while toggling: the per-square and
      per-piece midgame and endgame values and the game-phase weight of a
      piece (generated constants, given as parameters). */
  datatype PestoTables = PestoTables(
    midgameSquare: (Color, Piece, Square) -> int,
    endgameSquare: (Color, Piece, Square) -> int,
    midgamePiece: Piece -> int,
    endgamePiece: Piece -> int,
    phase: Piece -> int)

  /** The three running sums a board keeps. */
  datatype Measure = Midgame(c: Color) | Endgame(c: Color) | Phase

  /** What one tile adds to a sum: its square and piece value for its own
      colour's midgame and endgame sums, its phase weight to the phase. */
  function Weight(tables: PestoTables, m: Measure, x: Option<Tile>, s: Square): int
  {
    match x
    case None => 0
    case Some(t) =>
      match m
      case Midgame(c) => if t.color == c then tables.midgameSquare(c, t.piece, s) + tables.midgamePiece(t.piece) else 0
      case Endgame(c) => if t.color == c then tables.endgameSquare(c, t.piece, s) + tables.endgamePiece(t.piece) else 0
      case Phase => tables.phase(t.piece)
  }

  /** The sum a board keeps for measure `m` over tiles `t`. */
  function Total(tables: PestoTables, m: Measure, t: Tiles): int
  {
    SumOf(tables, m, t)
  }

  /** The sum of the weights of the tiles of the first `|ts|` squares. */
  function SumOf(tables: PestoTables, m: Measure, ts: seq<Option<Tile>>): int
    requires |ts| <= 64
  {
    if ts == [] then 0 else SumOf(tables, m, ts[..|ts| - 1]) + Weight(tables, m, ts[|ts| - 1], |ts| - 1)
  }

  /** Replacing one tile changes a sum by the difference of its weights. */
  lemma {:induction false} SumUpdate(tables: PestoTables, m: Measure, ts: seq<Option<Tile>>, s: Square, x: Option<Tile>)
    requires s < |ts| <= 64
    ensures SumOf(tables, m, ts[s := x]) == SumOf(tables, m, ts) + Weight(tables, m, x, s) - Weight(tables, m, ts[s], s)
  {
    var n := |ts| - 1;
    if s < n {
      assert ts[s := x][..n] == ts[..n][s := x];
      SumUpdate(tables, m, ts[..n], s, x);
    } else {
      assert ts[s := x][..n] == ts[..n];
    }
  }

  lemma {:induction false} SumEmpty(tables: PestoTables, m: Measure, ts: seq<Option<Tile>>)
    requires |ts| <= 64 && forall i :: 0 <= i < |ts| ==> ts[i].None?
    ensures SumOf(tables, m, ts) == 0
  {
    if ts != [] {
      SumEmpty(tables, m, ts[..|ts| - 1]);
    }
  }

  /** Which tiles a bitboard collects: one kind of one colour, one
      colour, or every piece. */
  datatype Selection = OfPiece(c: Color, k: Piece) | OfColor(c: Color) | AnyPiece

  predicate Selects(sel: Selection, x: Option<Tile>)
  {
    match sel
    case OfPiece(c, k) => x == Some(Tile(k, c))
    case OfColor(c) => x.Some? && x.value.color == c
    case AnyPiece => x.Some?
  }

  /** The selected squares among the first `|ts|`. */
  function SquaresOf(ts: seq<Option<Tile>>, sel: Selection): Bitboards.Bitboard
    requires |ts| <= 64
  {
    if ts == [] then {}
    else SquaresOf(ts[..|ts| - 1], sel) + (if Selects(sel, ts[|ts| - 1]) then {|ts| - 1} else {})
  }

  /** The bitboard of the selected tiles. */
  function SelectedSquares(t: Tiles, sel: Selection): Bitboards.Bitboard
  {
    SquaresOf(t, sel)
  }

  lemma {:induction false} SquaresOfMembers(ts: seq<Option<Tile>>, sel: Selection, q: Square)
    requires |ts| <= 64
    ensures q in SquaresOf(ts, sel) <==> q < |ts| && Selects(sel, ts[q])
  {
    if ts != [] {
      SquaresOfMembers(ts[..|ts| - 1], sel, q);
    }
  }

  /** A square is in a bitboard exactly when its tile is selected. */
  lemma SelectedMembers(t: Tiles, sel: Selection, q: Square)
    ensures q in SelectedSquares(t, sel) <==> Selects(sel, t[q])
  {
    SquaresOfMembers(t, sel, q);
  }

  /** A fitting toggle XORs the square into every bitboard that selects
      the toggled tile and leaves the others as they were. */
  lemma SquaresToggle(t: Tiles, color: Color, piece: Piece, s: Square, sel: Selection)
    requires t[s].None? || t[s] == Some(Tile(piece, color))
    ensures SelectedSquares(ToggleTile(t, color, piece, s), sel)
            == if Selects(sel, Some(Tile(piece, color))) then Bitboards.Xor(SelectedSquares(t, sel), {s}) else SelectedSquares(t, sel)
  {
    var u := ToggleTile(t, color, piece, s);
    forall q: Square
      ensures q in SelectedSquares(u, sel)
              <==> q in (if Selects(sel, Some(Tile(piece, color))) then Bitboards.Xor(SelectedSquares(t, sel), {s}) else SelectedSquares(t, sel))
    {
      SelectedMembers(u, sel, q);
      SelectedMembers(t, sel, q);
    }
  }

  /** The squares holding `k` of colour `c`. */
  function PieceSquares(t: Tiles, c: Color, k: Piece): Bitboards.Bitboard
  {
    SelectedSquares(t, OfPiece(c, k))
  }

  /** The squares holding a piece of colour `c`. */
  function ColorSquares(t: Tiles, c: Color): Bitboards.Bitboard
  {
    SelectedSquares(t, OfColor(c))
  }

  /** The occupied squares. */
  function Occupied(t: Tiles): Bitboards.Bitboard
  {
    SelectedSquares(t, AnyPiece)
  }


  /** A toggle moves each sum by the toggled tile's weight: down when it is
      lifted, up when it is placed. */
  lemma SumToggle(tables: PestoTables, m: Measure, t: Tiles, color: Color, piece: Piece, s: Square)
    requires t[s].None? || t[s] == Some(Tile(piece, color))
    ensures var w := Weight(tables, m, Some(Tile(piece, color)), s);
      Total(tables, m, ToggleTile(t, color, piece, s)) == Total(tables, m, t) + (if t[s].Some? then -w else w)
  {
    SumUpdate(tables, m, t, s, if t[s].Some? then None else Some(Tile(piece, color)));
  }

  /** The piece bitboards, indexed `[colour][piece]`, are those of tiles
      `t`. */
  predicate BitboardsMatch(b: seq<seq<Bitboards.Bitboard>>, t: Tiles)
  {
    && |b| == 2 && |b[0]| == 7 && |b[1]| == 7
    && forall c: Color, k: Piece :: b[ColorIndex(c)][PieceIndex(k)] == PieceSquares(t, c, k)
  }

  /** The colour and occupancy bitboards are those of tiles `t`. */
  predicate ColorsMatch(white: Bitboards.Bitboard, black: Bitboards.Bitboard, occupied: Bitboards.Bitboard, t: Tiles)
  {
    && (forall c: Color :: (if c == White then white else black) == ColorSquares(t, c))
    && occupied == Occupied(t)
  }

  /** XORing the square into the toggled tile's bitboard keeps the
      bitboards those of the toggled tiles. */
  lemma BitboardsToggle(b: seq<seq<Bitboards.Bitboard>>, t: Tiles, color: Color, piece: Piece, s: Square)
    requires BitboardsMatch(b, t) && (t[s].None? || t[s] == Some(Tile(piece, color)))
    ensures var ci, ki := ColorIndex(color), PieceIndex(piece);
      BitboardsMatch(b[ci := b[ci][ki := Bitboards.Xor(b[ci][ki], {s})]], ToggleTile(t, color, piece, s))
  {
    var ci, ki := ColorIndex(color), PieceIndex(piece);
    var b' := b[ci := b[ci][ki := Bitboards.Xor(b[ci][ki], {s})]];
    forall c: Color, k: Piece
      ensures b'[ColorIndex(c)][PieceIndex(k)] == PieceSquares(ToggleTile(t, color, piece, s), c, k)
    {
      SquaresToggle(t, color, piece, s, OfPiece(c, k));
    }
  }

  /** The running sum a board keeps for measure `m`. */
  function Stored(midgame: seq<int>, endgame: seq<int>, gamephase: int, m: Measure): int
    requires |midgame| == 2 && |endgame| == 2
  {
    match m
    case Midgame(c) => midgame[ColorIndex(c)]
    case Endgame(c) => endgame[ColorIndex(c)]
    case Phase => gamephase
  }

  /** The midgame and endgame sums, indexed by colour, and the game phase
      are those of tiles `t`. */
  ghost predicate MaterialMatch(tables: PestoTables, midgame: seq<int>, endgame: seq<int>, gamephase: int, t: Tiles)
  {
    && |midgame| == 2 && |endgame| == 2
    && forall m: Measure :: Stored(midgame, endgame, gamephase, m) == Total(tables, m, t)
  }

  /** The sums after adding (or, when `lifted`, taking away) a tile's
      values: each stored sum moves by that tile's weight. */
  lemma StoredToggle(tables: PestoTables, midgame: seq<int>, endgame: seq<int>, gamephase: int,
                     color: Color, piece: Piece, s: Square, lifted: bool, m: Measure)
    requires |midgame| == 2 && |endgame| == 2
    ensures var ci, x := ColorIndex(color), Some(Tile(piece, color));
      var mg, eg, ph := Weight(tables, Midgame(color), x, s), Weight(tables, Endgame(color), x, s), Weight(tables, Phase, x, s);
      var w := Weight(tables, m, x, s);
      Stored(midgame[ci := if lifted then midgame[ci] - mg else midgame[ci] + mg],
             endgame[ci := if lifted then endgame[ci] - eg else endgame[ci] + eg],
             if lifted then gamephase - ph else gamephase + ph, m)
      == Stored(midgame, endgame, gamephase, m) + (if lifted then -w else w)
  {
  }

  lemma MaterialToggle(tables: PestoTables, midgame: seq<int>, endgame: seq<int>, gamephase: int, t: Tiles,
                       color: Color, piece: Piece, s: Square)
    requires MaterialMatch(tables, midgame, endgame, gamephase, t) && (t[s].None? || t[s] == Some(Tile(piece, color)))
    ensures var ci, x := ColorIndex(color), Some(Tile(piece, color));
      var mg, eg, ph := Weight(tables, Midgame(color), x, s), Weight(tables, Endgame(color), x, s), Weight(tables, Phase, x, s);
      var lifted := t[s].Some?;
      MaterialMatch(tables, midgame[ci := if lifted then midgame[ci] - mg else midgame[ci] + mg],
                    endgame[ci := if lifted then endgame[ci] - eg else endgame[ci] + eg],
                    if lifted then gamephase - ph else gamephase + ph, ToggleTile(t, color, piece, s))
  {
    forall m: Measure
      ensures var ci, x := ColorIndex(color), Some(Tile(piece, color));
        var mg, eg, ph := Weight(tables, Midgame(color), x, s), Weight(tables, Endgame(color), x, s), Weight(tables, Phase, x, s);
        var lifted := t[s].Some?;
        Stored(midgame[ci := if lifted then midgame[ci] - mg else midgame[ci] + mg],
               endgame[ci := if lifted then endgame[ci] - eg else endgame[ci] + eg],
               if lifted then gamephase - ph else gamephase + ph, m)
        == Total(tables, m, ToggleTile(t, color, piece, s))
    {
      StoredToggle(tables, midgame, endgame, gamephase, color, piece, s, t[s].Some?, m);
      SumToggle(tables, m, t, color, piece, s);
    }
  }

  /** Every cached field is the function of the tiles it caches. */
  ghost predicate Caches(tables: PestoTables, t: Tiles, b: seq<seq<Bitboards.Bitboard>>,
                         white: Bitboards.Bitboard, black: Bitboards.Bitboard, occupied: Bitboards.Bitboard,
                         midgame: seq<int>, endgame: seq<int>, gamephase: int)
  {
    && NoEmptyTiles(t)
    && BitboardsMatch(b, t)
    && ColorsMatch(white, black, occupied, t)
    && MaterialMatch(tables, midgame, endgame, gamephase, t)
  }

  /** The updates `toggle` makes to the cached fields keep them the
      functions of the toggled tiles. */
  lemma ToggleCaches(tables: PestoTables, t: Tiles, b: seq<seq<Bitboards.Bitboard>>,
                     white: Bitboards.Bitboard, black: Bitboards.Bitboard, occupied: Bitboards.Bitboard,
                     midgame: seq<int>, endgame: seq<int>, gamephase: int,
                     color: Color, piece: Piece, s: Square,
                     t': Tiles, b': seq<seq<Bitboards.Bitboard>>,
                     white': Bitboards.Bitboard, black': Bitboards.Bitboard, occupied': Bitboards.Bitboard,
                     midgame': seq<int>, endgame': seq<int>, gamephase': int)
    requires Caches(tables, t, b, white, black, occupied, midgame, endgame, gamephase)
    requires piece != NoPiece && (t[s].None? || t[s] == Some(Tile(piece, color)))
    requires t' == ToggleTile(t, color, piece, s)
    requires var ci, ki := ColorIndex(color), PieceIndex(piece);
      b' == b[ci := b[ci][ki := Bitboards.Xor(b[ci][ki], {s})]]
    requires white' == if color == White then Bitboards.Xor(white, {s}) else white
    requires black' == if color == Black then Bitboards.Xor(black, {s}) else black
    requires occupied' == Bitboards.Xor(occupied, {s})
    requires var ci, x := ColorIndex(color), Some(Tile(piece, color));
      var mg, eg, ph := Weight(tables, Midgame(color), x, s), Weight(tables, Endgame(color), x, s), Weight(tables, Phase, x, s);
      var lifted := t[s].Some?;
      && midgame' == midgame[ci := if lifted then midgame[ci] - mg else midgame[ci] + mg]
      && endgame' == endgame[ci := if lifted then endgame[ci] - eg else endgame[ci] + eg]
      && gamephase' == if lifted then gamephase - ph else gamephase + ph
    ensures Caches(tables, t', b', white', black', occupied', midgame', endgame', gamephase')
  {
    BitboardsToggle(b, t, color, piece, s);
    MaterialToggle(tables, midgame, endgame, gamephase, t, color, piece, s);
    forall c: Color
      ensures (if c == White then white' else black') == ColorSquares(t', c)
    {
      assert (if c == White then white else black) == ColorSquares(t, c);
      SquaresToggle(t, color, piece, s, OfColor(c));
    }
    SquaresToggle(t, color, piece, s, AnyPiece);
  }


  /** The tiles fit the toggles of `PlacePieces`: the mover's piece on
      `from`, an empty `to`, and for castling the mover's rook on its
      corner and an empty square beside the king. */
  predicate PlaceLegal(t: Tiles, c: Color, piece: Piece, from: Square, to: Square, flag: MoveFlag)
  {
    && piece != NoPiece && from != to && t[from] == Some(Tile(piece, c)) && t[to].None?
    && (IsPromotionFlag(flag) ==> !IsCastleFlag(flag))
    && (IsCastleFlag(flag) ==>
          IsCastleTarget(to) &&
          var (rookFrom, rookTo) := RookSquares(to);
          && rookFrom != from && rookTo != from && rookFrom != to && rookTo != to
          && t[rookFrom] == Some(Tile(Rook, c)) && t[rookTo].None?)
  }

  /** Once a capture has emptied `to`, the tiles of a fitting second half
      fit `PlacePieces`. */
  lemma PlaceLegalAfterTake(t: Tiles, c: Color, piece: Piece, from: Square, to: Square, flag: MoveFlag)
    requires PiecesLegal(t, c, piece, from, to, flag)
    ensures PlaceLegal(if IsCaptureFlag(flag) && flag != EnPassant then t[to := None] else t, c, piece, from, to, flag)
  {
  }

  /** The tiles fit the toggles of `unmake` for the mover `c`: `from`
      is empty and the mover's piece is on `to` (the promoted piece for a
      promotion), and for castling the rook stands beside the king with
      its corner empty. */
  predicate UnmakeTilesFit(t: Tiles, c: Color, from: Square, to: Square, flag: MoveFlag)
  {
    && from != to && t[from].None? && t[to].Some? && t[to].value.color == c
    && (IsPromotionFlag(flag) ==> t[to].value.piece == PromotionPiece(flag))
    && (IsCastleFlag(flag) ==>
          IsCastleTarget(to) &&
          var (rookFrom, rookTo) := RookSquares(to);
          && rookFrom != from && rookTo != from && rookFrom != to && rookTo != to
          && t[rookFrom].None? && t[rookTo] == Some(Tile(Rook, c)))
  }

  /** The position fits the toggles of `unmake`: its tiles do for the side
      that moved, and the square of a pawn taken en passant is empty. */
  predicate UnmakeFits(q: Position, from: Square, to: Square, flag: MoveFlag)
  {
    && UnmakeTilesFit(q.tiles, Other(q.state.active), from, to, flag)
    && (flag == EnPassant && |q.history| > 0 && q.history[|q.history| - 1].enPassant.Some? ==>
          var x := q.history[|q.history| - 1].enPassant.value.toCapture;
          x != from && x != to && q.tiles[x].None?)
  }

  /** The tiles `make` leaves behind fit the toggles of `unmake` for the
      side that moved, with the square of a pawn taken en passant empty. */
  lemma MakeTilesFit(t: Tiles, c: Color, ep: Option<EnPassantTarget>, from: Square, to: Square, flag: MoveFlag)
    requires TilesLegal(t, c, ep, from, to, flag)
    ensures var t' := MakeTiles(t, c, ep, from, to, flag);
      && UnmakeTilesFit(t', c, from, to, flag) && t'[to].value.piece != NoPiece
      && (flag == EnPassant ==> t'[ep.value.toCapture].None?)
  {
    var t1 := if flag == EnPassant then ToggleTile(t, Other(c), Pawn, ep.value.toCapture) else t;
    var t2 := if IsCaptureFlag(flag) && flag != EnPassant then ToggleTile(t1, Other(c), t1[to].value.piece, to) else t1;
    assert MakeTiles(t, c, ep, from, to, flag) == PlaceTiles(t2, c, t[from].value.piece, from, to, flag);
    if IsCastleFlag(flag) {
      var (rookFrom, rookTo) := RookSquares(to);
      assert t2[rookFrom] == t[rookFrom] && t2[rookTo] == t[rookTo];
    }
    PlaceTilesFit(t2, c, t[from].value.piece, from, to, flag);
  }

  /** The placing toggles of `make` on tiles cleared for them leave the
      piece (or the promoted one) on `to`, `from` empty and, for castling,
      the rook moved to its square. */
  lemma PlaceTilesFit(t: Tiles, c: Color, piece: Piece, from: Square, to: Square, flag: MoveFlag)
    requires PlaceLegal(t, c, piece, from, to, flag)
    ensures var t' := PlaceTiles(t, c, piece, from, to, flag);
      && UnmakeTilesFit(t', c, from, to, flag) && t'[to].value.piece != NoPiece
      && (!IsCastleFlag(flag) ==> forall q: Square :: q != from && q != to ==> t'[q] == t[q])
  {
    if IsCastleFlag(flag) {
      var (rookFrom, rookTo) := RookSquares(to);
      var t3 := ToggleTile(ToggleTile(t, c, piece, from), c, piece, to);
      assert t3[rookFrom] == t[rookFrom] && t3[rookTo] == t[rookTo];
    }
  }

  /** A legal `make` leaves a position that `unmake` accepts for the same
      move. */
  lemma MakeUnmakeFits(p: Position, from: Square, to: Square, flag: MoveFlag, analyse: Analyser)
    requires MakeLegal(p, from, to, flag)
    ensures UnmakeDefined(MakePosition(p, from, to, flag, analyse), from, to, flag)
    ensures UnmakeFits(MakePosition(p, from, to, flag, analyse), from, to, flag)
  {
    var q := MakePosition(p, from, to, flag, analyse);
    MakeParts(p, from, to, flag, analyse);
    MakeLegalTiles(p, from, to, flag);
    MakeTilesFit(p.tiles, p.state.active, p.state.enPassant, from, to, flag);
    OtherInvolution(p.state.active);
    assert q.history[|q.history| - 1] == p.state;
  }

  class Board {
    var pieces: Tiles
    var bitboards: seq<seq<Bitboards.Bitboard>>
    var white: Bitboards.Bitboard
    var black: Bitboards.Bitboard
    var occupied: Bitboards.Bitboard
    var midgame: seq<int>
    var endgame: seq<int>
    var gamephase: int
    var gamestate: GameState
    var history: seq<GameState>
    const tables: PestoTables
    const analyse: Analyser

    /** The position the board holds. */
    ghost function Abs(): Position
      reads this`pieces, this`gamestate, this`history
    {
      Position(pieces, gamestate, history)
    }

    /** Every derived field is the function of the tiles it caches. */
    ghost predicate Valid()
      reads this`pieces, this`bitboards, this`white, this`black, this`occupied
      reads this`midgame, this`endgame, this`gamephase
    {
      Caches(tables, pieces, bitboards, white, black, occupied, midgame, endgame, gamephase)
    }

    /** `Board::empty`: no pieces, the default game state, no history. */
    constructor Empty(tables: PestoTables, analyse: Analyser)
      ensures Valid() && Abs() == Position(seq(64, _ => None), DefaultState, [])
      ensures this.tables == tables && this.analyse == analyse
    {
      pieces := seq(64, _ => None);
      bitboards := seq(2, _ => seq(7, _ => {}));
      midgame := [0, 0];
      endgame := [0, 0];
      white, black, occupied := {}, {}, {};
      gamephase := 0;
      gamestate := DefaultState;
      history := [];
      this.tables := tables;
      this.analyse := analyse;
      new;
      forall m: Measure ensures Total(tables, m, pieces) == 0 {
        SumEmpty(tables, m, pieces);
      }
      forall sel: Selection ensures SelectedSquares(pieces, sel) == {} {
        forall q: Square ensures q !in SelectedSquares(pieces, sel) {
          SelectedMembers(pieces, sel, q);
        }
      }
    }

    /** `toggle`: the square is XORed into the piece, colour and occupancy
        bitboards and the hash, the tile is lifted or placed, and the
        evaluation sums move by the tile's values. On a square that is
        empty or holds exactly the toggled tile the derived fields stay
        valid. */
    method Toggle(color: Color, piece: Piece, s: Square)
      requires Valid() && piece != NoPiece && Fits(Abs(), color, piece, s)
      modifies this
      ensures Valid() && Abs() == TogglePos(old(Abs()), color, piece, s)
    {
      ToggleBitboards(color, piece, s);
      ToggleTileAndMaterial(color, piece, s);
      gamestate := gamestate.(hash := Xor(gamestate.hash, PieceHash(piece, color, s)));
      ToggleCaches(tables, old(pieces), old(bitboards), old(white), old(black), old(occupied),
                   old(midgame), old(endgame), old(gamephase), color, piece, s,
                   pieces, bitboards, white, black, occupied, midgame, endgame, gamephase);
    }

    /** The bitboard half of `toggle`: the square is XORed into the
        tile's piece bitboard, its colour's bitboard and the occupancy. */
    method ToggleBitboards(color: Color, piece: Piece, s: Square)
      requires |bitboards| == 2 && |bitboards[0]| == 7 && |bitboards[1]| == 7
      modifies this`bitboards, this`white, this`black, this`occupied
      ensures var ci, ki := ColorIndex(color), PieceIndex(piece);
        bitboards == old(bitboards)[ci := old(bitboards)[ci][ki := Bitboards.Xor(old(bitboards)[ci][ki], {s})]]
      ensures white == if color == White then Bitboards.Xor(old(white), {s}) else old(white)
      ensures black == if color == Black then Bitboards.Xor(old(black), {s}) else old(black)
      ensures occupied == Bitboards.Xor(old(occupied), {s})
    {
      var ci, ki := ColorIndex(color), PieceIndex(piece);
      bitboards := bitboards[ci := bitboards[ci][ki := Bitboards.Xor(bitboards[ci][ki], {s})]];
      if color == White {
        white := Bitboards.Xor(white, {s});
      } else {
        black := Bitboards.Xor(black, {s});
      }
      occupied := Bitboards.Xor(occupied, {s});
    }

    /** The tile half of `toggle`: an occupied square is emptied and the
        tile's values taken from its colour's sums and the phase; an empty
        square receives the tile and its values are added. */
    method ToggleTileAndMaterial(color: Color, piece: Piece, s: Square)
      requires |midgame| == 2 && |endgame| == 2
      modifies this`pieces, this`midgame, this`endgame, this`gamephase
      ensures pieces == ToggleTile(old(pieces), color, piece, s)
      ensures var ci, x := ColorIndex(color), Some(Tile(piece, color));
        var mg, eg, ph := Weight(tables, Midgame(color), x, s), Weight(tables, Endgame(color), x, s), Weight(tables, Phase, x, s);
        var lifted := old(pieces)[s].Some?;
        && midgame == old(midgame)[ci := if lifted then old(midgame)[ci] - mg else old(midgame)[ci] + mg]
        && endgame == old(endgame)[ci := if lifted then old(endgame)[ci] - eg else old(endgame)[ci] + eg]
        && gamephase == if lifted then old(gamephase) - ph else old(gamephase) + ph
    {
      var ci := ColorIndex(color);
      var mg := tables.midgameSquare(color, piece, s) + tables.midgamePiece(piece);
      var eg := tables.endgameSquare(color, piece, s) + tables.endgamePiece(piece);
      var ph := tables.phase(piece);
      if pieces[s].Some? {
        pieces := pieces[s := None];
        midgame := midgame[ci := midgame[ci] - mg];
        endgame := endgame[ci := endgame[ci] - eg];
        gamephase := gamephase - ph;
      } else {
        pieces := pieces[s := Some(Tile(piece, color))];
        midgame := midgame[ci := midgame[ci] + mg];
        endgame := endgame[ci := endgame[ci] + eg];
        gamephase := gamephase + ph;
      }
    }

    /** `swap_active`: the side to move flips and the side key is XORed. */
    method SwapActive()
      modifies this`gamestate
      ensures Abs() == Positions.SwapActive(old(Abs()))
    {
      gamestate := gamestate.(active := Other(gamestate.active), hash := Xor(gamestate.hash, SideHash()));
    }

    /** `update_game_state`: the pins, checkers and attacked squares of the
        side to move, as the board's analyser computes them. */
    method UpdateGameState()
      modifies this`gamestate
      ensures Abs() == Analyse(old(Abs()), analyse)
    {
      var a := analyse(pieces, gamestate.active);
      gamestate := gamestate.(pinned := a.pinned, checkers := a.checkers, attacked := a.attacked);
    }

    /** `remove_castle`: a held right is cleared and its key XORed out. */
    method RemoveCastle(color: Color, short: bool)
      modifies this`gamestate
      ensures Abs() == Positions.RemoveCastle(old(Abs()), color, short)
    {
      match (color, short)
      case (White, true) =>
        if gamestate.whiteKingside {
          gamestate := gamestate.(whiteKingside := false, hash := Xor(gamestate.hash, CastlingHash(0)));
        }
      case (White, false) =>
        if gamestate.whiteQueenside {
          gamestate := gamestate.(whiteQueenside := false, hash := Xor(gamestate.hash, CastlingHash(1)));
        }
      case (Black, true) =>
        if gamestate.blackKingside {
          gamestate := gamestate.(blackKingside := false, hash := Xor(gamestate.hash, CastlingHash(2)));
        }
      case (Black, false) =>
        if gamestate.blackQueenside {
          gamestate := gamestate.(blackQueenside := false, hash := Xor(gamestate.hash, CastlingHash(3)));
        }
    }

    /** The corner match of `make`: a rook on, or taken on, a corner drops
        that corner's right. */
    method CornerRights(piece: Piece, s: Square)
      modifies this`gamestate
      ensures Abs() == Positions.CornerRights(old(Abs()), piece, s)
    {
      if piece == Rook {
        if s == A1 {
          RemoveCastle(White, false);
        } else if s == H1 {
          RemoveCastle(White, true);
        } else if s == A8 {
          RemoveCastle(Black, false);
        } else if s == H8 {
          RemoveCastle(Black, true);
        }
      }
    }

    /** The mover's match of `make`: a king drops both of its side's
        rights, a rook leaving a corner drops that corner's. */
    method MoverRights(piece: Piece, from: Square)
      modifies this`gamestate
      ensures Abs() == Positions.MoverRights(old(Abs()), piece, from)
      ensures gamestate.active == old(gamestate.active)
    {
      if piece == King {
        RemoveCastle(gamestate.active, false);
        RemoveCastle(gamestate.active, true);
      } else {
        CornerRights(piece, from);
      }
    }

    /** Two toggles of the side to move on two different squares, each of
        which fits: the move of a piece, the castling rook, or a promotion
        (`first` at `a`, `second` at `b`). */
    method ToggleTwo(first: Piece, a: Square, second: Piece, b: Square)
      requires Valid() && first != NoPiece && second != NoPiece && a != b
      requires Fits(Abs(), gamestate.active, first, a) && Fits(Abs(), gamestate.active, second, b)
      modifies this
      ensures Valid()
      ensures Abs() == TogglePos(TogglePos(old(Abs()), old(gamestate.active), first, a), old(gamestate.active), second, b)
      ensures gamestate.active == old(gamestate.active)
      ensures forall q: Square :: q != a && q != b ==> pieces[q] == old(pieces)[q]
    {
      var c := gamestate.active;
      Toggle(c, first, a);
      Toggle(c, second, b);
    }

    /** The capture in `make` (not en passant): the piece on `to` is
        toggled off and recorded, the halfmove clock restarts, and a rook
        taken on a corner drops that corner's right. */
    method TakePiece(to: Square)
      requires Valid() && pieces[to].Some? && pieces[to].value.piece != NoPiece
      requires pieces[to].value.color == Other(gamestate.active)
      modifies this
      ensures Valid() && Abs() == Positions.TakePiece(old(Abs()), to)
      ensures pieces == old(pieces)[to := None] && gamestate.active == old(gamestate.active)
    {
      var captured := pieces[to].value.piece;
      Toggle(Other(gamestate.active), captured, to);
      gamestate := gamestate.(capturedPiece := captured, halfmoves := 0);
      CornerRights(captured, to);
    }

    /** The castling rook's two toggles, for the king's target square. */
    method CastleRook(to: Square)
      requires Valid() && IsCastleTarget(to)
      requires var (rookFrom, rookTo) := RookSquares(to);
        Fits(Abs(), gamestate.active, Rook, rookFrom) && Fits(Abs(), gamestate.active, Rook, rookTo)
      modifies this
      ensures Valid() && Abs() == Positions.CastleRook(old(Abs()), to)
      ensures gamestate.active == old(gamestate.active)
      ensures var (rookFrom, rookTo) := RookSquares(to);
        forall q: Square :: q != rookFrom && q != rookTo ==> pieces[q] == old(pieces)[q]
    {
      if to == G1 {
        ToggleTwo(Rook, H1, Rook, F1);
      } else if to == C1 {
        ToggleTwo(Rook, A1, Rook, D1);
      } else if to == G8 {
        ToggleTwo(Rook, H8, Rook, F8);
      } else {
        ToggleTwo(Rook, A8, Rook, D8);
      }
    }

    /** The second half of `make` after a capture: the moving piece, the
        mover's rights, and the castling rook or the promotion. */
    method PlacePieces(piece: Piece, from: Square, to: Square, flag: MoveFlag)
      requires Valid() && PlaceLegal(pieces, gamestate.active, piece, from, to, flag)
      modifies this
      ensures Valid() && Abs() == Positions.PlacePieces(old(Abs()), piece, from, to, flag)
    {
      if !IsPromotionFlag(flag) {
        ToggleTwo(piece, from, piece, to);
      }
      MoverRights(piece, from);
      if IsCastleFlag(flag) {
        CastleRook(to);
      } else if IsPromotionFlag(flag) {
        ToggleTwo(piece, from, PromotionPiece(flag), to);
      }
    }

    /** The second half of `make`. */
    method MakePieces(piece: Piece, from: Square, to: Square, flag: MoveFlag)
      requires Valid() && PiecesLegal(pieces, gamestate.active, piece, from, to, flag)
      modifies this
      ensures Valid() && Abs() == Positions.MakePieces(old(Abs()), piece, from, to, flag)
    {
      if IsCaptureFlag(flag) && flag != EnPassant {
        TakePiece(to);
      }
      PlaceLegalAfterTake(old(pieces), gamestate.active, piece, from, to, flag);
      PlacePieces(piece, from, to, flag);
    }

    /** The first half of `make`: the state is pushed, an en-passant
        capture lifts the taken pawn, and the counters and en-passant
        target move on. */
    method MakeBookkeeping(from: Square, to: Square, flag: MoveFlag)
      requires Valid() && MakeLegal(Abs(), from, to, flag)
      modifies this
      ensures Valid() && Abs() == Positions.MakeBookkeeping(old(Abs()), from, to, flag)
    {
      history := history + [gamestate];
      var piece := pieces[from].value.piece;
      if flag == EnPassant {
        Toggle(Other(gamestate.active), Pawn, gamestate.enPassant.value.toCapture);
      }
      AdvanceState(piece == Pawn, to, flag);
    }

    /** The game-state steps of the first half of `make`. */
    method AdvanceState(pawnMoved: bool, to: Square, flag: MoveFlag)
      requires Valid() && (flag == DoublePawn ==> DoublePushInRange(gamestate.active, to))
      modifies this`gamestate
      ensures Valid()
      ensures var p := Positions.CountMove(Positions.ClearEnPassant(old(Abs())), pawnMoved);
        Abs() == if flag == DoublePawn then Positions.SetEnPassant(p, to) else p
    {
      ClearEnPassant();
      CountMove(pawnMoved);
      if flag == DoublePawn {
        SetEnPassant(to);
      }
    }

    /** The old en-passant target is cleared, with its key. */
    method ClearEnPassant()
      modifies this`gamestate
      ensures Abs() == Positions.ClearEnPassant(old(Abs()))
    {
      match gamestate.enPassant {
        case Some(ep) =>
          gamestate := gamestate.(hash := Xor(gamestate.hash, EnPassantHash(ep.toCapture)), enPassant := None);
        case None =>
      }
    }

    /** The halfmove clock restarts on a pawn move and otherwise counts
        up; the fullmove number counts up after Black. */
    method CountMove(pawnMoved: bool)
      modifies this`gamestate
      ensures Abs() == Positions.CountMove(old(Abs()), pawnMoved)
    {
      if pawnMoved {
        gamestate := gamestate.(halfmoves := 0);
      } else {
        gamestate := gamestate.(halfmoves := IncU16(gamestate.halfmoves));
      }
      if gamestate.active == Black {
        gamestate := gamestate.(fullmoves := IncU16(gamestate.fullmoves));
      }
    }

    /** A double push sets the new en-passant target and XORs its key. */
    method SetEnPassant(to: Square)
      requires DoublePushInRange(gamestate.active, to)
      modifies this`gamestate
      ensures Abs() == Positions.SetEnPassant(old(Abs()), to)
    {
      var toMove: Square := to + EnPassantOffset(gamestate.active);
      gamestate := gamestate.(enPassant := Some(EnPassantTarget(toMove, to)), hash := Xor(gamestate.hash, EnPassantHash(toMove)));
    }

    /** `make`: on a position the move fits, the board ends up holding the
        position `MakePosition` describes, with every cache still valid. */
    method Make(m: Move)
      requires Valid() && Moves.Valid(m) && MakeLegal(Abs(), From(m), To(m), Flag(m))
      modifies this
      ensures Valid() && Abs() == MakePosition(old(Abs()), From(m), To(m), Flag(m), analyse)
    {
      var from, to, flag := From(m), To(m), Flag(m);
      var piece := pieces[from].value.piece;
      BookkeepingLegal(Abs(), from, to, flag);
      BookkeepingParts(Abs(), from, to, flag);
      MakeBookkeeping(from, to, flag);
      MakePieces(piece, from, to, flag);
      PassMove();
    }

    /** The end of `make` and `make_null`: the side to move flips and the
        analysis is redone for it. */
    method PassMove()
      requires Valid()
      modifies this`gamestate
      ensures Valid() && Abs() == Analyse(Positions.SwapActive(old(Abs())), analyse)
    {
      SwapActive();
      UpdateGameState();
    }

    /** `make_null`: the state is pushed, the en-passant target cleared,
        the fullmove number counted after Black, and the move passed. */
    method MakeNull()
      modifies this`gamestate, this`history
      ensures Abs() == MakeNullPosition(old(Abs()), analyse)
    {
      history := history + [gamestate];
      ClearEnPassant();
      if gamestate.active == Black {
        gamestate := gamestate.(fullmoves := IncU16(gamestate.fullmoves));
      }
      SwapActive();
      UpdateGameState();
    }

    /** `unmake_null`: the saved state, if any, is popped back. */
    method UnmakeNull()
      modifies this`gamestate, this`history
      ensures Abs() == UnmakeNullPosition(old(Abs()))
    {
      if |history| > 0 {
        gamestate := history[|history| - 1];
        history := history[..|history| - 1];
      }
    }

    /** The toggles of `unmake` for the mover restored as the side to
        move: the castling rook or the promotion is taken back, the piece
        on `to` returns to `from`, and a recorded capture is put back. */
    method UnmakePieces(from: Square, to: Square, flag: MoveFlag)
      requires Valid() && UnmakeTilesFit(pieces, gamestate.active, from, to, flag)
      requires pieces[to].value.piece != NoPiece
      requires IsCaptureFlag(flag) && flag != EnPassant ==> gamestate.capturedPiece != NoPiece
      modifies this
      ensures Valid() && Abs() == Positions.UnmakePieces(old(Abs()), from, to, flag)
      ensures !IsCastleFlag(flag) ==> forall q: Square :: q != from && q != to ==> pieces[q] == old(pieces)[q]
    {
      var piece := pieces[to].value.piece;
      UndoSpecial(from, to, flag);
      ReturnPiece(piece, from, to, flag);
    }

    /** The first toggles of `unmake`: the castling rook goes back to its
        corner, or the promoted piece is lifted and the pawn put back. */
    method UndoSpecial(from: Square, to: Square, flag: MoveFlag)
      requires Valid() && UnmakeTilesFit(pieces, gamestate.active, from, to, flag)
      modifies this
      ensures Valid() && gamestate.active == old(gamestate.active)
      ensures Abs() == if IsCastleFlag(flag) then Positions.CastleRook(old(Abs()), to)
                       else if IsPromotionFlag(flag) then Promote(old(Abs()), Pawn, PromotionPiece(flag), from, to)
                       else old(Abs())
      ensures !IsPromotionFlag(flag) ==> pieces[from] == old(pieces)[from] && pieces[to] == old(pieces)[to]
      ensures !IsCastleFlag(flag) ==> forall q: Square :: q != from && q != to ==> pieces[q] == old(pieces)[q]
    {
      if IsCastleFlag(flag) {
        CastleRook(to);
      } else if IsPromotionFlag(flag) {
        ToggleTwo(Pawn, from, PromotionPiece(flag), to);
      }
    }

    /** The last toggles of `unmake`: the piece on `to` goes back to `from`
        (not for a promotion, whose pawn is back already), and a recorded
        capture is put back on `to`. */
    method ReturnPiece(piece: Piece, from: Square, to: Square, flag: MoveFlag)
      requires Valid() && piece != NoPiece && from != to
      requires !IsPromotionFlag(flag) ==> pieces[from].None? && pieces[to] == Some(Tile(piece, gamestate.active))
      requires IsPromotionFlag(flag) ==> pieces[to].None?
      requires IsCaptureFlag(flag) && flag != EnPassant ==> gamestate.capturedPiece != NoPiece
      modifies this
      ensures Valid()
      ensures var p3 := if !IsPromotionFlag(flag) then MovePiece(old(Abs()), piece, from, to) else old(Abs());
        Abs() == if IsCaptureFlag(flag) && flag != EnPassant
                 then TogglePos(p3, Other(p3.state.active), p3.state.capturedPiece, to) else p3
      ensures forall q: Square :: q != from && q != to ==> pieces[q] == old(pieces)[q]
    {
      if !IsPromotionFlag(flag) {
        ToggleTwo(piece, from, piece, to);
      }
      if IsCaptureFlag(flag) && flag != EnPassant {
        Toggle(Other(gamestate.active), gamestate.capturedPiece, to);
      }
    }

    /** `unmake`: the side to move is swapped back, the tiles are toggled
        back, and the saved state, if any, is popped (its en-passant pawn
        put back) and replaces the current one. */
    method Unmake(m: Move)
      requires Valid() && Moves.Valid(m)
      requires UnmakeDefined(Abs(), From(m), To(m), Flag(m)) && UnmakeFits(Abs(), From(m), To(m), Flag(m))
      modifies this
      ensures Valid() && Abs() == UnmakePosition(old(Abs()), From(m), To(m), Flag(m))
    {
      var from, to, flag := From(m), To(m), Flag(m);
      SwapActive();
      UnmakePieces(from, to, flag);
      if |history| > 0 {
        PopState(flag == EnPassant);
      }
    }

    /** The tail of `unmake`: the last saved state is popped, the pawn
        taken en passant (when `enPassant` says the move was one) is put
        back on the square that state recorded, and the state replaces the
        current one. */
    method PopState(enPassant: bool)
      requires Valid() && |history| > 0
      requires enPassant ==> history[|history| - 1].enPassant.Some?
      requires enPassant ==> pieces[history[|history| - 1].enPassant.value.toCapture].None?
      modifies this
      ensures Valid()
      ensures var p := old(Abs()); var saved := p.history[|p.history| - 1];
        var p5 := if enPassant then TogglePos(p, Other(p.state.active), Pawn, saved.enPassant.value.toCapture) else p;
        Abs() == Position(p5.tiles, saved, p.history[..|p.history| - 1])
    {
      var saved := history[|history| - 1];
      history := history[..|history| - 1];
      if enPassant {
        Toggle(Other(gamestate.active), Pawn, saved.enPassant.value.toCapture);
      }
      gamestate := saved;
    }

    /** `is_threefold_repetition`: the saved states are scanned from the
        newest, counting those whose hash is the current one, and the
        scan stops at the third. */
    method IsThreefoldRepetition() returns (r: bool)
      ensures r <==> IsThreefold(Abs())
    {
      var count := 0;
      var i := |history|;
      while i > 0
        invariant 0 <= i <= |history|
        invariant count == HashCount(history[i..], gamestate.hash) && count < 3
        decreases i
      {
        i := i - 1;
        assert history[i..] == [history[i]] + history[i + 1..];
        HashCountConcat([history[i]], history[i + 1..], gamestate.hash);
        assert HashCount([history[i]], gamestate.hash) == if history[i].hash == gamestate.hash then 1 else 0 by {
          assert [history[i]][..0] == [];
        }
        if history[i].hash == gamestate.hash {
          count := count + 1;
        }
        if count == 3 {
          break;
        }
      }
      assert history == history[..i] + history[i..];
      HashCountConcat(history[..i], history[i..], gamestate.hash);
      r := count == 3;
    }

    /** `from_str`: the six fields are read in order and the first
        failure is returned; otherwise the pieces are toggled onto an
        empty board, the side to move, the rights, the en-passant target
        and the counters are set, the hash is computed from scratch and the
        game state is analysed. */
    static method FromStr(fen: string, tables: PestoTables, analyse: Analyser) returns (r: Result<Board, Fen.FenError>)
      ensures r.Err? <==> Fen.ParseFen(fen, analyse).Err?
      ensures r.Err? ==> r.error == Fen.ParseFen(fen, analyse).error
      ensures r.Ok? ==> fresh(r.value) && r.value.Valid() && r.value.Abs() == Fen.ParseFen(fen, analyse).value
      ensures r.Ok? ==> r.value.tables == tables && r.value.analyse == analyse
    {
      var parts := Fen.Split(fen, ' ');
      if |parts| != 6 {
        return Err(Fen.NotEnoughParts);
      }
      var placed := Fen.ParseRanks(Fen.Split(parts[0], '/'), 0);
      if placed.Err? {
        return Err(placed.error);
      }
      if parts[1] != "w" && parts[1] != "b" {
        return Err(Fen.WrongActiveColor(parts[1]));
      }
      var active := if parts[1] == "w" then White else Black;
      var castling := Fen.ParseCastling(parts[2], Fen.NoRights);
      if castling.Err? {
        return Err(castling.error);
      }
      var ep := Fen.ParseEnPassant(parts[3], active);
      if ep.Err? {
        return Err(ep.error);
      }
      var halfmoves := Fen.ParseU16(parts[4]);
      if halfmoves.Err? {
        return Err(halfmoves.error);
      }
      var fullmoves := Fen.ParseU16(parts[5]);
      if fullmoves.Err? {
        return Err(fullmoves.error);
      }
      Fen.ParseRanksShape(Fen.Split(parts[0], '/'), 0);
      Fen.ParseFenFields(fen, parts, analyse, placed.value, active, castling.value, ep.value, halfmoves.value, fullmoves.value);
      var board := FromFields(placed.value, active, castling.value, ep.value, halfmoves.value, fullmoves.value, tables, analyse);
      return Ok(board);
    }

    /** The board `from_str` builds once every field has been read: the
        placements toggled onto an empty board, the state with its hash
        computed from scratch, then `update_game_state`. */
    static method FromFields(ps: seq<Fen.Placement>, active: Color, c: Fen.Castling, ep: Option<EnPassantTarget>,
                             halfmoves: U16, fullmoves: U16, tables: PestoTables, analyse: Analyser) returns (board: Board)
      requires Fen.Distinct(ps) && Fen.NotAbove(ps, 7)
      ensures fresh(board) && board.Valid()
      ensures board.Abs() == Fen.FenPosition(Fen.PlaceAll(Fen.EmptyTiles(), ps), active, c, ep, halfmoves, fullmoves, analyse)
      ensures board.tables == tables && board.analyse == analyse
    {
      board := new Board.Empty(tables, analyse);
      board.TogglePlacements(ps);
      board.StartFrom(active, c, ep, halfmoves, fullmoves);
    }

    /** The game state `from_str` installs over the placed tiles, followed
        by `update_game_state`. */
    method StartFrom(active: Color, c: Fen.Castling, ep: Option<EnPassantTarget>, halfmoves: U16, fullmoves: U16)
      requires Valid() && history == []
      modifies this`gamestate
      ensures Valid() && Abs() == Fen.FenPosition(pieces, active, c, ep, halfmoves, fullmoves, analyse)
    {
      var toCapture := if ep.Some? then Some(ep.value.toCapture) else None;
      var hash := HashOf(pieces, active, c.whiteKingside, c.whiteQueenside, c.blackKingside, c.blackQueenside, toCapture);
      gamestate := GameState(hash, active, halfmoves, fullmoves, ep,
                             c.whiteKingside, c.whiteQueenside, c.blackKingside, c.blackQueenside,
                             {}, {}, {}, NoPiece);
      UpdateGameState();
    }

    /** The placement loop of `from_str`: each placement read is toggled
        onto the board, in order. */
    method TogglePlacements(ps: seq<Fen.Placement>)
      requires Valid() && pieces == Fen.EmptyTiles() && Fen.Distinct(ps) && Fen.NotAbove(ps, 7)
      modifies this
      ensures Valid() && pieces == Fen.PlaceAll(Fen.EmptyTiles(), ps)
      ensures history == old(history) && gamestate == old(gamestate).(hash := gamestate.hash)
    {
      var i := 0;
      while i < |ps|
        invariant 0 <= i <= |ps|
        invariant Valid() && pieces == Fen.PlaceAll(Fen.EmptyTiles(), ps[..i])
        invariant history == old(history) && gamestate == old(gamestate).(hash := gamestate.hash)
      {
        var next := ps[i];
        assert Fen.Distinct(ps[..i]);
        Fen.PlaceAllTileAt(ps[..i], next.square);
        Fen.TileAtAbsent(ps[..i], next.square);
        Toggle(next.tile.color, next.tile.piece, next.square);
        assert ps[..i + 1][..i] == ps[..i];
        i := i + 1;
      }
      assert ps[..|ps|] == ps;
    }

    /** `to_fen`, with the en-passant field naming the square the capturing
        pawn lands on: the ranks from the eighth down, each a run of
        letters and empty-square counts, separated by `/`, then the side
        to move, the rights, the en-passant square and the two counters. */
    method ToFen() returns (fen: string)
      requires Valid()
      ensures fen == Fen.FenText(Abs())
    {
      var placement := PlacementOf(pieces);
      var castling := CastlingField(gamestate);
      var enPassant := if gamestate.enPassant.Some? then Squares.ToString(gamestate.enPassant.value.toMove) else "-";
      fen := placement + " " + (if gamestate.active == White then "w" else "b") + " " + castling + " " + enPassant
             + " " + Fen.Decimal(gamestate.halfmoves) + " " + Fen.Decimal(gamestate.fullmoves);
      Fen.FenTextFields(Abs(), placement, castling, enPassant, fen);
    }

    /** The rank loop of `to_fen`: the ranks from the eighth down,
        separated by `/`. */
    static method PlacementOf(t: Tiles) returns (placement: string)
      requires NoEmptyTiles(t)
      ensures placement == Fen.PlacementText(t)
    {
      placement := "";
      var rank := 7;
      while rank >= 0
        invariant -1 <= rank <= 7
        invariant rank >= 0 ==> placement + Fen.Join(Fen.RowsFrom(t, rank), '/') == Fen.PlacementText(t)
        invariant rank < 0 ==> placement == Fen.PlacementText(t)
        decreases rank
      {
        var row := RowOf(t, rank);
        Fen.PlacementStep(t, rank, placement);
        placement := placement + row;
        if rank > 0 {
          placement := placement + "/";
        }
        rank := rank - 1;
      }
    }

    /** The castling field of `to_fen`: a letter per right held, in the
        order `KQkq`, or `-` for none. */
    static method CastlingField(state: GameState) returns (castling: string)
      ensures castling == Fen.CastlingText(Fen.CastlingOf(state))
    {
      castling := "";
      if state.whiteKingside {
        castling := castling + "K";
      }
      if state.whiteQueenside {
        castling := castling + "Q";
      }
      if state.blackKingside {
        castling := castling + "k";
      }
      if state.blackQueenside {
        castling := castling + "q";
      }
      if castling == "" {
        castling := "-";
      }
    }

    /** The body of `to_fen`'s square loop: a tile writes the pending
        count of empty squares, if any, and its letter; an empty square is
        counted. */
    static method RowSquare(t: Tiles, rank: int, file: int, row: string, empty: nat) returns (row': string, empty': nat)
      requires 0 <= rank <= 7 && 0 <= file < 8 && NoEmptyTiles(t)
      ensures row' + Fen.RowText(t, rank, file + 1, empty') == row + Fen.RowText(t, rank, file, empty)
    {
      row', empty' := row, empty;
      var tile := t[New(rank, file)];
      Fen.RowTextAppend(t, rank, file, empty, row);
      if tile.Some? {
        if empty' > 0 {
          row' := row' + Fen.Decimal(empty');
          empty' := 0;
        } else {
          assert row' + "" == row';
        }
        row' := row' + [TileToFen(tile.value)];
      } else {
        empty' := empty' + 1;
      }
    }

    /** One rank of `to_fen`: a run of empty squares is written as its
        length when a piece or the end of the rank is reached. */
    static method RowOf(t: Tiles, rank: int) returns (row: string)
      requires 0 <= rank <= 7 && NoEmptyTiles(t)
      ensures row == Fen.RowText(t, rank, 0, 0)
    {
      row := "";
      var empty: nat := 0;
      for file := 0 to 8
        invariant row + Fen.RowText(t, rank, file, empty) == Fen.RowText(t, rank, 0, 0)
      {
        row, empty := RowSquare(t, rank, file, row, empty);
      }
      Fen.RowTextEnd(t, rank, empty);
      if empty > 0 {
        row := row + Fen.Decimal(empty);
      }
    }
  }
}
