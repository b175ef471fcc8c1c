/** Polyglot opening-book keys (crates/base/src/polyglot/hasher.rs): the
    XOR of entries of the fixed 781-entry Polyglot key table, picked by
    the pieces, the side to move, the castling rights and a capturable
    en-passant pawn.

    As with the engine's own Zobrist hash, a key is modelled by the SET of
    table indices XORed into it: positions with equal index sets have
    equal 64-bit keys whatever the table holds. */
module PolyglotHasher {
  import opened Wrappers
  import opened Pieces
  import opened Squares
  import opened Positions
  import RayTables
  import Boards
  import Generator

  /** Where each group of keys starts in the table. */
  const PieceOffset: nat := 0
  const CastlingOffset: nat := 768
  const EnPassantOffset: nat := 772
  const TurnOffset: nat := 780

  /** A Polyglot key: the table indices XORed together. */
  type PolyglotHash = set<nat>

  /** `^=`: an index XORed in twice cancels out. */
  function Xor(a: PolyglotHash, b: PolyglotHash): PolyglotHash
  {
    (a - b) + (b - a)
  }

  /** The kind of a coloured piece, `(piece - 1) * 2 + colour`: black pawn
      0, white pawn 1, black knight 2, ..., white king 11. */
  function KindOf(piece: Piece, color: Color): (k: nat)
    requires piece != NoPiece
    ensures k < 12
  {
    (PieceIndex(piece) - 1) * 2 + ColorIndex(color)
  }

  /** The piece a kind stands for. */
  function KindPiece(k: nat): Piece
    requires k < 12
  {
    match k / 2
    case 0 => Pawn
    case 1 => Knight
    case 2 => Bishop
    case 3 => Rook
    case 4 => Queen
    case _ => King
  }

  /** The colour a kind stands for. */
  function KindColor(k: nat): Color
  {
    if k % 2 == 0 then Black else White
  }

  /** A kind names its piece and colour back: no two coloured pieces share
      a kind. */
  lemma KindDecodes(piece: Piece, color: Color)
    requires piece != NoPiece
    ensures KindPiece(KindOf(piece, color)) == piece && KindColor(KindOf(piece, color)) == color
  {
  }

  /** `piece_hash`'s table index, `64 * kind + 8 * rank + file`: below the
      castling keys, with the square in its low six bits and the kind
      above them. */
  function PieceKeyIndex(piece: Piece, color: Color, s: Square): (i: nat)
    requires piece != NoPiece
    ensures i < CastlingOffset
    ensures i % 64 == s && i / 64 == KindOf(piece, color)
  {
    PieceOffset + 64 * KindOf(piece, color) + 8 * Rank(s) + File(s)
  }

  /** `castling_hash`: white kingside, white queenside, black kingside,
      black queenside, one after another. */
  function CastlingKeyIndex(color: Color, kingside: bool): (i: nat)
    ensures CastlingOffset <= i < EnPassantOffset
  {
    CastlingOffset + match color
      case White => if kingside then 0 else 1
      case Black => if kingside then 2 else 3
  }

  /** `en_passant_hash`: one key per file. */
  function EnPassantKeyIndex(s: Square): (i: nat)
    ensures EnPassantOffset <= i < TurnOffset
  {
    EnPassantOffset + File(s)
  }

  function PieceHash(piece: Piece, color: Color, s: Square): PolyglotHash
    requires piece != NoPiece
  {
    {PieceKeyIndex(piece, color, s)}
  }

  function CastlingHash(color: Color, kingside: bool): PolyglotHash
  {
    {CastlingKeyIndex(color, kingside)}
  }

  function EnPassantHash(s: Square): PolyglotHash
  {
    {EnPassantKeyIndex(s)}
  }

  /** `turn_hash`: the key XORed in when White is to move. */
  function TurnHash(): PolyglotHash
  {
    {TurnOffset}
  }

  /** The piece keys of the occupied squares among the first `n`. */
  function TilesKeys(tiles: Tiles, n: nat): PolyglotHash
    requires n <= 64 && NoEmptyTiles(tiles)
  {
    if n == 0 then {}
    else
      var below := TilesKeys(tiles, n - 1);
      var tile := tiles[n - 1];
      if tile.Some? then Xor(below, PieceHash(tile.value.piece, tile.value.color, n - 1)) else below
  }

  /** The en-passant key is used only when the side to move has a pawn
      next to the pawn that can be taken. */
  predicate EnPassantCapturable(p: Position)
  {
    && p.state.enPassant.Some?
    && RayTables.AdjacentFiles(p.state.enPassant.value.toCapture) * Generator.PieceBoard(p, p.state.active, Pawn) != {}
  }

  /** The Polyglot key of a position, composed in `hash`'s order. */
  function PolyglotKey(p: Position): PolyglotHash
    requires NoEmptyTiles(p.tiles)
  {
    var st := p.state;
    var pieces := TilesKeys(p.tiles, 64);
    var turn := if st.active == White then Xor(pieces, TurnHash()) else pieces;
    var wk := if st.whiteKingside then Xor(turn, CastlingHash(White, true)) else turn;
    var wq := if st.whiteQueenside then Xor(wk, CastlingHash(White, false)) else wk;
    var bk := if st.blackKingside then Xor(wq, CastlingHash(Black, true)) else wq;
    var bq := if st.blackQueenside then Xor(bk, CastlingHash(Black, false)) else bk;
    if EnPassantCapturable(p) then Xor(bq, EnPassantHash(st.enPassant.value.toCapture)) else bq
  }

  /** `PolyglotHasher::hash`: XOR in the key of every occupied square in
      index order, then the turn key when White is to move, the key of
      each castling right held, and the key of the en-passant file when a
      pawn of the side to move stands next to the pawn that can be
      taken. */
  method Hash(p: Position) returns (hash: PolyglotHash)
    requires NoEmptyTiles(p.tiles)
    ensures hash == PolyglotKey(p)
  {
    hash := {};
    for squareIndex := 0 to 64
      invariant hash == TilesKeys(p.tiles, squareIndex)
    {
      var tile := p.tiles[squareIndex];
      if tile.Some? {
        hash := Xor(hash, PieceHash(tile.value.piece, tile.value.color, squareIndex));
      }
    }
    var st := p.state;
    if st.active == White {
      hash := Xor(hash, TurnHash());
    }
    if st.whiteKingside {
      hash := Xor(hash, CastlingHash(White, true));
    }
    if st.whiteQueenside {
      hash := Xor(hash, CastlingHash(White, false));
    }
    if st.blackKingside {
      hash := Xor(hash, CastlingHash(Black, true));
    }
    if st.blackQueenside {
      hash := Xor(hash, CastlingHash(Black, false));
    }
    if st.enPassant.Some? {
      var adjacentFiles := RayTables.AdjacentFiles(st.enPassant.value.toCapture);
      var otherPawns := Generator.PieceBoard(p, st.active, Pawn);
      var combined := adjacentFiles * otherPawns;
      if combined != {} {
        hash := Xor(hash, EnPassantHash(st.enPassant.value.toCapture));
      }
    }
  }

  // ---------------------------------------------------------------------
  // What a key holds

  /** The piece keys of the first `n` squares are exactly the indices of
      the tiles on them. */
  lemma {:induction false} TilesKeysMembers(tiles: Tiles, n: nat, i: nat)
    requires n <= 64 && NoEmptyTiles(tiles)
    ensures i in TilesKeys(tiles, n) <==>
      i < CastlingOffset && i % 64 < n && tiles[i % 64] == Some(Tile(KindPiece(i / 64), KindColor(i / 64)))
  {
    if n > 0 {
      TilesKeysMembers(tiles, n - 1, i);
      var tile := tiles[n - 1];
      if tile.Some? {
        KindDecodes(tile.value.piece, tile.value.color);
      }
    }
  }

  /** The en-passant key is used exactly when a pawn of the side to move
      stands on the rank of the pawn that can be taken, at most one file
      from it, as the Polyglot format asks. */
  lemma EnPassantCapturableMeans(p: Position)
    ensures EnPassantCapturable(p) <==>
      && p.state.enPassant.Some?
      && exists t: Square :: CapturesEnPassantFrom(p, t)
  {
    if EnPassantCapturable(p) {
      var target := p.state.enPassant.value.toCapture;
      var t :| t in RayTables.AdjacentFiles(target) * Generator.PieceBoard(p, p.state.active, Pawn);
      RayTables.AdjacentFilesMembers(target, t);
      Boards.SelectedMembers(p.tiles, Boards.OfPiece(p.state.active, Pawn), t);
      assert CapturesEnPassantFrom(p, t);
    } else if p.state.enPassant.Some? {
      var target := p.state.enPassant.value.toCapture;
      forall t: Square
        ensures !CapturesEnPassantFrom(p, t)
      {
        RayTables.AdjacentFilesMembers(target, t);
        Boards.SelectedMembers(p.tiles, Boards.OfPiece(p.state.active, Pawn), t);
      }
    }
  }

  /** A pawn of the side to move on `t` stands beside the pawn that can be
      taken en passant. */
  predicate CapturesEnPassantFrom(p: Position, t: Square)
    requires p.state.enPassant.Some?
  {
    var target := p.state.enPassant.value.toCapture;
    && p.tiles[t] == Some(Tile(Pawn, p.state.active))
    && Rank(t) == Rank(target) && Abs(File(t) - File(target)) <= 1
  }

  /** The index set of a position's key: the kind and square of every
      piece, the four castling rights, the en-passant file when the pawn
      can be taken, and the turn key for White. */
  lemma PolyglotKeyMembers(p: Position, i: nat)
    requires NoEmptyTiles(p.tiles)
    ensures i in PolyglotKey(p) <==>
      || (i < CastlingOffset && p.tiles[i % 64] == Some(Tile(KindPiece(i / 64), KindColor(i / 64))))
      || (i == CastlingKeyIndex(White, true) && p.state.whiteKingside)
      || (i == CastlingKeyIndex(White, false) && p.state.whiteQueenside)
      || (i == CastlingKeyIndex(Black, true) && p.state.blackKingside)
      || (i == CastlingKeyIndex(Black, false) && p.state.blackQueenside)
      || (EnPassantCapturable(p) && i == EnPassantKeyIndex(p.state.enPassant.value.toCapture))
      || (i == TurnOffset && p.state.active == White)
  {
    TilesKeysMembers(p.tiles, 64, i);
  }

  /** Two positions with the same Polyglot key have the same pieces on
      the same squares, the same side to move and the same castling
      rights. */
  lemma PolyglotKeyDetermines(p: Position, q: Position)
    requires NoEmptyTiles(p.tiles) && NoEmptyTiles(q.tiles)
    requires PolyglotKey(p) == PolyglotKey(q)
    ensures p.tiles == q.tiles && p.state.active == q.state.active
    ensures p.state.whiteKingside == q.state.whiteKingside && p.state.whiteQueenside == q.state.whiteQueenside
    ensures p.state.blackKingside == q.state.blackKingside && p.state.blackQueenside == q.state.blackQueenside
  {
    forall s: Square
      ensures p.tiles[s] == q.tiles[s]
    {
      SameTile(p, q, s);
    }
    PolyglotKeyMembers(p, TurnOffset);
    PolyglotKeyMembers(q, TurnOffset);
    PolyglotKeyMembers(p, CastlingKeyIndex(White, true));
    PolyglotKeyMembers(q, CastlingKeyIndex(White, true));
    PolyglotKeyMembers(p, CastlingKeyIndex(White, false));
    PolyglotKeyMembers(q, CastlingKeyIndex(White, false));
    PolyglotKeyMembers(p, CastlingKeyIndex(Black, true));
    PolyglotKeyMembers(q, CastlingKeyIndex(Black, true));
    PolyglotKeyMembers(p, CastlingKeyIndex(Black, false));
    PolyglotKeyMembers(q, CastlingKeyIndex(Black, false));
  }

  /** One square of `PolyglotKeyDetermines`. */
  lemma SameTile(p: Position, q: Position, s: Square)
    requires NoEmptyTiles(p.tiles) && NoEmptyTiles(q.tiles)
    requires PolyglotKey(p) == PolyglotKey(q)
    ensures p.tiles[s] == q.tiles[s]
  {
    if p.tiles[s].Some? {
      var t := p.tiles[s].value;
      var i := PieceKeyIndex(t.piece, t.color, s);
      KindDecodes(t.piece, t.color);
      PolyglotKeyMembers(p, i);
      PolyglotKeyMembers(q, i);
    } else if q.tiles[s].Some? {
      var t := q.tiles[s].value;
      var i := PieceKeyIndex(t.piece, t.color, s);
      KindDecodes(t.piece, t.color);
      PolyglotKeyMembers(p, i);
      PolyglotKeyMembers(q, i);
    }
  }
}
