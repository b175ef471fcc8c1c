/** Colours, piece kinds and coloured pieces (tiles), with the index
    conventions the board tables use: Black = 0, White = 1, and
    None = 0, Pawn = 1 .. King = 6 for pieces. */
module Pieces {
  import opened Wrappers

  datatype Color = Black | White

  /** Index of a colour in the `[_; 2]` tables. */
  function ColorIndex(c: Color): (i: nat)
    ensures i < 2
    ensures c.White? <==> i == 1
  {
    if c.Black? then 0 else 1
  }

  /** The opposing colour. */
  function Other(c: Color): (o: Color)
    ensures o != c
  {
    if c == White then Black else White
  }

  /** The square offset from a double-push target to the square the
      pushing pawn passed over: -8 for White, +8 for Black. */
  function EnPassantOffset(c: Color): (d: int)
    ensures c == White ==> d == -8
    ensures c == Black ==> d == 8
  {
    if c == White then -8 else 8
  }

  /** `NoPiece` stands for the engine's `Piece::None`. */
  datatype Piece = NoPiece | Pawn | Knight | Bishop | Rook | Queen | King

  function PieceIndex(p: Piece): (i: nat)
    ensures i < 7
    ensures i == 0 <==> p == NoPiece
  {
    match p
    case NoPiece => 0
    case Pawn => 1
    case Knight => 2
    case Bishop => 3
    case Rook => 4
    case Queen => 5
    case King => 6
  }

  /** A coloured piece, as stored in the board's 64 tiles. */
  datatype Tile = Tile(piece: Piece, color: Color)

  /** FEN letter of a tile: upper case for White, lower case for Black. */
  function TileToFen(t: Tile): (ch: char)
    requires t.piece != NoPiece
    ensures t.color == White <==> 'A' <= ch <= 'Z'
  {
    var lower := match t.piece
      case Pawn => 'p'
      case Knight => 'n'
      case Bishop => 'b'
      case Rook => 'r'
      case Queen => 'q'
      case King => 'k';
    if t.color == White then (lower as int - 32) as char else lower
  }

  /** Reads a FEN piece letter; any other character is refused. */
  function TileFromFen(ch: char): (r: Option<Tile>)
    ensures r.Some? ==> r.value.piece != NoPiece
  {
    match ch
    case 'P' => Some(Tile(Pawn, White))
    case 'p' => Some(Tile(Pawn, Black))
    case 'N' => Some(Tile(Knight, White))
    case 'n' => Some(Tile(Knight, Black))
    case 'B' => Some(Tile(Bishop, White))
    case 'b' => Some(Tile(Bishop, Black))
    case 'R' => Some(Tile(Rook, White))
    case 'r' => Some(Tile(Rook, Black))
    case 'Q' => Some(Tile(Queen, White))
    case 'q' => Some(Tile(Queen, Black))
    case 'K' => Some(Tile(King, White))
    case 'k' => Some(Tile(King, Black))
    case _ => None
  }

  /** Reading back a written letter gives the same tile, and every letter
      that is read is the letter of the tile it gives. */
  lemma TileFenRoundTrip(t: Tile, ch: char)
    ensures t.piece != NoPiece ==> TileFromFen(TileToFen(t)) == Some(t)
    ensures TileFromFen(ch).Some? ==> TileToFen(TileFromFen(ch).value) == ch
  {
  }

  lemma OtherInvolution(c: Color)
    ensures Other(Other(c)) == c
    ensures ColorIndex(Other(c)) == 1 - ColorIndex(c)
  {
  }
}
