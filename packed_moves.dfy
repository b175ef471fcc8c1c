/** The older 64-bit move word (src/generation/mov.rs). Fields:
    bits 0-5 source square, 6-11 target square, 12-14 moving piece,
    16 castling, 17-19 captured piece, 20 en passant, 21-23 promoted piece,
    24-29 the square of the captured piece. */
module PackedMoves {
  import opened Pieces

  /** A square as the `u8` index this module stores. */
  type Sq = b: bv8 | b < 64

  datatype PackedMove = PackedMove(bits: bv64)

  const SquareMask: bv64 := 0x3F
  const ToShift: bv64 := 6
  const PieceShift: bv64 := 12
  const PieceMask: bv64 := 0x7
  const IsCastlingShift: bv64 := 16
  const IsCastlingMask: bv64 := 0x10000
  const CapturedShift: bv64 := 17
  const IsEnPassantShift: bv64 := 20
  const IsEnPassantMask: bv64 := 0x100000
  const IsPromotedShift: bv64 := 21
  const IsPromotedMask: bv64 := 0xE00000
  const CaptureSquareShift: bv64 := 24
  const IsQuietMask: bv64 := 0xFE0000
  const IsCaptureMask: bv64 := 0x1E0000

  /** The masks of the eight fields, each in place, do not overlap. */
  lemma FieldMasksDisjoint()
    ensures var fields := [SquareMask, SquareMask << ToShift, PieceMask << PieceShift,
                           IsCastlingMask, PieceMask << CapturedShift, IsEnPassantMask,
                           IsPromotedMask, SquareMask << CaptureSquareShift];
      forall i, j :: 0 <= i < j < |fields| ==> fields[i] & fields[j] == 0
    ensures IsPromotedMask == PieceMask << IsPromotedShift
    ensures IsQuietMask == (PieceMask << CapturedShift) | IsEnPassantMask | IsPromotedMask
    ensures IsCaptureMask == (PieceMask << CapturedShift) | IsEnPassantMask
  {
  }

  /** A field of at most six bits read back as a `u8`. */
  function Field(b: bv64): (n: bv8)
    requires b < 64
    ensures n < 64 && n as bv64 == b
  {
    b as bv8
  }

  function SquareBits(s: Sq): (b: bv64)
    ensures b < 64 && Field(b) == s
  {
    s as bv64
  }

  /** `piece.index()` as a `u8`. */
  function PieceCode(p: Piece): (c: bv8)
    ensures c < 7 && c as int == PieceIndex(p)
  {
    match p
    case NoPiece => 0
    case Pawn => 1
    case Knight => 2
    case Bishop => 3
    case Rook => 4
    case Queen => 5
    case King => 6
  }

  function PieceBits(p: Piece): (b: bv64)
    ensures b < 7 && Field(b) == PieceCode(p)
  {
    PieceCode(p) as bv64
  }

  function FlagBit(b: bool): (r: bv64)
    ensures r < 2 && (r == 1 <==> b)
  {
    if b then 1 else 0
  }

  /** `Piece::from_index` on the three-bit piece fields. */
  function PieceFromIndex(i: bv8): (p: Piece)
    requires i < 7
    ensures PieceCode(p) == i
  {
    if i == 0 then NoPiece else if i == 1 then Pawn else if i == 2 then Knight
    else if i == 3 then Bishop else if i == 4 then Rook else if i == 5 then Queen else King
  }

  lemma PieceIndexInjective(p: Piece)
    ensures PieceFromIndex(PieceCode(p)) == p
  {
  }

  /** The word `Move::new` builds from eight field values. */
  function Word(from: bv64, to: bv64, piece: bv64, castling: bv64, captured: bv64,
                enPassant: bv64, promoted: bv64, captureSquare: bv64): bv64
  {
    (from & SquareMask)
    | ((to & SquareMask) << ToShift)
    | ((piece & PieceMask) << PieceShift)
    | (castling << IsCastlingShift)
    | ((captured & PieceMask) << CapturedShift)
    | (enPassant << IsEnPassantShift)
    | ((promoted & PieceMask) << IsPromotedShift)
    | ((captureSquare & SquareMask) << CaptureSquareShift)
  }

  /** Every field of a packed word reads back as the value put in. */
  lemma WordFields(from: bv64, to: bv64, piece: bv64, castling: bv64, captured: bv64,
                   enPassant: bv64, promoted: bv64, captureSquare: bv64)
    requires from < 64 && to < 64 && captureSquare < 64
    requires piece < 8 && captured < 8 && promoted < 8
    requires castling < 2 && enPassant < 2
    ensures var w := Word(from, to, piece, castling, captured, enPassant, promoted, captureSquare);
      && w & SquareMask == from
      && (w >> ToShift) & SquareMask == to
      && (w >> PieceShift) & PieceMask == piece
      && (w & IsCastlingMask != 0 <==> castling == 1)
      && (w >> CapturedShift) & PieceMask == captured
      && (w & IsEnPassantMask != 0 <==> enPassant == 1)
      && (w >> IsPromotedShift) & PieceMask == promoted
      && (w >> CaptureSquareShift) & SquareMask == captureSquare
      && (w & IsQuietMask == 0 <==> captured == 0 && enPassant == 0 && promoted == 0)
      && (w & IsCaptureMask != 0 <==> captured != 0 || enPassant == 1)
      && (w & IsPromotedMask != 0 <==> promoted != 0)
  {
  }

  /** `Move::new`. */
  function New(piece: Piece, from: Sq, to: Sq, captured: Piece, captureSquare: Sq,
               promoted: Piece, isCastling: bool, isEnPassant: bool): (m: PackedMove)
  {
    PackedMove(Word(SquareBits(from), SquareBits(to), PieceBits(piece), FlagBit(isCastling),
                    PieceBits(captured), FlagBit(isEnPassant), PieceBits(promoted),
                    SquareBits(captureSquare)))
  }

  /** The accessors recover the squares given to `Move::new`. */
  lemma NewSquares(piece: Piece, from: Sq, to: Sq, captured: Piece, captureSquare: Sq,
                   promoted: Piece, isCastling: bool, isEnPassant: bool)
    ensures var m := New(piece, from, to, captured, captureSquare, promoted, isCastling, isEnPassant);
      From(m) == from && To(m) == to && CaptureSquare(m) == captureSquare
  {
    WordFields(SquareBits(from), SquareBits(to), PieceBits(piece), FlagBit(isCastling),
               PieceBits(captured), FlagBit(isEnPassant), PieceBits(promoted),
               SquareBits(captureSquare));
  }

  /** `piece()` recovers the moving piece given to `Move::new`. */
  lemma NewMovingPiece(piece: Piece, from: Sq, to: Sq, captured: Piece, captureSquare: Sq,
      promoted: Piece, isCastling: bool, isEnPassant: bool)
    ensures var m := New(piece, from, to, captured, captureSquare, promoted, isCastling, isEnPassant);
      (m.bits >> PieceShift) & PieceMask < 7 && MovingPiece(m) == piece
  {
    var w := Word(SquareBits(from), SquareBits(to), PieceBits(piece), FlagBit(isCastling),
             PieceBits(captured), FlagBit(isEnPassant), PieceBits(promoted), SquareBits(captureSquare));
    NewPiece(w, PieceShift, piece, SquareBits(from), SquareBits(to), PieceBits(piece), FlagBit(isCastling),
             PieceBits(captured), FlagBit(isEnPassant), PieceBits(promoted), SquareBits(captureSquare));
  }

  /** `captured_piece()` recovers the captured piece given to `Move::new`. */
  lemma NewCapturedPiece(piece: Piece, from: Sq, to: Sq, captured: Piece, captureSquare: Sq,
      promoted: Piece, isCastling: bool, isEnPassant: bool)
    ensures var m := New(piece, from, to, captured, captureSquare, promoted, isCastling, isEnPassant);
      (m.bits >> CapturedShift) & PieceMask < 7 && CapturedPiece(m) == captured
  {
    var w := Word(SquareBits(from), SquareBits(to), PieceBits(piece), FlagBit(isCastling),
             PieceBits(captured), FlagBit(isEnPassant), PieceBits(promoted), SquareBits(captureSquare));
    NewPiece(w, CapturedShift, captured, SquareBits(from), SquareBits(to), PieceBits(piece), FlagBit(isCastling),
             PieceBits(captured), FlagBit(isEnPassant), PieceBits(promoted), SquareBits(captureSquare));
  }

  /** `promoted_piece()` recovers the promoted piece given to `Move::new`. */
  lemma NewPromotedPiece(piece: Piece, from: Sq, to: Sq, captured: Piece, captureSquare: Sq,
      promoted: Piece, isCastling: bool, isEnPassant: bool)
    ensures var m := New(piece, from, to, captured, captureSquare, promoted, isCastling, isEnPassant);
      (m.bits >> IsPromotedShift) & PieceMask < 7 && PromotedPiece(m) == promoted
  {
    var w := Word(SquareBits(from), SquareBits(to), PieceBits(piece), FlagBit(isCastling),
             PieceBits(captured), FlagBit(isEnPassant), PieceBits(promoted), SquareBits(captureSquare));
    NewPiece(w, IsPromotedShift, promoted, SquareBits(from), SquareBits(to), PieceBits(piece), FlagBit(isCastling),
             PieceBits(captured), FlagBit(isEnPassant), PieceBits(promoted), SquareBits(captureSquare));
  }

  lemma NewPiece(w: bv64, shift: bv64, p: Piece, from: bv64, to: bv64, piece: bv64, castling: bv64,
                 captured: bv64, enPassant: bv64, promoted: bv64, captureSquare: bv64)
    requires from < 64 && to < 64 && captureSquare < 64
    requires piece < 8 && captured < 8 && promoted < 8
    requires castling < 2 && enPassant < 2
    requires w == Word(from, to, piece, castling, captured, enPassant, promoted, captureSquare)
    requires (shift == PieceShift && piece == PieceBits(p))
          || (shift == CapturedShift && captured == PieceBits(p))
          || (shift == IsPromotedShift && promoted == PieceBits(p))
    ensures (w >> shift) & PieceMask < 7
    ensures PieceFromIndex(Field((w >> shift) & PieceMask)) == p
  {
    var f := (w >> shift) & PieceMask;
    PieceField(w, shift, p, from, to, piece, castling, captured, enPassant, promoted, captureSquare);
    assert f == PieceBits(p);
    assert Field(f) == PieceCode(p);
    PieceIndexInjective(p);
  }

  /** One three-bit piece field of a packed word decodes to the piece put
      there. */
  lemma PieceField(w: bv64, shift: bv64, p: Piece, from: bv64, to: bv64, piece: bv64, castling: bv64,
                   captured: bv64, enPassant: bv64, promoted: bv64, captureSquare: bv64)
    requires from < 64 && to < 64 && captureSquare < 64
    requires piece < 8 && captured < 8 && promoted < 8
    requires castling < 2 && enPassant < 2
    requires w == Word(from, to, piece, castling, captured, enPassant, promoted, captureSquare)
    requires (shift == PieceShift && piece == PieceBits(p))
          || (shift == CapturedShift && captured == PieceBits(p))
          || (shift == IsPromotedShift && promoted == PieceBits(p))
    ensures (w >> shift) & PieceMask == PieceBits(p)
  {
    WordFields(from, to, piece, castling, captured, enPassant, promoted, captureSquare);
  }

  /** The flag tests read the booleans given to `Move::new`: a move is
      quiet exactly when nothing is captured, it is not en passant and
      nothing is promoted, and a capture when something is taken. */
  lemma NewFlags(piece: Piece, from: Sq, to: Sq, captured: Piece, captureSquare: Sq,
                 promoted: Piece, isCastling: bool, isEnPassant: bool)
    ensures var m := New(piece, from, to, captured, captureSquare, promoted, isCastling, isEnPassant);
      && IsCastling(m) == isCastling && IsEnPassant(m) == isEnPassant
      && (IsQuiet(m) <==> captured == NoPiece && !isEnPassant && promoted == NoPiece)
      && (IsCapture(m) <==> captured != NoPiece || isEnPassant)
      && (IsPromotion(m) <==> promoted != NoPiece)
  {
    WordFields(SquareBits(from), SquareBits(to), PieceBits(piece), FlagBit(isCastling),
               PieceBits(captured), FlagBit(isEnPassant), PieceBits(promoted),
               SquareBits(captureSquare));
  }

  /** A word whose three piece fields name pieces (`Piece::from_index`
      accepts them). */
  predicate Valid(m: PackedMove)
  {
    (m.bits >> PieceShift) & PieceMask < 7
    && (m.bits >> CapturedShift) & PieceMask < 7
    && (m.bits >> IsPromotedShift) & PieceMask < 7
  }

  function From(m: PackedMove): Sq { Field(m.bits & SquareMask) }
  function To(m: PackedMove): Sq { Field((m.bits >> ToShift) & SquareMask) }
  function CaptureSquare(m: PackedMove): Sq { Field((m.bits >> CaptureSquareShift) & SquareMask) }
  function MovingPiece(m: PackedMove): Piece
    requires (m.bits >> PieceShift) & PieceMask < 7
  {
    PieceFromIndex(Field((m.bits >> PieceShift) & PieceMask))
  }
  function CapturedPiece(m: PackedMove): Piece
    requires (m.bits >> CapturedShift) & PieceMask < 7
  {
    PieceFromIndex(Field((m.bits >> CapturedShift) & PieceMask))
  }
  function PromotedPiece(m: PackedMove): Piece
    requires (m.bits >> IsPromotedShift) & PieceMask < 7
  {
    PieceFromIndex(Field((m.bits >> IsPromotedShift) & PieceMask))
  }
  predicate IsCastling(m: PackedMove) { m.bits & IsCastlingMask != 0 }
  predicate IsEnPassant(m: PackedMove) { m.bits & IsEnPassantMask != 0 }
  predicate IsQuiet(m: PackedMove) { m.bits & IsQuietMask == 0 }
  predicate IsCapture(m: PackedMove) { m.bits & IsCaptureMask != 0 }
  predicate IsPromotion(m: PackedMove) { m.bits & IsPromotedMask != 0 }
  predicate IsTactical(m: PackedMove) { IsCapture(m) || IsPromotion(m) }

  /** `is_double_pawn`: nothing captured, a pawn, and a sixteen-square step. */
  predicate IsDoublePawn(m: PackedMove)
    requires Valid(m)
  {
    CapturedPiece(m) == NoPiece && MovingPiece(m) == Pawn
    && (if To(m) >= From(m) then To(m) - From(m) else From(m) - To(m)) == 16
  }

  const NullMove: PackedMove := PackedMove(0)

  /** `Move::quiet`. */
  function Quiet(piece: Piece, from: Sq, to: Sq): PackedMove
  {
    New(piece, from, to, NoPiece, 0, NoPiece, false, false)
  }

  /** `Move::capture`: the captured piece stands on the target square. */
  function Capture(piece: Piece, from: Sq, to: Sq, captured: Piece): PackedMove
  {
    New(piece, from, to, captured, to, NoPiece, false, false)
  }

  /** `Move::en_passant`: a pawn takes a pawn standing on `captureSquare`. */
  function EnPassant(from: Sq, to: Sq, captureSquare: Sq): PackedMove
  {
    New(Pawn, from, to, Pawn, captureSquare, NoPiece, false, true)
  }

  /** `Move::promotion`: the capture square is a1 when nothing is taken. */
  function Promotion(from: Sq, to: Sq, promoted: Piece, captured: Piece): PackedMove
  {
    New(Pawn, from, to, captured, if captured == NoPiece then 0 else to, promoted, false, false)
  }

  /** `Move::castling`. */
  function Castling(from: Sq, to: Sq): PackedMove
  {
    New(King, from, to, NoPiece, 0, NoPiece, true, false)
  }

  /** The documented readings of a quiet move. */
  lemma QuietReadings(piece: Piece, from: Sq, to: Sq)
    ensures var m := Quiet(piece, from, to);
      && MovingPiece(m) == piece && From(m) == from && To(m) == to
      && CapturedPiece(m) == NoPiece && PromotedPiece(m) == NoPiece
      && !IsCastling(m) && !IsEnPassant(m)
      && IsQuiet(m) && !IsCapture(m) && !IsPromotion(m)
  {
    NewSquares(piece, from, to, NoPiece, 0, NoPiece, false, false);
    NewMovingPiece(piece, from, to, NoPiece, 0, NoPiece, false, false);
    NewCapturedPiece(piece, from, to, NoPiece, 0, NoPiece, false, false);
    NewPromotedPiece(piece, from, to, NoPiece, 0, NoPiece, false, false);
    NewFlags(piece, from, to, NoPiece, 0, NoPiece, false, false);
  }

  /** The documented readings of a capture. */
  lemma CaptureReadings(piece: Piece, from: Sq, to: Sq, captured: Piece)
    requires captured != NoPiece
    ensures var m := Capture(piece, from, to, captured);
      && MovingPiece(m) == piece && CapturedPiece(m) == captured && CaptureSquare(m) == to
      && !IsQuiet(m) && IsCapture(m) && !IsPromotion(m) && IsTactical(m)
  {
    NewSquares(piece, from, to, captured, to, NoPiece, false, false);
    NewMovingPiece(piece, from, to, captured, to, NoPiece, false, false);
    NewCapturedPiece(piece, from, to, captured, to, NoPiece, false, false);
    NewPromotedPiece(piece, from, to, captured, to, NoPiece, false, false);
    NewFlags(piece, from, to, captured, to, NoPiece, false, false);
  }

  /** The documented readings of an en-passant capture. */
  lemma EnPassantReadings(from: Sq, to: Sq, captureSquare: Sq)
    ensures var m := EnPassant(from, to, captureSquare);
      && MovingPiece(m) == Pawn && CapturedPiece(m) == Pawn
      && CaptureSquare(m) == captureSquare
      && IsEnPassant(m) && IsCapture(m) && !IsQuiet(m) && !IsPromotion(m)
  {
    NewSquares(Pawn, from, to, Pawn, captureSquare, NoPiece, false, true);
    NewMovingPiece(Pawn, from, to, Pawn, captureSquare, NoPiece, false, true);
    NewCapturedPiece(Pawn, from, to, Pawn, captureSquare, NoPiece, false, true);
    NewPromotedPiece(Pawn, from, to, Pawn, captureSquare, NoPiece, false, true);
    NewFlags(Pawn, from, to, Pawn, captureSquare, NoPiece, false, true);
  }

  /** The documented readings of a promotion. */
  lemma PromotionReadings(from: Sq, to: Sq, promoted: Piece, captured: Piece)
    requires promoted in {Knight, Bishop, Rook, Queen}
    ensures var m := Promotion(from, to, promoted, captured);
      && MovingPiece(m) == Pawn && PromotedPiece(m) == promoted && CapturedPiece(m) == captured
      && IsPromotion(m) && !IsQuiet(m)
      && (IsCapture(m) <==> captured != NoPiece)
      && CaptureSquare(m) == (if captured == NoPiece then 0 else to)
  {
    NewSquares(Pawn, from, to, captured, if captured == NoPiece then 0 else to, promoted, false, false);
    NewMovingPiece(Pawn, from, to, captured, if captured == NoPiece then 0 else to, promoted, false, false);
    NewCapturedPiece(Pawn, from, to, captured, if captured == NoPiece then 0 else to, promoted, false, false);
    NewPromotedPiece(Pawn, from, to, captured, if captured == NoPiece then 0 else to, promoted, false, false);
    NewFlags(Pawn, from, to, captured, if captured == NoPiece then 0 else to, promoted, false, false);
  }

  /** The documented readings of a castling move: it counts as quiet. */
  lemma CastlingReadings(from: Sq, to: Sq)
    ensures var m := Castling(from, to);
      && MovingPiece(m) == King && IsCastling(m) && IsQuiet(m)
      && !IsCapture(m) && !IsPromotion(m) && !IsEnPassant(m)
  {
    NewSquares(King, from, to, NoPiece, 0, NoPiece, true, false);
    NewMovingPiece(King, from, to, NoPiece, 0, NoPiece, true, false);
    NewCapturedPiece(King, from, to, NoPiece, 0, NoPiece, true, false);
    NewPromotedPiece(King, from, to, NoPiece, 0, NoPiece, true, false);
    NewFlags(King, from, to, NoPiece, 0, NoPiece, true, false);
  }

  /** A quiet pawn move is a double push exactly when it spans sixteen
      squares; a capture never is. */
  lemma DoublePawnReadings(from: Sq, to: Sq, captured: Piece)
    ensures IsDoublePawn(Quiet(Pawn, from, to)) <==> from - to == 16 || to - from == 16
    ensures captured != NoPiece ==> !IsDoublePawn(Capture(Pawn, from, to, captured))
  {
    NewSquares(Pawn, from, to, NoPiece, 0, NoPiece, false, false);
    NewMovingPiece(Pawn, from, to, NoPiece, 0, NoPiece, false, false);
    NewCapturedPiece(Pawn, from, to, NoPiece, 0, NoPiece, false, false);
    NewPromotedPiece(Pawn, from, to, NoPiece, 0, NoPiece, false, false);
    NewMovingPiece(Pawn, from, to, captured, to, NoPiece, false, false);
    NewCapturedPiece(Pawn, from, to, captured, to, NoPiece, false, false);
    NewPromotedPiece(Pawn, from, to, captured, to, NoPiece, false, false);
  }
}
