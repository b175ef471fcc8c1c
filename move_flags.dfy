/** The four-bit move flag of the 16-bit move word
    (crates/base/src/move/flag.rs). */
module MoveFlags {
  import opened Pieces

  datatype MoveFlag =
    | Quiet | DoublePawn | KingCastle | QueenCastle | Capture | EnPassant
    | KnightPromotion | BishopPromotion | RookPromotion | QueenPromotion
    | KnightPromotionCapture | BishopPromotionCapture
    | RookPromotionCapture | QueenPromotionCapture

  /** The `#[repr(u8)]` code of each flag. */
  function Code(f: MoveFlag): (c: bv16)
    ensures c < 16 && c != 6 && c != 7
  {
    match f
    case Quiet => 0x0
    case DoublePawn => 0x1
    case KingCastle => 0x2
    case QueenCastle => 0x3
    case Capture => 0x4
    case EnPassant => 0x5
    case KnightPromotion => 0x8
    case BishopPromotion => 0x9
    case RookPromotion => 0xA
    case QueenPromotion => 0xB
    case KnightPromotionCapture => 0xC
    case BishopPromotionCapture => 0xD
    case RookPromotionCapture => 0xE
    case QueenPromotionCapture => 0xF
  }

  /** The codes `from_flag` accepts; on the others it is `unreachable!`. */
  predicate IsFlagCode(c: bv16)
  {
    c < 16 && c != 6 && c != 7
  }

  /** `from_flag`. */
  function FromFlag(c: bv16): (f: MoveFlag)
    requires IsFlagCode(c)
    ensures Code(f) == c
  {
    if c == 0x0 then Quiet
    else if c == 0x1 then DoublePawn
    else if c == 0x2 then KingCastle
    else if c == 0x3 then QueenCastle
    else if c == 0x4 then Capture
    else if c == 0x5 then EnPassant
    else if c == 0x8 then KnightPromotion
    else if c == 0x9 then BishopPromotion
    else if c == 0xA then RookPromotion
    else if c == 0xB then QueenPromotion
    else if c == 0xC then KnightPromotionCapture
    else if c == 0xD then BishopPromotionCapture
    else if c == 0xE then RookPromotionCapture
    else QueenPromotionCapture
  }

  /** `from_flag` inverts the code on all fourteen flags. */
  lemma FromFlagCode(f: MoveFlag)
    ensures FromFlag(Code(f)) == f
  {
  }

  predicate IsPromotionFlag(f: MoveFlag)
  {
    f in {KnightPromotion, BishopPromotion, RookPromotion, QueenPromotion,
          KnightPromotionCapture, BishopPromotionCapture, RookPromotionCapture,
          QueenPromotionCapture}
  }

  predicate IsCaptureFlag(f: MoveFlag)
  {
    f in {Capture, EnPassant, KnightPromotionCapture, BishopPromotionCapture,
          RookPromotionCapture, QueenPromotionCapture}
  }

  /** `PROMOTION_FLAG_MASK` (0b1000) marks the eight promotion codes, and
      `CAPTURE_FLAG_MASK` (0b0100) is set in every capturing promotion. */
  lemma PromotionBits(f: MoveFlag)
    ensures IsPromotionFlag(f) <==> Code(f) & 0x8 != 0
    ensures IsPromotionFlag(f) ==> (IsCaptureFlag(f) <==> Code(f) & 0x4 != 0)
  {
  }

  /** `get_promotion_piece`. */
  function PromotionPiece(f: MoveFlag): (p: Piece)
    ensures p != NoPiece <==> IsPromotionFlag(f)
    ensures p in {NoPiece, Knight, Bishop, Rook, Queen}
  {
    match f
    case KnightPromotion | KnightPromotionCapture => Knight
    case BishopPromotion | BishopPromotionCapture => Bishop
    case RookPromotion | RookPromotionCapture => Rook
    case QueenPromotion | QueenPromotionCapture => Queen
    case _ => NoPiece
  }

  /** The flag `Move::promotion` picks for a piece and a capture bit. */
  function PromotionFlag(p: Piece, isCapture: bool): (f: MoveFlag)
    requires p in {Knight, Bishop, Rook, Queen}
    ensures IsPromotionFlag(f) && PromotionPiece(f) == p
    ensures IsCaptureFlag(f) == isCapture
  {
    match p
    case Knight => if isCapture then KnightPromotionCapture else KnightPromotion
    case Bishop => if isCapture then BishopPromotionCapture else BishopPromotion
    case Rook => if isCapture then RookPromotionCapture else RookPromotion
    case Queen => if isCapture then QueenPromotionCapture else QueenPromotion
  }

  /** A promotion and its capturing variant promote to the same piece, and
      the code of the one is the code of the other with bit 0b0100 set. */
  lemma PromotionVariants(p: Piece)
    requires p in {Knight, Bishop, Rook, Queen}
    ensures PromotionPiece(PromotionFlag(p, false)) == PromotionPiece(PromotionFlag(p, true))
    ensures Code(PromotionFlag(p, true)) == Code(PromotionFlag(p, false)) | 0x4
  {
  }
}
