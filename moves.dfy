/** The 16-bit move word (crates/base/src/move/move.rs and constants.rs):
    bits 0-5 the source square, bits 6-11 the target square, bits 12-15
    the flag. */
module Moves {
  import opened Wrappers
  import opened Pieces
  import opened Squares
  import opened MoveFlags

  datatype Move = Move(bits: bv16)

  const FromShift: bv16 := 0
  const FromMask: bv16 := 0x3F
  const ToShift: bv16 := 6
  const ToMask: bv16 := 0x3F
  const FlagShift: bv16 := 12
  /** `FLAG_MASK` as the source declares it. */
  const FlagMaskAsWritten: bv16 := 0xF000
  /** The mask the four-bit flag field needs. */
  const FlagMask: bv16 := 0x000F

  /** The packing every constructor performs, for a given flag mask. */
  function PackWith(flagMask: bv16, from: Square, to: Square, flag: MoveFlag): Move
  {
    Move((((from as bv16) & FromMask) << FromShift)
       | (((to as bv16) & ToMask) << ToShift)
       | ((Code(flag) & flagMask) << FlagShift))
  }

  /** The raw flag field `flag()` reads, for a given flag mask. */
  function FlagCodeWith(flagMask: bv16, m: Move): bv16
  {
    (m.bits >> FlagShift) & flagMask
  }

  /** Packing with `FLAG_MASK = 0xF000`, as the constructors are written. */
  function PackAsWritten(from: Square, to: Square, flag: MoveFlag): (m: Move)
    ensures m == Pack(from, to, MoveFlag.Quiet)
  {
    assert Code(flag) & FlagMaskAsWritten == 0 == Code(MoveFlag.Quiet) & FlagMask;
    PackWith(FlagMaskAsWritten, from, to, flag)
  }

  /** `flag()` as written: the field is masked with 0xF000 after the shift,
      so it is always 0 and every move reads back as `Quiet`. */
  function FlagAsWritten(m: Move): (f: MoveFlag)
    ensures f == MoveFlag.Quiet
  {
    FromFlag(FlagCodeWith(FlagMaskAsWritten, m))
  }

  /** With the declared mask a capture is read back as a quiet move. */
  lemma FlagAsWrittenLosesCapture(from: Square, to: Square)
    ensures FlagAsWritten(PackAsWritten(from, to, Capture)) != Capture
  {
  }

  /** The packing with the four-bit flag mask, which the rest of the
      model uses. */
  function Pack(from: Square, to: Square, flag: MoveFlag): (m: Move)
    ensures Valid(m)
    ensures From(m) == from && To(m) == to && Flag(m) == flag
  {
    PackFrom(FlagMask, from, to, flag);
    PackTo(FlagMask, from, to, flag);
    PackFlag(from, to, flag);
    FromFlagCode(flag);
    PackWith(FlagMask, from, to, flag)
  }

  lemma SquareToBits(s: Square)
    ensures (s as bv16) < 64 && (s as bv16) as int == s
  {
    SquareToBitsValue(s);
  }

  lemma SquareToBitsValue(s: Square)
    ensures (s as bv16) as int == s
  {
    if s < 16 {} else if s < 32 {} else if s < 48 {} else {}
  }

  lemma PackFrom(mask: bv16, from: Square, to: Square, flag: MoveFlag)
    ensures From(PackWith(mask, from, to, flag)) == from
  {
    var f, t, c := from as bv16, to as bv16, Code(flag) & mask;
    SquareToBits(from);
    assert (((f & 0x3F) << 0) | ((t & 0x3F) << 6) | (c << 12)) & 0x3F == f;
  }

  lemma PackTo(mask: bv16, from: Square, to: Square, flag: MoveFlag)
    ensures To(PackWith(mask, from, to, flag)) == to
  {
    var f, t, c := from as bv16, to as bv16, Code(flag) & mask;
    SquareToBits(to);
    assert ((((f & 0x3F) << 0) | ((t & 0x3F) << 6) | (c << 12)) >> 6) & 0x3F == t;
  }

  lemma PackFlag(from: Square, to: Square, flag: MoveFlag)
    ensures FlagCodeWith(FlagMask, PackWith(FlagMask, from, to, flag)) == Code(flag)
  {
    var f, t, c := from as bv16, to as bv16, Code(flag);
    assert ((((f & 0x3F) << 0) | ((t & 0x3F) << 6) | ((c & 0xF) << 12)) >> 12) & 0xF == c;
  }

  /** A move word whose flag field holds one of the fourteen codes. */
  predicate Valid(m: Move)
  {
    IsFlagCode(FlagCodeWith(FlagMask, m))
  }

  /** `from()`. */
  function From(m: Move): (s: Square)
  {
    ((m.bits >> FromShift) & FromMask) as int
  }

  /** `to()`. */
  function To(m: Move): (s: Square)
  {
    ((m.bits >> ToShift) & ToMask) as int
  }

  /** `flag()` with the four-bit mask. */
  function Flag(m: Move): (f: MoveFlag)
    requires Valid(m)
    ensures Code(f) == FlagCodeWith(FlagMask, m)
  {
    FromFlag(FlagCodeWith(FlagMask, m))
  }

  /** `Move::quiet`. */
  function QuietMove(from: Square, to: Square): Move { Pack(from, to, MoveFlag.Quiet) }
  /** `Move::double_pawn`. */
  function DoublePawnMove(from: Square, to: Square): Move { Pack(from, to, DoublePawn) }
  /** `Move::capture`. */
  function CaptureMove(from: Square, to: Square): Move { Pack(from, to, Capture) }
  /** `Move::en_passant`. */
  function EnPassantMove(from: Square, to: Square): Move { Pack(from, to, EnPassant) }
  /** `Move::castle`. */
  function Castle(from: Square, to: Square, kingside: bool): Move
  {
    Pack(from, to, if kingside then KingCastle else QueenCastle)
  }
  /** `Move::promotion`: only knight, bishop, rook and queen are accepted
      (the others are `unreachable!`). */
  function Promotion(from: Square, to: Square, promoted: Piece, isCapture: bool): Move
    requires promoted in {Knight, Bishop, Rook, Queen}
  {
    Pack(from, to, PromotionFlag(promoted, isCapture))
  }

  /** `null_move`. */
  const NullMove: Move := Move(0)

  /** The null move reads as a quiet move from a1 to a1. */
  lemma NullMoveFields()
    ensures Valid(NullMove) && From(NullMove) == 0 && To(NullMove) == 0
    ensures Flag(NullMove) == MoveFlag.Quiet
  {
  }

  /** Every constructor records its squares and its flag. */
  lemma ConstructorsRecover(from: Square, to: Square, kingside: bool, promoted: Piece, isCapture: bool)
    ensures From(QuietMove(from, to)) == from && To(QuietMove(from, to)) == to
    ensures Flag(QuietMove(from, to)) == MoveFlag.Quiet
    ensures From(DoublePawnMove(from, to)) == from && To(DoublePawnMove(from, to)) == to
    ensures Flag(DoublePawnMove(from, to)) == DoublePawn
    ensures From(CaptureMove(from, to)) == from && To(CaptureMove(from, to)) == to
    ensures Flag(CaptureMove(from, to)) == Capture
    ensures From(EnPassantMove(from, to)) == from && To(EnPassantMove(from, to)) == to
    ensures Flag(EnPassantMove(from, to)) == EnPassant
    ensures From(Castle(from, to, kingside)) == from && To(Castle(from, to, kingside)) == to
    ensures Flag(Castle(from, to, kingside)) == (if kingside then KingCastle else QueenCastle)
    ensures promoted in {Knight, Bishop, Rook, Queen} ==>
              From(Promotion(from, to, promoted, isCapture)) == from
              && To(Promotion(from, to, promoted, isCapture)) == to
              && PromotionPiece(Flag(Promotion(from, to, promoted, isCapture))) == promoted
  {
  }

  /** The as-written packing keeps the squares: only the flag is lost. */
  lemma PackAsWrittenKeepsSquares(from: Square, to: Square, flag: MoveFlag)
    ensures From(PackAsWritten(from, to, flag)) == from
    ensures To(PackAsWritten(from, to, flag)) == to
    ensures PackAsWritten(from, to, flag) == Pack(from, to, MoveFlag.Quiet)
  {
    PackFrom(FlagMaskAsWritten, from, to, flag);
    PackTo(FlagMaskAsWritten, from, to, flag);
    assert Code(flag) & FlagMaskAsWritten == 0 == Code(MoveFlag.Quiet) & FlagMask;
  }

  predicate IsPromotion(m: Move) requires Valid(m) { IsPromotionFlag(Flag(m)) }
  predicate IsCapture(m: Move) requires Valid(m) { IsCaptureFlag(Flag(m)) }
  predicate IsDoublePawn(m: Move) requires Valid(m) { Flag(m) == DoublePawn }
  predicate IsEnPassant(m: Move) requires Valid(m) { Flag(m) == EnPassant }
  predicate IsCastling(m: Move) requires Valid(m) { Flag(m) in {KingCastle, QueenCastle} }
  predicate IsTactical(m: Move) requires Valid(m) { IsCapture(m) || IsPromotion(m) }

  /** The move predicates read the flag field's bits: a promotion has bit
      0b1000, a capturing promotion also 0b0100; captures are exactly the
      capture, en-passant and capturing-promotion codes. */
  lemma PredicatesByCode(m: Move)
    requires Valid(m)
    ensures var c := FlagCodeWith(FlagMask, m);
      && (IsPromotion(m) <==> c & 0x8 != 0)
      && (IsCapture(m) <==> c == 0x4 || c == 0x5 || c & 0xC == 0xC)
      && (IsCastling(m) <==> c == 0x2 || c == 0x3)
      && (IsTactical(m) <==> c & 0x8 != 0 || c == 0x4 || c == 0x5)
  {
  }

  // Named squares used by the castling rules.
  const A1: Square := 0
  const C1: Square := 2
  const D1: Square := 3
  const E1: Square := 4
  const F1: Square := 5
  const G1: Square := 6
  const H1: Square := 7
  const A8: Square := 56
  const C8: Square := 58
  const D8: Square := 59
  const E8: Square := 60
  const F8: Square := 61
  const G8: Square := 62
  const H8: Square := 63

  datatype MoveError =
    | InvalidMoveFormat(input: string)
    | InvalidSquare(error: SquareError)
    | PieceNotFound(square: Square)
    | InvalidFenPiece(ch: char)
    /** `Move::promotion` reaches `unreachable!` for a pawn or king suffix. */
    | PromotionPanic(piece: Piece)

  /** `Move::parse` on a board given by its 64 tiles and its en-passant
      target square. A parsed move goes from the square the first two
      characters name to the square the next two name, and its source
      square holds a piece. */
  function Parse(tiles: seq<Option<Tile>>, enPassantTarget: Option<Square>, input: string)
    : (r: Result<Move, MoveError>)
    requires |tiles| == 64
    ensures |input| < 4 ==> r == Err(InvalidMoveFormat(input))
    ensures r.Ok? ==> |input| >= 4 && Valid(r.value)
                      && FromStr(input[0..2]) == Ok(From(r.value))
                      && FromStr(input[2..4]) == Ok(To(r.value))
                      && tiles[From(r.value)].Some?
  {
    if |input| < 4 then Err(InvalidMoveFormat(input))
    else match FromStr(input[0..2])
    case Err(e) => Err(InvalidSquare(e))
    case Ok(from) =>
      match FromStr(input[2..4])
      case Err(e) => Err(InvalidSquare(e))
      case Ok(to) =>
        if tiles[from].None? then Err(PieceNotFound(from))
        else
          var promotion: Result<Option<Piece>, MoveError> :=
            if |input| == 5 then
              match TileFromFen(input[4])
              case None => Err(InvalidFenPiece(input[4]))
              case Some(t) => Ok(Some(t.piece))
            else Ok(None);
          if promotion.Err? then Err(promotion.error)
          else Classify(tiles[from].value.piece, from, to, tiles[to].Some?, promotion.value, enPassantTarget)
  }

  /** The choice of constructor in `Move::parse`, once both squares, the
      moving piece and the promotion suffix are known. */
  function Classify(piece: Piece, from: Square, to: Square, isCapture: bool,
                    promotion: Option<Piece>, enPassantTarget: Option<Square>)
    : (r: Result<Move, MoveError>)
    ensures r.Ok? ==> Valid(r.value) && From(r.value) == from && To(r.value) == to
    ensures r.Err? <==> !IsDoublePawnStep(piece, from, to)
                        && !(enPassantTarget == Some(to) && piece == Pawn)
                        && promotion.Some? && promotion.value !in {Knight, Bishop, Rook, Queen}
  {
    var isEnPassant := enPassantTarget == Some(to) && piece == Pawn;
    if IsDoublePawnStep(piece, from, to) then Ok(DoublePawnMove(from, to))
    else if isEnPassant then Ok(EnPassantMove(from, to))
    else if promotion.Some? then
      var promoted := promotion.value;
      if promoted in {Knight, Bishop, Rook, Queen} then Ok(Promotion(from, to, promoted, isCapture))
      else Err(PromotionPanic(promoted))
    else if isCapture then Ok(CaptureMove(from, to))
    else if piece == King then
      if (from == E8 && to == G8) || (from == E1 && to == G1) then Ok(Castle(from, to, true))
      else if (from == E8 && to == C8) || (from == E1 && to == C1) then Ok(Castle(from, to, false))
      else Ok(QuietMove(from, to))
    else Ok(QuietMove(from, to))
  }

  /** The double-push test of `Move::parse`: a pawn on rank 2 or 7 moving
      sixteen squares. */
  predicate IsDoublePawnStep(piece: Piece, from: Square, to: Square)
  {
    piece == Pawn && (Rank(from) == 1 || Rank(from) == 6) && Abs(from - to) == 16
  }

  /** A king move written e1g1 or e8g8 onto an empty square parses as a
      kingside castle; e1c1 and e8c8 as a queenside one. */
  lemma ParseCastling(tiles: seq<Option<Tile>>, ep: Option<Square>, from: Square, to: Square, c: Color)
    requires |tiles| == 64
    requires tiles[from] == Some(Tile(King, c)) && tiles[to].None?
    requires (from == E1 && to in {G1, C1}) || (from == E8 && to in {G8, C8})
    ensures Parse(tiles, ep, ToString(from) + ToString(to)) == Ok(Castle(from, to, to in {G1, G8}))
  {
    ParseName(tiles, ep, from, to);
    ClassifyCastling(from, to, ep);
  }

  /** Parsing the four-character name of a move with a piece on its source
      square reduces to the constructor choice. */
  lemma ParseName(tiles: seq<Option<Tile>>, ep: Option<Square>, from: Square, to: Square)
    requires |tiles| == 64 && tiles[from].Some?
    ensures Parse(tiles, ep, ToString(from) + ToString(to))
            == Classify(tiles[from].value.piece, from, to, tiles[to].Some?, None, ep)
  {
    var input := ToString(from) + ToString(to);
    assert input[0..2] == ToString(from);
    assert input[2..4] == ToString(to);
    FromStrToString(from);
    FromStrToString(to);
    assert |input| == 4;
    assert FromStr(input[0..2]) == Ok(from) && FromStr(input[2..4]) == Ok(to);
  }

  lemma ClassifyCastling(from: Square, to: Square, ep: Option<Square>)
    requires (from == E1 && to in {G1, C1}) || (from == E8 && to in {G8, C8})
    ensures Classify(King, from, to, false, None, ep) == Ok(Castle(from, to, to in {G1, G8}))
  {
  }

  /** A pawn moving two ranks from its home rank parses as a double push,
      ahead of every other reading. */
  lemma ParseDoublePawn(tiles: seq<Option<Tile>>, ep: Option<Square>, from: Square, to: Square, c: Color)
    requires |tiles| == 64
    requires tiles[from] == Some(Tile(Pawn, c)) && Rank(from) in {1, 6} && Abs(from - to) == 16
    ensures Parse(tiles, ep, ToString(from) + ToString(to)) == Ok(DoublePawnMove(from, to))
  {
    ParseName(tiles, ep, from, to);
  }
}
