/** The parts of crates/base/src/square/square.rs that produce or consume
    bitboards: the rank and file masks of a square and the conversion of
    a one-square bitboard back to its square. */
module SquareBoards {
  import opened Squares
  import opened Bitboards

  /** `RANKS[r]`: the eight squares of rank `r`. */
  function RankMask(r: int): (m: Bitboard)
    requires 0 <= r <= 7
    ensures forall q: Square :: q in m <==> Rank(q) == r
  {
    set q: Square | q in AllBits && Rank(q) == r
  }

  /** `FILES[f]`: the eight squares of file `f`. */
  function FileMask(f: int): (m: Bitboard)
    requires 0 <= f <= 7
    ensures forall q: Square :: q in m <==> File(q) == f
  {
    set q: Square | q in AllBits && File(q) == f
  }

  /** `rank_bb`: the rank through the square. */
  function RankBb(s: Square): (m: Bitboard)
    ensures s in m
    ensures forall q: Square :: q in m <==> Rank(q) == Rank(s)
  {
    RankMask(Rank(s))
  }

  /** `file_bb` as written: it looks `FILES` up by the square's rank. */
  function FileBbAsWritten(s: Square): (m: Bitboard)
    ensures forall q: Square :: q in m <==> File(q) == Rank(s)
  {
    FileMask(Rank(s))
  }

  /** For b1 the as-written mask is the a-file, which does not hold b1. */
  lemma FileBbAsWrittenMissesSquare()
    ensures 1 !in FileBbAsWritten(1)
    ensures 0 in FileBbAsWritten(1)
  {
  }

  /** `file_bb` indexed by the file, as its name says. */
  function FileBb(s: Square): (m: Bitboard)
    ensures s in m
    ensures forall q: Square :: q in m <==> File(q) == File(s)
  {
    FileMask(File(s))
  }

  /** The two differ exactly off the long diagonal a1-h8. */
  lemma FileBbAgreesOnDiagonal(s: Square)
    ensures FileBbAsWritten(s) == FileBb(s) <==> Rank(s) == File(s)
  {
    if FileBbAsWritten(s) == FileBb(s) {
      assert s in FileBbAsWritten(s);
    }
  }

  /** `From<Bitboard> for Square`: the board must hold exactly one square,
      and that square is returned. */
  function SquareFromBitboard(b: Bitboard): (s: Square)
    requires |b| == 1
    ensures b == {s}
  {
    var s := TrailingIndex(b);
    assert b == {s} by {
      if q :| q in b && q != s {
        assert {s, q} <= b;
        SubsetCardinality({s, q}, b);
      }
    }
    s
  }

  /** Converting a square to a bitboard and back gives the square. */
  lemma SquareBitRoundTrip(s: Square)
    ensures SquareFromBitboard(SquareBit(s)) == s
  {
  }
}
