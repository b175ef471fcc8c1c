/** The king, knight, pawn-push and pawn-attack tables of the lookup-table
    generator (crates/lookup/src/generators/moves.rs). Each entry is built
    as the source builds it, one guarded bit at a time, and is then shown
    to be the set of squares a piece reaches, stated by rank and file
    distance alone. */
module MoveTables {
  import opened Squares
  import opened Bitboards
  import opened Pieces
  import Directions
  import LookupUtils

  /** The bit of a rank and a file when `guard` holds, else nothing: one
      `if guard { moves[from] |= bits(rank, file) }` of the generators. */
  function Guarded(guard: bool, rank: int, file: int): Bitboard
    requires guard ==> 0 <= rank <= 7 && 0 <= file <= 7
  {
    if guard then LookupUtils.Bits(rank, file) else {}
  }

  lemma GuardedMembers(guard: bool, rank: int, file: int, t: Square)
    requires guard ==> 0 <= rank <= 7 && 0 <= file <= 7
    ensures t in Guarded(guard, rank, file) <==> guard && Rank(t) == rank && File(t) == file
  {
  }

  // ----- King -----

  /** The entry `generate_king_moves` builds for a rank and a file. */
  function KingMovesAt(rank: int, file: int): Bitboard
    requires 0 <= rank <= 7 && 0 <= file <= 7
  {
    {}
    + Guarded(file > 0, rank, file - 1)
    + Guarded(file < 7, rank, file + 1)
    + Guarded(rank > 0, rank - 1, file)
    + Guarded(rank < 7, rank + 1, file)
    + Guarded(rank > 0 && file > 0, rank - 1, file - 1)
    + Guarded(rank > 0 && file < 7, rank - 1, file + 1)
    + Guarded(rank < 7 && file > 0, rank + 1, file - 1)
    + Guarded(rank < 7 && file < 7, rank + 1, file + 1)
  }

  /** The squares a king on `s` reaches: every other square at most one
      rank and one file away. */
  function KingMoves(s: Square): Bitboard
  {
    set t: Square | 0 <= t < 64 && t != s && Abs(Rank(t) - Rank(s)) <= 1 && Abs(File(t) - File(s)) <= 1
  }

  /** These are the squares at king distance one. */
  lemma KingMovesDistance(s: Square, t: Square)
    ensures t in KingMoves(s) <==> Directions.Distance(s, t) == 1
  {
  }

  /** The entry built for a rank and a file holds the other squares at most
      one rank and one file away. */
  lemma KingMovesAtMembers(rank: int, file: int, t: Square)
    requires 0 <= rank <= 7 && 0 <= file <= 7
    ensures t in KingMovesAt(rank, file) <==>
      (Rank(t) != rank || File(t) != file) && Abs(Rank(t) - rank) <= 1 && Abs(File(t) - file) <= 1
  {
    GuardedMembers(file > 0, rank, file - 1, t);
    GuardedMembers(file < 7, rank, file + 1, t);
    GuardedMembers(rank > 0, rank - 1, file, t);
    GuardedMembers(rank < 7, rank + 1, file, t);
    GuardedMembers(rank > 0 && file > 0, rank - 1, file - 1, t);
    GuardedMembers(rank > 0 && file < 7, rank - 1, file + 1, t);
    GuardedMembers(rank < 7 && file > 0, rank + 1, file - 1, t);
    GuardedMembers(rank < 7 && file < 7, rank + 1, file + 1, t);
    KingStep(rank, file, Rank(t), File(t));
  }

  /** The eight guarded neighbours of (rank, file), as offsets. */
  lemma KingStep(rank: int, file: int, r: int, f: int)
    requires 0 <= rank <= 7 && 0 <= file <= 7 && 0 <= r <= 7 && 0 <= f <= 7
    ensures (file > 0 && r == rank && f == file - 1)
      || (file < 7 && r == rank && f == file + 1)
      || (rank > 0 && r == rank - 1 && f == file)
      || (rank < 7 && r == rank + 1 && f == file)
      || (rank > 0 && file > 0 && r == rank - 1 && f == file - 1)
      || (rank > 0 && file < 7 && r == rank - 1 && f == file + 1)
      || (rank < 7 && file > 0 && r == rank + 1 && f == file - 1)
      || (rank < 7 && file < 7 && r == rank + 1 && f == file + 1)
      <==> (r != rank || f != file) && Abs(r - rank) <= 1 && Abs(f - file) <= 1
  {
  }

  lemma KingMovesAtMatches(s: Square)
    ensures KingMovesAt(Rank(s), File(s)) == KingMoves(s)
  {
    forall t: Square
      ensures t in KingMovesAt(Rank(s), File(s)) <==> t in KingMoves(s)
    {
      KingMovesAtMember(s, t);
    }
  }

  lemma KingMovesAtMember(s: Square, t: Square)
    ensures t in KingMovesAt(Rank(s), File(s)) <==> t in KingMoves(s)
  {
    KingMovesAtMembers(Rank(s), File(s), t);
    RankFileDetermineSquare(t, s);
    assert t in KingMoves(s) <==>
      t != s && Abs(Rank(t) - Rank(s)) <= 1 && Abs(File(t) - File(s)) <= 1;
  }

  /** The king table never holds the square itself and is symmetric. */
  lemma KingMovesSymmetric(s: Square, t: Square)
    ensures s !in KingMoves(s)
    ensures t in KingMoves(s) <==> s in KingMoves(t)
  {
  }

  /** The bits `generate_king_moves` ORs into one entry, in the source's
      order. */
  method KingEntry(rank: int, file: int) returns (entry: Bitboard)
    requires 0 <= rank <= 7 && 0 <= file <= 7
    ensures entry == KingMovesAt(rank, file)
  {
    entry := {};
    if file > 0 { entry := entry + LookupUtils.Bits(rank, file - 1); }
    if file < 7 { entry := entry + LookupUtils.Bits(rank, file + 1); }
    if rank > 0 { entry := entry + LookupUtils.Bits(rank - 1, file); }
    if rank < 7 { entry := entry + LookupUtils.Bits(rank + 1, file); }
    if rank > 0 && file > 0 { entry := entry + LookupUtils.Bits(rank - 1, file - 1); }
    if rank > 0 && file < 7 { entry := entry + LookupUtils.Bits(rank - 1, file + 1); }
    if rank < 7 && file > 0 { entry := entry + LookupUtils.Bits(rank + 1, file - 1); }
    if rank < 7 && file < 7 { entry := entry + LookupUtils.Bits(rank + 1, file + 1); }
  }

  /** The loop body of `generate_king_moves`: the still empty entry of one
      square gets the king's moves from it; no other entry changes. */
  method AddKingMoves(moves: array<Bitboard>, rank: int, file: int)
    requires moves.Length == 64 && 0 <= rank <= 7 && 0 <= file <= 7
    requires moves[rank * 8 + file] == {}
    modifies moves
    ensures moves[rank * 8 + file] == KingMoves(rank * 8 + file)
    ensures forall s :: 0 <= s < 64 && s != rank * 8 + file ==> moves[s] == old(moves[s])
  {
    var from := LookupUtils.Index(rank, file);
    var entry := KingEntry(rank, file);
    KingMovesAtMatches(from);
    moves[from] := entry;
  }

  /** `generate_king_moves`: every square, rank by rank. */
  method GenerateKingMoves() returns (moves: array<Bitboard>)
    ensures fresh(moves) && moves.Length == 64
    ensures forall s: Square :: moves[s] == KingMoves(s)
  {
    moves := new Bitboard[64](_ => {});
    ghost var table := (s: Square) => KingMoves(s);
    for rank := 0 to 8
      invariant forall s: Square :: moves[s] == if s < rank * 8 then table(s) else {}
    {
      for file := 0 to 8
        invariant forall s: Square :: moves[s] == if s < rank * 8 + file then table(s) else {}
      {
        AddKingMoves(moves, rank, file);
      }
    }
  }

  // ----- Knight -----

  /** The entry `generate_knight_moves` builds for a rank and a file. */
  function KnightMovesAt(rank: int, file: int): Bitboard
    requires 0 <= rank <= 7 && 0 <= file <= 7
  {
    {}
    + Guarded(rank > 1 && file > 0, rank - 2, file - 1)
    + Guarded(rank > 1 && file < 7, rank - 2, file + 1)
    + Guarded(rank > 0 && file > 1, rank - 1, file - 2)
    + Guarded(rank > 0 && file < 6, rank - 1, file + 2)
    + Guarded(rank < 7 && file > 1, rank + 1, file - 2)
    + Guarded(rank < 7 && file < 6, rank + 1, file + 2)
    + Guarded(rank < 6 && file > 0, rank + 2, file - 1)
    + Guarded(rank < 6 && file < 7, rank + 2, file + 1)
  }

  /** A knight's jump: two ranks and one file, or one rank and two files. */
  predicate KnightJump(s: Square, t: Square)
  {
    var dr, df := Abs(Rank(t) - Rank(s)), Abs(File(t) - File(s));
    (dr == 2 && df == 1) || (dr == 1 && df == 2)
  }

  /** The squares a knight on `s` reaches. */
  function KnightMoves(s: Square): Bitboard
  {
    set t: Square | 0 <= t < 64 && KnightJump(s, t)
  }

  lemma KnightMovesAtMembers(rank: int, file: int, t: Square)
    requires 0 <= rank <= 7 && 0 <= file <= 7
    ensures t in KnightMovesAt(rank, file) <==>
      var dr, df := Abs(Rank(t) - rank), Abs(File(t) - file);
      (dr == 2 && df == 1) || (dr == 1 && df == 2)
  {
    GuardedMembers(rank > 1 && file > 0, rank - 2, file - 1, t);
    GuardedMembers(rank > 1 && file < 7, rank - 2, file + 1, t);
    GuardedMembers(rank > 0 && file > 1, rank - 1, file - 2, t);
    GuardedMembers(rank > 0 && file < 6, rank - 1, file + 2, t);
    GuardedMembers(rank < 7 && file > 1, rank + 1, file - 2, t);
    GuardedMembers(rank < 7 && file < 6, rank + 1, file + 2, t);
    GuardedMembers(rank < 6 && file > 0, rank + 2, file - 1, t);
    GuardedMembers(rank < 6 && file < 7, rank + 2, file + 1, t);
    KnightStep(rank, file, Rank(t), File(t));
  }

  /** The eight guarded knight offsets of (rank, file). */
  lemma KnightStep(rank: int, file: int, r: int, f: int)
    requires 0 <= rank <= 7 && 0 <= file <= 7 && 0 <= r <= 7 && 0 <= f <= 7
    ensures (rank > 1 && file > 0 && r == rank - 2 && f == file - 1)
      || (rank > 1 && file < 7 && r == rank - 2 && f == file + 1)
      || (rank > 0 && file > 1 && r == rank - 1 && f == file - 2)
      || (rank > 0 && file < 6 && r == rank - 1 && f == file + 2)
      || (rank < 7 && file > 1 && r == rank + 1 && f == file - 2)
      || (rank < 7 && file < 6 && r == rank + 1 && f == file + 2)
      || (rank < 6 && file > 0 && r == rank + 2 && f == file - 1)
      || (rank < 6 && file < 7 && r == rank + 2 && f == file + 1)
      <==> var dr, df := Abs(r - rank), Abs(f - file);
           (dr == 2 && df == 1) || (dr == 1 && df == 2)
  {
  }

  /** The entry built for a square holds exactly the knight's jumps from it
      that stay on the board. */
  lemma KnightMovesAtMatches(s: Square)
    ensures KnightMovesAt(Rank(s), File(s)) == KnightMoves(s)
  {
    forall t: Square
      ensures t in KnightMovesAt(Rank(s), File(s)) <==> t in KnightMoves(s)
    {
      KnightMovesAtMembers(Rank(s), File(s), t);
      RankFileDetermineSquare(t, s);
    }
  }

  /** A knight's jump can be made back. */
  lemma KnightMovesSymmetric(s: Square, t: Square)
    ensures s !in KnightMoves(s)
    ensures t in KnightMoves(s) <==> s in KnightMoves(t)
  {
  }

  /** The bits `generate_knight_moves` ORs into one entry, in the source's
      order. */
  method KnightEntry(rank: int, file: int) returns (entry: Bitboard)
    requires 0 <= rank <= 7 && 0 <= file <= 7
    ensures entry == KnightMovesAt(rank, file)
  {
    entry := {};
    if rank > 1 && file > 0 { entry := entry + LookupUtils.Bits(rank - 2, file - 1); }
    if rank > 1 && file < 7 { entry := entry + LookupUtils.Bits(rank - 2, file + 1); }
    if rank > 0 && file > 1 { entry := entry + LookupUtils.Bits(rank - 1, file - 2); }
    if rank > 0 && file < 6 { entry := entry + LookupUtils.Bits(rank - 1, file + 2); }
    if rank < 7 && file > 1 { entry := entry + LookupUtils.Bits(rank + 1, file - 2); }
    if rank < 7 && file < 6 { entry := entry + LookupUtils.Bits(rank + 1, file + 2); }
    if rank < 6 && file > 0 { entry := entry + LookupUtils.Bits(rank + 2, file - 1); }
    if rank < 6 && file < 7 { entry := entry + LookupUtils.Bits(rank + 2, file + 1); }
  }

  /** The loop body of `generate_knight_moves` for one square. */
  method AddKnightMoves(moves: array<Bitboard>, rank: int, file: int)
    requires moves.Length == 64 && 0 <= rank <= 7 && 0 <= file <= 7
    requires moves[rank * 8 + file] == {}
    modifies moves
    ensures moves[rank * 8 + file] == KnightMoves(rank * 8 + file)
    ensures forall s :: 0 <= s < 64 && s != rank * 8 + file ==> moves[s] == old(moves[s])
  {
    var from := LookupUtils.Index(rank, file);
    var entry := KnightEntry(rank, file);
    KnightMovesAtMatches(from);
    moves[from] := entry;
  }

  /** `generate_knight_moves`: every square, rank by rank. */
  method GenerateKnightMoves() returns (moves: array<Bitboard>)
    ensures fresh(moves) && moves.Length == 64
    ensures forall s: Square :: moves[s] == KnightMoves(s)
  {
    moves := new Bitboard[64](_ => {});
    ghost var table := (s: Square) => KnightMoves(s);
    for rank := 0 to 8
      invariant forall s: Square :: moves[s] == if s < rank * 8 then table(s) else {}
    {
      for file := 0 to 8
        invariant forall s: Square :: moves[s] == if s < rank * 8 + file then table(s) else {}
      {
        AddKnightMoves(moves, rank, file);
      }
    }
  }

  // ----- Pawns -----

  /** The rank step of a pawn: White moves up, Black down. */
  function Forward(c: Color): (d: int)
    ensures d == 1 || d == -1
    ensures d == 1 <==> c == White
  {
    if c == White then 1 else -1
  }

  /** The rank a pawn of colour `c` starts on and double-pushes from. */
  function StartRank(c: Color): (r: int)
    ensures c == White ==> r == 1
    ensures c == Black ==> r == 6
  {
    if c == White then 1 else 6
  }

  /** The entry `generate_pawn_pushes` builds for a colour, a rank and a
      file. */
  function PawnPushesAt(c: Color, rank: int, file: int): Bitboard
    requires 0 <= rank <= 7 && 0 <= file <= 7
  {
    if c == Black then
      {}
      + Guarded(rank > 0, rank - 1, file)
      + Guarded(rank == 6, rank - 2, file)
    else
      {}
      + Guarded(rank < 7, rank + 1, file)
      + Guarded(rank == 1, rank + 2, file)
  }

  /** The squares a pawn of colour `c` on `s` is pushed to: one rank
      forward on its file, or two from the start rank. */
  function PawnPushes(c: Color, s: Square): Bitboard
  {
    set t: Square | 0 <= t < 64 && File(t) == File(s)
      && (Rank(t) == Rank(s) + Forward(c)
          || (Rank(s) == StartRank(c) && Rank(t) == Rank(s) + 2 * Forward(c)))
  }

  lemma PawnPushesAtMatches(c: Color, s: Square)
    ensures PawnPushesAt(c, Rank(s), File(s)) == PawnPushes(c, s)
  {
    forall t: Square
      ensures t in PawnPushesAt(c, Rank(s), File(s)) <==> t in PawnPushes(c, s)
    {
      var rank, file := Rank(s), File(s);
      GuardedMembers(rank > 0, rank - 1, file, t);
      GuardedMembers(rank == 6, rank - 2, file, t);
      GuardedMembers(rank < 7, rank + 1, file, t);
      GuardedMembers(rank == 1, rank + 2, file, t);
    }
  }

  /** The bits `generate_pawn_pushes` ORs into the Black and the White
      entry of one square. */
  method PawnPushEntries(rank: int, file: int) returns (black: Bitboard, white: Bitboard)
    requires 0 <= rank <= 7 && 0 <= file <= 7
    ensures black == PawnPushesAt(Black, rank, file)
    ensures white == PawnPushesAt(White, rank, file)
  {
    black, white := {}, {};
    if rank > 0 { black := black + LookupUtils.Bits(rank - 1, file); }
    if rank < 7 { white := white + LookupUtils.Bits(rank + 1, file); }
    if rank == 6 { black := black + LookupUtils.Bits(rank - 2, file); }
    if rank == 1 { white := white + LookupUtils.Bits(rank + 2, file); }
  }

  /** The loop body of `generate_pawn_pushes`: the still empty Black entry
      (row 0) and White entry (row 1) of one square get that colour's
      pushes; no other entry changes. */
  method AddPawnPushes(moves: array2<Bitboard>, rank: int, file: int)
    requires moves.Length0 == 2 && moves.Length1 == 64 && 0 <= rank <= 7 && 0 <= file <= 7
    requires moves[0, rank * 8 + file] == {} && moves[1, rank * 8 + file] == {}
    modifies moves
    ensures moves[0, rank * 8 + file] == PawnPushes(Black, rank * 8 + file)
    ensures moves[1, rank * 8 + file] == PawnPushes(White, rank * 8 + file)
    ensures forall i, s :: 0 <= i < 2 && 0 <= s < 64 && s != rank * 8 + file ==>
      moves[i, s] == old(moves[i, s])
  {
    var from := LookupUtils.Index(rank, file);
    var black, white := PawnPushEntries(rank, file);
    PawnPushesAtMatches(Black, from);
    PawnPushesAtMatches(White, from);
    moves[0, from] := black;
    moves[1, from] := white;
  }

  /** `generate_pawn_pushes`: both colours, every square. Row 0 is Black. */
  method GeneratePawnPushes() returns (moves: array2<Bitboard>)
    ensures fresh(moves) && moves.Length0 == 2 && moves.Length1 == 64
    ensures forall c: Color, s: Square :: moves[ColorIndex(c), s] == PawnPushes(c, s)
  {
    moves := new Bitboard[2, 64]((_, _) => {});
    ghost var table := (c: Color, s: Square) => PawnPushes(c, s);
    for rank := 0 to 8
      invariant forall s: Square :: moves[0, s] == if s < rank * 8 then table(Black, s) else {}
      invariant forall s: Square :: moves[1, s] == if s < rank * 8 then table(White, s) else {}
    {
      for file := 0 to 8
        invariant forall s: Square :: moves[0, s] == if s < rank * 8 + file then table(Black, s) else {}
        invariant forall s: Square :: moves[1, s] == if s < rank * 8 + file then table(White, s) else {}
      {
        AddPawnPushes(moves, rank, file);
      }
    }
  }

  /** The entry `generate_pawn_attacks` builds for a colour, a rank and a
      file. */
  function PawnAttacksAt(c: Color, rank: int, file: int): Bitboard
    requires 0 <= rank <= 7 && 0 <= file <= 7
  {
    if c == Black then
      {}
      + Guarded(rank > 0 && file > 0, rank - 1, file - 1)
      + Guarded(rank > 0 && file < 7, rank - 1, file + 1)
    else
      {}
      + Guarded(rank < 7 && file > 0, rank + 1, file - 1)
      + Guarded(rank < 7 && file < 7, rank + 1, file + 1)
  }

  /** The squares a pawn of colour `c` on `s` attacks: the two squares
      diagonally one rank forward. */
  function PawnAttacks(c: Color, s: Square): Bitboard
  {
    set t: Square | 0 <= t < 64 && Abs(File(t) - File(s)) == 1 && Rank(t) == Rank(s) + Forward(c)
  }

  lemma PawnAttacksAtMatches(c: Color, s: Square)
    ensures PawnAttacksAt(c, Rank(s), File(s)) == PawnAttacks(c, s)
  {
    forall t: Square
      ensures t in PawnAttacksAt(c, Rank(s), File(s)) <==> t in PawnAttacks(c, s)
    {
      var rank, file := Rank(s), File(s);
      GuardedMembers(rank > 0 && file > 0, rank - 1, file - 1, t);
      GuardedMembers(rank > 0 && file < 7, rank - 1, file + 1, t);
      GuardedMembers(rank < 7 && file > 0, rank + 1, file - 1, t);
      GuardedMembers(rank < 7 && file < 7, rank + 1, file + 1, t);
    }
  }

  /** A pawn of one colour attacks a square exactly when a pawn of the other
      colour there would attack it back: the two tables are each other's
      transpose. */
  lemma PawnAttacksTranspose(c: Color, s: Square, t: Square)
    ensures t in PawnAttacks(c, s) <==> s in PawnAttacks(Other(c), t)
  {
  }

  /** The bits `generate_pawn_attacks` ORs into the Black and the White
      entry of one square. */
  method PawnAttackEntries(rank: int, file: int) returns (black: Bitboard, white: Bitboard)
    requires 0 <= rank <= 7 && 0 <= file <= 7
    ensures black == PawnAttacksAt(Black, rank, file)
    ensures white == PawnAttacksAt(White, rank, file)
  {
    black, white := {}, {};
    if rank > 0 && file > 0 { black := black + LookupUtils.Bits(rank - 1, file - 1); }
    if rank > 0 && file < 7 { black := black + LookupUtils.Bits(rank - 1, file + 1); }
    if rank < 7 && file > 0 { white := white + LookupUtils.Bits(rank + 1, file - 1); }
    if rank < 7 && file < 7 { white := white + LookupUtils.Bits(rank + 1, file + 1); }
  }

  /** The loop body of `generate_pawn_attacks` for one square. */
  method AddPawnAttacks(moves: array2<Bitboard>, rank: int, file: int)
    requires moves.Length0 == 2 && moves.Length1 == 64 && 0 <= rank <= 7 && 0 <= file <= 7
    requires moves[0, rank * 8 + file] == {} && moves[1, rank * 8 + file] == {}
    modifies moves
    ensures moves[0, rank * 8 + file] == PawnAttacks(Black, rank * 8 + file)
    ensures moves[1, rank * 8 + file] == PawnAttacks(White, rank * 8 + file)
    ensures forall i, s :: 0 <= i < 2 && 0 <= s < 64 && s != rank * 8 + file ==>
      moves[i, s] == old(moves[i, s])
  {
    var from := LookupUtils.Index(rank, file);
    var black, white := PawnAttackEntries(rank, file);
    PawnAttacksAtMatches(Black, from);
    PawnAttacksAtMatches(White, from);
    moves[0, from] := black;
    moves[1, from] := white;
  }

  /** `generate_pawn_attacks`: both colours, every square. Row 0 is Black. */
  method GeneratePawnAttacks() returns (moves: array2<Bitboard>)
    ensures fresh(moves) && moves.Length0 == 2 && moves.Length1 == 64
    ensures forall c: Color, s: Square :: moves[ColorIndex(c), s] == PawnAttacks(c, s)
  {
    moves := new Bitboard[2, 64]((_, _) => {});
    ghost var table := (c: Color, s: Square) => PawnAttacks(c, s);
    for rank := 0 to 8
      invariant forall s: Square :: moves[0, s] == if s < rank * 8 then table(Black, s) else {}
      invariant forall s: Square :: moves[1, s] == if s < rank * 8 then table(White, s) else {}
    {
      for file := 0 to 8
        invariant forall s: Square :: moves[0, s] == if s < rank * 8 + file then table(Black, s) else {}
        invariant forall s: Square :: moves[1, s] == if s < rank * 8 + file then table(White, s) else {}
      {
        AddPawnAttacks(moves, rank, file);
      }
    }
  }
}
