# A verified model of a bitboard chess engine's core

This project models the sequential core of a Rust chess engine in Dafny and proves what that core promises. The engine has a `base` crate (board, moves, squares, Zobrist and Polyglot hashing, FEN), an `engine` crate (move generation, perft, hash tables, search, evaluation) and a `lookup` crate that generates its attack tables. An older single-crate version of the engine also lives under `src/`, and the model covers the parts of it that the newer crates dropped: the 64-bit move word, the bitboard helpers, the older hash table and the negamax bookkeeping.

Each module mirrors one source file:

- **Squares and bitboards.**
  - `Squares`: index arithmetic, algebraic names and their parser.
  - `SquareBoards`: the rank and file masks and one-square boards.
  - `Bitboards`: the `u64` bitboard, its bit scans, its iterator and `get_squares`.
  - `Directions`: the compass directions and the direction between two squares.
  - `LookupUtils`: index helpers and the xor-shift generator.
- **Lookup tables.**
  - `RayTables`: rays, between, lines and adjacent files.
  - `MoveTables`: king, knight and pawn tables.
  - `SlidingAttacks`, `MagicMasks` and `MagicSearch`: the magic-bitboard generator, from the relevant-occupancy masks and the `permutate` subset enumeration to the magic search and the attack lookup.
- **Moves.**
  - `MoveFlags` and `Moves`: the 16-bit move word, its flags and the move parser.
  - `PackedMoves`: the older 64-bit move word.
- **The board.**
  - `Positions`: the position a board holds and what `make`, `unmake`, `make_null` and `unmake_null` do to it, stated as values.
  - `Boards`: the `Board` class itself. Its tiles, bitboards, evaluation sums, game state and history are fields that its methods update in place. Each method is proved to perform the corresponding step of `Positions` and to keep every derived field in step with the tiles.
  - `Fen`: the FEN reader and writer, following section 16.1 of the PGN standard.
  - `Zobrist`: the engine's Zobrist hash.
  - `Evaluation`: the tapered PeSTO evaluation with its bishop-pair term.
- **Move generation and perft.**
  - `Generator`: the 256-slot move buffer of `MoveGenerator`, the `allowed` board and checkmate or stalemate detection.
  - `MoveGeneration`: which piece generators run for the number of checkers.
  - `PawnGenerator` and `KingGenerator`: the pawn and king generators.
  - `PerftSpec` and `PerftRuns`: node counts as functions, with `perft_normal`, `perft_stats` and `divide` proved to compute them, with or without a cache.
  - `PerftCounters` and `PerftEntries`: the perft counters and cache entries.
- **Hash tables.**
  - `GenericTables` and `HashTables`: the two fixed-size tables with power-of-two sizing and replacement on store.
- **Search.**
  - `Killers`: the killer slots.
  - `Sort`: move ordering by tier and selection.
  - `Search`: the search counters and the time estimate.
  - `Quiescence`: the fail-hard capture search.
  - `NegamaxRules`: the bookkeeping of the older principal-variation search.
  - `Aspiration`: the aspiration window.
  - `Iterative`: the depth loop, mate reporting and reading the principal variation back from the table.
- **Opening books.**
  - `PolyglotHasher`: the Polyglot key of a position.
  - `Polyglot`: book records, books and the weighted move draw.

Conventions used throughout:

- **Bitboards.** A bitboard is modelled as the set of squares whose bits it sets. `&`, `|`, `^` and `!` are intersection, union, symmetric difference and complement. Bit-level words are kept only where the source's arithmetic is the point: the move words, the xor-shift generator, the magic index and Polyglot records.
- **Hash keys.** Zobrist and Polyglot keys are modelled as the set of random-table entries XORed into them, and XOR becomes symmetric difference. Two positions with the same entry set therefore have the same 64-bit key, whatever the random tables hold.
- **Inputs from outside a file.** The random tables, the PeSTO tables, the magic attack tables, the legality analysis `update_game_state` performs, and the recursive searches a search file calls are parameters of the model. Those calls are made to other files or to data the model does not reproduce.
- **Integers.** Integers are unbounded unless the source's width matters, in which case it is written out. Examples are the `u8` ply counters, the 16-bit move word and Rust's truncating `/` and `%` on negative evaluations.
- **Indices.** Colours index as Black = 0 and White = 1. Pieces index as None = 0, Pawn = 1 up to King = 6.

## Model

| member | source | states |
|---|---|---|
| Squares.Rank | crates/base/src/square/square.rs:41-44 | the rank of a square is 0..7 |
| Squares.File | crates/base/src/square/square.rs:54-57 | the file of a square is 0..7 |
| Squares.NewRankFile | crates/base/src/square/square.rs:20-26 | `new(rank, file)` lies on that rank and that file |
| Squares.FromIndex | crates/base/src/square/square.rs:28-32 | `from_index` of an index below 64 is the square with that index, which its rank and file rebuild |
| Squares.RankFileDetermineSquare | crates/base/src/square/square.rs:40-57 | two squares are equal exactly when rank and file agree |
| Squares.ToString | crates/base/src/square/square.rs:278-285 | the name is two characters: file letter a..h for the file, rank digit 1..8 for the rank |
| Squares.FromStrAsWritten | crates/base/src/square/square.rs:290-304 | `from_str` as written succeeds exactly on a lower-case letter followed by a digit, with a `u8` result |
| Squares.FromStrAsWrittenAcceptsOffBoard | crates/base/src/square/square.rs:293-302 | as written, "a9" yields index 64 and "i1" index 8: no range check |
| Squares.FromStr | crates/base/src/square/square.rs:290-304 | with the range check `new` asserts, parsing succeeds exactly on a..h followed by 1..8 |
| Squares.FromStrToString | crates/base/src/square/square.rs:278-304 | printing a square and parsing the name gives the square back, with either parser |
| Squares.ToStringFromStr | crates/base/src/square/square.rs:278-304 | a successful parse returns the square whose name is the first two characters |
| Squares.FromStrAgrees | crates/base/src/square/square.rs:290-304 | where the checked parser succeeds the as-written one returns the same square |
| Squares.FromStrRejectsMalformed | crates/base/src/square/square.rs:293-300 | a first character that is not a lower-case letter or a second that is not a digit is refused by both |
| SquareBoards.RankBb | crates/base/src/square/square.rs:46-52 | `rank_bb` holds the square and exactly the squares of its rank |
| SquareBoards.FileBbAsWritten | crates/base/src/square/square.rs:59-65 | `file_bb` as written holds the squares whose file equals the square's rank |
| SquareBoards.FileBbAsWrittenMissesSquare | crates/base/src/square/square.rs:59-65 | as written, the mask of b1 is the a-file and does not contain b1 |
| SquareBoards.FileBb | crates/base/src/square/square.rs:59-65 | the intended `file_bb` holds the square and exactly the squares of its file |
| SquareBoards.FileBbAgreesOnDiagonal | crates/base/src/square/square.rs:59-65 | the two masks agree exactly on the squares whose rank equals their file |
| SquareBoards.SquareFromBitboard | crates/base/src/square/square.rs:313-320 | a one-square bitboard converts to the square it holds |
| SquareBoards.SquareBitRoundTrip | crates/base/src/square/square.rs:313-320 | converting a square to a bitboard and back gives the square |
| Moves.PackAsWritten | crates/base/src/move/move.rs:26-35 | with `FLAG_MASK` as declared (0xF000), every constructor packs the quiet move between the same squares |
| Moves.FlagAsWritten | crates/base/src/move/move.rs:135-139 | with the declared mask `flag()` reads every move as `Quiet` |
| Moves.FlagAsWrittenLosesCapture | crates/base/src/move/move.rs:48-57 | as written, a capture built by `capture` does not read back as a capture |
| Moves.PackAsWrittenKeepsSquares | crates/base/src/move/move.rs:26-35 | the as-written packing keeps both squares and equals the quiet move |
| Moves.Pack | crates/base/src/move/move.rs:26-35 | with a four-bit flag mask, `from()`, `to()` and `flag()` read back what was packed |
| Moves.Flag | crates/base/src/move/move.rs:135-139 | `flag()` is the flag whose code is the word's top four bits |
| Moves.NullMoveFields | crates/base/src/move/move.rs:112-114 | the null move reads as a quiet move from a1 to a1 |
| Moves.ConstructorsRecover | crates/base/src/move/move.rs:26-110 | every constructor records its two squares and its flag; a promotion records its piece |
| Moves.PredicatesByCode | crates/base/src/move/move.rs:141-191 | `is_promotion`, `is_capture`, `is_castling` and `is_tactical` are exactly the listed flag codes |
| Moves.Parse | crates/base/src/move/move.rs:195-253 | input shorter than four characters is `InvalidMoveFormat`; a parsed move goes from the first named square to the second and its source square holds a piece |
| Moves.Classify | crates/base/src/move/move.rs:228-250 | the constructor choice fails exactly on a promotion suffix other than N, B, R, Q when neither double push nor en passant applies; otherwise the move has the given squares |
| Moves.ParseCastling | crates/base/src/move/move.rs:242-247 | a king move e1g1, e1c1, e8g8 or e8c8 onto an empty square parses as the matching castle |
| Moves.ParseName | crates/base/src/move/move.rs:195-209 | parsing a move's four-character name reduces to the constructor choice |
| Moves.ParseDoublePawn | crates/base/src/move/move.rs:228-235 | a pawn on rank 2 or 7 moving sixteen squares parses as a double push, ahead of every other reading |
| MoveFlags.Code | crates/base/src/move/flag.rs:6-21 | the fourteen codes fit four bits and skip 6 and 7 |
| MoveFlags.FromFlag | crates/base/src/move/flag.rs:24-42 | `from_flag` of an accepted code is the flag with that code |
| MoveFlags.FromFlagCode | crates/base/src/move/flag.rs:24-42 | `from_flag` inverts the code on every flag |
| MoveFlags.PromotionBits | crates/base/src/move/flag.rs:6-21 | bit 0b1000 marks exactly the promotions, and among them bit 0b0100 exactly the captures |
| MoveFlags.PromotionPiece | crates/base/src/move/flag.rs:44-52 | `get_promotion_piece` is a piece exactly for the promotion flags, and then knight, bishop, rook or queen |
| MoveFlags.PromotionFlag | crates/base/src/move/move.rs:86-102 | the flag chosen by `Move::promotion` is a promotion to the given piece that captures exactly when asked |
| MoveFlags.PromotionVariants | crates/base/src/move/flag.rs:13-20 | a promotion and its capturing variant promote to the same piece and differ in bit 0b0100 |
| Bitboards.Xor | src/bitboard/mod.rs:254-262 | `^` marks exactly the squares marked on one board and not the other |
| Bitboards.Not | src/bitboard/mod.rs:362-369 | `!` marks exactly the squares the board does not mark |
| Bitboards.Shl | src/bitboard/mod.rs:290-298 | `<<` by n moves every square n up and drops those past h8 |
| Bitboards.Shr | src/bitboard/mod.rs:326-334 | `>>` by n moves every square n down and drops those below a1 |
| Bitboards.SquareBit | src/bitboard/mod.rs:27-31 | `from_index` is the number 2^index, the board holding only that square |
| Bitboards.IsEmptyIffZero | src/bitboard/mod.rs:55-58 | `is_empty` holds exactly when the `u64` is 0 |
| Bitboards.CountOnes | src/bitboard/mod.rs:60-63 | `count_ones` is at most 64 |
| Bitboards.TrailingIndex | src/bitboard/mod.rs:38-41 | `get_trailing_index` of a non-empty board is one of its squares |
| Bitboards.TrailingIndexLowest | src/bitboard/mod.rs:38-41 | `get_trailing_index` is the lowest square of the board |
| Bitboards.LeadingIndex | src/bitboard/mod.rs:43-46 | `get_leading_index` of a non-empty board is one of its squares |
| Bitboards.LeadingIndexHighest | src/bitboard/mod.rs:43-46 | `get_leading_index` is the highest square of the board |
| Bitboards.SingleBitIndices | src/bitboard/mod.rs:38-46 | on a one-square board both indices are that square |
| Bitboards.MagicIndex | src/bitboard/mod.rs:83-86 | `get_magic_index` keeps the high `ones` bits of the wrapping product, so it is below 2^ones |
| Bitboards.WrappingMul | src/bitboard/mod.rs:85 | `wrapping_mul` stays below 2^64 |
| Bitboards.BitboardIter.PopTrailing | src/bitboard/mod.rs:65-72 | `pop_trailing` returns the lowest square and removes exactly it |
| Bitboards.BitboardIter.PopLeading | src/bitboard/mod.rs:74-81 | `pop_leading` returns the highest square and removes exactly it |
| Bitboards.BitboardIter.Next | src/bitboard/mod.rs:105-116 | `next` is `None` on an empty board and otherwise pops the lowest square |
| Bitboards.GetSquares | src/bitboard/mod.rs:94-102 | `get_squares` lists every square of the board once, in increasing order, `count_ones` of them |
| Bitboards.SquaresOf | src/bitboard/mod.rs:94-102 | `get_squares` is the ascending listing of the board |
| Bitboards.SortedIsAscending | src/bitboard/mod.rs:94-102 | a strictly increasing list of exactly the board's squares is the ascending listing |
| Directions.Index | crates/lookup/src/utils/direction.rs:24-27 | `index` is the declaration order, 8 exactly for `None` |
| Directions.FromIndex | crates/lookup/src/utils/direction.rs:29-41 | `from_index` inverts `index` below 8 and gives `None` from 8 up |
| Directions.FromIndexRoundTrip | crates/lookup/src/utils/direction.rs:24-41 | `from_index(index(d)) == d` for every direction |
| Directions.Delta | crates/lookup/src/generators/generic.rs:11-16 | each `DIRECTION_MOVES` step changes rank and file by at most one and is never (0, 0) |
| Directions.DeltaInjective | crates/lookup/src/generators/generic.rs:11-16 | different directions have different steps |
| Directions.Opposite | crates/lookup/src/utils/direction.rs:43-55 | `opposite` reverses the step and keeps `None` |
| Directions.OppositeInvolution | crates/lookup/src/utils/direction.rs:43-55 | the opposite of the opposite is the direction itself |
| Directions.DirectionKinds | crates/lookup/src/utils/direction.rs:57-76 | diagonals change rank and file, straight directions one of them, horizontal ones only the file; none is both |
| Directions.Distance | crates/lookup/src/utils/direction.rs:79-84 | the king distance is at most 7 and 0 only for equal squares |
| Directions.BetweenAligned | crates/lookup/src/utils/direction.rs:78-103 | `between` is `None` exactly for equal squares and for squares on no common line; otherwise the target lies on the named ray |
| Directions.BetweenOnRay | crates/lookup/src/utils/direction.rs:78-103 | a square lies on a direction's ray exactly when `between` names that direction |
| Directions.BetweenKinds | crates/lookup/src/utils/direction.rs:86-100 | a shared rank or file gives a straight direction, equal distances a diagonal one |
| Directions.BetweenAntisymmetric | crates/lookup/src/utils/direction.rs:78-103 | swapping the squares gives the opposite direction |
| RayTables.Ray | crates/lookup/src/generators/generic.rs:95-121 | `ray` returns the squares stepped over until the edge or the collide square |
| RayTables.RayMembers | crates/lookup/src/generators/generic.rs:95-121 | a square is on the ray exactly when it lies in that direction and no earlier step hits the collide square; neither the start nor the collide square is on it |
| RayTables.FullRayMembers | crates/lookup/src/generators/generic.rs:95-121 | with the off-board collide square the ray is every square in that direction |
| RayTables.BetweenMembers | crates/lookup/src/generators/generic.rs:18-35 | `between[a][b]` holds exactly the squares strictly between two aligned squares |
| RayTables.LineMembers | crates/lookup/src/generators/generic.rs:37-62 | `lines[a][b]` holds the whole line through two aligned squares, both included, and is empty otherwise |
| RayTables.AdjacentFilesMembers | crates/lookup/src/generators/generic.rs:64-79 | the adjacent-files entry holds the squares on the same rank at most one file away |
| RayTables.GenerateBetween | crates/lookup/src/generators/generic.rs:18-35 | the filled table holds `between[a][b]` for every pair |
| RayTables.LineThrough | crates/lookup/src/generators/generic.rs:48-54 | each half of a line is the full ray in that direction |
| RayTables.GenerateLines | crates/lookup/src/generators/generic.rs:37-62 | the filled table holds the line through every pair |
| RayTables.GenerateAdjacentFiles | crates/lookup/src/generators/generic.rs:64-79 | the filled table holds the adjacent files of every square |
| RayTables.GenerateRays | crates/lookup/src/generators/generic.rs:81-93 | the filled table holds the full ray from every square in every direction |
| LookupUtils.RankFile | crates/lookup/src/utils/utils.rs:1-3 | `rank_file` is on the board and gives the square back through `index` |
| LookupUtils.Index | crates/lookup/src/utils/utils.rs:5-7 | `index(rank, file)` has that rank and that file |
| LookupUtils.IndexRankFile | crates/lookup/src/utils/utils.rs:1-7 | `index` and `rank_file` are inverse |
| LookupUtils.BitsSingleton | crates/lookup/src/utils/utils.rs:9-11 | `bits` is the board of the single square `index(rank, file)` |
| LookupUtils.XorShift | crates/lookup/src/utils/utils.rs:35-40 | zero is the fixed point of `xor_shift` |
| LookupUtils.UndoShiftRight13 | crates/lookup/src/utils/utils.rs:36 | the first xor-shift step can be undone |
| LookupUtils.UndoShiftLeft17 | crates/lookup/src/utils/utils.rs:37 | the second xor-shift step can be undone |
| LookupUtils.UndoShiftRight5 | crates/lookup/src/utils/utils.rs:38 | the third xor-shift step can be undone, so no two seeds collide |
| LookupUtils.SeedsCompose | crates/lookup/src/utils/utils.rs:21-33 | m steps then n steps of the generator are m + n steps |
| LookupUtils.ChunkFirst | crates/lookup/src/utils/utils.rs:31 | the low 16 bits of `random_64` come from the first seed |
| LookupUtils.ChunkSecond | crates/lookup/src/utils/utils.rs:31 | bits 16-31 come from the second seed |
| LookupUtils.ChunkThird | crates/lookup/src/utils/utils.rs:31 | bits 32-47 come from the third seed |
| LookupUtils.ChunkFourth | crates/lookup/src/utils/utils.rs:31 | bits 48-63 come from the fourth seed |
| LookupUtils.Random64 | crates/lookup/src/utils/utils.rs:21-33 | `random_64` hands on the seed four steps later |
| LookupUtils.Random64FewBits | crates/lookup/src/utils/utils.rs:13-19 | `random_64_few_bits` hands on the seed twelve steps later |
| MoveTables.GuardedMembers | crates/lookup/src/generators/moves.rs:13-20 | a guarded `bits(rank, file)` adds that one square exactly when its guard holds |
| MoveTables.KingMovesAtMembers | crates/lookup/src/generators/moves.rs:10-22 | the entry built for a rank and a file holds exactly the other squares at most one rank and one file away |
| MoveTables.KingMovesAtMatches | crates/lookup/src/generators/moves.rs:7-25 | the eight guarded bits give exactly the king's neighbours: no edge square is lost and none wraps round |
| MoveTables.KingMovesDistance | crates/lookup/src/generators/moves.rs:7-25 | the king table holds the squares at king distance one |
| MoveTables.KingMovesSymmetric | crates/lookup/src/generators/moves.rs:7-25 | no square is its own king move, and king moves can be made back |
| MoveTables.KingEntry | crates/lookup/src/generators/moves.rs:12-20 | the bits ORed into one entry are the entry built for that rank and file |
| MoveTables.GenerateKingMoves | crates/lookup/src/generators/moves.rs:7-25 | `generate_king_moves` fills every square with its king neighbours |
| MoveTables.KnightMovesAtMembers | crates/lookup/src/generators/moves.rs:31-43 | the entry holds exactly the squares two ranks and one file, or one rank and two files, away |
| MoveTables.KnightMovesAtMatches | crates/lookup/src/generators/moves.rs:28-46 | the eight guarded bits give exactly the knight's jumps from the square |
| MoveTables.KnightMovesSymmetric | crates/lookup/src/generators/moves.rs:28-46 | no square is its own knight jump, and every jump can be made back |
| MoveTables.KnightEntry | crates/lookup/src/generators/moves.rs:33-41 | the bits ORed into one entry are the entry built for that rank and file |
| MoveTables.GenerateKnightMoves | crates/lookup/src/generators/moves.rs:28-46 | `generate_knight_moves` fills every square with its knight jumps |
| MoveTables.Forward | crates/lookup/src/generators/moves.rs:56-57 | White pawns move up a rank and Black pawns down |
| MoveTables.StartRank | crates/lookup/src/generators/moves.rs:59-60 | White double-pushes from rank 1 and Black from rank 6 |
| MoveTables.PawnPushesAtMatches | crates/lookup/src/generators/moves.rs:52-62 | each push entry is the square one rank forward on the same file, plus the square two ranks forward from the start rank |
| MoveTables.PawnPushEntries | crates/lookup/src/generators/moves.rs:54-60 | the bits ORed into the Black and White entries are the entries built for that square |
| MoveTables.GeneratePawnPushes | crates/lookup/src/generators/moves.rs:49-65 | `generate_pawn_pushes` fills both colours' rows, row 0 Black, with the pawn pushes |
| MoveTables.PawnAttacksAtMatches | crates/lookup/src/generators/moves.rs:71-80 | each attack entry holds the squares diagonally one rank forward, none wrapping round an edge |
| MoveTables.PawnAttacksTranspose | crates/lookup/src/generators/moves.rs:68-83 | a pawn of one colour attacks a square exactly when a pawn of the other colour on that square attacks it back |
| MoveTables.PawnAttackEntries | crates/lookup/src/generators/moves.rs:73-78 | the bits ORed into the Black and White entries are the entries built for that square |
| MoveTables.GeneratePawnAttacks | crates/lookup/src/generators/moves.rs:68-83 | `generate_pawn_attacks` fills both colours' rows with the pawn attacks |
| SlidingAttacks.FullRayOnRay | crates/lookup/src/generators/magic.rs:301 | the `rays` entry a slider starts from holds exactly the squares in that direction |
| SlidingAttacks.RayBeyond | crates/lookup/src/generators/magic.rs:310 | the ray from a square on a ray holds exactly the squares farther out on it, which is what `& !rays[blocker]` removes |
| SlidingAttacks.RayIndexOrder | crates/lookup/src/generators/magic.rs:305-308 | along North, East, North-East and North-West square numbers grow with distance, along the other four they shrink |
| SlidingAttacks.NearestBlocker | crates/lookup/src/generators/magic.rs:303-308 | the trailing bit for a growing direction and the leading bit otherwise is the blocker nearest the start |
| SlidingAttacks.BlockedRay | crates/lookup/src/generators/magic.rs:303-311 | with a blocker on the ray, the squares kept are those no farther than the nearest blocker |
| SlidingAttacks.FreeRay | crates/lookup/src/generators/magic.rs:299-304 | with no blocker on the ray, nothing blocks any square of it |
| SlidingAttacks.GetRayMovesMembers | crates/lookup/src/generators/magic.rs:292-314 | `get_ray_moves` with `leading` set for the descending directions holds exactly the ray squares with no blocker strictly between: the first blocker is kept, nothing past it |
| SlidingAttacks.RookAttacksMembers | crates/lookup/src/generators/magic.rs:276-282 | `rook_attacks` holds exactly the squares on a shared rank or file with no blocker strictly between |
| SlidingAttacks.BishopAttacksMembers | crates/lookup/src/generators/magic.rs:284-290 | `bishop_attacks` holds exactly the squares on a shared diagonal with no blocker strictly between |
| MagicMasks.AttacksMembers | crates/lookup/src/generators/magic.rs:276-290 | either slider's attacks are the squares in its directions that nothing blocks |
| MagicMasks.AttacksNonEmpty | crates/lookup/src/generators/magic.rs:236-241 | no attack set is empty, so `find_magic` may take 0 for a free slot |
| MagicMasks.SliderRaysMembers | crates/lookup/src/generators/magic.rs:23-26 | the four ORed rays hold exactly the squares in the slider's directions |
| MagicMasks.MaskMembers | crates/lookup/src/generators/magic.rs:16-46 | the mask holds the squares the slider reaches on an empty board, less those on an edge rank or file the square itself is not on |
| MagicMasks.BetweenInMask | crates/lookup/src/generators/magic.rs:28-40 | every square strictly between the slider and a square it reaches lies in the mask |
| MagicMasks.MaskRelevant | crates/lookup/src/generators/magic.rs:16-46 | only blockers inside the mask change the attacks, so `occupancy & mask` is all the tables need |
| MagicMasks.MaskEntry | crates/lookup/src/generators/magic.rs:20-40 | the loop body ORs the four rays and strips the edges, giving the mask |
| MagicMasks.GenerateMasks | crates/lookup/src/generators/magic.rs:16-46 | `generate_rook_masks` and `generate_bishop_masks` fill every square with its mask |
| MagicMasks.GenerateMaskOnes | crates/lookup/src/generators/magic.rs:48-57 | `generate_*_mask_ones` holds the size of every mask |
| MagicMasks.BitsOfBit | crates/lookup/src/generators/magic.rs:268 | round `k` of `permutate` tests bit `k` of the index |
| MagicMasks.PermutationSubset | crates/lookup/src/generators/magic.rs:261-274 | every result of `permutate` is a subset of the mask |
| MagicMasks.PermutationInjective | crates/lookup/src/generators/magic.rs:261-274 | different indices below 2^n give different subsets |
| MagicMasks.PermutationOnto | crates/lookup/src/generators/magic.rs:261-274 | with n the mask's size, every subset of the mask is `permutate` of some index below 2^n |
| MagicMasks.BitsOfIndexOf | crates/lookup/src/generators/magic.rs:261-274 | the bits of the index that selects a subset read back the selection |
| MagicMasks.PopSquare | crates/lookup/src/generators/magic.rs:266 | `mask ^= 1 << bit` clears that set bit |
| MagicMasks.Permutate | crates/lookup/src/generators/magic.rs:261-274 | the loop keeps the `i`-th lowest mask square exactly when bit `i` of the index is set |
| MagicSearch.ZeroIsNoCandidate | crates/lookup/src/generators/magic.rs:252-255 | 0 is never a candidate, and nothing is one for an empty mask |
| MagicSearch.SlotFits | crates/lookup/src/generators/magic.rs:257-259 | with at most 12 mask bits every slot fits the 4096-entry buffer |
| MagicSearch.FirstMagicSound | crates/lookup/src/generators/magic.rs:218-247 | a magic the search returns is a candidate without conflicting slots, drawn at the first attempt that draws one |
| MagicSearch.FirstMagicNone | crates/lookup/src/generators/magic.rs:218-249 | `None` means none of the 100 000 000 numbers drawn is a magic |
| MagicSearch.TryMagic | crates/lookup/src/generators/magic.rs:228-242 | the inner loop fails exactly when two subsets share a slot with different attacks |
| MagicSearch.ClaimSlot | crates/lookup/src/generators/magic.rs:232-241 | one subset claims its empty slot, or conflicts exactly when the slot holds different attacks |
| MagicSearch.FillEnumeration | crates/lookup/src/generators/magic.rs:203-216 | the first loop stores each subset in enumeration order with its attacks, none of them empty |
| MagicSearch.NextDraw | crates/lookup/src/generators/magic.rs:219-223 | each attempt draws the next number and moves the seed on twelve xor-shift steps |
| MagicSearch.TestMagic | crates/lookup/src/generators/magic.rs:224-246 | a number is accepted exactly when it is a candidate and collisionless |
| MagicSearch.FindMagic | crates/lookup/src/generators/magic.rs:196-250 | `find_magic` returns the first magic among the numbers drawn from seed 4213371337, or `None` |
| MagicSearch.GenerateMagics | crates/lookup/src/generators/magic.rs:59-79 | every square gets the magic its search finds; where the source panics the result says so |
| MagicSearch.AddMagic | crates/lookup/src/generators/magic.rs:67-75 | one square's magic is stored, and nothing else changes |
| MagicSearch.RowStep | crates/lookup/src/generators/magic.rs:95-100 | with a collisionless magic a later subset never spoils an earlier one's slot |
| MagicSearch.FillRow | crates/lookup/src/generators/magic.rs:94-100 | after the inner loop every subset's slot holds its attacks, and other rows are unchanged |
| MagicSearch.GenerateAttacks | crates/lookup/src/generators/magic.rs:81-104 | `generate_*_attacks` fills each row so that every subset's slot holds its attacks |
| MagicSearch.LookupCorrect | crates/base/src/square/square.rs:201-231 | looking up the slot of `occupancy & mask` gives the attacks for the whole occupancy |
| PackedMoves.FieldMasksDisjoint | src/generation/mov.rs:16-60 | the eight field masks do not overlap, and the quiet and capture masks are unions of the capture, en-passant and promotion fields |
| PackedMoves.Field | src/generation/mov.rs:241-251 | a field of at most six bits survives the cast to `u8` |
| PackedMoves.PieceCode | src/generation/mov.rs:82 | `piece.index()` numbers the pieces 0 (none) to 6 (king) |
| PackedMoves.PieceFromIndex | src/generation/mov.rs:253-257 | `Piece::from_index` inverts `index` on the codes below 7 |
| PackedMoves.PieceIndexInjective | src/generation/mov.rs:253-257 | decoding a piece's code gives the piece back |
| PackedMoves.WordFields | src/generation/mov.rs:68-90 | every field of the word `new` builds reads back as the value put in |
| PackedMoves.NewSquares | src/generation/mov.rs:241-251 | `from`, `to` and `capture_square` recover the squares given to `new` |
| PackedMoves.NewMovingPiece | src/generation/mov.rs:253-257 | `piece` recovers the moving piece given to `new` |
| PackedMoves.NewCapturedPiece | src/generation/mov.rs:280-284 | `captured_piece` recovers the captured piece given to `new` |
| PackedMoves.NewPromotedPiece | src/generation/mov.rs:297-301 | `promoted_piece` recovers the promoted piece given to `new` |
| PackedMoves.NewFlags | src/generation/mov.rs:275-315 | the flags read back the booleans given to `new`; a move is quiet exactly when nothing is captured, promoted or taken en passant, and a capture exactly when a piece is captured or it is en passant |
| PackedMoves.QuietReadings | src/generation/mov.rs:92-118 | a quiet move reads back its piece and squares, captures and promotes nothing, and is quiet |
| PackedMoves.CaptureReadings | src/generation/mov.rs:120-146 | a capture reads back the captured piece on the target square, and is a capture and tactical but not quiet |
| PackedMoves.EnPassantReadings | src/generation/mov.rs:148-174 | an en-passant move is a pawn taking a pawn on the given square, and is a capture |
| PackedMoves.PromotionReadings | src/generation/mov.rs:176-211 | a promotion reads back the promoted and the captured piece, is a capture exactly when something is taken, and keeps a1 as capture square otherwise |
| PackedMoves.CastlingReadings | src/generation/mov.rs:213-239 | a castling move is a king move that counts as quiet |
| PackedMoves.DoublePawnReadings | src/generation/mov.rs:259-273 | a quiet pawn move is a double push exactly when its squares are sixteen apart; a capture never is |
| HashTables.AndStep | src/hashtable/mod.rs:56 | bitwise AND splits into the lowest bits and the rest, zero included |
| HashTables.IsPower2Meaning | src/hashtable/mod.rs:51-58 | `is_power_2`'s `v & (v - 1) == 0` test holds exactly for the powers of two, and is false for 0 |
| HashTables.MaskIsModulo | src/hashtable/mod.rs:33 | for a power-of-two size, `key & (size - 1)` is the key modulo the size |
| HashTables.ToPower2 | src/hashtable/mod.rs:60-71 | `to_power_2` keeps a power of two and otherwise returns the smallest power of two above the value; 0 becomes 1 |
| HashTables.IndexOf | src/hashtable/mod.rs:33 | the slot of a key is the key modulo the size, inside the table |
| HashTables.ProbeAfterStore | src/hashtable/mod.rs:32-49 | a probe answers only with an entry carrying the probed key, and an entry stored into a free or replaceable slot is found again under its key |
| HashTables.StoreKeeps | src/hashtable/mod.rs:40-49 | a store leaves the table alone when the stored entry is not replaceable, and never touches another slot |
| HashTables.HashTable.Entries | src/hashtable/mod.rs:19-25 | `entries(n)` makes `to_power_2(n)` empty slots, the smallest power of two at least n |
| HashTables.HashTable.Probe | src/hashtable/mod.rs:32-38 | `probe` returns the entry in the key's slot when it carries the key, else nothing |
| HashTables.HashTable.Store | src/hashtable/mod.rs:40-49 | `store` writes the entry's slot unless the stored entry is not replaceable; nothing else changes |
| GenericTables.Doubling | crates/engine/src/hashtable/generic/generic.rs:18 | doubling from a power of two stops at a power of two at least the target whose half lies below it |
| GenericTables.NextPowerOfTwo | crates/engine/src/hashtable/generic/generic.rs:18 | `next_power_of_two` is a positive power of two at least n whose half lies below n; for 0 it is 1 |
| GenericTables.NextPowerOfTwoSmallest | crates/engine/src/hashtable/generic/generic.rs:18 | no power of two at least n is smaller than `next_power_of_two(n)` |
| GenericTables.PowersOfTwoDouble | crates/engine/src/hashtable/generic/generic.rs:18 | of two different powers of two the larger is at least twice the smaller |
| GenericTables.SlotOf | crates/engine/src/hashtable/generic/generic.rs:34 | the slot `key % size` lies inside the table |
| GenericTables.StoreTouchesOneSlot | crates/engine/src/hashtable/generic/generic.rs:33-44 | `store` changes only the key's slot, and writes the entry there exactly when the slot was empty or replaceable |
| GenericTables.ProbeKeyMatches | crates/engine/src/hashtable/generic/generic.rs:46-57 | `probe` answers only with a stored entry that carries the probed key |
| GenericTables.StoreThenProbe | crates/engine/src/hashtable/generic/generic.rs:33-57 | an entry stored under its own key into a free or replaceable slot is found again by a probe of that key |
| GenericTables.GenericTable.Entries | crates/engine/src/hashtable/generic/generic.rs:17-23 | `entries(n)` makes `next_power_of_two(n)` empty slots |
| GenericTables.GenericTable.Store | crates/engine/src/hashtable/generic/generic.rs:33-44 | the new slot contents are those of `store` on the old ones |
| GenericTables.GenericTable.Probe | crates/engine/src/hashtable/generic/generic.rs:46-57 | the answer is that of `probe` on the slot contents |
| PerftEntries.StoreKeepsDeepest | src/hashtable/perft.rs:25-33 | under depth-preferred replacement a store never lowers a slot's depth, and replaces a filled slot only with an entry searched strictly deeper |
| PerftEntries.StatsStoreKeepsDeepest | src/hashtable/perft.rs:53-61 | the same holds for the statistics entries |
| PerftEntries.StoreThenProbeNodes | src/hashtable/perft.rs:8-22 | a count stored into an empty slot or over a shallower entry is probed back with its depth and its count |
| PerftCounters.AddMonoid | crates/engine/src/perft/perft.rs:49-57 | `+=` adds every counter to its own kind, with the default counters as unit, in any order and grouping |
| PerftCounters.SumConcat | crates/engine/src/perft/perft.rs:49-57 | adding up two runs of counters one after the other is adding their totals |
| PerftSpec.PerftSumLeaves | crates/engine/src/perft/perft.rs:101-108 | the depth-1 shortcut, counting the moves, equals one node below each move |
| PerftSpec.PerftStep | crates/engine/src/perft/perft.rs:84-125 | from depth 1 on the count is the sum of the counts one level down below every generated move |
| PerftSpec.PerftSumStep | crates/engine/src/perft/perft.rs:110-118 | one more move's count added to the sum below the moves before it |
| PerftSpec.ChildSearchable | crates/engine/src/perft/perft.rs:110-118 | every generated move can be made, and the position it leads to fits one level less deep |
| PerftSpec.Tally | crates/engine/src/perft/perft.rs:148-171 | at the last level a move counts as a castle, else an en passant, else a promotion, and as a capture besides; never under two of the first three, an en passant always a capture and a castle never |
| PerftSpec.TalliesBounded | crates/engine/src/perft/perft.rs:148-171 | no counter exceeds the number of moves, and castles, en passants and promotions together do not either |
| PerftSpec.TalliesSnoc | crates/engine/src/perft/perft.rs:148-171 | the counters of one more move are the old counters plus that move's tally |
| PerftSpec.StatsSumStep | crates/engine/src/perft/perft.rs:173-180 | one more move's counters added to the counters below the moves before it |
| PerftSpec.StatsNodes | crates/engine/src/perft/perft.rs:127-187 | `perft_stats` counts the same nodes as `perft_normal` |
| PerftSpec.StatsSumNodes | crates/engine/src/perft/perft.rs:173-180 | the counters below the first k moves count the same nodes as the plain sum |
| PerftSpec.DivideLinesStep | crates/engine/src/perft/perft.rs:68-79 | one more move's line follows the lines of the moves before it |
| PerftSpec.DivideLinesTotal | crates/engine/src/perft/perft.rs:59-82 | `divide` prints one line per move in generator order, each with the count below that move, and the counts add up to the sum below the moves |
| PerftSpec.ProbeSound | crates/engine/src/perft/perft.rs:94-98 | a probe of a cache whose entries all hold their key's count answers with that count |
| PerftSpec.StoreSound | crates/engine/src/perft/perft.rs:120-122 | storing a correct count keeps every cached count correct |
| PerftRuns.Generated | crates/engine/src/generator/generator.rs:50-77 | a fresh generator holds the generated moves, none handed out yet |
| PerftRuns.GeneratedMoves | crates/engine/src/perft/perft.rs:110 | iterating a fresh generator hands out its moves in push order |
| PerftRuns.PerftNormal | crates/engine/src/perft/perft.rs:84-125 | `perft_normal` returns the node count to the depth, leaves the board as it found it, and keeps the cache correct, or untouched when not hashed, provided the key of every position the run looks up stands for that position's count (`KeysCount`: no 64-bit key collisions, see `PerftSpec.CountsExist`) |
| PerftRuns.CountMoves | crates/engine/src/perft/perft.rs:100-119 | after a cache miss: the number of moves at depth 1, otherwise the sum below every move |
| PerftRuns.MoveLoop | crates/engine/src/perft/perft.rs:110-118 | the loop adds up the counts below every move and restores the board |
| PerftRuns.CountBelow | crates/engine/src/perft/perft.rs:111-117 | make, count one level down, unmake: the count below that move, and the board is back |
| PerftRuns.Divide | crates/engine/src/perft/perft.rs:59-82 | `divide` prints a line per move with its count, and its total is the perft count to the depth, provided the key of every position the run looks up stands for that position's count (`KeysCount`: no 64-bit key collisions, see `PerftSpec.CountsExist`) |
| PerftRuns.DivideLoop | crates/engine/src/perft/perft.rs:68-79 | the loop of `divide` collects the lines and their total and restores the board |
| PerftRuns.CountLeaves | crates/engine/src/perft/perft.rs:146-171 | the counting loop gives one node and the move's tally per move |
| PerftRuns.PerftWithStats | crates/engine/src/perft/perft.rs:127-187 | `perft_stats` returns the counters to the depth, leaves the board as it found it, and keeps the cache correct, provided the key of every position the run looks up stands for that position's count (`KeysCount`: no 64-bit key collisions, see `PerftSpec.CountsExist`) |
| PerftRuns.CollectStats | crates/engine/src/perft/perft.rs:145-181 | after a cache miss: the leaf counters at depth 1, otherwise the counters below every move |
| PerftRuns.StatsLoop | crates/engine/src/perft/perft.rs:173-180 | the loop adds up the counters below every move and restores the board |
| PerftRuns.StatsBelow | crates/engine/src/perft/perft.rs:174-179 | make, collect one level down, unmake: the counters below that move, and the board is back |
| PerftRuns.CountChildReady | crates/engine/src/perft/perft.rs:110-118 | each generated move can be made, and the position below it fits the run one level down with its keys |
| PerftRuns.StatsChildReady | crates/engine/src/perft/perft.rs:173-180 | the same for the run with statistics |
| PerftSpec.VisitedBelowHas | crates/engine/src/perft/perft.rs:110-118 | every position looked up below one move is looked up by the loop over the moves |
| PerftSpec.KeysCountChild | crates/engine/src/perft/perft.rs:93-118 | keys right for every position a run looks up are right for the run below each of its moves |
| PerftSpec.KeysStatsChild | crates/engine/src/perft/perft.rs:127-181 | the same for the counters of `perft_stats` |
| PerftSpec.ChildCoherent | crates/base/src/board/board.rs:310-418 | a move `make` accepts on a position with the right hash leads to a coherent position: hash recomputed, analysis of the new tiles, target square just behind the pushed pawn |
| PerftSpec.HashGivesContent | crates/base/src/zobrist/hasher.rs:57-89 | coherent positions with equal hashes have the same tiles, side to move, rights and en-passant target |
| PerftSpec.PlayableContent | crates/base/src/board/board.rs:310-418 | `make` accepts the same moves on positions with the same content |
| PerftSpec.ChildContentIs | crates/base/src/board/board.rs:310-418 | what `make` leaves of the tiles, side, target and rights depends only on those of the position before it |
| PerftSpec.ChildContent | crates/base/src/board/board.rs:310-418 | positions with the same content accept the same moves and lead to positions with the same content |
| PerftSpec.ChildrenAgree | crates/base/src/board/board.rs:310-418 | coherent positions with the same content lead, move by move, to coherent positions with the same content |
| PerftSpec.PerftContent | crates/engine/src/perft/perft.rs:84-187 | perft and `perft_stats` give the same counts from coherent positions with the same content, so a hash stands for one count per depth |
| PerftSpec.SumContent | crates/engine/src/perft/perft.rs:110-118 | the sums below the first k moves agree as well |
| PerftSpec.VisitedCoherent | crates/engine/src/perft/perft.rs:84-125 | from a coherent position every position the run looks up is coherent |
| PerftSpec.VisitedBelowCoherent | crates/engine/src/perft/perft.rs:110-118 | the same for the positions below the first k moves |
| PerftSpec.SameKeySameCount | crates/engine/src/perft/perft.rs:93 | `hash ^ depth_hash(depth)` tells depths apart: coherent positions with equal keys are looked up at the same depth and have the same counts there |
| PerftSpec.CountsExist | crates/engine/src/perft/perft.rs:93-122 | from a coherent position, with a generator that reads only what the hash stands for and 64-bit keys that do not collide among the positions looked up, the per-key counts the cached runs ask for exist |
| Generator.Allowed | crates/engine/src/generator/pieces/king.rs:38-48 | the allowed targets never hold an own piece; quiet-only targets are empty, capture-only targets hold an enemy piece, and for both kinds every square of the mask without an own piece is allowed |
| Generator.OwnInAll | crates/engine/src/generator/pieces/king.rs:35-42 | own pieces are among all pieces |
| Generator.OtherNotOwn | crates/engine/src/generator/pieces/king.rs:39-45 | enemy pieces are not own pieces |
| Generator.FlatMapSplit | crates/engine/src/generator/pieces/king.rs:53-74 | the moves pushed for a run of targets split anywhere are those of the two parts |
| Generator.FlatMapMembers | crates/engine/src/generator/pieces/king.rs:53-74 | every move pushed comes from some target |
| Generator.MoveGenerator.constructor | crates/engine/src/generator/generator.rs:51-55 | a new buffer holds 256 null moves, none pushed and none handed out |
| Generator.MoveGenerator.Push | crates/engine/src/generator/generator.rs:79-82 | `push` puts the move in the first free slot and appends it to the pushed moves |
| Generator.MoveGenerator.Len | crates/engine/src/generator/generator.rs:97-101 | `len` is the number of moves pushed, at most 256 |
| Generator.MoveGenerator.Next | crates/engine/src/generator/generator.rs:103-115 | `next` hands out the pushed moves in push order, then `None`, and never changes the pushed moves |
| Generator.MateOrStalemate | crates/engine/src/generator/generator.rs:84-94 | a side without moves is mated exactly when in check and stalemated otherwise, never both |
| Generator.Drain | crates/engine/src/generator/generator.rs:103-115 | iterating to the end hands out exactly the moves not yet handed out |
| Generator.PushAll | crates/engine/src/generator/generator.rs:79-82 | pushing several moves appends them in order |
| Generator.FlatMapStep | crates/engine/src/generator/pieces/king.rs:53-74 | the moves for the first i + 1 targets are those of the first i followed by those of target i |
| Generator.PushEach | crates/engine/src/generator/pieces/king.rs:53-74 | the loop over the targets pushes each target's moves in order |
| Generator.PushThenDrain | crates/engine/src/generator/generator.rs:79-115 | moves pushed into a fresh generator come back out in the order pushed |
| MoveGeneration.NoCastleInCheck | crates/engine/src/generator/pieces/king.rs:76 | in check no castling move is generated |
| MoveGeneration.DoubleCheckOnlyKing | crates/engine/src/generator/generator.rs:72-74 | in double check every move is a non-castling king step to an unattacked square without an own piece |
| MoveGeneration.GeneratedOrder | crates/engine/src/generator/generator.rs:57-71 | out of double check the pawn moves come first and the king moves last |
| MoveGeneration.New | crates/engine/src/generator/generator.rs:50-77 | `new` fills a fresh buffer with the moves of every generator, chosen by the number of checkers |
| MoveGeneration.PushAllPieces | crates/engine/src/generator/generator.rs:58-71 | the six generators push their moves one after another |
| KingGenerator.PseudoLegals | crates/engine/src/generator/pieces/king.rs:14-26 | `pseudo_legals` holds exactly the king-table squares that are allowed |
| KingGenerator.PackedStep | crates/engine/src/generator/pieces/king.rs:53-74 | the packed capture or quiet move goes from the king to the target, a capture exactly where the move type makes it one |
| KingGenerator.StepMoves | crates/engine/src/generator/pieces/king.rs:53-74 | each target gives exactly one move, a capture when an all-moves generator finds a piece there or a capture-only generator runs |
| KingGenerator.RookPath | crates/engine/src/generator/pieces/king.rs:79-124 | the between table gives the squares between king and rook: b, c, d queenside and f, g kingside |
| KingGenerator.KingPath | crates/engine/src/generator/pieces/king.rs:83-129 | the between table plus the destination gives the squares the king crosses and lands on: c, d or f, g |
| KingGenerator.PathClearSquares | crates/engine/src/generator/pieces/king.rs:79-88 | the castling test passes exactly when the squares between king and rook are empty and the squares the king crosses are unattacked |
| KingGenerator.EmptyOfPieces | crates/engine/src/generator/pieces/king.rs:80-81 | `between & all_occupied` is empty exactly when no tile on those squares holds a piece |
| KingGenerator.StepLegalsSound | crates/engine/src/generator/pieces/king.rs:34-74 | every king step goes to a table square that no enemy attacks and no own piece holds; quiet steps to empty squares and captures onto enemy pieces |
| KingGenerator.StepLegalsComplete | crates/engine/src/generator/pieces/king.rs:34-74 | for an all-moves generator every unattacked table square without an own piece gets a move |
| KingGenerator.CastleMovesSound | crates/engine/src/generator/pieces/king.rs:76-138 | a castling is pushed only out of check, for a generator of quiet moves, with the right held and the path clear |
| KingGenerator.CastleMovesMembers | crates/engine/src/generator/pieces/king.rs:76-138 | each castling is pushed exactly when it is out of check, the generator makes quiet moves, the right is held and the path is clear |
| KingGenerator.CastleNotStep | crates/engine/src/generator/pieces/king.rs:53-74 | a castling move is never one of the king steps |
| KingGenerator.CastleOtherWing | crates/engine/src/generator/pieces/king.rs:89-104 | the castlings of the two wings are different moves |
| KingGenerator.CastleGenerated | crates/engine/src/generator/pieces/king.rs:29-139 | `legals` generates a castling exactly out of check, for quiet moves, with the right held, the squares between empty and the king's path unattacked |
| KingGenerator.PushCastle | crates/engine/src/generator/pieces/king.rs:78-90 | one castling is pushed when its right is held and its path clear, nothing otherwise |
| KingGenerator.Legals | crates/engine/src/generator/pieces/king.rs:29-139 | `legals` pushes the king steps in ascending target order, then the castlings, queenside first |
| PawnGenerator.CheckMask | crates/engine/src/generator/pieces/pawn.rs:53-68 | in single check the mask is the checker and the squares between it and the king, the king excluded; out of check every square |
| PawnGenerator.AllowedAsWrittenAdmitsCaptures | crates/engine/src/generator/pieces/pawn.rs:72-74 | as written, a quiet-only generator lets a pawn onto an enemy piece that the intended board excludes |
| PawnGenerator.PseudoLegals | crates/engine/src/generator/pieces/pawn.rs:14-39 | `pseudo_legals` is within `allowed` and holds table pushes onto empty squares and table attacks onto pieces; a double push needs the square passed over empty |
| PawnGenerator.DoublePawnIsTwoRankPush | crates/engine/src/generator/pieces/pawn.rs:169-179 | among table pushes `is_double_pawn` picks exactly the two-rank push from the start rank |
| PawnGenerator.PromotionFromSeventh | crates/engine/src/generator/pieces/pawn.rs:181-184 | a push or attack lands on the first or last rank exactly when the pawn starts on the rank before promotion |
| PawnGenerator.PackedPawnMove | crates/engine/src/generator/pieces/pawn.rs:186-254 | a packed pawn move goes from source to target, is a capture where the move type makes it one, a promotion exactly on the last ranks and a double push exactly for a quiet two-rank push |
| PawnGenerator.PromotionsOf | crates/engine/src/generator/pieces/pawn.rs:198-203 | a promotion pushes four moves, to queen, rook, bishop and knight in that order |
| PawnGenerator.PushPawnMoves | crates/engine/src/generator/pieces/pawn.rs:186-254 | `push_pawn_moves` pushes one move, or the four promotions on a promotion square; every one goes from source to target with the right kind |
| PawnGenerator.EnPassantMoves | crates/engine/src/generator/pieces/pawn.rs:131-138 | an en-passant move is pushed only from the source to the en-passant square, and only when `is_legal_en_passant` holds |
| PawnGenerator.SourceMovesLand | crates/engine/src/generator/pieces/pawn.rs:84-95 | every move of one pawn goes from it to one of its pseudo-legal targets |
| PawnGenerator.SourcesMovesLand | crates/engine/src/generator/pieces/pawn.rs:84-119 | every move of a group of pawns goes from one of them |
| PawnGenerator.EnPassantMovesLand | crates/engine/src/generator/pieces/pawn.rs:122-140 | every en-passant move comes from a pawn beside the pawn to be taken and passes the legality test |
| PawnGenerator.PawnLegalsSound | crates/engine/src/generator/pieces/pawn.rs:42-141 | `legals` moves only own pawns; other than en passant they land on allowed squares, and pinned pawns move only out of check and along their line to the king |
| PawnGenerator.PawnLegalsInCheck | crates/engine/src/generator/pieces/pawn.rs:53-98 | in check no pinned pawn moves, and every move but en passant takes the checker or blocks between it and the king |
| PawnGenerator.PawnLegalsComplete | crates/engine/src/generator/pieces/pawn.rs:84-95 | every pseudo-legal target of every unpinned pawn gets all its moves pushed |
| PawnGenerator.PushSource | crates/engine/src/generator/pieces/pawn.rs:88-94 | the loop over one pawn's targets pushes their moves in ascending order |
| PawnGenerator.PushSources | crates/engine/src/generator/pieces/pawn.rs:85-95 | the loop over a group of pawns pushes each pawn's moves in ascending order |
| PawnGenerator.Legals | crates/engine/src/generator/pieces/pawn.rs:42-141 | `legals` pushes the unpinned pawns' moves, then out of check the pinned ones', then the en-passant captures |
| PawnGenerator.PushEnPassant | crates/engine/src/generator/pieces/pawn.rs:122-140 | the en-passant loop pushes the legal captures in ascending source order |
| Zobrist.XorGroup | crates/base/src/zobrist/hasher.rs:57-89 | `^=` on hashes has 0 as identity, cancels a key XORed twice, and is commutative and associative |
| Zobrist.EnPassantHashFile | crates/base/src/zobrist/hasher.rs:104-110 | two en-passant squares get the same key exactly when they are on the same file |
| Zobrist.TilesHashMembers | crates/base/src/zobrist/hasher.rs:60-65 | after the square loop the hash holds the piece key of exactly the occupied squares |
| Zobrist.Rights | crates/base/src/zobrist/hasher.rs:71-82 | the rights held are numbered 0 to 3: white kingside, white queenside, black kingside, black queenside |
| Zobrist.HashPlace | crates/base/src/zobrist/hasher.rs:57-89 | placing a tile on an empty square XORs exactly its piece key into the full hash |
| Zobrist.HashLift | crates/base/src/zobrist/hasher.rs:57-89 | lifting a tile off its square XORs its piece key out again |
| Zobrist.HashSide | crates/base/src/zobrist/hasher.rs:67-69 | flipping the side to move XORs the side key |
| Zobrist.HashDropRight | crates/base/src/zobrist/hasher.rs:71-82 | dropping a held castling right XORs that right's key |
| Zobrist.HashEnPassant | crates/base/src/zobrist/hasher.rs:84-86 | setting an en-passant square XORs the key of its file |
| Zobrist.XorFresh | crates/base/src/zobrist/hasher.rs:57-89 | XORing in a key not yet present adds it |
| Zobrist.RightsStepsAdd | crates/base/src/zobrist/hasher.rs:71-82 | the four castling tests add the keys of the rights held |
| Zobrist.RightsHashOfFlags | crates/base/src/zobrist/hasher.rs:71-82 | the castling keys XORed are those of the four flags that are set |
| Zobrist.KeysAfterTilesIsHash | crates/base/src/zobrist/hasher.rs:57-89 | the tile keys, then the side key, castling keys and en-passant key in the order `hash` applies them, give the hash of the position |
| Zobrist.TilesHashOf | crates/base/src/zobrist/hasher.rs:60-65 | the loop over the 64 squares XORs the key of every tile |
| Zobrist.HashOf | crates/base/src/zobrist/hasher.rs:57-89 | `hash` gives the hash of the tiles, the side to move, the rights held and the en-passant file |
| Zobrist.PieceHashInjective | crates/base/src/zobrist/hasher.rs:91-102 | `piece_hash` returns one table entry: two lookups agree exactly when piece, colour and square agree |
| Zobrist.DepthHashDistinct | crates/base/src/zobrist/hasher.rs:112-123 | `depth_hash` returns one of 32 distinct depth keys, none of them the side key or a piece key |
| Zobrist.HashMembers | crates/base/src/zobrist/hasher.rs:57-89 | `hash` holds the piece key of each occupied square, the side key for Black, one key per right held, the file key of the pawn to take, and no depth key |
| Zobrist.HashDetermines | crates/base/src/zobrist/hasher.rs:57-89 | two hashes are equal exactly when the tiles, the side to move and the rights are equal and the pawns to take, if any, are on the same file |
| Positions.IncU16 | crates/base/src/board/board.rs:336-340 | `+= 1` on a `u16` counter adds one below 65535 and wraps to 0 at 65535 |
| Positions.ToggleSynced | crates/base/src/board/board.rs:242-279 | a toggle onto an empty square or off the same tile keeps the incremental hash equal to `hash()` recomputed from the tiles |
| Positions.ToggleTwice | crates/base/src/board/board.rs:242-279 | toggling the same tile on the same square twice restores the tiles and the hash |
| Positions.ToggleTileTwice | crates/base/src/board/board.rs:250-264 | toggling the same tile on the same square twice restores the 64-slot piece array |
| Positions.RemoveCastleSpec | crates/base/src/board/board.rs:281-308 | `remove_castle` drops exactly the one right, XORs its key only when the right was held, changes nothing else, and is idempotent |
| Positions.RemoveCastleSynced | crates/base/src/board/board.rs:281-308 | dropping a right keeps the hash equal to the recomputed one |
| Positions.SwapActiveSynced | crates/base/src/board/board.rs:121-124 | flipping the side to move with the side key keeps the hash equal to the recomputed one |
| Positions.ClearEnPassantSynced | crates/base/src/board/board.rs:327-331 | clearing the en-passant target with its key keeps the hash equal to the recomputed one |
| Positions.SetEnPassantSynced | crates/base/src/board/board.rs:343-349 | setting the target of a double push with its file key keeps the hash equal to the recomputed one |
| Positions.BookkeepingState | crates/base/src/board/board.rs:311-349 | the first half of `make`: the halfmove clock resets on a pawn move and counts otherwise, the fullmove number counts after Black, a double push sets the target behind the pawn and any other move clears it, the rights stay |
| Positions.CornerRightsState | crates/base/src/board/board.rs:361-367 | a rook taken on its corner drops exactly that corner's right; clocks and target are untouched |
| Positions.MoverRightsState | crates/base/src/board/board.rs:375-386 | a king move drops both of the mover's rights and a rook leaving its corner drops that corner's right; nothing else changes |
| Positions.TakePieceState | crates/base/src/board/board.rs:351-368 | a capture records the captured piece, resets the halfmove clock and drops the right of a rook taken on its corner |
| Positions.MakeParts | crates/base/src/board/board.rs:310-418 | `make` moves the tiles as the move says, pushes the state it started from, records a captured piece and passes the move |
| Positions.MakeRules | crates/base/src/board/board.rs:310-418 | after `make`: the other side moves, the halfmove clock is 0 after a pawn move or capture and counted otherwise, the fullmove number counts after Black, the target is set only by a double push, a right survives exactly when it was held and the move neither moved the king or that rook nor took that rook, and the analysis is the one of the new tiles |
| Positions.MakeSynced | crates/base/src/board/board.rs:310-418 | a legal `make` keeps the incremental hash equal to `hash()` recomputed on the new position |
| Positions.UnmakeParts | crates/base/src/board/board.rs:420-477 | `unmake` moves the tiles back as the move says, restores the saved state and pops it |
| Positions.UnmakeMakeTiles | crates/base/src/board/board.rs:322-473 | the tile toggles of `unmake` undo those of `make` for quiet moves, captures, en passant, castling and promotions |
| Positions.UnmakeMake | crates/base/src/board/board.rs:310-477 | `unmake(make(m))` gives back exactly the position it started from: tiles, game state and history |
| Positions.UnmakeAfterMake | crates/base/src/board/board.rs:310-477 | the same for any position that agrees with `make`'s result on the tiles, the history, the side to move and the captured piece |
| Positions.MakeNullSpec | crates/base/src/board/board.rs:492-509 | a null move keeps the tiles, the halfmove clock and the rights, pushes the state, clears the target and passes the move |
| Positions.UnmakeNullMakeNull | crates/base/src/board/board.rs:492-516 | `unmake_null` after `make_null` restores the position exactly |
| Positions.MakeNullSynced | crates/base/src/board/board.rs:492-509 | a null move keeps the hash equal to the recomputed one |
| Positions.HashCountConcat | crates/base/src/board/board.rs:522-526 | counting the saved states with a hash over two stretches of the history adds up |
| Boards.SumToggle | crates/base/src/board/board.rs:249-269 | a toggle moves each material sum by the tile's weight: down when the tile is lifted, up when it is placed |
| Boards.SquaresToggle | crates/base/src/board/board.rs:247-276 | a toggle XORs the square into exactly the bitboards that select the toggled tile |
| Boards.BitboardsToggle | crates/base/src/board/board.rs:247 | XORing the square into the toggled piece's bitboard keeps every piece bitboard equal to the squares holding that piece |
| Boards.MaterialToggle | crates/base/src/board/board.rs:249-269 | the midgame, endgame and phase updates of a toggle keep each sum equal to the total over the new tiles |
| Boards.ToggleCaches | crates/base/src/board/board.rs:242-279 | the updates `toggle` makes keep every cached field (bitboards, colour boards, occupancy, material) the function of the tiles it caches |
| Boards.SelectedMembers | crates/base/src/board/board.rs:157-172 | a square is in a kept bitboard exactly when its tile is one the bitboard selects |
| Boards.MakeUnmakeFits | crates/base/src/board/board.rs:310-477 | the position a legal `make` leaves is one `unmake` of the same move accepts |
| Boards.Board.Empty | crates/base/src/board/board.rs:99-113 | an empty board: no tiles, the default game state, no history, all caches consistent |
| Boards.Board.Toggle | crates/base/src/board/board.rs:242-279 | `toggle` changes the position as `TogglePos` says and keeps every cached field consistent with the tiles |
| Boards.Board.ToggleBitboards | crates/base/src/board/board.rs:247-276 | the square is XORed into the piece board, the mover's colour board and the occupancy |
| Boards.Board.ToggleTileAndMaterial | crates/base/src/board/board.rs:249-269 | the tile flips and the colour's midgame and endgame sums and the phase move by the tile's values |
| Boards.Board.SwapActive | crates/base/src/board/board.rs:121-124 | the side to move flips and the side key is XORed into the hash |
| Boards.Board.UpdateGameState | crates/base/src/board/board.rs:174-240 | pins, checkers and attacked squares become the analysis of the tiles for the side to move |
| Boards.Board.RemoveCastle | crates/base/src/board/board.rs:281-308 | the position changes as `remove_castle` does (see `Positions.RemoveCastleSpec`) |
| Boards.Board.Make | crates/base/src/board/board.rs:310-418 | `make` changes the board to `MakePosition` of the old one, with the caches kept consistent; `Positions.MakeRules`, `MakeSynced` and `UnmakeMake` state what that position is |
| Boards.Board.MakeBookkeeping | crates/base/src/board/board.rs:311-349 | the first half of `make`: state pushed, en-passant pawn lifted, clocks and target updated |
| Boards.Board.MakePieces | crates/base/src/board/board.rs:351-413 | the second half of `make`: capture, piece move, rights, castling rook and promotion |
| Boards.Board.TakePiece | crates/base/src/board/board.rs:351-368 | the captured piece leaves `to`, is recorded, and the clock and corner right are updated |
| Boards.Board.CastleRook | crates/base/src/board/board.rs:388-407 | the rook of a castling moves from its corner to the square the king passed |
| Boards.Board.Unmake | crates/base/src/board/board.rs:420-477 | `unmake` changes the board to `UnmakePosition` of the old one, with the caches kept consistent |
| Boards.Board.PopState | crates/base/src/board/board.rs:468-476 | the saved state is popped and restored, and a pawn taken en passant is put back |
| Boards.Board.MakeNull | crates/base/src/board/board.rs:492-509 | `make_null` changes the board as `MakeNullPosition` says |
| Boards.Board.UnmakeNull | crates/base/src/board/board.rs:511-516 | `unmake_null` restores the last saved state, if any |
| Boards.Board.IsThreefoldRepetition | crates/base/src/board/board.rs:519-533 | the answer is true exactly when at least three saved states carry the current hash |
| Boards.Board.FromStr | crates/base/src/board/board.rs:726-818 | `from_str` fails exactly when the FEN reading fails, with the same error, and otherwise builds a consistent board holding the position the FEN describes |
| Boards.Board.FromFields | crates/base/src/board/board.rs:732-816 | the placements toggled onto an empty board, the fields set and the hash computed from scratch give `FenPosition` |
| Boards.Board.ToFen | crates/base/src/board/board.rs:535-608 | `to_fen` returns the six-field text of the board's position, with the en-passant field naming the square a capturing pawn lands on (the corrected field, see Findings) |
| Boards.Board.TogglePlacements | crates/base/src/board/board.rs:734-752 | each piece read from the placement field is toggled onto the empty board, in order, leaving the game state but its hash as it was |
| Boards.Board.StartFrom | crates/base/src/board/board.rs:754-815 | the side, rights, target and counters read from the FEN are installed with the hash computed from scratch, then the state is analysed |
| Boards.Board.PlacementOf | crates/base/src/board/board.rs:537-564 | the rank loop writes the ranks from the eighth down, separated by `/` |
| Boards.Board.CastlingField | crates/base/src/board/board.rs:574-590 | the castling field holds a letter per right held, in the order `KQkq`, or `-` |
| Boards.Board.RowOf | crates/base/src/board/board.rs:538-559 | one rank written as FEN: piece letters, with runs of empty squares as digits |
| Fen.Split | crates/base/src/board/board.rs:727-734 | `split` on one character yields at least one part and no part holds the separator |
| Fen.JoinSplit | crates/base/src/board/board.rs:727-734 | joining the parts of a split with the separator gives the text back |
| Fen.SplitJoin | crates/base/src/board/board.rs:727-734 | splitting fields joined by a separator they do not contain gives the fields back |
| Fen.DigitChar | crates/base/src/board/board.rs:738-739 | the character of a digit is a decimal digit whose value is that digit |
| Fen.Decimal | crates/base/src/board/board.rs:600-604 | `to_string` of a count is one or more decimal digits, a single digit below ten |
| Fen.DecimalRoundTrip | crates/base/src/board/board.rs:600-604 | the digits `to_string` writes stand for the number written |
| Fen.ParseU16Decimal | crates/base/src/board/board.rs:806-810 | a counter written by `to_fen` is read back by `parse::<u16>` unchanged |
| Fen.ParseU16Rejects | crates/base/src/board/board.rs:806-810 | an empty counter field, a `-` sign or a lone `+` is refused |
| Fen.ParseRankShape | crates/base/src/board/board.rs:735-751 | a rank reads as real pieces on that rank, left to right from the file it starts at |
| Fen.ParseRanksShape | crates/base/src/board/board.rs:734-752 | the placement field reads as real pieces on distinct squares, none above the eighth rank |
| Fen.PlacedNoEmpty | crates/base/src/board/board.rs:746-748 | toggling the placements read onto an empty board leaves no tile without a piece |
| Fen.BeforeDash | crates/base/src/board/board.rs:762-765 | the castling letters read are the prefix of the field before its first `-`, which holds no `-` |
| Fen.ParseCastlingMeaning | crates/base/src/board/board.rs:761-775 | the castling field is accepted exactly when every letter before its first `-` names a right (`KQkq`); each right is then held exactly when its letter is there |
| Fen.CastlingRoundTrip | crates/base/src/board/board.rs:573-775 | the castling field `to_fen` writes reads back as the same four rights |
| Fen.ParseEnPassant | crates/base/src/board/board.rs:777-804 | an accepted target names the landing square by file letter and rank digit, with the pawn to take one rank nearer the side to move; `-` is no target; a rank digit outside 1..8 is refused |
| Fen.EnPassantRoundTrip | crates/base/src/board/board.rs:592-804 | the corrected en-passant field (the landing square) reads back as the same target, for any target a double push leaves |
| Fen.EnPassantTextAsWrittenBreaksRoundTrip | crates/base/src/board/board.rs:592-597 | with White to move after e7-e5, `to_fen` as written gives `e5`, which reads back as a different target (landing on e5, pawn on e4) |
| Fen.FenPositionSynced | crates/base/src/board/board.rs:732-813 | the position `from_str` builds keeps the tiles and side read, has no saved states, and a hash equal to `hash()` recomputed |
| Fen.ParseFen | crates/base/src/board/board.rs:726-818 | `from_str` refuses a text without exactly six space-separated fields; an accepted one had `w` or `b` as the side, which is the side to move, and builds a position with no history, real pieces only and a hash in step |
| Fen.FenFields | crates/base/src/board/board.rs:535-608 | `to_fen` writes exactly six fields |
| Fen.FenTextFields | crates/base/src/board/board.rs:566-607 | the six fields are written one after another with a single space between each two |
| Fen.PlacementRoundTrip | crates/base/src/board/board.rs:537-752 | the placement field `to_fen` writes reads back as placements that rebuild exactly the same tiles |
| Fen.FenRoundTrip | crates/base/src/board/board.rs:535-818 | reading what `to_fen` writes gives back the tiles, the side to move, the rights, the en-passant target and the counters, with the hash computed afresh |
| Fen.FenRoundTripFresh | crates/base/src/board/board.rs:535-818 | a position as `from_str` leaves it is written and read back unchanged |
| Evaluation.TruncDiv | crates/engine/src/evaluation/evaluation.rs:24 | Rust's `/=` on `i32`: the Euclidean quotient for a non-negative numerator and its mirror for a negative one, i.e. truncation toward zero |
| Evaluation.TruncDivOdd | crates/engine/src/evaluation/evaluation.rs:24 | truncating division commutes with negation |
| Evaluation.BishopPairDifference | crates/engine/src/evaluation/evaluation.rs:29-46 | the difference is +50 exactly when only the side to move has the bishop pair, -50 exactly when only the opponent has it, 0 exactly when both or neither have it |
| Evaluation.EvaluateAntisymmetric | crates/engine/src/evaluation/evaluation.rs:3-27 | the evaluation is zero-sum: the score for one side is the negation of the score for the other, despite the truncating division |
| Evaluation.PestoEndpoints | crates/engine/src/evaluation/evaluation.rs:12-27 | at phase 24 or more only the midgame difference counts, at phase 0 only the endgame difference |
| Evaluation.PestoBetween | crates/engine/src/evaluation/evaluation.rs:12-27 | for any non-negative phase the tapered score lies between the endgame and the midgame differences |
| Sort.MvvLvaOrder | crates/engine/src/search/sort.rs:13-22 | the MVV-LVA entry is ten per victim index plus six less the attacker index, so a dearer victim always outranks a cheaper one and a cheaper attacker comes first; a king victim or an empty piece scores 0; no entry exceeds 55 |
| Sort.Score | crates/engine/src/search/sort.rs:71-106 | the PV move scores `PV_SCORE`; otherwise a capture scores in the MVV-LVA tier, a mate killer in its tier less 100 per slot, a killer in its tier less 100 per slot, and anything else 0 |
| Sort.TiersSeparate | crates/engine/src/search/sort.rs:7-11 | the tiers never overlap: PV above every capture, every capture above every mate killer, every mate killer above every killer, every killer above 0, and `PV_SCORE` is exactly `usize::MAX` |
| Sort.ScoreMove | crates/engine/src/search/sort.rs:71-106 | `score_move` on the killer tables is `Score` of the slots the move holds in the mate-killer and killer rows of its ply |
| Sort.ScoreMoves | crates/engine/src/search/sort.rs:54-69 | `score_moves` pairs each move, in order, with its `score_move` score |
| Sort.BestIndex | crates/engine/src/search/sort.rs:37-46 | the entry the scan picks lies in the remaining part of the list |
| Sort.ScanMeaning | crates/engine/src/search/sort.rs:40-46 | the scan keeps the largest score seen and the index of its first occurrence |
| Sort.ScanAllZero | crates/engine/src/search/sort.rs:37-46 | when every remaining score is 0 the scan keeps the starting index |
| Sort.BestIndexMaximal | crates/engine/src/search/sort.rs:36-52 | the entry brought forward holds the largest remaining score and no earlier remaining entry ties it |
| Sort.BestIndexAllZero | crates/engine/src/search/sort.rs:36-52 | with all remaining scores 0 the entry at `move_index` stays in place |
| Sort.Swap | crates/engine/src/search/sort.rs:48 | `Vec::swap` exchanges the two entries, keeps every other one and keeps the list a permutation of itself |
| Sort.PickNextMove | crates/engine/src/search/sort.rs:36-52 | `pick_next_move` swaps the best remaining entry into `move_index`, returns its move, and that move's score is at least every remaining score |
| Killers.Killers.constructor | crates/engine/src/search/killers.rs:17-23 | every slot of every ply starts empty |
| Killers.Killers.Store | crates/engine/src/search/killers.rs:26-37 | the move goes to slot 0 and the old slot 0 to slot 1, unless slot 0 already holds it; other plies are untouched; the two slots of a ply never hold the same move |
| Killers.Killers.Get | crates/engine/src/search/killers.rs:39-50 | the first slot of the ply's row that holds the move, or none when neither does |
| Killers.Killers.Contains | crates/engine/src/search/killers.rs:52-54 | true exactly when some slot of the ply's row holds the move |
| Search.SearchStats.constructor | crates/engine/src/search/search.rs:61-72 | a new search starts at ply 0 with `max_ply` 0 and the given depth, which must be at most `MAX_DEPTH` |
| Search.SearchStats.IncreasePly | crates/engine/src/search/search.rs:84-87 | the ply goes up by one and `max_ply` becomes the larger of itself and the new ply, so it never falls below the ply |
| Search.SearchStats.DecreasePly | crates/engine/src/search/search.rs:89-91 | the ply goes down by one; depth and `max_ply` are kept |
| Search.SearchStats.IncreaseDepth | crates/engine/src/search/search.rs:93-97 | the depth grows by the reduction and stays within `MAX_DEPTH`; the plies are kept |
| Search.SearchStats.DecreaseDepth | crates/engine/src/search/search.rs:99-103 | the depth shrinks by the reduction without going below zero; the plies are kept |
| Search.SearchStats.MakeSearch | crates/engine/src/search/search.rs:74-77 | one ply deeper and `reduction` fewer plies to search; `max_ply` never shrinks |
| Search.SearchStats.UnmakeSearch | crates/engine/src/search/search.rs:79-82 | one ply shallower and `reduction` more plies to search, undoing `make_search` |
| Search.SearchStats.SearchChild | crates/engine/src/search/search.rs:74-82 | `make_search` then `unmake_search` with the same reduction restores ply and depth, and `max_ply` has reached the child's ply |
| Search.SearchStats.ExtendSearch | crates/engine/src/search/search.rs:110-113 | one more ply to search, after which the node is no longer a leaf |
| Search.EstimateFallbackIsZero | crates/engine/src/search/search.rs:187-195 | whenever the fallback branch of `estimate` runs its product is 0, so the move gets no time |
| Search.EstimateWithinTimeLeft | crates/engine/src/search/search.rs:187-195 | `estimate` never grants more time than is left |
| Quiescence.QSearchFailHard | crates/engine/src/search/quiescence.rs:35-119 | for a non-empty window every value `quiescence` returns lies in `[alpha, beta]` (fail-hard) |
| Quiescence.QLoopFailHard | crates/engine/src/search/quiescence.rs:88-118 | the capture loop returns a value in `[alpha, beta]` from any point on |
| Quiescence.QSearchIsClampedValue | crates/engine/src/search/quiescence.rs:35-119 | when nothing stops the search, `quiescence` returns exactly the stand-pat/capture value of the position clamped to the window, so the window never changes an answer inside it |
| Quiescence.QLoopIsClampedValue | crates/engine/src/search/quiescence.rs:88-118 | the capture loop returns the best of alpha and the remaining captures' negated child values, capped at beta |
| Quiescence.Quiesce | crates/engine/src/search/quiescence.rs:35-119 | the search with its side effects returns the fail-hard result, gives back the ply it borrowed for each child even when a child stops, stores a cutoff capture as a killer (a mate killer for a mate score) only at its own ply and leaves the killer rows of shallower plies untouched |
| NegamaxRules.StoreFlag | src/search/negamax.rs:356-372 | the flag is a lower bound exactly when the result reaches beta, an upper bound exactly when it is below beta and at most alpha, and exact exactly when it lies strictly inside the window |
| NegamaxRules.StoreFlagSound | src/search/negamax.rs:356-372 | the flag `store` writes for a fail-soft result is a true statement about the position's value |
| NegamaxRules.ProbeWindow | src/search/negamax.rs:35-52 | an entry searched less deep (or none) leaves the window alone; an early return hands back the entry's evaluation; otherwise the window only narrows and stays non-empty |
| NegamaxRules.ProbePvMove | src/search/negamax.rs:34-46 | the PV move changes only to the best move of a usable entry that has one |
| NegamaxRules.ProbeWindowSound | src/search/negamax.rs:35-52 | when the entry's flag is true of the position, an early return is a fail-soft result of the original window and any fail-soft result of the narrowed window is one of the original window |
| NegamaxRules.MateDistance | src/search/negamax.rs:54-70 | mate-distance pruning only narrows the window, caps beta at `CHECKMATE - ply`, raises alpha to at least `-(CHECKMATE - ply)`, keeps a non-empty window non-empty, and an early return is one of the two mate bounds |
| NegamaxRules.MateDistanceSound | src/search/negamax.rs:54-70 | for any position whose value lies within the mate scores reachable from this ply, mate-distance pruning never turns a fail-soft result into a wrong one |
| NegamaxRules.MatedEvalIsMate | src/search/negamax.rs:115-118 | a checkmate found at most `MAX_DEPTH` plies deep scores as a mate (at most `-CHECKMATE_MIN`), lies within the mate-distance bounds and records its ply |
| NegamaxRules.LeafEval | src/search/negamax.rs:78-119 | depth 0 returns the quiescence value; otherwise the fifty-move rule, a threefold repetition or a stalemate returns a draw, then a checkmate returns the mated evaluation, and only then are the moves searched |
| NegamaxRules.NullMoveDepth | src/search/negamax.rs:141-158 | the null-move search, tried from depth 5, runs at a depth of at least 2 and below the node's depth |
| NegamaxRules.ReducedDepth | src/search/negamax.rs:224-240 | the reduced search of a late quiet move, tried from depth 3, runs at least one ply deep and shallower than a full child search |
| NegamaxRules.CheckExtensionNeverFires | src/search/negamax.rs:124-127 | as written the extension needs `extended` already set, so starting from `false` it never adds a ply |
| NegamaxRules.CheckExtensionOnce | src/search/negamax.rs:124-127 | corrected: a node in check gains exactly one ply exactly when no ancestor was extended, and the line is then marked extended |
| NegamaxRules.Scan | src/search/negamax.rs:183-339 | the loop visits no more moves than it has, a recorded best move is one it visited, and it stops only after a visit |
| NegamaxRules.ScanMeaning | src/search/negamax.rs:183-339 | after the loop `best_eval` is the largest visited child evaluation, alpha is the larger of the entry alpha and `best_eval`, the best move is the first to reach `best_eval` when that beats the entry alpha, and the loop stops exactly after the first move that brings alpha to beta |
| NegamaxRules.BestBound | src/search/negamax.rs:309 | no visited child evaluation exceeds `best_eval` |
| NegamaxRules.FinalFlagNeverExact | src/search/negamax.rs:341-350 | as written the final `store` classifies `best_eval` against the raised alpha, so it never stores an exact result and an exact node is stored as an upper bound |
| NegamaxRules.FinalFlag | src/search/negamax.rs:341-350 | corrected: the final flag classifies `best_eval` against the window the node was entered with |
| NegamaxRules.FinalFlagExact | src/search/negamax.rs:341-350 | with the entry window a node is stored exact exactly when some move raised alpha and no move cut off |
| NegamaxRules.CutoffKiller | src/search/negamax.rs:325-335 | a cutoff move becomes no killer exactly when it is a capture, and a mate killer exactly when it is quiet and alpha is a mate score |
| NegamaxRules.MatingCutoffIsMateKiller | src/search/negamax.rs:325-335 | a quiet cutoff that mates within `MAX_DEPTH` plies is stored as a mate killer |
| NegamaxRules.SearchMoves | src/search/negamax.rs:183-350 | the move loop returns the loop's best evaluation and raised alpha, the first best move, a principal variation of that move followed by its child's line (or the old line when no move beats alpha), the killer the cutoff move becomes, and the corrected final flag |
| NegamaxRules.ScanAfterCutoff | src/search/negamax.rs:337 | once the loop has cut off its state no longer changes, so breaking out is the same as scanning the rest |
| Iterative.ScoreOf | crates/engine/src/search/iterative.rs:45-53 | an evaluation is reported as a mate exactly when its magnitude reaches `CHECKMATE_MIN`, and otherwise as the same number of centipawns |
| Iterative.ScoreOfMate | crates/engine/src/search/iterative.rs:45-53 | mating in `ply` plies is reported as mate in `ceil(ply / 2)` moves, and being mated in `ply` plies as that number negated |
| Iterative.DeepenOutcome | crates/engine/src/search/iterative.rs:26-90 | the loop ends at the depth limit only after completing every depth, on a stop only when the next depth's search reported it, on time only when the iteration took over half the move time, and on a mate only with a mate score, and the last two never in infinite mode; the best move is the first move of the last completed depth's line, or none when no depth completed |
| Iterative.IterativeDeepening | crates/engine/src/search/iterative.rs:19-108 | `iterative_deepening` returns the best move of the depth loop run from depth 1 with evaluation 0, or the fallback move when the loop kept none |
| Iterative.ProbePv | crates/engine/src/search/iterative.rs:131-150 | a move comes back exactly when the table holds one for the position and it is legal there |
| Iterative.PvLine | crates/engine/src/search/iterative.rs:110-129 | the principal variation is at most `max_depth` moves long |
| Iterative.PvLineLegal | crates/engine/src/search/iterative.rs:110-150 | every move of the line is legal where it is played, and a line shorter than the limit stops where the table has no legal move |
| Iterative.MoveExists | crates/engine/src/search/iterative.rs:152-161 | true exactly when the given move is among the generated moves |
| Iterative.ProbePvMove | crates/engine/src/search/iterative.rs:131-150 | `probe_pv_move` returns the table's move when `move_exists` finds it among the legal moves, and nothing otherwise |
| Iterative.GetPvLine | crates/engine/src/search/iterative.rs:110-129 | `get_pv_line` follows table moves from a copy of the board and returns the legal line described by `PvLine` |
| Aspiration.AspirationSearch | crates/engine/src/search/aspiration.rs:8-25 | a result strictly inside `[last - 20, last + 20]` is returned; a result on or outside a bound is replaced by the full-window search; a stop is passed on |
| Aspiration.AspirationFindsValue | crates/engine/src/search/aspiration.rs:10-25 | when every search answers fail-soft for the position's true value and that value lies strictly inside the full window, an aspiration search that is not stopped returns exactly that value |
| PolyglotHasher.KindOf | crates/base/src/polyglot/hasher.rs:58 | the kind of a coloured piece is one of the twelve Polyglot kinds |
| PolyglotHasher.KindDecodes | crates/base/src/polyglot/hasher.rs:58 | the kind gives back its piece and colour, so no two coloured pieces share a kind (black pawn 0, white pawn 1, ..., white king 11) |
| PolyglotHasher.PieceKeyIndex | crates/base/src/polyglot/hasher.rs:57-68 | a piece key lies below the castling keys, with the square in its low six bits and the kind above them |
| PolyglotHasher.CastlingKeyIndex | crates/base/src/polyglot/hasher.rs:70-79 | each castling key lies between the castling and en-passant offsets |
| PolyglotHasher.EnPassantKeyIndex | crates/base/src/polyglot/hasher.rs:81-86 | each en-passant key lies between the en-passant and turn offsets |
| PolyglotHasher.Hash | crates/base/src/polyglot/hasher.rs:17-55 | `hash` XORs in the keys in the order the format lists them and produces the position's Polyglot key |
| PolyglotHasher.TilesKeysMembers | crates/base/src/polyglot/hasher.rs:20-25 | the piece keys XORed in by the square loop are exactly the kind-and-square indices of the occupied squares |
| PolyglotHasher.EnPassantCapturableMeans | crates/base/src/polyglot/hasher.rs:44-52 | the en-passant key is used exactly when a pawn of the side to move stands on the captured pawn's rank, at most one file from it |
| PolyglotHasher.PolyglotKeyMembers | crates/base/src/polyglot/hasher.rs:17-55 | a key holds exactly the piece keys of the occupied squares, the key of each castling right held, the en-passant file key when the pawn can be taken, and the turn key when White is to move |
| PolyglotHasher.PolyglotKeyDetermines | crates/base/src/polyglot/hasher.rs:17-55 | two positions with the same key have the same pieces on the same squares, the same side to move and the same castling rights |
| PolyglotHasher.SameTile | crates/base/src/polyglot/hasher.rs:20-25 | two positions with the same key hold the same tile on each square |
| Polyglot.FromBeBytes | crates/base/src/polyglot/parser.rs:109-113 | `from_be_bytes` of `n` bytes is a number below 256^n |
| Polyglot.ToBeBytes | crates/base/src/polyglot/parser.rs:114 | `to_be_bytes` of an `n`-byte number is exactly `n` bytes |
| Polyglot.FromToBeBytes | crates/base/src/polyglot/parser.rs:113-114 | writing a number big-endian and reading it back gives the number |
| Polyglot.ToFromBeBytes | crates/base/src/polyglot/parser.rs:113-114 | reading bytes big-endian and writing the number back gives the bytes |
| Polyglot.ParseMove | crates/base/src/polyglot/parser.rs:31-54 | `PolyglotMove::parse` succeeds exactly on two bytes, and every field it cuts out fits three bits |
| Polyglot.EncodeMove | crates/base/src/polyglot/parser.rs:36-45 | a book move is stored in two bytes |
| Polyglot.ParseEncodeMove | crates/base/src/polyglot/parser.rs:31-54 | fields that fit three bits come back from their two bytes unchanged |
| Polyglot.WordFields | crates/base/src/polyglot/parser.rs:39-45 | the to file, to rank, from file, from rank and promotion are bits 0-2, 3-5, 6-8, 9-11 and 12-14 of the word |
| Polyglot.EncodeParseMove | crates/base/src/polyglot/parser.rs:31-54 | two bytes whose top bit is clear come back unchanged: the parser reads fifteen of the sixteen bits |
| Polyglot.ParseEntry | crates/base/src/polyglot/parser.rs:99-122 | `PolyglotEntry::parse` succeeds exactly on sixteen bytes, and each field fits the width it is stored in |
| Polyglot.EncodeEntry | crates/base/src/polyglot/parser.rs:91-96 | a record is sixteen bytes |
| Polyglot.ParseEntryMove | crates/base/src/polyglot/parser.rs:104-114 | the key is bytes 0-7, the move bytes 8-9 and the weight bytes 10-11; the detour of the move through a `u16` changes nothing |
| Polyglot.ParseEncodeEntry | crates/base/src/polyglot/parser.rs:99-122 | a record whose fields fit parses back from its sixteen bytes to itself |
| Polyglot.EncodeParseEntry | crates/base/src/polyglot/parser.rs:99-122 | sixteen bytes whose move word has its top bit clear are written back unchanged from their parsed record |
| Polyglot.Chunks | crates/base/src/polyglot/parser.rs:146-147 | `chunks_exact(16)` yields one chunk per sixteen bytes |
| Polyglot.ChunksAt | crates/base/src/polyglot/parser.rs:146-147 | chunk `i` is bytes `16i` to `16i + 16` |
| Polyglot.ParseEntriesAll | crates/base/src/polyglot/parser.rs:146-149 | on sixteen-byte chunks `filter_map(PolyglotEntry::parse)` drops nothing and keeps the order |
| Polyglot.WithKey | crates/base/src/polyglot/parser.rs:151-158 | the records of one key are records of the file with that key |
| Polyglot.GroupLookup | crates/base/src/polyglot/parser.rs:151-158 | after the fold a key is in the map exactly when some record has it, and its list holds every such record in order |
| Polyglot.ParseBook | crates/base/src/polyglot/parser.rs:141-161 | `PolyglotBook::parse` fails, with `InvalidData`, exactly when the length is not a multiple of sixteen |
| Polyglot.RecordsAt | crates/base/src/polyglot/parser.rs:141-161 | a book file has one record per sixteen bytes, record `i` being bytes `16i` to `16i + 16` parsed |
| Polyglot.ParseBookLookup | crates/base/src/polyglot/parser.rs:141-161 | a parsed book holds a key exactly when some record carries it and lists that key's records in file order |
| Polyglot.ParseBookWellFormed | crates/base/src/polyglot/parser.rs:141-161 | no key of a parsed book has an empty list, and every stored move has three-bit fields |
| Polyglot.LookupParsed | crates/base/src/polyglot/parser.rs:163-172 | a lookup in a parsed book returns every record with the key in file order, and fails with `NoEntries` exactly when there is none |
| Polyglot.GetEntries | crates/base/src/polyglot/parser.rs:163-172 | `get_entries` looks up the board's Polyglot key and succeeds exactly when the book holds it |
| Polyglot.PromotionPiece | crates/base/src/polyglot/parser.rs:69-76 | promotion index 0 is no promotion, 1-4 are knight, bishop, rook and queen, and any larger index fails with `InvalidPromotion` carrying it |
| Polyglot.CastlingFix | crates/base/src/polyglot/parser.rs:60-67 | only the four king-takes-own-rook records are rewritten, to the king's destination on the c or g file of the same rank; every other destination is kept |
| Polyglot.MoveText | crates/base/src/polyglot/parser.rs:78-83 | the text starts with both square names and has a fifth letter exactly for a promotion |
| Polyglot.ToMoveSound | crates/base/src/polyglot/parser.rs:56-87 | `to_move` refuses a promotion index above 4 before reading the board, and a converted move leaves the record's source square for its (castling-fixed) destination and moves a piece |
| Polyglot.CastleRecord | crates/base/src/polyglot/parser.rs:56-87 | a book castle, written as the king taking its own rook, becomes the engine's castle move when the king's destination is empty |
| Polyglot.PickAsWritten | crates/base/src/polyglot/parser.rs:186-195 | the loop as written picks the first record whose running weight reaches the draw (`<=`) |
| Polyglot.PickAsWrittenTakesZeroWeight | crates/base/src/polyglot/parser.rs:186-195 | as written, with weights 0 and 5 the draw 0 picks the record of weight 0 |
| Polyglot.SelectEntry | crates/base/src/polyglot/parser.rs:184-195 | corrected (`<`): a draw below the total weight lands in the slice of a record, whose weight is therefore positive, and never reaches the panic |
| Polyglot.SlicesDisjoint | crates/base/src/polyglot/parser.rs:184-195 | the weight slices do not overlap, so a draw names at most one record |
| Polyglot.WeightMonotone | crates/base/src/polyglot/parser.rs:186-189 | the running weight never decreases |
| Polyglot.SliceLength | crates/base/src/polyglot/parser.rs:178-195 | each record is picked by exactly `weight` of the possible draws, so records are drawn in proportion to their weights |
| Polyglot.GetRandomMove | crates/base/src/polyglot/parser.rs:174-196 | an unknown key fails with `NoEntries`; with total weight 0 the uniformly chosen record is converted; otherwise the record whose slice holds the draw, of positive weight, is converted |

## Left out

- The UCI front ends, threads, the stop flag, wall-clock time, node-per-second and hit-rate output are I/O or concurrency. The `elapsed` time `Iterative.IterativeDeepening` uses is a parameter.
- The fully recursive `negamax` of `crates/engine/src/search/negamax.rs` runs the whole engine. The rules of the older `src/search/negamax.rs` (store flag, table probe, mate distance, cutoff killer, move loop) are modelled with the child evaluations as inputs. The recursive calls are not unfolded.
- `Aspiration.AspirationSearch` and `Iterative.IterativeDeepening` take the search as a function parameter. `Iterative.IterativeDeepening` also takes the principal-variation reader and a fallback move. Without a legal move, the source's fallback `moves[0]` panics.
- The knight, bishop, rook and queen generators share the mask pattern of the pawn and king generators. They are the `OtherPieces` parameter of `MoveGeneration.PushAllPieces`.
- `update_game_state` (pins, checkers, attacked squares) is an input to `Boards.Board.Make`. This includes the XOR of slider attackers that the en-passant legality test performs.
- The generated tables are parameters with validity predicates, not constants:
  - the magic attack tables;
  - the between and line tables used by the generators;
  - the Polyglot random table;
  - the PeSTO tables;
  - the Zobrist random keys.
- Known values the source's tests expect are therefore not reproduced here. Examples are the start-position perft counts (20, 400, 8902, 197281) and the Polyglot start hash 0x463b96181691fc9c.
- Randomness. `ZobristHasher::new` draws its keys from `rand`, and `PolyglotBook::get_random_move` draws a number with `rand`. Both are replaced by inputs: the keys stay abstract, and `pick` and `draw` are parameters of `Polyglot.GetRandomMove`.
- Zobrist and Polyglot keys are sets of table entries, so two different entry sets whose 64-bit XORs happen to collide are not modelled.
- File reading (`PolyglotBook::from_file`, the perft suite file), its I/O errors, `Display` impls and `println!` output are I/O.
  - This covers `Board`'s `Display` (crates/base/src/board/board.rs:701-723), `divide`'s printed lines (the lines are returned as values), and `Move`'s `Display`.
  - The older `src/generation/mov.rs` parser and printer are not modelled. The 16-bit move's `parse` is.
- `make_moves` (crates/base/src/board/board.rs:479-490) is a loop of `make` calls with no contract of its own. It is not modelled separately.
- The getters `get_piece_count`, `get_king_square` and `get_squares_by_piece` (crates/base/src/board/board.rs:127-145) are field reads. Also not modelled are:
  - the square table getters;
  - `HashTable::size` and `GenericTable::size`, which report `mem::size_of`.
- `crates/base/src/board/piece.rs` and `crates/base/src/board/color.rs` are not part of this model. Their index conventions are stated above.
- The raw-pointer transposition table (`table.rs`, `packed.rs`) is unsafe code whose packing is `todo!()`.
- Two versions of the source disagree, and the model follows one of them:
  - `generator.rs` calls `PieceGenerator::legals` without the move-type parameter that `pawn.rs` and `king.rs` take. The model follows `pawn.rs` and `king.rs`.
  - `src/hashtable/transposition.rs` builds a 4-field entry, but `src/search/negamax.rs` stores 6 fields (with node count and best move). The model follows `negamax.rs`.
  - `src/search/iterative.rs` calls `negamax` with 12 arguments, which is not the signature `src/search/negamax.rs` declares.
  - `sort.rs` uses `killers.contains` as if it returned the matching slot, but `killers.rs` returns a boolean. `Sort.ScoreMove` uses the slot that `get` finds.
- Evaluations, node counts, weight sums and the perft counters are unbounded integers. The source's `i32` and `u64` arithmetic cannot overflow on the values a game produces, so the model does not track its width. `u8` plies, the 16-bit move word and `u64` magics keep their widths.
- `Sort.ScoreMoves` and `Sort.ScoreMove` take the victim and the attacker of a capture as functions of the move. The source reads them off the board.
- MagicMasks.Permutate requires `bitCount <= |mask|`: the source's `1 << bit_count` overflows for larger counts.
- MagicSearch.FindMagic requires `1 <= ones <= |mask|` and `ones <= 12`: the shift by `64 - ones` and the 4096-entry buffers fail outside that range.
- Quiescence.Quiesce requires every node to stay within the killer table's `MAX_DEPTH` plies, where the source's indexing panics.
- Search.SearchStats.IncreasePly and Search.SearchStats.ExtendSearch require the `u8` counter below 255, where the source's addition overflows. Search.SearchStats.DecreasePly requires a positive ply for the same reason.
- NegamaxRules.NullMoveDepth and NegamaxRules.ReducedDepth require the depths the source's own guards ensure (at least 5 and 3).
- Bitboards.Shl and Bitboards.Shr require a shift below 64: the source's `u64` shift overflows from 64 on (a panic in a debug build). The only shift the generators make is by 8.
- PerftRuns.PerftNormal, PerftRuns.Divide and PerftRuns.PerftWithStats with the cache on assume that the 64-bit keys of the positions a run looks up do not collide (`KeysCount`, `KeysStats`). `PerftSpec.CountsExist` shows that this is all they assume: from a coherent position, with a generator that reads only what the hash stands for, collision-free keys give the counts they ask for. A collision the source can meet is not modelled.
- PerftSpec.Playable accepts a double push only onto the mover's fourth rank, the only double push the pawn generator gives. `make` itself does not check the rank.
- Boards.Board.ToFen runs a corrected half under "## Findings": it writes the square the pawn passed over, where crates/base/src/board/board.rs:594 writes the square of the pawn to capture.
- PawnGenerator.Legals runs a corrected half under "## Findings": it uses `Generator.Allowed`, so quiet-only generation excludes occupied squares, where crates/engine/src/generator/pieces/pawn.rs:72-74 tests `M::QUIET && M::QUIET`.
- NegamaxRules.SearchMoves runs a corrected half under "## Findings": it stores its result with `NegamaxRules.FinalFlag`, which compares against the alpha the node was entered with, where src/search/negamax.rs:341-350 compares against the raised alpha.
- Polyglot.GetRandomMove runs a corrected half under "## Findings": it draws with `Polyglot.SelectEntry` (`draw < running sum`), where crates/base/src/polyglot/parser.rs:190 has `<=`.
- Moves.Pack runs a corrected half under "## Findings": it packs and reads the flag with a four-bit mask, where crates/base/src/move/constants.rs:18 declares `0xF000`. Every reader of a move's flag below therefore sees the flag the move was built with, where the source reads 0 (a quiet move).
- Positions.MakeParts, Positions.MakeRules and Positions.UnmakeParts read the flag through the corrected `Moves.Pack` mask.
- Boards.Board.Make and Boards.Board.Unmake read the flag through the corrected `Moves.Pack` mask.
- KingGenerator.Legals builds its castling moves with the corrected `Moves.Pack` mask. PawnGenerator.Legals does the same for its flagged pawn moves.
- PerftSpec.Tally classifies moves by the flag read through the corrected `Moves.Pack` mask.
- Sort.ScoreMove and Sort.ScoreMoves recognise captures by the flag read through the corrected `Moves.Pack` mask.
- Moves.Parse runs a corrected half under "## Findings": it reads its squares with the range-checked `Squares.FromStr`, so "i1a3" is an error, where crates/base/src/move/move.rs:201 uses the `from_str` that accepts it.

## Findings

| source | as written | input that shows it | evidently intended | confidence | as-written member | corrected member |
|---|---|---|---|---|---|---|
| crates/base/src/move/constants.rs:18 | `FLAG_MASK` is `0xF000` but is applied to the flag before it is shifted by 12 and after the word is shifted right by 12, so the flag field always reads 0 | any `Move::capture(from, to)`: `flag()` does not return `Capture` | a four-bit mask, so `flag()` returns the flag the move was built with | high; not executed | Moves.FlagAsWrittenLosesCapture | Moves.Pack |
| crates/base/src/square/square.rs:59-65 | `file_bb` indexes the file masks by the square's rank | b1: the mask is the a-file | the mask of the square's own file | high; not executed | SquareBoards.FileBbAsWrittenMissesSquare | SquareBoards.FileBb |
| crates/engine/src/generator/pieces/pawn.rs:72-74 | the first test is `M::QUIET && M::QUIET`, so a quiet-only generator keeps every square not held by its own side | a quiet-only pawn generation where an enemy piece stands on the check mask | `M::QUIET && M::CAPTURE` for the combined generator, so quiet generation excludes occupied squares | high; not executed | PawnGenerator.AllowedAsWrittenAdmitsCaptures | Generator.Allowed |
| src/search/negamax.rs:341-350 | the final `store` classifies `best_eval` against the already raised `alpha`, so it is never stored as exact | any node whose best move raised alpha: it is stored as an upper bound | classify against the alpha the node was entered with | high; not executed | NegamaxRules.FinalFlagNeverExact | NegamaxRules.FinalFlag |
| crates/base/src/board/board.rs:592-597 | `to_fen` writes the square of the pawn to capture, not the square passed over | White to move after e7-e5: the field reads "e5", and reading it back names e5 as the square passed over and e4 as the pawn to capture | write the square passed over ("e6"), which `from_str` reads back | high; not executed | Fen.EnPassantTextAsWrittenBreaksRoundTrip | Fen.EnPassantRoundTrip |
| crates/base/src/square/square.rs:290-304 | `from_str` checks only that the characters are letters and digits, not their range | "a9" parses to index 64 and "i1" to 8 | reject files after h and ranks outside 1 to 8 | high; not executed | Squares.FromStrAsWrittenAcceptsOffBoard | Squares.FromStr |
| src/search/negamax.rs:124-127 | the check extension requires `extended` already true, the root passes false and nothing sets it | any node in check: the depth is not extended | extend once when in check and not yet extended | medium; not executed | NegamaxRules.CheckExtensionNeverFires | NegamaxRules.CheckExtensionOnce |
| crates/base/src/polyglot/parser.rs:186-195 | the weighted draw compares `draw <= running sum` | weights 0 and 5 with draw 0: the weight-0 record is picked | `draw < running sum`, so each record is picked by exactly `weight` draws | high; not executed | Polyglot.PickAsWrittenTakesZeroWeight | Polyglot.SelectEntry |
