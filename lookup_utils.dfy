/** Index helpers and the xor-shift pseudo-random source of the lookup-table
    generators (crates/lookup/src/utils/utils.rs). */
module LookupUtils {
  import opened Squares
  import opened Bitboards

  /** `rank_file`: a square's (rank, file). */
  function RankFile(s: Square): (rf: (int, int))
    ensures 0 <= rf.0 <= 7 && 0 <= rf.1 <= 7
    ensures New(rf.0, rf.1) == s
  {
    (s / 8, s % 8)
  }

  /** `index`: the square on a rank and a file. */
  function Index(rank: int, file: int): (s: Square)
    requires 0 <= rank <= 7 && 0 <= file <= 7
    ensures Rank(s) == rank && File(s) == file
  {
    New(rank, file)
  }

  /** `index` and `rank_file` are inverse. */
  lemma IndexRankFile(rank: int, file: int, s: Square)
    requires 0 <= rank <= 7 && 0 <= file <= 7
    ensures RankFile(Index(rank, file)) == (rank, file)
    ensures Index(RankFile(s).0, RankFile(s).1) == s
  {
  }

  /** `bits`: the board holding only the square on a rank and a file,
      given by the rank and the file its square has. */
  function Bits(rank: int, file: int): Bitboard
    requires 0 <= rank <= 7 && 0 <= file <= 7
  {
    set t: Square | 0 <= t < 64 && Rank(t) == rank && File(t) == file
  }

  /** The board of `bits` is the single bit at `index(rank, file)`. */
  lemma BitsSingleton(rank: int, file: int)
    requires 0 <= rank <= 7 && 0 <= file <= 7
    ensures Bits(rank, file) == {Index(rank, file)}
  {
    forall t: Square | t in Bits(rank, file)
      ensures t == Index(rank, file)
    {
      RankFileDetermineSquare(t, Index(rank, file));
    }
  }

  /** `xor_shift`: Marsaglia's 13/17/5 xor-shift on a 32-bit word. Zero is
      its fixed point. */
  function XorShift(input: bv32): (r: bv32)
    ensures input == 0 ==> r == 0
  {
    var a := input ^ (input >> 13);
    var b := a ^ (a << 17);
    b ^ (b >> 5)
  }

  /** Each of the three steps of `XorShift` can be undone, so the generator
      never maps two seeds to one. */
  lemma UndoShiftRight13(x: bv32)
    ensures var y := x ^ (x >> 13); y ^ (y >> 13) ^ (y >> 26) == x
  {
  }

  lemma UndoShiftLeft17(x: bv32)
    ensures var y := x ^ (x << 17); y ^ (y << 17) == x
  {
  }

  lemma UndoShiftRight5(x: bv32)
    ensures var y := x ^ (x >> 5);
      y ^ (y >> 5) ^ (y >> 10) ^ (y >> 15) ^ (y >> 20) ^ (y >> 25) ^ (y >> 30) == x
  {
  }

  /** The seed after `n` calls of `XorShift`. */
  function XorShiftN(seed: bv32, n: nat): bv32
  {
    if n == 0 then seed else XorShift(XorShiftN(seed, n - 1))
  }

  lemma FourSeeds(seed: bv32)
    ensures XorShiftN(seed, 1) == XorShift(seed)
    ensures XorShiftN(seed, 2) == XorShift(XorShiftN(seed, 1))
    ensures XorShiftN(seed, 3) == XorShift(XorShiftN(seed, 2))
    ensures XorShiftN(seed, 4) == XorShift(XorShiftN(seed, 3))
  {
  }

  lemma {:induction false} SeedsCompose(seed: bv32, m: nat, n: nat)
    ensures XorShiftN(XorShiftN(seed, m), n) == XorShiftN(seed, m + n)
    decreases n
  {
    if n > 0 {
      SeedsCompose(seed, m, n - 1);
    }
  }

  /** The low 16 bits of four words, placed from the low end up. */
  function Chunks(a: bv32, b: bv32, c: bv32, d: bv32): bv64
  {
    ((a as bv64) & 0xFFFF) | (((b as bv64) & 0xFFFF) << 16)
    | (((c as bv64) & 0xFFFF) << 32) | (((d as bv64) & 0xFFFF) << 48)
  }

  /** Each 16-bit chunk of the word is read back from its position. */
  lemma ChunkFirst(a: bv32, b: bv32, c: bv32, d: bv32)
    ensures Chunks(a, b, c, d) & 0xFFFF == (a as bv64) & 0xFFFF
  {
  }

  lemma ChunkSecond(a: bv32, b: bv32, c: bv32, d: bv32)
    ensures (Chunks(a, b, c, d) >> 16) & 0xFFFF == (b as bv64) & 0xFFFF
  {
  }

  lemma ChunkThird(a: bv32, b: bv32, c: bv32, d: bv32)
    ensures (Chunks(a, b, c, d) >> 32) & 0xFFFF == (c as bv64) & 0xFFFF
  {
  }

  lemma ChunkFourth(a: bv32, b: bv32, c: bv32, d: bv32)
    ensures Chunks(a, b, c, d) >> 48 == (d as bv64) & 0xFFFF
  {
  }

  /** `random_64`: four successive seeds each give 16 bits of the word; the
      fourth seed is handed on. */
  function Random64(seed: bv32): (r: (bv64, bv32))
    ensures r.1 == XorShiftN(seed, 4)
  {
    FourSeeds(seed);
    var s1 := XorShift(seed);
    var s2 := XorShift(s1);
    var s3 := XorShift(s2);
    var s4 := XorShift(s3);
    (Chunks(s1, s2, s3, s4), s4)
  }

  /** `random_64_few_bits`: the AND of three consecutive `random_64` words;
      the seed moves on twelve steps. */
  function Random64FewBits(seed: bv32): (r: (bv64, bv32))
    ensures r.1 == XorShiftN(seed, 12)
  {
    var first := Random64(seed);
    var second := Random64(first.1);
    var third := Random64(second.1);
    SeedsCompose(seed, 4, 4);
    SeedsCompose(seed, 8, 4);
    (first.0 & second.0 & third.0, third.1)
  }
}
