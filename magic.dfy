/** The relevant-occupancy masks, the subset enumeration and the magic
    index of the magic-bitboard generator
    (crates/lookup/src/generators/magic.rs). Rook and bishop code in the
    source is duplicated line for line; here one `Slider` parameter picks
    the four directions. */
module MagicMasks {
  import opened Squares
  import opened Bitboards
  import opened Directions
  import opened RayTables
  import opened SlidingAttacks

  datatype Slider = Rook | Bishop

  /** The directions a slider moves in. */
  predicate Moves(slider: Slider, d: Direction)
  {
    match slider
    case Rook => IsStraight(d)
    case Bishop => IsDiagonal(d)
  }

  /** `rook_attacks` or `bishop_attacks`. */
  function Attacks(slider: Slider, from: Square, blockers: Bitboard): Bitboard
  {
    match slider
    case Rook => RookAttacks(from, blockers)
    case Bishop => BishopAttacks(from, blockers)
  }

  lemma AttacksMembers(slider: Slider, from: Square, blockers: Bitboard, t: Square)
    ensures t in Attacks(slider, from, blockers) <==>
      Moves(slider, Between(from, t)) && BetweenSquares(from, t) * blockers == {}
  {
    match slider
    case Rook => RookAttacksMembers(from, blockers, t);
    case Bishop => BishopAttacksMembers(from, blockers, t);
  }

  /** A slider always attacks a neighbour, whatever blocks: no attack set
      is 0, so the generator may use 0 to mark a free slot. */
  lemma AttacksNonEmpty(slider: Slider, from: Square, blockers: Bitboard)
    ensures Attacks(slider, from, blockers) != {}
  {
    var rank := if Rank(from) < 7 then Rank(from) + 1 else Rank(from) - 1;
    var file := if File(from) < 7 then File(from) + 1 else File(from) - 1;
    var t := if slider.Rook? then New(rank, File(from)) else New(rank, file);
    BetweenKinds(from, t);
    BetweenAligned(from, t);
    assert Distance(from, t) == 1;
    forall s: Square
      ensures s !in BetweenSquares(from, t)
    {
      BetweenMembers(from, t, s);
    }
    AttacksMembers(slider, from, blockers, t);
  }

  /** The four full rays the mask starts from, in the source's order. */
  function SliderRays(slider: Slider, from: Square): Bitboard
  {
    match slider
    case Rook =>
      {} + FullRay(from, North) + FullRay(from, East) + FullRay(from, South) + FullRay(from, West)
    case Bishop =>
      {} + FullRay(from, NorthEast) + FullRay(from, NorthWest)
      + FullRay(from, SouthEast) + FullRay(from, SouthWest)
  }

  /** RANK_1, RANK_8, FILE_A and FILE_H. */
  const Rank1: Bitboard := set q: Square | Rank(q) == 0
  const Rank8: Bitboard := set q: Square | Rank(q) == 7
  const FileA: Bitboard := set q: Square | File(q) == 0
  const FileH: Bitboard := set q: Square | File(q) == 7

  /** `generate_rook_masks[from]` / `generate_bishop_masks[from]`: the rays,
      less each edge the square is not on (`result &= !EDGE` is a set
      difference). */
  function Mask(slider: Slider, from: Square): Bitboard
  {
    var rank, file := Rank(from), File(from);
    var result := SliderRays(slider, from);
    var result := if rank >= 1 then result - Rank1 else result;
    var result := if rank <= 6 then result - Rank8 else result;
    var result := if file >= 1 then result - FileA else result;
    if file <= 6 then result - FileH else result
  }

  /** The mask holds the squares the slider reaches on an empty board, less
      those on an edge rank or file that `from` is not on. */
  lemma MaskMembers(slider: Slider, from: Square, t: Square)
    ensures t in Mask(slider, from) <==>
      Moves(slider, Between(from, t))
      && (Rank(t) == 0 ==> Rank(from) == 0) && (Rank(t) == 7 ==> Rank(from) == 7)
      && (File(t) == 0 ==> File(from) == 0) && (File(t) == 7 ==> File(from) == 7)
  {
    SliderRaysMembers(slider, from, t);
  }

  /** The four rays hold exactly the squares in the slider's directions. */
  lemma SliderRaysMembers(slider: Slider, from: Square, t: Square)
    ensures t in SliderRays(slider, from) <==> Moves(slider, Between(from, t))
  {
    match slider
    case Rook =>
      FullRayMembers(from, North, t);
      FullRayMembers(from, East, t);
      FullRayMembers(from, South, t);
      FullRayMembers(from, West, t);
    case Bishop =>
      FullRayMembers(from, NorthEast, t);
      FullRayMembers(from, NorthWest, t);
      FullRayMembers(from, SouthEast, t);
      FullRayMembers(from, SouthWest, t);
  }

  /** A square strictly between `from` and a square the slider reaches is
      never on an edge `from` is not on: it lies in the mask. */
  lemma BetweenInMask(slider: Slider, from: Square, t: Square)
    requires Moves(slider, Between(from, t))
    ensures BetweenSquares(from, t) <= Mask(slider, from)
  {
    var d := Between(from, t);
    BetweenOnRay(from, d, t);
    forall s: Square | s in BetweenSquares(from, t)
      ensures s in Mask(slider, from)
    {
      BetweenMembers(from, t, s);
      BetweenOnRay(from, d, s);
      StrictlyInside(Rank(from), Distance(from, s), Distance(from, t), Delta(d).0, Rank(s), Rank(t));
      StrictlyInside(File(from), Distance(from, s), Distance(from, t), Delta(d).1, File(s), File(t));
      MaskMembers(slider, from, s);
    }
  }

  /** A coordinate passed on the way to another on-board coordinate is an
      edge only where the walk starts on that edge. */
  lemma StrictlyInside(x: int, ks: int, kt: int, dx: int, xs: int, xt: int)
    requires 0 <= x <= 7 && 1 <= ks < kt && -1 <= dx <= 1
    requires xs == Step(x, ks, dx) && xt == Step(x, kt, dx) && 0 <= xt <= 7
    ensures xs == 0 ==> x == 0
    ensures xs == 7 ==> x == 7
  {
  }

  /** Only the blockers inside the mask change the attack set, which is
      why the tables are indexed by `occupancy & mask` alone. */
  lemma MaskRelevant(slider: Slider, from: Square, occupancy: Bitboard)
    ensures Attacks(slider, from, occupancy)
      == Attacks(slider, from, occupancy * Mask(slider, from))
  {
    var mask := Mask(slider, from);
    forall t: Square
      ensures t in Attacks(slider, from, occupancy)
        <==> t in Attacks(slider, from, occupancy * mask)
    {
      AttacksMembers(slider, from, occupancy, t);
      AttacksMembers(slider, from, occupancy * mask, t);
      if Moves(slider, Between(from, t)) {
        BetweenInMask(slider, from, t);
        assert BetweenSquares(from, t) * occupancy
          == BetweenSquares(from, t) * (occupancy * mask);
      }
    }
  }

  /** A `rays` table as `generate_rays` builds it. */
  predicate RaysTable(rays: array2<Bitboard>)
    reads rays
  {
    rays.Length0 == 64 && rays.Length1 == 8
    && forall s: Square, i :: 0 <= i < 8 ==> rays[s, i] == FullRay(s, Directions.FromIndex(i))
  }

  /** `generate_rook_masks` / `generate_bishop_masks`. */
  method GenerateMasks(slider: Slider, rays: array2<Bitboard>) returns (masks: array<Bitboard>)
    requires RaysTable(rays)
    ensures fresh(masks) && masks.Length == 64
    ensures forall s: Square :: masks[s] == Mask(slider, s)
  {
    masks := new Bitboard[64](_ => {});
    ghost var table := (s: Square) => Mask(slider, s);
    for from := 0 to 64
      invariant forall s: Square :: masks[s] == if s < from then table(s) else {}
    {
      AddMask(masks, slider, rays, from);
    }
  }

  /** One step of the mask loop: `masks[from] = result`. */
  method AddMask(masks: array<Bitboard>, slider: Slider, rays: array2<Bitboard>, from: Square)
    requires RaysTable(rays) && masks.Length == 64
    modifies masks
    ensures masks[from] == Mask(slider, from)
    ensures forall s :: 0 <= s < 64 && s != from ==> masks[s] == old(masks[s])
  {
    var result := MaskEntry(slider, rays, from);
    masks[from] := result;
  }

  /** The body of the mask loop for one square. */
  method MaskEntry(slider: Slider, rays: array2<Bitboard>, from: Square) returns (result: Bitboard)
    requires RaysTable(rays)
    ensures result == Mask(slider, from)
  {
    var rank, file := Rank(from), File(from);
    result := {};
    if slider.Rook? {
      result := result + rays[from, Directions.Index(North)];
      result := result + rays[from, Directions.Index(East)];
      result := result + rays[from, Directions.Index(South)];
      result := result + rays[from, Directions.Index(West)];
    } else {
      result := result + rays[from, Directions.Index(NorthEast)];
      result := result + rays[from, Directions.Index(NorthWest)];
      result := result + rays[from, Directions.Index(SouthEast)];
      result := result + rays[from, Directions.Index(SouthWest)];
    }
    assert result == SliderRays(slider, from);
    ghost var r0 := result;
    if rank >= 1 {
      result := result - Rank1;
    }
    ghost var r1 := result;
    assert r1 == if rank >= 1 then r0 - Rank1 else r0;
    if rank <= 6 {
      result := result - Rank8;
    }
    ghost var r2 := result;
    assert r2 == if rank <= 6 then r1 - Rank8 else r1;
    if file >= 1 {
      result := result - FileA;
    }
    ghost var r3 := result;
    assert r3 == if file >= 1 then r2 - FileA else r2;
    if file <= 6 {
      result := result - FileH;
    }
    assert result == if file <= 6 then r3 - FileH else r3;
  }

  /** `generate_rook_mask_ones` / `generate_bishop_mask_ones`. */
  method GenerateMaskOnes(masks: array<Bitboard>) returns (maskOnes: array<nat>)
    requires masks.Length == 64
    ensures fresh(maskOnes) && maskOnes.Length == 64
    ensures forall s: Square :: maskOnes[s] == |masks[s]|
  {
    maskOnes := new nat[64](_ => 0);
    for from := 0 to 64
      invariant forall s: Square :: s < from ==> maskOnes[s] == |masks[s]|
    {
      var mask := masks[from];
      maskOnes[from] := CountOnes(mask);
    }
  }

  /** `index & (1 << k) != 0`: bit `k` of `index`. */
  function Bit(index: nat, k: nat): bool
  {
    if k == 0 then index % 2 == 1 else Bit(index / 2, k - 1)
  }

  /** The low `n` bits of `index`, lowest first. */
  function BitsOf(index: nat, n: nat): (bits: seq<bool>)
    ensures |bits| == n
  {
    if n == 0 then [] else [index % 2 == 1] + BitsOf(index / 2, n - 1)
  }

  /** Entry `k` of `BitsOf` is the bit `permutate` tests in round `k`. */
  lemma {:induction false} BitsOfBit(index: nat, n: nat, k: nat)
    requires k < n
    ensures BitsOf(index, n)[k] == Bit(index, k)
    decreases k
  {
    if k > 0 {
      BitsOfBit(index / 2, n - 1, k - 1);
    }
  }

  /** The squares a run of bit tests keeps: the first bit decides the
      lowest square of `mask`, the next bit the next square, and so on. */
  function PermutationFrom(bits: seq<bool>, mask: Bitboard): Bitboard
    requires |bits| <= |mask|
  {
    if bits == [] then {}
    else
      var low := TrailingIndex(mask);
      (if bits[0] then {low} else {}) + PermutationFrom(bits[1..], mask - {low})
  }

  /** `permutate(index, n, mask)`: the `i`-th lowest of the first `n`
      mask squares is kept when bit `i` of `index` is set. */
  function Permutation(index: nat, n: nat, mask: Bitboard): Bitboard
    requires n <= |mask|
  {
    PermutationFrom(BitsOf(index, n), mask)
  }

  lemma {:induction false} PermutationFromSubset(bits: seq<bool>, mask: Bitboard)
    requires |bits| <= |mask|
    ensures PermutationFrom(bits, mask) <= mask
  {
    if bits != [] {
      PermutationFromSubset(bits[1..], mask - {TrailingIndex(mask)});
    }
  }

  /** Every permutation is a subset of the mask. */
  lemma PermutationSubset(index: nat, n: nat, mask: Bitboard)
    requires n <= |mask|
    ensures Permutation(index, n, mask) <= mask
  {
    PermutationFromSubset(BitsOf(index, n), mask);
  }

  /** The first bit decides the lowest square; the later bits only add
      squares above it. */
  lemma LowestSquare(bits: seq<bool>, mask: Bitboard)
    requires 1 <= |bits| <= |mask|
    ensures var low := TrailingIndex(mask);
      (low in PermutationFrom(bits, mask) <==> bits[0])
      && PermutationFrom(bits[1..], mask - {low}) == PermutationFrom(bits, mask) - {low}
  {
    PermutationFromSubset(bits[1..], mask - {TrailingIndex(mask)});
  }

  /** Equal subsets come from equal runs of bit tests. */
  lemma {:induction false} PermutationFromInjective(a: seq<bool>, b: seq<bool>, mask: Bitboard)
    requires |a| == |b| <= |mask|
    requires PermutationFrom(a, mask) == PermutationFrom(b, mask)
    ensures a == b
  {
    if a != [] {
      var low := TrailingIndex(mask);
      var rest := mask - {low};
      LowestSquare(a, mask);
      LowestSquare(b, mask);
      PermutationFromInjective(a[1..], b[1..], rest);
      assert a == [a[0]] + a[1..];
      assert b == [b[0]] + b[1..];
    }
  }

  /** Two numbers below 2^n with the same low `n` bits are equal. */
  lemma {:induction false} BitsOfInjective(i: nat, j: nat, n: nat)
    requires i < Pow2(n) && j < Pow2(n)
    requires BitsOf(i, n) == BitsOf(j, n)
    ensures i == j
  {
    if n > 0 {
      assert BitsOf(i, n)[0] == BitsOf(j, n)[0];
      assert BitsOf(i / 2, n - 1) == BitsOf(i, n)[1..];
      assert BitsOf(j / 2, n - 1) == BitsOf(j, n)[1..];
      BitsOfInjective(i / 2, j / 2, n - 1);
    }
  }

  /** Different indices below 2^n give different subsets. */
  lemma PermutationInjective(i: nat, j: nat, n: nat, mask: Bitboard)
    requires n <= |mask| && i < Pow2(n) && j < Pow2(n)
    requires Permutation(i, n, mask) == Permutation(j, n, mask)
    ensures i == j
  {
    PermutationFromInjective(BitsOf(i, n), BitsOf(j, n), mask);
    BitsOfInjective(i, j, n);
  }

  /** Which of the lowest `n` mask squares lie in `b`, lowest first. */
  function Selection(b: Bitboard, n: nat, mask: Bitboard): (bits: seq<bool>)
    requires n <= |mask|
    ensures |bits| == n
  {
    if n == 0 then []
    else
      var low := TrailingIndex(mask);
      [low in b] + Selection(b, n - 1, mask - {low})
  }

  /** The number whose low bits are `bits`, lowest first. */
  function IndexOf(bits: seq<bool>): (index: nat)
    ensures index < Pow2(|bits|)
  {
    if bits == [] then 0
    else (if bits[0] then 1 else 0) + 2 * IndexOf(bits[1..])
  }

  /** `BitsOf` reads back what `IndexOf` encodes. */
  lemma {:induction false} BitsOfIndexOf(bits: seq<bool>)
    ensures BitsOf(IndexOf(bits), |bits|) == bits
  {
    if bits != [] {
      var index := IndexOf(bits);
      assert index % 2 == (if bits[0] then 1 else 0) && index / 2 == IndexOf(bits[1..]);
      BitsOfIndexOf(bits[1..]);
    }
  }

  /** Keeping exactly the selected squares gives back the part of `b` in
      the mask. */
  lemma {:induction false} PermutationFromSelection(b: Bitboard, mask: Bitboard)
    ensures PermutationFrom(Selection(b, |mask|, mask), mask) == b * mask
    decreases |mask|
  {
    if mask != {} {
      var low := TrailingIndex(mask);
      var rest := mask - {low};
      var sel := Selection(b, |mask|, mask);
      assert sel[0] == (low in b) && sel[1..] == Selection(b, |rest|, rest);
      PermutationFromSelection(b, rest);
      assert b * mask == (if low in b then {low} else {}) + b * rest;
    }
  }

  /** With `n` the mask's popcount every subset of the mask is reached:
      the enumeration covers all relevant blocker sets. */
  lemma PermutationOnto(b: Bitboard, mask: Bitboard)
    requires b <= mask
    ensures IndexOf(Selection(b, |mask|, mask)) < Pow2(|mask|)
    ensures Permutation(IndexOf(Selection(b, |mask|, mask)), |mask|, mask) == b
  {
    BitsOfIndexOf(Selection(b, |mask|, mask));
    PermutationFromSelection(b, mask);
  }

  /** `b ^ (1 << sq)` clears a set bit `sq`. */
  lemma PopSquare(b: Bitboard, sq: Square)
    requires sq in b
    ensures Xor(b, SquareBit(sq)) == b - {sq}
  {
  }

  /** One round of `permutate`: the lowest remaining square moves into the
      result when the round's bit is set. */
  lemma PermutateRound(result: Bitboard, bits: seq<bool>, rest: Bitboard, target: Bitboard)
    requires 1 <= |bits| <= |rest|
    requires result + PermutationFrom(bits, rest) == target
    ensures var low := TrailingIndex(rest);
      (if bits[0] then result + {low} else result)
      + PermutationFrom(bits[1..], rest - {low}) == target
  {
  }

  /** `permutate`: pops the mask's squares from the lowest up and keeps
      square number `bit_index` when bit `bit_index` of `index` is set. */
  method Permutate(index: nat, bitCount: nat, mask: Bitboard) returns (result: Bitboard)
    requires bitCount <= |mask|
    ensures result == Permutation(index, bitCount, mask)
  {
    var rest := mask;
    result := {};
    ghost var bits := BitsOf(index, bitCount);
    for bitIndex := 0 to bitCount
      invariant |rest| == |mask| - bitIndex
      invariant result + PermutationFrom(bits[bitIndex..], rest) == PermutationFrom(bits, mask)
    {
      var currentBit := TrailingIndex(rest);
      PermutateRound(result, bits[bitIndex..], rest, PermutationFrom(bits, mask));
      BitsOfBit(index, bitCount, bitIndex);
      assert bits[bitIndex..][1..] == bits[bitIndex + 1..];
      PopSquare(rest, currentBit);
      rest := Xor(rest, SquareBit(currentBit));
      if Bit(index, bitIndex) {
        result := result + SquareBit(currentBit);
      }
    }
  }
}
