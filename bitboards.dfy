/** Bitboards (src/bitboard/mod.rs). A bitboard is a `u64` whose bit `i`
    marks square `i`; it is modelled as the set of marked squares, so `&`,
    `|`, `^` and `!` are intersection, union, symmetric difference and
    complement. `Value` gives back the `u64` a set stands for, where the
    number itself matters (the magic index). */
module Bitboards {
  import opened Wrappers
  import opened Squares

  type Bitboard = set<Square>

  /** The range of a `u64`. */
  type U64 = x: int | 0 <= x < 0x1_0000_0000_0000_0000

  const Empty: Bitboard := {}
  const AllBits: Bitboard := set q: Square | 0 <= q < 64

  function Pow2(n: nat): (p: nat)
    ensures p >= 1
  {
    if n == 0 then 1 else 2 * Pow2(n - 1)
  }

  lemma {:induction false} Pow2Add(a: nat, b: nat)
    ensures Pow2(a + b) == Pow2(a) * Pow2(b)
    decreases a
  {
    if a > 0 {
      Pow2Add(a - 1, b);
    }
  }

  lemma {:induction false} Pow2Monotone(a: nat, b: nat)
    requires a <= b
    ensures Pow2(a) <= Pow2(b)
    decreases b
  {
    if a < b {
      Pow2Monotone(a, b - 1);
    }
  }

  /** `^` on bitboards. */
  function Xor(a: Bitboard, b: Bitboard): (r: Bitboard)
    ensures forall q :: q in r <==> (q in a) != (q in b)
  {
    (a - b) + (b - a)
  }

  /** `!` on bitboards. */
  function Not(a: Bitboard): (r: Bitboard)
    ensures forall q: Square :: q in r <==> q !in a
  {
    AllBits - a
  }

  /** `<<` by `n` bits: every square moves `n` up; squares past h8 drop off. */
  function Shl(a: Bitboard, n: nat): (r: Bitboard)
    requires n < 64
    ensures forall q: Square :: q in r <==> q >= n && (q - n) in a
  {
    set q: Square | q in AllBits && q >= n && (q - n) in a
  }

  /** `>>` by `n` bits: every square moves `n` down; squares below a1 drop off. */
  function Shr(a: Bitboard, n: nat): (r: Bitboard)
    requires n < 64
    ensures forall q: Square :: q in r <==> q + n < 64 && (q + n) in a
  {
    set q: Square | q in AllBits && q + n < 64 && (q + n) in a
  }

  /** The number the first `n` squares of a bitboard encode. */
  function ValueBelow(b: Bitboard, n: nat): (v: nat)
    requires n <= 64
    ensures v < Pow2(n)
  {
    if n == 0 then 0 else ValueBelow(b, n - 1) + (if n - 1 in b then Pow2(n - 1) else 0)
  }

  lemma Pow2Of64()
    ensures Pow2(64) == 0x1_0000_0000_0000_0000
  {
    assert Pow2(2) == 4;
    Pow2Add(2, 2);
    assert Pow2(4) == 16;
    Pow2Add(4, 4);
    assert Pow2(8) == 0x100;
    Pow2Add(8, 8);
    assert Pow2(16) == 0x1_0000;
    Pow2Add(16, 16);
    assert Pow2(32) == 0x1_0000_0000;
    Pow2Add(32, 32);
  }

  /** The `u64` a bitboard stands for (`Bitboard::bits`). */
  function Value(b: Bitboard): (v: U64)
  {
    Pow2Of64();
    ValueBelow(b, 64)
  }

  lemma {:induction false} ValueBelowZero(b: Bitboard, n: nat)
    requires n <= 64
    ensures ValueBelow(b, n) == 0 <==> forall q :: q in b ==> q >= n
  {
    if n > 0 {
      ValueBelowZero(b, n - 1);
    }
  }

  lemma {:induction false} ValueBelowSingle(i: Square, n: nat)
    requires n <= 64
    ensures ValueBelow({i}, n) == if i < n then Pow2(i) else 0
  {
    if n > 0 {
      ValueBelowSingle(i, n - 1);
    }
  }

  /** `Bitboard::from_index`: the board with only bit `index` set, which
      is the number `1 << index`. */
  function SquareBit(index: int): (b: Bitboard)
    requires 0 <= index < 64
    ensures Value(b) == Pow2(index)
    ensures |b| == 1 && index in b
  {
    ValueBelowSingle(index, 64);
    {index}
  }

  /** `is_empty`. */
  predicate IsEmpty(b: Bitboard)
  {
    b == {}
  }

  /** `is_empty` holds exactly when the `u64` is 0. */
  lemma IsEmptyIffZero(b: Bitboard)
    ensures IsEmpty(b) <==> Value(b) == 0
  {
    ValueBelowZero(b, 64);
    if !IsEmpty(b) {
      var q :| q in b;
    }
  }

  /** `is_set`: the two boards share a square. */
  predicate IsSet(b: Bitboard, other: Bitboard)
  {
    !IsEmpty(b * other)
  }

  function CountOnes(b: Bitboard): (n: nat)
    ensures n <= 64
  {
    assert b <= AllBits;
    AllBitsSize();
    SubsetCardinality(b, AllBits);
    |b|
  }

  lemma AllBitsSize()
    ensures |AllBits| == 64
  {
    assert AllBits == RangeSet(0, 64);
    RangeSetSize(0, 64);
  }

  function RangeSet(lo: int, hi: int): (s: set<int>)
    ensures forall q :: q in s <==> lo <= q < hi
    decreases hi - lo
  {
    if lo >= hi then {} else {lo} + RangeSet(lo + 1, hi)
  }

  lemma {:induction false} RangeSetSize(lo: int, hi: int)
    requires lo <= hi
    ensures |RangeSet(lo, hi)| == hi - lo
    decreases hi - lo
  {
    if lo < hi {
      RangeSetSize(lo + 1, hi);
      assert RangeSet(lo, hi) == {lo} + RangeSet(lo + 1, hi);
    }
  }

  lemma SubsetCardinality<T>(a: set<T>, b: set<T>)
    requires a <= b
    ensures |a| <= |b|
  {
    assert b == a + (b - a);
  }

  /** The lowest square of `b` at or above `i`. */
  function LowestFrom(b: Bitboard, i: int): (r: Square)
    requires 0 <= i <= 63
    requires exists q :: q in b && q >= i
    ensures r in b && r >= i
    decreases 64 - i
  {
    if i in b then i else LowestFrom(b, i + 1)
  }

  lemma {:induction false} LowestFromMin(b: Bitboard, i: int, q: Square)
    requires 0 <= i <= 63 && q in b && q >= i
    ensures LowestFrom(b, i) <= q
    decreases 64 - i
  {
    if i !in b {
      LowestFromMin(b, i + 1, q);
    }
  }

  /** The highest square of `b` at or below `i`. */
  function HighestFrom(b: Bitboard, i: int): (r: Square)
    requires 0 <= i <= 63
    requires exists q :: q in b && q <= i
    ensures r in b && r <= i
    decreases i
  {
    if i in b then i else HighestFrom(b, i - 1)
  }

  lemma {:induction false} HighestFromMax(b: Bitboard, i: int, q: Square)
    requires 0 <= i <= 63 && q in b && q <= i
    ensures q <= HighestFrom(b, i)
    decreases i
  {
    if i !in b {
      HighestFromMax(b, i - 1, q);
    }
  }

  /** `get_trailing_index` (`trailing_zeros`) of a non-empty board: one of
      its squares, the lowest by `TrailingIndexLowest`. On an empty board
      the source yields 64, which no caller may turn into a square. */
  function TrailingIndex(b: Bitboard): (r: Square)
    requires b != {}
    ensures r in b
  {
    var q :| q in b;
    LowestFrom(b, 0)
  }

  lemma TrailingIndexLowest(b: Bitboard)
    requires b != {}
    ensures forall q :: q in b ==> TrailingIndex(b) <= q
  {
    forall q | q in b
      ensures TrailingIndex(b) <= q
    {
      LowestFromMin(b, 0, q);
    }
  }

  /** `get_leading_index` (63 - `leading_zeros`) of a non-empty board: one
      of its squares, the highest by `LeadingIndexHighest`. On an empty
      board the subtraction underflows. */
  function LeadingIndex(b: Bitboard): (r: Square)
    requires b != {}
    ensures r in b
  {
    var q :| q in b;
    HighestFrom(b, 63)
  }

  lemma LeadingIndexHighest(b: Bitboard)
    requires b != {}
    ensures forall q :: q in b ==> q <= LeadingIndex(b)
  {
    forall q | q in b
      ensures q <= LeadingIndex(b)
    {
      HighestFromMax(b, 63, q);
    }
  }

  /** On a one-square board the trailing and leading index are that square. */
  lemma SingleBitIndices(i: Square)
    ensures TrailingIndex(SquareBit(i)) == i == LeadingIndex(SquareBit(i))
  {
  }

  /** `get_magic_index`: the high `ones` bits of the 64-bit wrapping
      product of the board's number and the magic. */
  function MagicIndex(b: Bitboard, magic: U64, ones: int): (r: nat)
    requires 1 <= ones <= 64
    ensures r < Pow2(ones)
  {
    var product := WrappingMul(Value(b), magic);
    DivPow2Bound(product, 64 - ones, ones);
    product / Pow2(64 - ones)
  }

  /** `u64::wrapping_mul`: the product modulo 2^64. */
  function WrappingMul(x: U64, y: U64): (r: nat)
    ensures r < Pow2(64)
  {
    (x * y) % Pow2(64)
  }

  lemma DivBound(x: nat, a: nat, b: nat)
    requires a > 0 && x < a * b
    ensures 0 <= x / a < b
  {
  }

  /** Dropping the low `k` bits of a number below 2^(k + n) leaves one
      below 2^n. */
  lemma DivPow2Bound(x: nat, k: nat, n: nat)
    requires x < Pow2(k + n)
    ensures 0 <= x / Pow2(k) < Pow2(n)
  {
    var p, q := Pow2(k), Pow2(n);
    Pow2Add(k, n);
    assert x < p * q;
    DivBound(x, p, q);
  }

  /** A bitboard held in a variable that `pop_trailing`, `pop_leading` and
      the `Iterator` implementation update in place. */
  class BitboardIter {
    var bits: Bitboard

    constructor(b: Bitboard)
      ensures bits == b
    {
      bits := b;
    }

    /** Removes and returns the lowest square (`pop_trailing`). */
    method PopTrailing() returns (sq: Square)
      requires bits != {}
      modifies this
      ensures sq in old(bits) && forall q :: q in old(bits) ==> sq <= q
      ensures bits == old(bits) - {sq}
      ensures |bits| == |old(bits)| - 1
    {
      sq := TrailingIndex(bits);
      TrailingIndexLowest(bits);
      bits := Xor(bits, SquareBit(sq));
      assert bits == old(bits) - {sq};
    }

    /** Removes and returns the highest square (`pop_leading`). */
    method PopLeading() returns (sq: Square)
      requires bits != {}
      modifies this
      ensures sq in old(bits) && forall q :: q in old(bits) ==> q <= sq
      ensures bits == old(bits) - {sq}
      ensures |bits| == |old(bits)| - 1
    {
      sq := LeadingIndex(bits);
      LeadingIndexHighest(bits);
      bits := Xor(bits, SquareBit(sq));
      assert bits == old(bits) - {sq};
    }

    /** `Iterator::next`: None once the board is empty, otherwise the
        lowest remaining square, which is removed. */
    method Next() returns (r: Option<Square>)
      modifies this
      ensures old(bits) == {} ==> r == None && bits == {}
      ensures old(bits) != {} ==>
                r.Some? && r.value in old(bits)
                && (forall q :: q in old(bits) ==> r.value <= q)
                && bits == old(bits) - {r.value}
    {
      if IsEmpty(bits) {
        return None;
      }
      var sq := PopTrailing();
      return Some(sq);
    }
  }

  /** The squares of `b` from `i` up, in ascending order. */
  function SquaresFrom(b: Bitboard, i: nat): seq<Square>
    requires i <= 64
    decreases 64 - i
  {
    if i == 64 then [] else (if i in b then [i] else []) + SquaresFrom(b, i + 1)
  }

  /** The squares of `b` in ascending order, each once. */
  function Ascending(b: Bitboard): seq<Square>
  {
    SquaresFrom(b, 0)
  }

  lemma {:induction false} SquaresFromMembers(b: Bitboard, i: nat, q: int)
    requires i <= 64
    ensures q in SquaresFrom(b, i) <==> q in b && q >= i
    decreases 64 - i
  {
    if i < 64 {
      SquaresFromMembers(b, i + 1, q);
    }
  }

  /** A square is listed exactly when it is on the board. */
  lemma AscendingMembers(b: Bitboard, q: int)
    ensures q in Ascending(b) <==> q in b
  {
    SquaresFromMembers(b, 0, q);
  }

  /** `s` lists the squares of `b` from `i` up, in strictly increasing
      order. */
  predicate ListsFrom(b: Bitboard, i: nat, s: seq<Square>)
  {
    && (forall k :: 0 <= k < |s| ==> i <= s[k])
    && (forall j, k :: 0 <= j < k < |s| ==> s[j] < s[k])
    && (forall q: Square :: q >= i ==> (q in b <==> q in s))
  }

  lemma ListsFromEnd(b: Bitboard, s: seq<Square>)
    requires ListsFrom(b, 64, s)
    ensures s == []
  {
    if |s| > 0 {
      HeadBounds(s, 64);
      assert false;
    }
  }

  lemma HeadBounds(s: seq<Square>, i: nat)
    requires |s| > 0 && forall k :: 0 <= k < |s| ==> i <= s[k]
    ensures i <= s[0] < 64
  {
  }

  lemma ListsFromIn(b: Bitboard, i: nat, s: seq<Square>)
    requires i < 64 && i in b && ListsFrom(b, i, s)
    ensures |s| > 0 && s[0] == i && ListsFrom(b, i + 1, s[1..])
  {
    assert i in s;
    var k :| 0 <= k < |s| && s[k] == i;
    assert i <= s[0];
    assert forall j :: 0 < j < |s| ==> s[0] < s[j];
    var rest := s[1..];
    forall q: Square | q >= i + 1
      ensures q in b <==> q in rest
    {
      assert q in s <==> q == s[0] || q in rest;
    }
    forall k | 0 <= k < |rest|
      ensures i + 1 <= rest[k]
    {
      assert s[0] < s[k + 1];
    }
  }

  lemma ListsFromOut(b: Bitboard, i: nat, s: seq<Square>)
    requires i < 64 && i !in b && ListsFrom(b, i, s)
    ensures ListsFrom(b, i + 1, s)
  {
    forall k | 0 <= k < |s|
      ensures i + 1 <= s[k]
    {
      assert s[k] in s;
    }
  }

  /** A strictly increasing list of the squares of `b` from `i` up is
      `SquaresFrom(b, i)`: the order of the squares is determined. */
  lemma {:induction false} SortedIsSquaresFrom(b: Bitboard, i: nat, s: seq<Square>)
    requires i <= 64 && ListsFrom(b, i, s)
    ensures s == SquaresFrom(b, i)
    decreases 64 - i
  {
    if i == 64 {
      ListsFromEnd(b, s);
    } else if i in b {
      ListsFromIn(b, i, s);
      SortedIsSquaresFrom(b, i + 1, s[1..]);
      SquaresFromIn(b, i, s);
    } else {
      ListsFromOut(b, i, s);
      SortedIsSquaresFrom(b, i + 1, s);
    }
  }

  lemma SquaresFromIn(b: Bitboard, i: nat, s: seq<Square>)
    requires i < 64 && i in b && |s| > 0 && s[0] == i && s[1..] == SquaresFrom(b, i + 1)
    ensures s == SquaresFrom(b, i)
  {
    assert s == [i] + s[1..];
  }

  /** The list `get_squares` returns is `Ascending(b)`. */
  lemma SortedIsAscending(b: Bitboard, s: seq<Square>)
    requires forall q :: q in b <==> q in s
    requires forall i, j :: 0 <= i < j < |s| ==> s[i] < s[j]
    ensures s == Ascending(b)
  {
    SortedIsSquaresFrom(b, 0, s);
  }

  /** `get_squares`: iterates over a copy of the board and collects the
      squares; they come out once each, in ascending order, and there are
      `count_ones` of them. */
  method GetSquares(b: Bitboard) returns (squares: seq<Square>)
    ensures |squares| == CountOnes(b)
    ensures forall q :: q in b <==> q in squares
    ensures forall i, j :: 0 <= i < j < |squares| ==> squares[i] < squares[j]
  {
    var iter := new BitboardIter(b);
    squares := [];
    var next := iter.Next();
    while next.Some?
      invariant next.Some? ==> next.value in b && next.value !in iter.bits
      invariant next.Some? ==> forall q :: q in iter.bits ==> next.value < q
      invariant next.None? ==> iter.bits == {}
      invariant forall q :: q in b <==> q in squares || q in iter.bits || (next.Some? && q == next.value)
      invariant forall i :: 0 <= i < |squares| ==> squares[i] !in iter.bits && (next.Some? ==> squares[i] < next.value)
      invariant forall i :: 0 <= i < |squares| ==> forall p :: p in iter.bits ==> squares[i] < p
      invariant forall i, j :: 0 <= i < j < |squares| ==> squares[i] < squares[j]
      invariant |squares| + |iter.bits| + (if next.Some? then 1 else 0) == |b|
      decreases |iter.bits| + (if next.Some? then 1 else 0)
    {
      squares := squares + [next.value];
      next := iter.Next();
    }
  }

  /** `for square in bitboard`: the squares of the board in ascending
      order. */
  method SquaresOf(b: Bitboard) returns (squares: seq<Square>)
    ensures squares == Ascending(b)
  {
    squares := GetSquares(b);
    SortedIsAscending(b, squares);
  }
}
