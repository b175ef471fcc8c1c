/** The eight compass directions of the lookup-table generators and the
    direction from one square to another (crates/lookup/src/utils/direction.rs).
    North is towards rank 8, East towards the h-file. */
module Directions {
  import opened Squares

  datatype Direction =
    NorthWest | North | NorthEast | West | East | SouthWest | South | SouthEast
    | NoDirection

  /** `Direction::index`: the declaration order, with `None` last at 8. */
  function Index(d: Direction): (i: nat)
    ensures i <= 8
    ensures i == 8 <==> d.NoDirection?
  {
    match d
    case NorthWest => 0
    case North => 1
    case NorthEast => 2
    case West => 3
    case East => 4
    case SouthWest => 5
    case South => 6
    case SouthEast => 7
    case NoDirection => 8
  }

  /** `Direction::from_index`: every index from 8 up gives `None`. */
  function FromIndex(i: nat): (d: Direction)
    ensures i < 8 ==> Index(d) == i
    ensures i >= 8 ==> d.NoDirection?
  {
    if i == 0 then NorthWest
    else if i == 1 then North
    else if i == 2 then NorthEast
    else if i == 3 then West
    else if i == 4 then East
    else if i == 5 then SouthWest
    else if i == 6 then South
    else if i == 7 then SouthEast
    else NoDirection
  }

  lemma FromIndexRoundTrip(d: Direction)
    ensures FromIndex(Index(d)) == d
  {
  }

  /** The step of a direction as (rank change, file change): the
      DIRECTION_MOVES table of the ray generator. */
  function Delta(d: Direction): (r: (int, int))
    requires !d.NoDirection?
    ensures -1 <= r.0 <= 1 && -1 <= r.1 <= 1 && r != (0, 0)
  {
    match d
    case NorthWest => (1, -1)
    case North => (1, 0)
    case NorthEast => (1, 1)
    case West => (0, -1)
    case East => (0, 1)
    case SouthWest => (-1, -1)
    case South => (-1, 0)
    case SouthEast => (-1, 1)
  }

  /** The step determines the direction. */
  lemma DeltaInjective(a: Direction, b: Direction)
    requires !a.NoDirection? && !b.NoDirection?
    ensures Delta(a) == Delta(b) <==> a == b
  {
  }

  /** `Direction::opposite`: the reverse step; `None` stays `None`. */
  function Opposite(d: Direction): (o: Direction)
    ensures o.NoDirection? <==> d.NoDirection?
    ensures !d.NoDirection? ==> Delta(o) == (-Delta(d).0, -Delta(d).1)
  {
    match d
    case NorthWest => SouthEast
    case North => South
    case NorthEast => SouthWest
    case West => East
    case East => West
    case SouthWest => NorthEast
    case South => North
    case SouthEast => NorthWest
    case NoDirection => NoDirection
  }

  lemma {:induction false} OppositeInvolution(d: Direction)
    ensures Opposite(Opposite(d)) == d
  {
    if !d.NoDirection? {
      DeltaInjective(Opposite(Opposite(d)), d);
    }
  }

  predicate IsDiagonal(d: Direction)
  {
    d in {NorthWest, NorthEast, SouthWest, SouthEast}
  }

  predicate IsStraight(d: Direction)
  {
    d in {North, West, East, South}
  }

  predicate IsHorizontal(d: Direction)
  {
    d in {West, East}
  }

  /** A diagonal moves both rank and file, a straight direction only one of
      them; so no direction is both, and `None` is neither. */
  lemma DirectionKinds(d: Direction)
    ensures !(IsDiagonal(d) && IsStraight(d))
    ensures d.NoDirection? ==> !IsDiagonal(d) && !IsStraight(d)
    ensures IsDiagonal(d) <==> !d.NoDirection? && Delta(d).0 != 0 && Delta(d).1 != 0
    ensures IsStraight(d) <==> !d.NoDirection? && (Delta(d).0 == 0 || Delta(d).1 == 0)
    ensures IsHorizontal(d) <==> !d.NoDirection? && Delta(d).0 == 0
  {
  }

  /** `x` moved `k` steps of `dx`, where `dx` is -1, 0 or 1. */
  function Step(x: int, k: int, dx: int): int
  {
    if dx > 0 then x + k else if dx < 0 then x - k else x
  }

  /** The king distance between two squares. */
  function Distance(a: Square, b: Square): (n: nat)
    ensures n <= 7
    ensures n == 0 <==> a == b
  {
    RankFileDetermineSquare(a, b);
    var dr := Abs(Rank(b) - Rank(a));
    var df := Abs(File(b) - File(a));
    if dr >= df then dr else df
  }

  /** `s` lies on the ray from `from` in direction `d`, at least one step away. */
  predicate OnRay(from: Square, d: Direction, s: Square)
    requires !d.NoDirection?
  {
    var k := Distance(from, s);
    k >= 1 && Rank(s) == Step(Rank(from), k, Delta(d).0)
    && File(s) == Step(File(from), k, Delta(d).1)
  }

  /** `Direction::between`: the direction of the move from `from` to `to`
      along a rank, a file or a diagonal, and `None` for the same square
      or a pair of squares not on one line. */
  function Between(from: Square, to: Square): Direction
  {
    var rankDiff := Rank(to) - Rank(from);
    var fileDiff := File(to) - File(from);
    if (rankDiff == 0 || fileDiff == 0) && fileDiff > 0 then East
    else if (rankDiff == 0 || fileDiff == 0) && fileDiff < 0 then West
    else if (rankDiff == 0 || fileDiff == 0) && rankDiff > 0 then North
    else if (rankDiff == 0 || fileDiff == 0) && rankDiff < 0 then South
    else if Abs(rankDiff) == Abs(fileDiff) && rankDiff > 0 && fileDiff > 0 then NorthEast
    else if Abs(rankDiff) == Abs(fileDiff) && rankDiff > 0 && fileDiff < 0 then NorthWest
    else if Abs(rankDiff) == Abs(fileDiff) && rankDiff < 0 && fileDiff > 0 then SouthEast
    else if Abs(rankDiff) == Abs(fileDiff) && rankDiff < 0 && fileDiff < 0 then SouthWest
    else NoDirection
  }

  /** `between` is `None` exactly for the same square and for two squares
      on no common rank, file or diagonal; otherwise `to` lies on the ray it
      names. */
  lemma BetweenAligned(from: Square, to: Square)
    ensures Between(from, to).NoDirection? <==>
      from == to
      || (Rank(to) != Rank(from) && File(to) != File(from)
          && Abs(Rank(to) - Rank(from)) != Abs(File(to) - File(from)))
    ensures !Between(from, to).NoDirection? ==> OnRay(from, Between(from, to), to)
  {
    RankFileDetermineSquare(from, to);
  }

  /** The squares a direction reaches are exactly those `Between` names it
      for. */
  lemma BetweenOnRay(from: Square, d: Direction, s: Square)
    requires !d.NoDirection?
    ensures OnRay(from, d, s) <==> Between(from, s) == d
  {
    BetweenAligned(from, s);
    if OnRay(from, d, s) {
      var b := Between(from, s);
      assert !b.NoDirection?;
      assert OnRay(from, b, s);
      DeltaInjective(b, d);
    }
  }

  /** A shared rank or file gives a straight direction, equal rank and file
      distances a diagonal one. */
  lemma BetweenKinds(from: Square, to: Square)
    ensures IsStraight(Between(from, to)) <==>
      from != to && (Rank(to) == Rank(from) || File(to) == File(from))
    ensures IsDiagonal(Between(from, to)) <==>
      from != to && Abs(Rank(to) - Rank(from)) == Abs(File(to) - File(from))
  {
    RankFileDetermineSquare(from, to);
  }

  /** Reversing the pair reverses the direction. */
  lemma BetweenAntisymmetric(a: Square, b: Square)
    ensures Between(a, b) == Opposite(Between(b, a))
  {
    var d := Between(b, a);
    BetweenAligned(b, a);
    BetweenAligned(a, b);
    if !d.NoDirection? {
      var o := Opposite(d);
      assert OnRay(a, o, b);
      BetweenOnRay(a, o, b);
    }
  }
}
