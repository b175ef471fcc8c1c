/** The sliding-piece attack sets the magic generator tabulates
    (crates/lookup/src/generators/magic.rs, `get_ray_moves`,
    `rook_attacks`, `bishop_attacks`). The `rays` table they read is the
    one `generate_rays` builds, so a ray is `RaySquares(from, d,
    InvalidSquare)`. */
module SlidingAttacks {
  import opened Squares
  import opened Bitboards
  import opened Directions
  import opened RayTables

  /** The directions along which square indices grow: one rank up (+8),
      one file right (+1), or both (+9, +7). */
  predicate Ascending(d: Direction)
  {
    d in {North, East, NorthEast, NorthWest}
  }

  /** The full ray of the `rays` table. */
  function FullRay(from: Square, d: Direction): Bitboard
    requires !d.NoDirection?
  {
    RaySquares(from, d, InvalidSquare)
  }

  lemma FullRayOnRay(from: Square, d: Direction, t: Square)
    requires !d.NoDirection?
    ensures t in FullRay(from, d) <==> OnRay(from, d, t)
  {
    FullRayMembers(from, d, t);
    BetweenOnRay(from, d, t);
  }

  lemma StepCompose(x: int, a: nat, b: nat, dx: int)
    ensures Step(Step(x, a, dx), b, dx) == Step(x, a + b, dx)
  {
  }

  /** The squares past `b` on a ray through `b` are those of the ray from
      `b` in the same direction. */
  lemma RayBeyond(from: Square, d: Direction, b: Square, t: Square)
    requires !d.NoDirection? && OnRay(from, d, b)
    ensures OnRay(b, d, t) <==> OnRay(from, d, t) && Distance(from, t) > Distance(from, b)
  {
    if OnRay(b, d, t) {
      RayBeyondFrom(from, d, b, t);
    }
    if OnRay(from, d, t) && Distance(from, t) > Distance(from, b) {
      RayBeyondTo(from, d, b, t);
    }
  }

  lemma RayBeyondFrom(from: Square, d: Direction, b: Square, t: Square)
    requires !d.NoDirection? && OnRay(from, d, b) && OnRay(b, d, t)
    ensures OnRay(from, d, t) && Distance(from, t) == Distance(from, b) + Distance(b, t)
  {
    var kb, j := Distance(from, b), Distance(b, t);
    var (dr, df) := Delta(d);
    StepCompose(Rank(from), kb, j, dr);
    StepCompose(File(from), kb, j, df);
    DistanceOfStep(from, t, kb + j, dr, df);
  }

  lemma RayBeyondTo(from: Square, d: Direction, b: Square, t: Square)
    requires !d.NoDirection? && OnRay(from, d, b) && OnRay(from, d, t)
    requires Distance(from, t) > Distance(from, b)
    ensures OnRay(b, d, t)
  {
    var kb, kt := Distance(from, b), Distance(from, t);
    var (dr, df) := Delta(d);
    StepCompose(Rank(from), kb, kt - kb, dr);
    StepCompose(File(from), kb, kt - kb, df);
    DistanceOfStep(b, t, kt - kb, dr, df);
  }

  /** `k` steps of a direction cover king distance `k`. */
  lemma DistanceOfStep(x: Square, y: Square, k: nat, dr: int, df: int)
    requires -1 <= dr <= 1 && -1 <= df <= 1 && (dr, df) != (0, 0)
    requires Rank(y) == Step(Rank(x), k, dr) && File(y) == Step(File(x), k, df)
    ensures Distance(x, y) == k
  {
  }

  /** Along an ascending direction the index grows with the distance, along
      the others it shrinks. */
  lemma RayIndexOrder(from: Square, d: Direction, s: Square, t: Square)
    requires !d.NoDirection? && OnRay(from, d, s) && OnRay(from, d, t)
    requires Distance(from, s) < Distance(from, t)
    ensures Ascending(d) ==> s < t
    ensures !Ascending(d) ==> s > t
  {
    assert s == Rank(s) * 8 + File(s);
    assert t == Rank(t) * 8 + File(t);
  }

  /** With `leading` set for the descending directions, the blocker
      `get_ray_moves` picks is the one nearest to `from`. */
  lemma NearestBlocker(from: Square, d: Direction, blocking: Bitboard, s: Square)
    requires !d.NoDirection? && blocking != {} && blocking <= FullRay(from, d)
    requires s in blocking
    ensures var b := if !Ascending(d) then LeadingIndex(blocking) else TrailingIndex(blocking);
      Distance(from, b) <= Distance(from, s)
  {
    var b := if !Ascending(d) then LeadingIndex(blocking) else TrailingIndex(blocking);
    TrailingIndexLowest(blocking);
    LeadingIndexHighest(blocking);
    FullRayOnRay(from, d, s);
    FullRayOnRay(from, d, b);
    if Distance(from, s) < Distance(from, b) {
      RayIndexOrder(from, d, s, b);
    }
  }

  /** `get_ray_moves`: the full ray, less everything past its first blocker;
      `leading` picks the blocker with the highest index instead of the
      lowest. */
  function GetRayMoves(from: Square, blockers: Bitboard, d: Direction, leading: bool): Bitboard
    requires !d.NoDirection?
  {
    var moves := FullRay(from, d);
    var blocking := moves * blockers;
    if blocking == {} then moves
    else
      var blocker := if leading then LeadingIndex(blocking) else TrailingIndex(blocking);
      moves - FullRay(blocker, d)
  }

  /** A square on the ray is reached exactly when no blocker lies strictly
      between it and `from`: the first blocker is kept, nothing past it. */
  lemma GetRayMovesMembers(from: Square, blockers: Bitboard, d: Direction, t: Square)
    requires !d.NoDirection?
    ensures t in GetRayMoves(from, blockers, d, !Ascending(d)) <==>
      OnRay(from, d, t) && BetweenSquares(from, t) * blockers == {}
  {
    var moves := FullRay(from, d);
    var blocking := moves * blockers;
    FullRayOnRay(from, d, t);
    if OnRay(from, d, t) {
      BetweenOnRay(from, d, t);
      if blocking == {} {
        FreeRay(from, blockers, d, t);
      } else {
        var b := if !Ascending(d) then LeadingIndex(blocking) else TrailingIndex(blocking);
        FullRayOnRay(from, d, b);
        FullRayOnRay(b, d, t);
        RayBeyond(from, d, b, t);
        BlockedRay(from, blockers, d, t, b);
      }
    }
  }

  /** With no blocker on the ray nothing lies between `from` and any square
      of it. */
  lemma FreeRay(from: Square, blockers: Bitboard, d: Direction, t: Square)
    requires !d.NoDirection? && Between(from, t) == d
    requires FullRay(from, d) * blockers == {}
    ensures BetweenSquares(from, t) * blockers == {}
  {
    forall s | s in BetweenSquares(from, t)
      ensures s in FullRay(from, d)
    {
      BetweenMembers(from, t, s);
      BetweenOnRay(from, d, s);
      FullRayOnRay(from, d, s);
    }
  }

  /** A square of the ray is free of blockers before it exactly when it is
      no farther than the nearest blocker. */
  lemma BlockedRay(from: Square, blockers: Bitboard, d: Direction, t: Square, b: Square)
    requires !d.NoDirection? && Between(from, t) == d
    requires FullRay(from, d) * blockers != {}
    requires b == if !Ascending(d) then LeadingIndex(FullRay(from, d) * blockers)
                 else TrailingIndex(FullRay(from, d) * blockers)
    ensures BetweenSquares(from, t) * blockers == {} <==> Distance(from, t) <= Distance(from, b)
  {
    var blocking := FullRay(from, d) * blockers;
    FullRayOnRay(from, d, b);
    BetweenOnRay(from, d, b);
    if Distance(from, t) > Distance(from, b) {
      BetweenMembers(from, t, b);
      assert b in BetweenSquares(from, t) * blockers;
    } else {
      forall s | s in BetweenSquares(from, t) * blockers
        ensures false
      {
        BetweenMembers(from, t, s);
        BetweenOnRay(from, d, s);
        FullRayOnRay(from, d, s);
        NearestBlocker(from, d, blocking, s);
      }
    }
  }

  /** `rook_attacks`: the moves along the four straight rays, with
      `leading` set for South and West. */
  function RookAttacks(from: Square, blockers: Bitboard): Bitboard
  {
    GetRayMoves(from, blockers, North, false)
    + GetRayMoves(from, blockers, East, false)
    + GetRayMoves(from, blockers, South, true)
    + GetRayMoves(from, blockers, West, true)
  }

  /** `bishop_attacks`: the moves along the four diagonal rays, with
      `leading` set for South-East and South-West. */
  function BishopAttacks(from: Square, blockers: Bitboard): Bitboard
  {
    GetRayMoves(from, blockers, NorthEast, false)
    + GetRayMoves(from, blockers, SouthEast, true)
    + GetRayMoves(from, blockers, SouthWest, true)
    + GetRayMoves(from, blockers, NorthWest, false)
  }

  /** A rook attacks exactly the squares on its rank or file with no
      blocker strictly between. */
  lemma RookAttacksMembers(from: Square, blockers: Bitboard, t: Square)
    ensures t in RookAttacks(from, blockers) <==>
      IsStraight(Between(from, t)) && BetweenSquares(from, t) * blockers == {}
  {
    GetRayMovesMembers(from, blockers, North, t);
    GetRayMovesMembers(from, blockers, East, t);
    GetRayMovesMembers(from, blockers, South, t);
    GetRayMovesMembers(from, blockers, West, t);
    BetweenOnRay(from, North, t);
    BetweenOnRay(from, East, t);
    BetweenOnRay(from, South, t);
    BetweenOnRay(from, West, t);
  }

  /** A bishop attacks exactly the squares on its diagonals with no blocker
      strictly between. */
  lemma BishopAttacksMembers(from: Square, blockers: Bitboard, t: Square)
    ensures t in BishopAttacks(from, blockers) <==>
      IsDiagonal(Between(from, t)) && BetweenSquares(from, t) * blockers == {}
  {
    GetRayMovesMembers(from, blockers, NorthEast, t);
    GetRayMovesMembers(from, blockers, SouthEast, t);
    GetRayMovesMembers(from, blockers, SouthWest, t);
    GetRayMovesMembers(from, blockers, NorthWest, t);
    BetweenOnRay(from, NorthEast, t);
    BetweenOnRay(from, SouthEast, t);
    BetweenOnRay(from, SouthWest, t);
    BetweenOnRay(from, NorthWest, t);
  }
}
