/** Killer moves: for every ply, the last two quiet moves that caused a
    beta cutoff there, most recent first
    (crates/engine/src/search/killers.rs). */
module Killers {
  import opened Wrappers
  import opened Moves
  import opened Search

  const MateKillerReduction: nat := 100
  const KillerReduction: nat := 100
  /** The number of killer slots per ply. */
  const MaxKillers: nat := 2

  class Killers {
    /** `moves[ply][slot]`, a `[[Option<Move>; 2]; 64]`. */
    var moves: array2<Option<Move>>

    /** The table has one row per ply, and the two slots of a row never
        hold the same move; slot 1 is only filled once slot 0 is. */
    ghost predicate Valid()
      reads this, moves
    {
      && moves.Length0 == MaxDepth && moves.Length1 == MaxKillers
      && forall p :: 0 <= p < MaxDepth ==>
           (moves[p, 0].Some? ==> moves[p, 0] != moves[p, 1])
           && (moves[p, 1].Some? ==> moves[p, 0].Some?)
    }

    /** `Killers::default`: every slot empty. */
    constructor()
      ensures Valid() && fresh(moves)
      ensures forall p, i :: 0 <= p < MaxDepth && 0 <= i < MaxKillers ==> moves[p, i] == None
    {
      moves := new Option<Move>[MaxDepth, MaxKillers]((p, i) => None);
    }

    /** `store`: the move goes to slot 0 and the old slot 0 moves down to
        slot 1, unless slot 0 already holds it, in which case nothing
        changes. Only the row of `ply` is touched; the row index must be
        below `MAX_DEPTH`. */
    method Store(mov: Move, ply: nat)
      requires Valid() && ply < MaxDepth
      modifies moves
      ensures Valid()
      ensures moves[ply, 0] == Some(mov)
      ensures moves[ply, 1] == if old(moves[ply, 0]) == Some(mov) then old(moves[ply, 1]) else old(moves[ply, 0])
      ensures forall p, i :: 0 <= p < MaxDepth && 0 <= i < MaxKillers && p != ply ==> moves[p, i] == old(moves[p, i])
    {
      if moves[ply, 0] == Some(mov) {
        return;
      }
      moves[ply, 1] := moves[ply, 0];
      moves[ply, 0] := Some(mov);
    }

    /** The slot of the row that holds the move, looking at slot 0 first. */
    function Slot(mov: Move, ply: nat): Option<nat>
      requires Valid() && ply < MaxDepth
      reads this, moves
    {
      if moves[ply, 0] == Some(mov) then Some(0)
      else if moves[ply, 1] == Some(mov) then Some(1)
      else None
    }

    /** `get`: the first slot of the row that holds the move, if any. */
    method Get(mov: Move, ply: nat) returns (r: Option<nat>)
      requires Valid() && ply < MaxDepth
      ensures r == Slot(mov, ply)
      ensures r.Some? ==> r.value < MaxKillers && moves[ply, r.value] == Some(mov)
                          && forall j :: 0 <= j < r.value ==> moves[ply, j] != Some(mov)
      ensures r.None? ==> forall j :: 0 <= j < MaxKillers ==> moves[ply, j] != Some(mov)
    {
      for index := 0 to MaxKillers
        invariant forall j :: 0 <= j < index ==> moves[ply, j] != Some(mov)
      {
        if moves[ply, index] == Some(mov) {
          return Some(index);
        }
      }
      return None;
    }

    /** `contains`: some slot of the row holds the move. */
    method Contains(mov: Move, ply: nat) returns (b: bool)
      requires Valid() && ply < MaxDepth
      ensures b <==> exists j :: 0 <= j < MaxKillers && moves[ply, j] == Some(mov)
    {
      var index := Get(mov, ply);
      b := index.Some?;
    }
  }
}
