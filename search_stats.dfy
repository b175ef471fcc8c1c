/** The search's shared constants, its ply and depth counters and the
    time estimate for one move (crates/engine/src/search/search.rs). */
module Search {

  /** The deepest search, and the number of plies the killer tables hold. */
  const MaxDepth: nat := 64

  const Checkmate: int := 1_000_000
  /** Any evaluation at least this large in magnitude is a forced mate. */
  const CheckmateMin: int := Checkmate - MaxDepth
  const Draw: int := 0
  const MaxEval: int := Checkmate + 1
  const MinEval: int := -Checkmate - 1
  const NullDepthReduction: nat := 3
  /** The node-count mask at which the search polls for a stop request. */
  const CheckTermination: nat := 0x7FF

  /** Why a search gave up early. */
  datatype StopReason = TimeUp | NodesExceeded | ForcedStop

  /** The range of a `u8`. */
  type U8 = x: int | 0 <= x < 256

  /** The counters of one search. The node counters and the start time
      are not modelled; `ply` counts the moves made from the root and
      `depth` the plies left to search. */
  class SearchStats {
    var depth: U8
    var ply: U8
    var maxPly: U8

    /** `max_ply` is the deepest ply reached so far. */
    ghost predicate Valid()
      reads this
    {
      ply <= maxPly
    }

    /** `SearchStats::new`, which asserts that the depth is at most
        `MAX_DEPTH`. */
    constructor(d: U8)
      requires d <= MaxDepth
      ensures Valid()
      ensures depth == d && ply == 0 && maxPly == 0
    {
      depth := d;
      ply := 0;
      maxPly := 0;
    }

    /** `increase_ply`; a `u8` overflow panics, so the ply must be below 255. */
    method IncreasePly()
      requires Valid() && ply < 255
      modifies this
      ensures Valid()
      ensures ply == old(ply) + 1 && depth == old(depth)
      ensures maxPly == if old(maxPly) < ply then ply else old(maxPly)
    {
      ply := ply + 1;
      if maxPly < ply {
        maxPly := ply;
      }
    }

    /** `decrease_ply`; a `u8` underflow panics. */
    method DecreasePly()
      requires Valid() && ply > 0
      modifies this
      ensures Valid()
      ensures ply == old(ply) - 1 && depth == old(depth) && maxPly == old(maxPly)
    {
      ply := ply - 1;
    }

    /** `increase_depth`, whose debug assertion keeps the depth within
        `MAX_DEPTH`. */
    method IncreaseDepth(reduction: U8)
      requires depth + reduction <= MaxDepth
      modifies this
      ensures depth == old(depth) + reduction && ply == old(ply) && maxPly == old(maxPly)
    {
      depth := depth + reduction;
    }

    /** `decrease_depth`, whose debug assertion keeps the depth from
        going below zero. */
    method DecreaseDepth(reduction: U8)
      requires depth >= reduction
      modifies this
      ensures depth == old(depth) - reduction && ply == old(ply) && maxPly == old(maxPly)
    {
      depth := depth - reduction;
    }

    /** `make_search`: one ply deeper, `reduction` fewer plies to go. */
    method MakeSearch(reduction: U8)
      requires Valid() && ply < 255 && depth >= reduction
      modifies this
      ensures Valid()
      ensures ply == old(ply) + 1 && depth == old(depth) - reduction
      ensures maxPly >= old(maxPly)
    {
      IncreasePly();
      DecreaseDepth(reduction);
    }

    /** `unmake_search`: the inverse of `make_search`. */
    method UnmakeSearch(reduction: U8)
      requires Valid() && ply > 0 && depth + reduction <= MaxDepth
      modifies this
      ensures Valid()
      ensures ply == old(ply) - 1 && depth == old(depth) + reduction && maxPly == old(maxPly)
    {
      DecreasePly();
      IncreaseDepth(reduction);
    }

    /** A `make_search` followed by the matching `unmake_search` gives back
        the ply and the depth; `max_ply` keeps the deeper ply it saw. */
    method SearchChild(reduction: U8)
      requires Valid() && ply < 255 && depth >= reduction && depth <= MaxDepth
      modifies this
      ensures Valid()
      ensures ply == old(ply) && depth == old(depth)
      ensures maxPly >= old(ply) + 1 && maxPly >= old(maxPly)
    {
      MakeSearch(reduction);
      UnmakeSearch(reduction);
    }

    /** `is_leaf`: no plies are left to search. */
    predicate IsLeaf()
      reads this
    {
      depth == 0
    }

    /** `extend_search`: one more ply to search; a `u8` overflow panics. */
    method ExtendSearch()
      requires depth < 255
      modifies this
      ensures depth == old(depth) + 1 && ply == old(ply) && maxPly == old(maxPly)
      ensures !IsLeaf()
    {
      depth := depth + 1;
    }
  }

  /** The time granted to one move, in milliseconds. */
  datatype TimeFrame = TimeFrame(moveTime: nat)

  /** `TimeFrame::estimate`: a fortieth of the time left plus half the
      increment, unless that reaches the time left, in which case the
      fallback `(time_left / (increment + 1)) * time_left` is used. The
      `u128` arithmetic cannot overflow here: the sum is below 2^128 and
      the fallback product is always 0 (`EstimateFallbackIsZero`). */
  function Estimate(timeLeft: nat, increment: nat): TimeFrame
  {
    var time := timeLeft / 40 + increment / 2;
    var quotient: nat := timeLeft / (increment + 1);
    if time >= timeLeft then TimeFrame(quotient * timeLeft) else TimeFrame(time)
  }

  /** The fallback only runs when the increment alone reaches the time
      left, so its quotient, and with it the granted time, is 0. */
  lemma EstimateFallbackIsZero(timeLeft: nat, increment: nat)
    requires timeLeft / 40 + increment / 2 >= timeLeft
    ensures Estimate(timeLeft, increment).moveTime == 0
  {
    if timeLeft > 0 {
      assert timeLeft / 40 <= timeLeft / 2;
      assert increment / 2 >= timeLeft - timeLeft / 2;
      assert increment >= timeLeft;
      assert timeLeft / (increment + 1) == 0;
    }
  }

  /** The estimate never grants more than the time left. */
  lemma EstimateWithinTimeLeft(timeLeft: nat, increment: nat)
    ensures Estimate(timeLeft, increment).moveTime <= timeLeft
  {
    if timeLeft / 40 + increment / 2 >= timeLeft {
      EstimateFallbackIsZero(timeLeft, increment);
    }
  }
}
