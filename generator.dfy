/** The move list a generator fills: a fixed buffer of `MAX_MOVES` moves
    with a fill count and a read cursor
    (crates/engine/src/generator/generator.rs). */
module Generator {
  import opened Wrappers
  import opened Pieces
  import opened Moves
  import Squares
  import Bitboards
  import Positions
  import Boards

  /** `MAX_MOVES`. */
  const MaxMoves: nat := 256

  /** `MoveType`: whether a generator produces quiet moves, captures or
      both. */
  datatype MoveType = MoveType(quiet: bool, capture: bool)

  const LegalType := MoveType(true, true)
  const QuietType := MoveType(true, false)
  const CaptureType := MoveType(false, true)

  /** `get_piece_board` of the board a generator reads. */
  function PieceBoard(p: Positions.Position, c: Color, piece: Piece): Bitboards.Bitboard
  {
    Boards.SelectedSquares(p.tiles, Boards.OfPiece(c, piece))
  }

  /** `get_occupied`. */
  function Occupied(p: Positions.Position, c: Color): Bitboards.Bitboard
  {
    Boards.SelectedSquares(p.tiles, Boards.OfColor(c))
  }

  /** `get_all_occupied`. */
  function AllOccupied(p: Positions.Position): Bitboards.Bitboard
  {
    Boards.SelectedSquares(p.tiles, Boards.AnyPiece)
  }

  /** The destinations a move type permits: never an own piece, only
      empty squares for quiet moves and only enemy pieces for captures,
      always within the check mask; for both kinds, every such square. */
  ghost predicate AllowedFor(mt: MoveType, p: Positions.Position, mask: Bitboards.Bitboard, allowed: Bitboards.Bitboard)
  {
    && (forall q :: q in allowed ==> q in mask && q !in Occupied(p, p.state.active))
    && (!mt.capture ==> forall q :: q in allowed ==> q !in AllOccupied(p))
    && (!mt.quiet ==> forall q :: q in allowed ==> q in Occupied(p, Other(p.state.active)))
    && (mt.quiet && mt.capture ==> forall q: Squares.Square :: q in mask && q !in Occupied(p, p.state.active) ==> q in allowed)
  }

  /** The `allowed` board of the piece generators' `legals`: the squares
      the move type permits, within `mask` (the check mask for pawns, the
      unattacked squares for the king). */
  function Allowed(mt: MoveType, p: Positions.Position, mask: Bitboards.Bitboard): (allowed: Bitboards.Bitboard)
    requires mt.quiet || mt.capture
    ensures AllowedFor(mt, p, mask, allowed)
  {
    if mt.quiet && mt.capture then
      Bitboards.Not(Occupied(p, p.state.active)) * mask
    else if mt.quiet then
      OwnInAll(p);
      Bitboards.Not(AllOccupied(p)) * mask
    else
      OtherNotOwn(p);
      Occupied(p, Other(p.state.active)) * mask
  }

  /** Own pieces are pieces. */
  lemma OwnInAll(p: Positions.Position)
    ensures Occupied(p, p.state.active) <= AllOccupied(p)
  {
    forall q | q in Occupied(p, p.state.active)
      ensures q in AllOccupied(p)
    {
      Boards.SelectedMembers(p.tiles, Boards.OfColor(p.state.active), q);
      Boards.SelectedMembers(p.tiles, Boards.AnyPiece, q);
    }
  }

  /** Enemy pieces are not own pieces. */
  lemma OtherNotOwn(p: Positions.Position)
    ensures Occupied(p, Other(p.state.active)) !! Occupied(p, p.state.active)
  {
    forall q | q in Occupied(p, Other(p.state.active))
      ensures q !in Occupied(p, p.state.active)
    {
      Boards.SelectedMembers(p.tiles, Boards.OfColor(p.state.active), q);
      Boards.SelectedMembers(p.tiles, Boards.OfColor(Other(p.state.active)), q);
    }
  }

  /** The moves `f` gives for each element of `xs`, one after another. */
  function FlatMap<T, U>(xs: seq<T>, f: T -> seq<U>): seq<U>
  {
    if |xs| == 0 then [] else FlatMap(xs[..|xs| - 1], f) + f(xs[|xs| - 1])
  }

  /** The moves of a sequence split anywhere are the moves of the two
      parts. */
  lemma {:induction false} FlatMapSplit<T, U>(xs: seq<T>, ys: seq<T>, f: T -> seq<U>)
    ensures FlatMap(xs + ys, f) == FlatMap(xs, f) + FlatMap(ys, f)
    decreases |ys|
  {
    if |ys| == 0 {
      assert xs + ys == xs;
    } else {
      var init := ys[..|ys| - 1];
      assert (xs + ys)[..|xs + ys| - 1] == xs + init;
      FlatMapSplit(xs, init, f);
    }
  }

  /** Every element of the result comes from some element of `xs`. */
  lemma {:induction false} FlatMapMembers<T, U>(xs: seq<T>, f: T -> seq<U>, y: U)
    requires y in FlatMap(xs, f)
    ensures exists i :: 0 <= i < |xs| && y in f(xs[i])
    decreases |xs|
  {
    var init := xs[..|xs| - 1];
    if y in FlatMap(init, f) {
      FlatMapMembers(init, f, y);
      var i :| 0 <= i < |init| && y in f(init[i]);
      assert xs[i] == init[i];
    } else {
      assert y in f(xs[|xs| - 1]);
    }
  }

  class MoveGenerator {
    /** `moves: [Move; MAX_MOVES]`. */
    const moves: array<Move>
    /** How many moves have been pushed. */
    var size: nat
    /** The next move `next` hands out. */
    var index: nat

    ghost predicate Valid()
      reads this
    {
      moves.Length == MaxMoves && index <= size <= MaxMoves
    }

    /** The moves pushed so far, in push order. */
    ghost function Pushed(): seq<Move>
      requires Valid()
      reads this, moves
    {
      moves[..size]
    }

    /** The moves `next` has still to hand out. */
    ghost function Remaining(): seq<Move>
      requires Valid()
      reads this, moves
    {
      moves[index..size]
    }

    /** The buffer of `MoveGenerator::new` before any generation: every
        slot the null move, nothing pushed, nothing read. */
    constructor()
      ensures Valid() && fresh(moves) && Pushed() == [] && index == 0
      ensures moves[..] == seq(MaxMoves, _ => NullMove)
    {
      moves := new Move[MaxMoves](_ => NullMove);
      size := 0;
      index := 0;
    }

    /** `push`: the move goes into the first free slot; the buffer must
        have one. */
    method Push(m: Move)
      requires Valid() && size < MaxMoves
      modifies this`size, moves
      ensures Valid() && Pushed() == old(Pushed()) + [m]
      ensures moves[..] == old(moves[..])[old(size) := m]
      ensures index == old(index)
    {
      moves[size] := m;
      size := size + 1;
    }

    /** `len`: the number of moves pushed. */
    function Len(): (n: nat)
      requires Valid()
      reads this, moves
      ensures n == |Pushed()| && n <= MaxMoves
    {
      size
    }

    /** `next`: the next pushed move not yet handed out, or `None` once
        they are all handed out. */
    method Next() returns (r: Option<Move>)
      requires Valid()
      modifies this`index
      ensures Valid() && size == old(size) && Pushed() == old(Pushed())
      ensures old(Remaining()) == [] ==> r == None && index == old(index)
      ensures old(Remaining()) != [] ==> r == Some(old(Remaining())[0]) && Remaining() == old(Remaining())[1..]
      ensures old(index) < size ==> r == Some(Pushed()[old(index)]) && index == old(index) + 1
      ensures old(index) == size ==> r == None && index == size
    {
      if index >= size {
        return None;
      }
      var m := moves[index];
      index := index + 1;
      return Some(m);
    }

    /** `is_checkmate`: no move and the side to move in check. */
    predicate IsCheckmate(board: Positions.Position)
      reads this
    {
      size == 0 && board.state.checkers != {}
    }

    /** `is_stalemate`: no move and the side to move not in check. */
    predicate IsStalemate(board: Positions.Position)
      reads this
    {
      size == 0 && board.state.checkers == {}
    }
  }

  /** A side without moves is mated or stalemated, never both, and a side
      with moves is neither. */
  lemma MateOrStalemate(g: MoveGenerator, board: Positions.Position)
    requires g.Valid()
    ensures g.IsCheckmate(board) ==> !g.IsStalemate(board)
    ensures g.Len() == 0 <==> g.IsCheckmate(board) || g.IsStalemate(board)
    ensures g.Len() == 0 ==> (g.IsCheckmate(board) <==> board.state.checkers != {})
  {
  }

  /** `for mov in generator`: `next` until it gives `None` hands out the
      moves not yet read, in push order. */
  method Drain(g: MoveGenerator) returns (ms: seq<Move>)
    requires g.Valid()
    modifies g`index
    ensures g.Valid() && g.Pushed() == old(g.Pushed()) && g.Remaining() == []
    ensures ms == old(g.Remaining())
  {
    ms := [];
    var next := g.Next();
    while next.Some?
      invariant g.Valid() && g.Pushed() == old(g.Pushed())
      invariant next.None? ==> g.Remaining() == []
      invariant ms + (if next.Some? then [next.value] else []) + g.Remaining() == old(g.Remaining())
      decreases |g.Remaining()| + (if next.Some? then 1 else 0)
    {
      ms := ms + [next.value];
      next := g.Next();
    }
  }

  /** Pushes several moves, in order. */
  method PushAll(g: MoveGenerator, ms: seq<Move>)
    requires g.Valid() && g.size + |ms| <= MaxMoves
    modifies g`size, g.moves
    ensures g.Valid() && g.Pushed() == old(g.Pushed()) + ms && g.index == old(g.index)
  {
    for i := 0 to |ms|
      invariant g.Valid() && g.Pushed() == old(g.Pushed()) + ms[..i] && g.index == old(g.index)
    {
      g.Push(ms[i]);
      assert ms[..i + 1] == ms[..i] + [ms[i]];
    }
  }

  /** The moves of an element of `xs` are among the moves of `xs`. */
  lemma FlatMapIncludes<T, U>(xs: seq<T>, f: T -> seq<U>, x: T)
    requires x in xs
    ensures forall y :: y in f(x) ==> y in FlatMap(xs, f)
  {
    var i :| 0 <= i < |xs| && xs[i] == x;
    assert xs == xs[..i] + [x] + xs[i + 1..];
    FlatMapSplit(xs[..i] + [x], xs[i + 1..], f);
    FlatMapSplit(xs[..i], [x], f);
    assert FlatMap([x], f) == f(x) by {
      assert [x][..0] == [];
    }
  }

  lemma AppendAssoc<T>(a: seq<T>, b: seq<T>, c: seq<T>)
    ensures a + b + c == a + (b + c)
  {
  }

  /** The moves of the first `i + 1` elements are those of the first
      `i` and then those of element `i`, and never more than the moves of
      all. */
  lemma FlatMapStep<T, U>(xs: seq<T>, i: nat, f: T -> seq<U>)
    requires i < |xs|
    ensures FlatMap(xs[..i + 1], f) == FlatMap(xs[..i], f) + f(xs[i])
    ensures |FlatMap(xs[..i + 1], f)| <= |FlatMap(xs, f)|
  {
    assert xs[..i + 1][..i] == xs[..i];
    assert xs == xs[..i + 1] + xs[i + 1..];
    FlatMapSplit(xs[..i + 1], xs[i + 1..], f);
  }

  /** For each element of `xs` in order, pushes the moves `f` gives for
      it. */
  method PushEach<T>(g: MoveGenerator, xs: seq<T>, f: T -> seq<Move>)
    requires g.Valid() && g.size + |FlatMap(xs, f)| <= MaxMoves
    modifies g`size, g.moves
    ensures g.Valid() && g.Pushed() == old(g.Pushed()) + FlatMap(xs, f) && g.index == old(g.index)
  {
    for i := 0 to |xs|
      invariant g.Valid() && g.index == old(g.index)
      invariant g.Pushed() == old(g.Pushed()) + FlatMap(xs[..i], f)
    {
      FlatMapStep(xs, i, f);
      PushAll(g, f(xs[i]));
    }
    assert xs[..|xs|] == xs;
  }

  /** Moves pushed into a fresh generator come back out of it in the order
      they were pushed. */
  method PushThenDrain(ms: seq<Move>) returns (out: seq<Move>)
    requires |ms| <= MaxMoves
    ensures out == ms
  {
    var g := new MoveGenerator();
    PushAll(g, ms);
    out := Drain(g);
  }
}
