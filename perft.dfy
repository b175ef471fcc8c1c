/** Perft on the board: `perft_normal`, `perft_stats` and `divide`
    (crates/engine/src/perft/perft.rs), with `make`/`unmake` and an
    optional cache. Each is proved to compute the count module PerftSpec
    defines and to leave the board in the position it found. */
module PerftRuns {
  import opened Wrappers
  import opened Moves
  import opened Zobrist
  import opened Positions
  import opened Generator
  import opened PerftCounters
  import opened PerftEntries
  import opened GenericTables
  import opened PerftSpec
  import Boards

  // ---------------------------------------------------------------------
  // Counting on the board

  /** `MoveGenerator::new(board)`: a fresh buffer holding the generated
      moves. */
  method Generated(gen: Generate, p: Position) returns (g: MoveGenerator)
    requires |gen(p)| <= MaxMoves
    ensures fresh(g) && fresh(g.moves) && g.Valid() && g.index == 0 && g.Pushed() == gen(p)
  {
    g := new MoveGenerator();
    PushAll(g, gen(p));
  }

  /** `for mov in MoveGenerator::new(board)`: the moves handed out by a
      fresh generator for `p`, in push order. */
  method GeneratedMoves(gen: Generate, p: Position) returns (moves: seq<Move>)
    requires |gen(p)| <= MaxMoves
    ensures moves == gen(p)
  {
    var g := Generated(gen, p);
    moves := Drain(g);
  }

  /** `perft_normal`: the node count of the board's position to `depth`.
      The board is back in its position afterwards; with `hashed` the
      cache is consulted and filled, and stays sound, and without it the
      cache is left alone. */
  method PerftNormal(board: Boards.Board, cache: GenericTable<PerftEntry>, hashed: bool, gen: Generate, ghost play: Play,
                     value: ZobristHash -> bv64, ghost count: bv64 -> nat, depth: nat)
    returns (nodes: nat)
    requires board.Valid() && cache.Valid() && Makes(play, board.analyse) && depth < 32
    requires Searchable(gen, play, board.Abs(), depth)
    requires hashed ==> KeysCount(gen, play, value, count, board.Abs(), depth)
    requires hashed ==> cache.keyOf == EntryKey && CacheSound(cache.entries[..], EntryKey, EntryNodes, count)
    modifies board, cache.entries
    ensures board.Valid() && board.Abs() == old(board.Abs())
    ensures nodes == Perft(gen, play, old(board.Abs()), depth)
    ensures hashed ==> CacheSound(cache.entries[..], EntryKey, EntryNodes, count)
    ensures !hashed ==> cache.entries[..] == old(cache.entries[..])
    decreases depth, 3
  {
    if depth == 0 {
      return 1;
    }
    var p := Positions.Position(board.pieces, board.gamestate, board.history);
    var key := CacheKey(value, p, depth);
    if hashed {
      var hit := cache.Probe(key);
      if hit.Some? {
        ProbeSound(cache.entries[..], EntryKey, EntryNodes, count, key);
        assert count(key) == Perft(gen, play, p, depth);
        return hit.value.nodes;
      }
    }
    nodes := CountMoves(board, cache, hashed, gen, play, value, count, depth, p);
    if hashed {
      assert count(key) == Perft(gen, play, p, depth);
      StoreSound(cache.entries[..], EntryKey, EntryNodes, count, cache.canReplace, key, PerftEntry(key, depth, nodes));
      cache.Store(key, PerftEntry(key, depth, nodes));
    }
  }

  /** The count of `perft_normal` once the cache has missed: at depth 1
      the number of moves the generator holds, above it the loop over
      them. */
  method CountMoves(board: Boards.Board, cache: GenericTable<PerftEntry>, hashed: bool, gen: Generate, ghost play: Play,
                    value: ZobristHash -> bv64, ghost count: bv64 -> nat, depth: nat, p: Position)
    returns (nodes: nat)
    requires board.Valid() && cache.Valid() && Makes(play, board.analyse) && 1 <= depth < 32 && board.Abs() == p
    requires Searchable(gen, play, p, depth)
    requires hashed ==> KeysCount(gen, play, value, count, p, depth)
    requires hashed ==> cache.keyOf == EntryKey && CacheSound(cache.entries[..], EntryKey, EntryNodes, count)
    modifies board, cache.entries
    ensures board.Valid() && board.Abs() == p
    ensures nodes == Perft(gen, play, p, depth)
    ensures hashed ==> CacheSound(cache.entries[..], EntryKey, EntryNodes, count)
    ensures !hashed ==> cache.entries[..] == old(cache.entries[..])
    decreases depth, 2
  {
    if depth == 1 {
      var g := Generated(gen, p);
      nodes := g.Len();
    } else {
      var moves := GeneratedMoves(gen, p);
      nodes := MoveLoop(board, cache, hashed, gen, play, value, count, depth - 1, p, moves);
    }
  }

  /** The loop of `perft_normal` above depth 1, over the moves the
      generator hands out (`for mov in move_generator`): every move is
      made, the position below it counted to `depth`, and the move
      unmade. */
  method MoveLoop(board: Boards.Board, cache: GenericTable<PerftEntry>, hashed: bool, gen: Generate, ghost play: Play,
                  value: ZobristHash -> bv64, ghost count: bv64 -> nat, depth: nat, ghost p: Position, moves: seq<Move>)
    returns (nodes: nat)
    requires board.Valid() && cache.Valid() && Makes(play, board.analyse) && 1 <= depth < 31 && board.Abs() == p
    requires moves == gen(p) && ChildrenSearchable(gen, play, p, depth)
    requires hashed ==> KeysCount(gen, play, value, count, p, depth + 1)
    requires hashed ==> cache.keyOf == EntryKey && CacheSound(cache.entries[..], EntryKey, EntryNodes, count)
    modifies board, cache.entries
    ensures board.Valid() && board.Abs() == p
    ensures nodes == PerftSum(gen, play, p, |moves|, depth)
    ensures hashed ==> CacheSound(cache.entries[..], EntryKey, EntryNodes, count)
    ensures !hashed ==> cache.entries[..] == old(cache.entries[..])
    decreases depth + 1, 1
  {
    nodes := 0;
    for k := 0 to |moves|
      invariant board.Valid() && board.Abs() == p
      invariant nodes == PerftSum(gen, play, p, k, depth)
      invariant hashed ==> CacheSound(cache.entries[..], EntryKey, EntryNodes, count)
      invariant !hashed ==> cache.entries[..] == old(cache.entries[..])
    {
      CountChildReady(gen, play, hashed, value, count, p, depth, k);
      var below := CountBelow(board, cache, hashed, gen, play, value, count, depth, p, moves[k]);
      PerftSumStep(gen, play, p, k, depth, nodes, below);
      nodes := nodes + below;
    }
  }

  /** One turn of the loop: `make` the move, count the position below it
      to `depth`, `unmake` the move. */
  method CountBelow(board: Boards.Board, cache: GenericTable<PerftEntry>, hashed: bool, gen: Generate, ghost play: Play,
                    value: ZobristHash -> bv64, ghost count: bv64 -> nat, depth: nat, ghost p: Position, m: Move)
    returns (nodes: nat)
    requires board.Valid() && cache.Valid() && Makes(play, board.analyse) && depth < 32 && board.Abs() == p
    requires Playable(p, m) && Searchable(gen, play, Child(p, m, play), depth)
    requires hashed ==> KeysCount(gen, play, value, count, Child(p, m, play), depth)
    requires hashed ==> cache.keyOf == EntryKey && CacheSound(cache.entries[..], EntryKey, EntryNodes, count)
    modifies board, cache.entries
    ensures board.Valid() && board.Abs() == p
    ensures nodes == Perft(gen, play, Child(p, m, play), depth)
    ensures hashed ==> CacheSound(cache.entries[..], EntryKey, EntryNodes, count)
    ensures !hashed ==> cache.entries[..] == old(cache.entries[..])
    decreases depth + 1, 0
  {
    board.Make(m);
    nodes := PerftNormal(board, cache, hashed, gen, play, value, count, depth);
    Boards.MakeUnmakeFits(p, From(m), To(m), Flag(m), board.analyse);
    UnmakeMake(p, From(m), To(m), Flag(m), board.analyse);
    board.Unmake(m);
  }

  /** `divide`: for every move, `make` it, count the position below it one
      level less deep with `perft_normal`, `unmake` it and print the move
      with its count; then print the total. The printed lines are returned
      in `lines` and the total in `total`, which is the perft count at
      `depth`. */
  method Divide(board: Boards.Board, cache: GenericTable<PerftEntry>, hashed: bool, gen: Generate, ghost play: Play,
                value: ZobristHash -> bv64, ghost count: bv64 -> nat, depth: nat)
    returns (total: nat, lines: seq<(Move, nat)>)
    requires board.Valid() && cache.Valid() && Makes(play, board.analyse) && 1 <= depth <= 32
    requires |gen(board.Abs())| <= MaxMoves && ChildrenSearchable(gen, play, board.Abs(), depth - 1)
    requires hashed ==> KeysCount(gen, play, value, count, board.Abs(), depth)
    requires hashed ==> cache.keyOf == EntryKey && CacheSound(cache.entries[..], EntryKey, EntryNodes, count)
    modifies board, cache.entries
    ensures board.Valid() && board.Abs() == old(board.Abs())
    ensures lines == DivideLines(gen, play, old(board.Abs()), |gen(old(board.Abs()))|, depth - 1)
    ensures total == LinesTotal(lines) == Perft(gen, play, old(board.Abs()), depth)
    ensures hashed ==> CacheSound(cache.entries[..], EntryKey, EntryNodes, count)
    ensures !hashed ==> cache.entries[..] == old(cache.entries[..])
  {
    var p := Positions.Position(board.pieces, board.gamestate, board.history);
    var moves := GeneratedMoves(gen, p);
    total, lines := DivideLoop(board, cache, hashed, gen, play, value, count, depth - 1, p, moves);
    DivideLinesTotal(gen, play, p, |moves|, depth - 1);
    PerftStep(gen, play, p, depth);
  }

  /** The loop of `divide`: the count below every move to `depth`, added
      up, and the line printed for it. */
  method DivideLoop(board: Boards.Board, cache: GenericTable<PerftEntry>, hashed: bool, gen: Generate, ghost play: Play,
                    value: ZobristHash -> bv64, ghost count: bv64 -> nat, depth: nat, ghost p: Position, moves: seq<Move>)
    returns (total: nat, lines: seq<(Move, nat)>)
    requires board.Valid() && cache.Valid() && Makes(play, board.analyse) && depth < 32 && board.Abs() == p
    requires moves == gen(p) && ChildrenSearchable(gen, play, p, depth)
    requires hashed ==> KeysCount(gen, play, value, count, p, depth + 1)
    requires hashed ==> cache.keyOf == EntryKey && CacheSound(cache.entries[..], EntryKey, EntryNodes, count)
    modifies board, cache.entries
    ensures board.Valid() && board.Abs() == p
    ensures lines == DivideLines(gen, play, p, |moves|, depth)
    ensures total == PerftSum(gen, play, p, |moves|, depth)
    ensures hashed ==> CacheSound(cache.entries[..], EntryKey, EntryNodes, count)
    ensures !hashed ==> cache.entries[..] == old(cache.entries[..])
  {
    total, lines := 0, [];
    for k := 0 to |moves|
      invariant board.Valid() && board.Abs() == p
      invariant lines == DivideLines(gen, play, p, k, depth)
      invariant total == PerftSum(gen, play, p, k, depth)
      invariant hashed ==> CacheSound(cache.entries[..], EntryKey, EntryNodes, count)
      invariant !hashed ==> cache.entries[..] == old(cache.entries[..])
    {
      CountChildReady(gen, play, hashed, value, count, p, depth, k);
      var nodes := CountBelow(board, cache, hashed, gen, play, value, count, depth, p, moves[k]);
      PerftSumStep(gen, play, p, k, depth, total, nodes);
      DivideLinesStep(gen, play, p, k, depth, lines, nodes);
      total := total + nodes;
      lines := lines + [(moves[k], nodes)];
    }
  }

  /** The `k`-th move at `p` can be made, and the position it leads to
      fits the counting run one level less deep, with its keys. */
  lemma CountChildReady(gen: Generate, play: Play, hashed: bool, value: ZobristHash -> bv64, count: bv64 -> nat,
                        p: Position, depth: nat, k: nat)
    requires k < |gen(p)| && ChildrenSearchable(gen, play, p, depth)
    requires hashed ==> KeysCount(gen, play, value, count, p, depth + 1)
    ensures Playable(p, gen(p)[k]) && Searchable(gen, play, Child(p, gen(p)[k], play), depth)
    ensures hashed ==> KeysCount(gen, play, value, count, Child(p, gen(p)[k], play), depth)
  {
    ChildSearchable(gen, play, p, depth, k);
    if hashed {
      KeysCountChild(gen, play, value, count, p, depth, k);
    }
  }

  /** The same for the run with statistics. */
  lemma StatsChildReady(gen: Generate, play: Play, hashed: bool, value: ZobristHash -> bv64, count: bv64 -> PerftStats,
                        p: Position, depth: nat, k: nat)
    requires k < |gen(p)| && ChildrenSearchable(gen, play, p, depth)
    requires hashed ==> KeysStats(gen, play, value, count, p, depth + 1)
    ensures Playable(p, gen(p)[k]) && Searchable(gen, play, Child(p, gen(p)[k], play), depth)
    ensures hashed ==> KeysStats(gen, play, value, count, Child(p, gen(p)[k], play), depth)
  {
    ChildSearchable(gen, play, p, depth, k);
    if hashed {
      KeysStatsChild(gen, play, value, count, p, depth, k);
    }
  }

  // ---------------------------------------------------------------------
  // Counting with statistics

  /** The counting loop of `perft_stats` at depth 1: one node per move,
      and each move's kinds. */
  method CountLeaves(moves: seq<Move>) returns (stats: PerftStats)
    requires forall i :: 0 <= i < |moves| ==> Moves.Valid(moves[i])
    ensures stats == LeafStats(moves)
  {
    stats := PerftCounters.Zero.(nodes := |moves|);
    for i := 0 to |moves|
      invariant stats == Tallies(moves[..i]).(nodes := |moves|)
    {
      var m := moves[i];
      ghost var before := stats;
      if IsCastling(m) {
        stats := stats.(castles := stats.castles + 1);
      } else if IsEnPassant(m) {
        stats := stats.(enPassants := stats.enPassants + 1);
      } else if IsPromotion(m) {
        stats := stats.(promotions := stats.promotions + 1);
      }
      if IsCapture(m) {
        stats := stats.(captures := stats.captures + 1);
      }
      assert stats == Add(before, Tally(m));
      TalliesStep(moves, i, before);
    }
    assert moves[..|moves|] == moves;
  }

  /** `perft_stats`: the counters of the board's position to `depth`,
      with the board back in its position afterwards and the cache of
      counters consulted, filled and kept sound when `hashed`. */
  method PerftWithStats(board: Boards.Board, cache: GenericTable<PerftStatsEntry>, hashed: bool, gen: Generate, ghost play: Play,
                        value: ZobristHash -> bv64, ghost count: bv64 -> PerftStats, depth: nat)
    returns (stats: PerftStats)
    requires board.Valid() && cache.Valid() && Makes(play, board.analyse) && depth < 32
    requires Searchable(gen, play, board.Abs(), depth)
    requires hashed ==> KeysStats(gen, play, value, count, board.Abs(), depth)
    requires hashed ==> cache.keyOf == StatsEntryKey && CacheSound(cache.entries[..], StatsEntryKey, EntryStats, count)
    modifies board, cache.entries
    ensures board.Valid() && board.Abs() == old(board.Abs())
    ensures stats == StatsPerft(gen, play, old(board.Abs()), depth)
    ensures hashed ==> CacheSound(cache.entries[..], StatsEntryKey, EntryStats, count)
    ensures !hashed ==> cache.entries[..] == old(cache.entries[..])
    decreases depth, 3
  {
    if depth == 0 {
      return PerftCounters.Zero.(nodes := 1);
    }
    var p := Positions.Position(board.pieces, board.gamestate, board.history);
    var key := CacheKey(value, p, depth);
    if hashed {
      var hit := cache.Probe(key);
      if hit.Some? {
        ProbeSound(cache.entries[..], StatsEntryKey, EntryStats, count, key);
        assert count(key) == StatsPerft(gen, play, p, depth);
        return hit.value.stats;
      }
    }
    stats := CollectStats(board, cache, hashed, gen, play, value, count, depth, p);
    if hashed {
      assert count(key) == StatsPerft(gen, play, p, depth);
      StoreSound(cache.entries[..], StatsEntryKey, EntryStats, count, cache.canReplace, key, PerftStatsEntry(key, depth, stats));
      cache.Store(key, PerftStatsEntry(key, depth, stats));
    }
  }

  /** The counters of `perft_stats` once the cache has missed: at depth 1
      those of the moves the generator holds, above it the loop over
      them. */
  method CollectStats(board: Boards.Board, cache: GenericTable<PerftStatsEntry>, hashed: bool, gen: Generate, ghost play: Play,
                      value: ZobristHash -> bv64, ghost count: bv64 -> PerftStats, depth: nat, p: Position)
    returns (stats: PerftStats)
    requires board.Valid() && cache.Valid() && Makes(play, board.analyse) && 1 <= depth < 32 && board.Abs() == p
    requires Searchable(gen, play, p, depth)
    requires hashed ==> KeysStats(gen, play, value, count, p, depth)
    requires hashed ==> cache.keyOf == StatsEntryKey && CacheSound(cache.entries[..], StatsEntryKey, EntryStats, count)
    modifies board, cache.entries
    ensures board.Valid() && board.Abs() == p
    ensures stats == StatsPerft(gen, play, p, depth)
    ensures hashed ==> CacheSound(cache.entries[..], StatsEntryKey, EntryStats, count)
    ensures !hashed ==> cache.entries[..] == old(cache.entries[..])
    decreases depth, 2
  {
    var moves := GeneratedMoves(gen, p);
    if depth == 1 {
      stats := CountLeaves(moves);
    } else {
      stats := StatsLoop(board, cache, hashed, gen, play, value, count, depth - 1, p, moves);
    }
  }

  /** The loop of `perft_stats` above depth 1: the counters below every
      move, added up with `+=`. */
  method StatsLoop(board: Boards.Board, cache: GenericTable<PerftStatsEntry>, hashed: bool, gen: Generate, ghost play: Play,
                   value: ZobristHash -> bv64, ghost count: bv64 -> PerftStats, depth: nat, ghost p: Position, moves: seq<Move>)
    returns (stats: PerftStats)
    requires board.Valid() && cache.Valid() && Makes(play, board.analyse) && 1 <= depth < 31 && board.Abs() == p
    requires moves == gen(p) && ChildrenSearchable(gen, play, p, depth)
    requires hashed ==> KeysStats(gen, play, value, count, p, depth + 1)
    requires hashed ==> cache.keyOf == StatsEntryKey && CacheSound(cache.entries[..], StatsEntryKey, EntryStats, count)
    modifies board, cache.entries
    ensures board.Valid() && board.Abs() == p
    ensures stats == StatsSum(gen, play, p, |moves|, depth)
    ensures hashed ==> CacheSound(cache.entries[..], StatsEntryKey, EntryStats, count)
    ensures !hashed ==> cache.entries[..] == old(cache.entries[..])
    decreases depth + 1, 1
  {
    stats := PerftCounters.Zero;
    for k := 0 to |moves|
      invariant board.Valid() && board.Abs() == p
      invariant stats == StatsSum(gen, play, p, k, depth)
      invariant hashed ==> CacheSound(cache.entries[..], StatsEntryKey, EntryStats, count)
      invariant !hashed ==> cache.entries[..] == old(cache.entries[..])
    {
      StatsChildReady(gen, play, hashed, value, count, p, depth, k);
      var below := StatsBelow(board, cache, hashed, gen, play, value, count, depth, p, moves[k]);
      StatsSumStep(gen, play, p, k, depth, stats, below);
      stats := Add(stats, below);
    }
  }

  /** One turn of the statistics loop: `make` the move, collect the
      counters below it to `depth`, `unmake` the move. */
  method StatsBelow(board: Boards.Board, cache: GenericTable<PerftStatsEntry>, hashed: bool, gen: Generate, ghost play: Play,
                    value: ZobristHash -> bv64, ghost count: bv64 -> PerftStats, depth: nat, ghost p: Position, m: Move)
    returns (stats: PerftStats)
    requires board.Valid() && cache.Valid() && Makes(play, board.analyse) && depth < 32 && board.Abs() == p
    requires Playable(p, m) && Searchable(gen, play, Child(p, m, play), depth)
    requires hashed ==> KeysStats(gen, play, value, count, Child(p, m, play), depth)
    requires hashed ==> cache.keyOf == StatsEntryKey && CacheSound(cache.entries[..], StatsEntryKey, EntryStats, count)
    modifies board, cache.entries
    ensures board.Valid() && board.Abs() == p
    ensures stats == StatsPerft(gen, play, Child(p, m, play), depth)
    ensures hashed ==> CacheSound(cache.entries[..], StatsEntryKey, EntryStats, count)
    ensures !hashed ==> cache.entries[..] == old(cache.entries[..])
    decreases depth + 1, 0
  {
    board.Make(m);
    stats := PerftWithStats(board, cache, hashed, gen, play, value, count, depth);
    Boards.MakeUnmakeFits(p, From(m), To(m), Flag(m), board.analyse);
    UnmakeMake(p, From(m), To(m), Flag(m), board.analyse);
    board.Unmake(m);
  }
}
