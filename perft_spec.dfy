/** The node counts perft computes, as functions of the position and the
    depth, over a move generator given as a function of the position
    (crates/engine/src/perft/perft.rs), and the soundness of a cache of
    counts keyed by the position's hash and the depth. */
module PerftSpec {
  import opened Wrappers
  import opened Moves
  import opened Zobrist
  import opened Positions
  import opened Generator
  import opened PerftCounters
  import opened PerftEntries
  import opened GenericTables
  import Pieces
  import Squares
  import MoveFlags

  /** `MoveGenerator::new` as a function of the position. */
  type Generate = Position -> seq<Move>

  /** A double push lands on the fourth rank from the mover's side. */
  predicate DoublePushRank(c: Pieces.Color, to: Squares.Square)
  {
    Squares.Rank(to) == if c == Pieces.White then 3 else 4
  }

  /** `make` accepts the move on the position, and a double push is one
      the pawn generator gives: from the start rank two ranks forward. */
  predicate Playable(p: Position, m: Move)
  {
    && Moves.Valid(m) && MakeLegal(p, From(m), To(m), Flag(m))
    && (Flag(m) == MoveFlags.DoublePawn ==> DoublePushRank(p.state.active, To(m)))
  }

  /** The position a move leads to, as a function of the position and the
      move; perft runs on the board's `make` (`Makes`). */
  type Play = (Position, Move) -> Position

  /** `play` is `make` on every move `make` accepts, with `analyse` the
      analysis `make` runs on the new position. */
  ghost predicate Makes(play: Play, analyse: Analyser)
  {
    forall q: Position, m: Move {:trigger MakePosition(q, From(m), To(m), Flag(m), analyse)} ::
      Playable(q, m) ==> play(q, m) == MakePosition(q, From(m), To(m), Flag(m), analyse)
  }

  /** The position after `make`. A move `make` refuses leaves the
      position as it is; a generator perft runs on never gives one
      (`Searchable`). */
  function Child(p: Position, m: Move, play: Play): Position
  {
    if Playable(p, m) then play(p, m) else p
  }

  /** Every move generated for `p` can be made. */
  ghost predicate Expands(gen: Generate, p: Position)
  {
    forall i :: 0 <= i < |gen(p)| ==> Playable(p, gen(p)[i])
  }

  /** What perft to `depth` asks of the generator at `p`: above the
      leaves, the buffer holds the moves and each is a well-formed move
      word; above the last level the moves can be made, and the positions
      they lead to fit one level less deep. */
  ghost predicate Searchable(gen: Generate, play: Play, p: Position, depth: nat)
    decreases depth, 0
  {
    depth >= 1 ==>
      && |gen(p)| <= MaxMoves
      && (forall i :: 0 <= i < |gen(p)| ==> Moves.Valid(gen(p)[i]))
      && (depth >= 2 ==> ChildrenSearchable(gen, play, p, depth - 1))
  }

  /** The moves at `p` can be made and every position they lead to fits
      perft to `depth`. */
  ghost predicate ChildrenSearchable(gen: Generate, play: Play, p: Position, depth: nat)
    decreases depth, 1
  {
    && Expands(gen, p)
    && forall i :: 0 <= i < |gen(p)| ==> Searchable(gen, play, Child(p, gen(p)[i], play), depth)
  }

  /** The node count: 1 at depth 0, the number of moves at depth 1, and
      otherwise the counts below every move added up. */
  ghost function Perft(gen: Generate, play: Play, p: Position, depth: nat): nat
    decreases depth, 0, 0
  {
    if depth == 0 then 1
    else if depth == 1 then |gen(p)|
    else PerftSum(gen, play, p, |gen(p)|, depth - 1)
  }

  /** The counts to `depth` below the first `k` moves at `p`, added up. */
  ghost function PerftSum(gen: Generate, play: Play, p: Position, k: nat, depth: nat): nat
    requires k <= |gen(p)|
    decreases depth, 1, k
  {
    if k == 0 then 0
    else PerftSum(gen, play, p, k - 1, depth) + Perft(gen, play, Child(p, gen(p)[k - 1], play), depth)
  }

  /** Below the first `k` moves at depth 0 there is one node each: the
      shortcut at depth 1 counts what the general step would. */
  lemma {:induction false} PerftSumLeaves(gen: Generate, play: Play, p: Position, k: nat)
    requires k <= |gen(p)|
    ensures PerftSum(gen, play, p, k, 0) == k
  {
    if k > 0 {
      PerftSumLeaves(gen, play, p, k - 1);
    }
  }

  /** At depth 1 the count is the sum over the moves of the counts at
      depth 0 when the moves can be made: `perft(d) = Σ perft(d - 1)`
      holds at every depth from 1 on. */
  lemma PerftStep(gen: Generate, play: Play, p: Position, depth: nat)
    requires depth >= 1
    ensures Perft(gen, play, p, depth) == PerftSum(gen, play, p, |gen(p)|, depth - 1)
  {
    if depth == 1 {
      PerftSumLeaves(gen, play, p, |gen(p)|);
    }
  }

  /** One more move's count added to the sum below the moves before it. */
  lemma PerftSumStep(gen: Generate, play: Play, p: Position, k: nat, depth: nat, sum: nat, below: nat)
    requires k < |gen(p)| && sum == PerftSum(gen, play, p, k, depth)
    requires below == Perft(gen, play, Child(p, gen(p)[k], play), depth)
    ensures sum + below == PerftSum(gen, play, p, k + 1, depth)
  {
  }

  /** The `k`-th move at `p` can be made and the position it leads to
      fits perft to `depth`. */
  lemma ChildSearchable(gen: Generate, play: Play, p: Position, depth: nat, k: nat)
    requires k < |gen(p)| && ChildrenSearchable(gen, play, p, depth)
    ensures Playable(p, gen(p)[k]) && Searchable(gen, play, Child(p, gen(p)[k], play), depth)
  {
  }

  // ---------------------------------------------------------------------
  // Statistics

  /** What one move adds to the counters at the last level of
      `perft_stats`: it is counted as a castle, else as an en passant, else
      as a promotion, and as a capture besides; never as a node, and under
      at most one of the first three kinds. An en passant is always also a
      capture, a castle never. A word with an undefined flag field adds
      nothing. */
  function Tally(m: Move): (t: PerftStats)
    ensures !Moves.Valid(m) ==> t == PerftCounters.Zero
    ensures Moves.Valid(m) ==>
      && t.nodes == 0
      && (t.castles == 1 <==> IsCastling(m)) && t.castles <= 1
      && (t.enPassants == 1 <==> IsEnPassant(m)) && t.enPassants <= 1
      && (t.promotions == 1 <==> IsPromotion(m) && !IsCastling(m) && !IsEnPassant(m)) && t.promotions <= 1
      && (t.captures == 1 <==> IsCapture(m)) && t.captures <= 1
      && t.castles + t.enPassants + t.promotions <= 1
      && (IsEnPassant(m) ==> t.captures == 1)
      && (IsCastling(m) ==> t.captures == 0)
  {
    if !Moves.Valid(m) then PerftCounters.Zero
    else
      var kind :=
        if IsCastling(m) then PerftCounters.Zero.(castles := 1)
        else if IsEnPassant(m) then PerftCounters.Zero.(enPassants := 1)
        else if IsPromotion(m) then PerftCounters.Zero.(promotions := 1)
        else PerftCounters.Zero;
      if IsCapture(m) then kind.(captures := 1) else kind
  }

  /** The tallies of a list of moves, added up in order. */
  function Tallies(ms: seq<Move>): PerftStats
  {
    if ms == [] then PerftCounters.Zero else Add(Tallies(ms[..|ms| - 1]), Tally(ms[|ms| - 1]))
  }

  /** No counter of a list's tallies exceeds its length, and neither do
      the castles, en passants and promotions together: no move is counted
      under two of those kinds. */
  lemma {:induction false} TalliesBounded(ms: seq<Move>)
    ensures var t := Tallies(ms);
      && t.nodes == 0
      && t.castles + t.enPassants + t.promotions <= |ms|
      && t.captures <= |ms|
  {
    if ms != [] {
      TalliesBounded(ms[..|ms| - 1]);
    }
  }

  /** Adding one more move's tally to counters that hold the tallies so
      far, with any node count, gives the tallies of one more move with
      that node count. */
  lemma TalliesStep(ms: seq<Move>, i: nat, counters: PerftStats)
    requires i < |ms| && counters == Tallies(ms[..i]).(nodes := counters.nodes)
    ensures Add(counters, Tally(ms[i])) == Tallies(ms[..i + 1]).(nodes := counters.nodes)
  {
    var before, m := ms[..i], ms[i];
    assert ms[..i + 1] == before + [m];
    TalliesSnoc(before, m);
    var t := Tally(m);
    assert t.nodes == 0;
    assert Add(counters, t) == Add(Tallies(before), t).(nodes := counters.nodes);
  }

  /** The tallies of a list with one more move at its end. */
  lemma TalliesSnoc(ms: seq<Move>, m: Move)
    ensures Tallies(ms + [m]) == Add(Tallies(ms), Tally(m))
  {
    assert (ms + [m])[..|ms|] == ms;
  }

  /** The counters at the last level: one node per move, and the moves'
      tallies. */
  function LeafStats(ms: seq<Move>): PerftStats
  {
    Tallies(ms).(nodes := |ms|)
  }

  /** The counters of `perft_stats`: one node at depth 0, the leaf
      counters of the moves at depth 1, and otherwise the counters below
      every move added up. */
  ghost function StatsPerft(gen: Generate, play: Play, p: Position, depth: nat): PerftStats
    decreases depth, 0, 0
  {
    if depth == 0 then PerftCounters.Zero.(nodes := 1)
    else if depth == 1 then LeafStats(gen(p))
    else StatsSum(gen, play, p, |gen(p)|, depth - 1)
  }

  /** The counters to `depth` below the first `k` moves at `p`, added up. */
  ghost function StatsSum(gen: Generate, play: Play, p: Position, k: nat, depth: nat): PerftStats
    requires k <= |gen(p)|
    decreases depth, 1, k
  {
    if k == 0 then PerftCounters.Zero
    else Add(StatsSum(gen, play, p, k - 1, depth), StatsPerft(gen, play, Child(p, gen(p)[k - 1], play), depth))
  }

  /** One more move's counters added to the sum below the moves before
      it. */
  lemma StatsSumStep(gen: Generate, play: Play, p: Position, k: nat, depth: nat, sum: PerftStats, below: PerftStats)
    requires k < |gen(p)| && sum == StatsSum(gen, play, p, k, depth)
    requires below == StatsPerft(gen, play, Child(p, gen(p)[k], play), depth)
    ensures Add(sum, below) == StatsSum(gen, play, p, k + 1, depth)
  {
  }

  /** The statistics count the same nodes as plain perft. */
  lemma {:induction false} StatsNodes(gen: Generate, play: Play, p: Position, depth: nat)
    ensures StatsPerft(gen, play, p, depth).nodes == Perft(gen, play, p, depth)
    decreases depth, 0, 0
  {
    if depth >= 2 {
      StatsSumNodes(gen, play, p, |gen(p)|, depth - 1);
    }
  }

  /** The sums below the first `k` moves count the same nodes too. */
  lemma {:induction false} StatsSumNodes(gen: Generate, play: Play, p: Position, k: nat, depth: nat)
    requires k <= |gen(p)|
    ensures StatsSum(gen, play, p, k, depth).nodes == PerftSum(gen, play, p, k, depth)
    decreases depth, 1, k
  {
    if k > 0 {
      StatsSumNodes(gen, play, p, k - 1, depth);
      StatsNodes(gen, play, Child(p, gen(p)[k - 1], play), depth);
    }
  }

  // ---------------------------------------------------------------------
  // Divide

  /** The lines `divide` prints for the first `k` moves at `p`: each move
      with its count to `depth`. */
  ghost function DivideLines(gen: Generate, play: Play, p: Position, k: nat, depth: nat): seq<(Move, nat)>
    requires k <= |gen(p)|
  {
    if k == 0 then []
    else DivideLines(gen, play, p, k - 1, depth) + [(gen(p)[k - 1], Perft(gen, play, Child(p, gen(p)[k - 1], play), depth))]
  }

  /** One more move's line after the lines of the moves before it. */
  lemma DivideLinesStep(gen: Generate, play: Play, p: Position, k: nat, depth: nat,
                        lines: seq<(Move, nat)>, below: nat)
    requires k < |gen(p)| && lines == DivideLines(gen, play, p, k, depth)
    requires below == Perft(gen, play, Child(p, gen(p)[k], play), depth)
    ensures lines + [(gen(p)[k], below)] == DivideLines(gen, play, p, k + 1, depth)
  {
  }

  /** The counts of a list of lines, added up. */
  function LinesTotal(lines: seq<(Move, nat)>): nat
  {
    if lines == [] then 0 else LinesTotal(lines[..|lines| - 1]) + lines[|lines| - 1].1
  }

  /** `divide` prints one line per move, in the generator's order, with
      the count below that move, and the counts add up to the perft sum
      below those moves. */
  lemma {:induction false} DivideLinesTotal(gen: Generate, play: Play, p: Position, k: nat, depth: nat)
    requires k <= |gen(p)|
    ensures var lines := DivideLines(gen, play, p, k, depth);
      && |lines| == k
      && (forall i :: 0 <= i < k ==> lines[i] == (gen(p)[i], Perft(gen, play, Child(p, gen(p)[i], play), depth)))
      && LinesTotal(lines) == PerftSum(gen, play, p, k, depth)
  {
    if k > 0 {
      DivideLinesTotal(gen, play, p, k - 1, depth);
      var lines := DivideLines(gen, play, p, k, depth);
      assert lines[..k - 1] == DivideLines(gen, play, p, k - 1, depth);
    }
  }

  // ---------------------------------------------------------------------
  // The cache

  /** The count stored in a perft entry. */
  function EntryNodes(e: PerftEntry): nat { e.nodes }

  /** The counters stored in a perft statistics entry. */
  function EntryStats(e: PerftStatsEntry): PerftStats { e.stats }

  /** Every filled slot holds, for its key, the value `count` gives that
      key. */
  ghost predicate CacheSound<T, U>(s: seq<Option<T>>, keyOf: T -> bv64, valueOf: T -> U, count: bv64 -> U)
  {
    forall i :: 0 <= i < |s| && s[i].Some? ==> valueOf(s[i].value) == count(keyOf(s[i].value))
  }

  /** A probe of a sound cache answers with the value `count` gives the
      probed key. */
  lemma ProbeSound<T, U>(s: seq<Option<T>>, keyOf: T -> bv64, valueOf: T -> U, count: bv64 -> U, key: bv64)
    requires |s| > 0 && CacheSound(s, keyOf, valueOf, count)
    ensures var r := ProbeIn(s, keyOf, key); r.Some? ==> keyOf(r.value) == key && valueOf(r.value) == count(key)
  {
  }

  /** Storing an entry whose value is the one `count` gives its key keeps
      the cache sound. */
  lemma StoreSound<T, U>(s: seq<Option<T>>, keyOf: T -> bv64, valueOf: T -> U, count: bv64 -> U,
                         canReplace: (T, T) -> bool, key: bv64, entry: T)
    requires |s| > 0 && CacheSound(s, keyOf, valueOf, count)
    requires valueOf(entry) == count(keyOf(entry))
    ensures CacheSound(StoreInto(s, canReplace, key, entry), keyOf, valueOf, count)
  {
    StoreTouchesOneSlot(s, canReplace, key, entry);
  }

  /** The cache key of a position at a depth: `hash ^ depth_hash(depth)`,
      read as the 64-bit word `value` gives a hash. */
  function CacheKey(value: ZobristHash -> bv64, p: Position, depth: nat): bv64
    requires depth < 32
  {
    value(Xor(p.state.hash, DepthHash(depth)))
  }

  // ---------------------------------------------------------------------
  // The positions a run visits

  /** The positions perft to `depth` from `p` looks up in the cache, each
      with the depth it is looked up at: `p` itself above the leaves, and
      the positions below its moves one level less deep. */
  ghost function Visited(gen: Generate, play: Play, p: Position, depth: nat): set<(Position, nat)>
    decreases depth, 0, 0
  {
    if depth == 0 then {}
    else {(p, depth)} + (if depth >= 2 then VisitedBelow(gen, play, p, |gen(p)|, depth - 1) else {})
  }

  /** The positions visited to `depth` below the first `k` moves at `p`. */
  ghost function VisitedBelow(gen: Generate, play: Play, p: Position, k: nat, depth: nat): set<(Position, nat)>
    requires k <= |gen(p)|
    decreases depth, 1, k
  {
    if k == 0 then {}
    else VisitedBelow(gen, play, p, k - 1, depth) + Visited(gen, play, Child(p, gen(p)[k - 1], play), depth)
  }

  /** What is visited below one of the first `k` moves is visited below
      the first `k`. */
  lemma {:induction false} VisitedBelowHas(gen: Generate, play: Play, p: Position, k: nat, j: nat, depth: nat)
    requires j < k <= |gen(p)|
    ensures Visited(gen, play, Child(p, gen(p)[j], play), depth) <= VisitedBelow(gen, play, p, k, depth)
  {
    if j < k - 1 {
      VisitedBelowHas(gen, play, p, k - 1, j, depth);
    }
  }

  /** The cache key of every position a run visits, at the depth it is
      visited at, is given that position's count by `count`: no two
      visited positions with different counts share a key. A cached count
      is then the right one. */
  ghost predicate KeysCount(gen: Generate, play: Play, value: ZobristHash -> bv64, count: bv64 -> nat, p: Position, depth: nat)
  {
    forall q: Position, d: nat :: (q, d) in Visited(gen, play, p, depth) && d < 32 ==>
      count(CacheKey(value, q, d)) == Perft(gen, play, q, d)
  }

  /** The statistics version: `count` gives the key of every visited
      position the counters of that position. */
  ghost predicate KeysStats(gen: Generate, play: Play, value: ZobristHash -> bv64, count: bv64 -> PerftStats, p: Position, depth: nat)
  {
    forall q: Position, d: nat :: (q, d) in Visited(gen, play, p, depth) && d < 32 ==>
      count(CacheKey(value, q, d)) == StatsPerft(gen, play, q, d)
  }

  /** The keys of the run from `p` are right for the run below its `k`-th
      move, one level less deep. */
  lemma KeysCountChild(gen: Generate, play: Play, value: ZobristHash -> bv64, count: bv64 -> nat, p: Position, depth: nat, k: nat)
    requires k < |gen(p)| && KeysCount(gen, play, value, count, p, depth + 1)
    ensures KeysCount(gen, play, value, count, Child(p, gen(p)[k], play), depth)
  {
    if depth >= 1 {
      VisitedBelowHas(gen, play, p, |gen(p)|, k, depth);
    }
  }

  /** The same for the counters. */
  lemma KeysStatsChild(gen: Generate, play: Play, value: ZobristHash -> bv64, count: bv64 -> PerftStats, p: Position, depth: nat, k: nat)
    requires k < |gen(p)| && KeysStats(gen, play, value, count, p, depth + 1)
    ensures KeysStats(gen, play, value, count, Child(p, gen(p)[k], play), depth)
  {
    if depth >= 1 {
      VisitedBelowHas(gen, play, p, |gen(p)|, k, depth);
    }
  }

  // ---------------------------------------------------------------------
  // Keys that do not collide give such counts

  /** The en-passant target as a double push leaves it: the pushed pawn on
      its side's fourth rank, the square it passed over just behind it. */
  predicate EnPassantPlaced(st: GameState)
  {
    st.enPassant.Some? ==>
      var c := Pieces.Other(st.active);
      var t := st.enPassant.value;
      DoublePushRank(c, t.toCapture) && t.toMove == t.toCapture + Pieces.EnPassantOffset(c)
  }

  /** A position as the board keeps it: the incremental hash is the one
      computed from scratch, the pins, checkers and attacked squares are
      the analysis of the tiles, and the en-passant target is where a
      double push leaves it. */
  ghost predicate Coherent(q: Position, analyse: Analyser)
  {
    Synced(q) && Analyse(q, analyse) == q && EnPassantPlaced(q.state)
  }

  /** A move `make` accepts on a position whose hash is right leads to a
      coherent position. */
  lemma ChildCoherent(p: Position, m: Move, play: Play, analyse: Analyser)
    requires Makes(play, analyse) && Playable(p, m) && Synced(p)
    ensures Coherent(Child(p, m, play), analyse)
  {
    var q := MakePosition(p, From(m), To(m), Flag(m), analyse);
    MakeSynced(p, From(m), To(m), Flag(m), analyse);
    MakeRules(p, From(m), To(m), Flag(m), analyse);
  }

  /** What the hash of a position stands for. */
  datatype Content = Content(tiles: Tiles, active: Pieces.Color, enPassant: Option<EnPassantTarget>, rights: set<nat>)

  function ContentOf(q: Position): (c: Content)
    ensures c.tiles == q.tiles && c.active == q.state.active && c.enPassant == q.state.enPassant
    ensures forall i: nat :: i in c.rights <==> HasRight(q.state, i)
  {
    Content(q.tiles, q.state.active, q.state.enPassant, RightsOf(q.state))
  }

  /** Coherent positions with the same hash have the same content. */
  lemma HashGivesContent(q1: Position, q2: Position, analyse: Analyser)
    requires Coherent(q1, analyse) && Coherent(q2, analyse) && q1.state.hash == q2.state.hash
    ensures ContentOf(q1) == ContentOf(q2)
  {
    var s1, s2 := q1.state, q2.state;
    HashDetermines(q1.tiles, s1.active, RightsOf(s1), EnPassantCapture(s1), q2.tiles, s2.active, RightsOf(s2), EnPassantCapture(s2));
    if s1.enPassant.Some? {
      Squares.RankFileDetermineSquare(s1.enPassant.value.toCapture, s2.enPassant.value.toCapture);
    }
  }

  /** Positions with the same content accept the same moves. */
  lemma PlayableContent(q1: Position, q2: Position, m: Move)
    requires ContentOf(q1) == ContentOf(q2)
    ensures Playable(q1, m) <==> Playable(q2, m)
  {
    if Moves.Valid(m) {
      var from, to, flag := From(m), To(m), Flag(m);
      assert q1.tiles == q2.tiles && q1.state.active == q2.state.active && q1.state.enPassant == q2.state.enPassant;
      assert MakeDefined(q1, from, to, flag) <==> MakeDefined(q2, from, to, flag);
      assert MakeLegal(q1, from, to, flag) <==> MakeLegal(q2, from, to, flag);
    }
  }

  /** What `make` does to the content: the tiles move as `MakeTiles`
      says, the other side is to move, a double push leaves the square it
      passed over as the target, and the rights the move touches are
      lost. */
  function MadeContent(c: Content, m: Move): Content
    requires Moves.Valid(m) && c.tiles[From(m)].Some?
    requires Flag(m) == MoveFlags.EnPassant ==> c.enPassant.Some?
    requires MoveFlags.IsCaptureFlag(Flag(m)) && Flag(m) != MoveFlags.EnPassant ==> c.tiles[To(m)].Some?
    requires IsCastleFlag(Flag(m)) ==> IsCastleTarget(To(m))
  {
    var from, to, flag := From(m), To(m), Flag(m);
    var piece := c.tiles[from].value.piece;
    var capture := MoveFlags.IsCaptureFlag(flag) && flag != MoveFlags.EnPassant;
    var taken := if capture then c.tiles[to].value.piece else Pieces.NoPiece;
    var passed := to + Pieces.EnPassantOffset(c.active);
    Content(
      MakeTiles(c.tiles, c.active, c.enPassant, from, to, flag),
      Pieces.Other(c.active),
      if flag == MoveFlags.DoublePawn && 0 <= passed < 64 then Some(EnPassantTarget(passed, to)) else None,
      set i | i in c.rights && !LosesRight(i, c.active, piece, from, taken, to))
  }

  /** The content after a move `make` accepts is the content `MadeContent`
      computes from the content before it. */
  lemma ChildContentIs(q: Position, m: Move, play: Play, analyse: Analyser)
    requires Makes(play, analyse) && Playable(q, m)
    ensures ContentOf(Child(q, m, play)) == MadeContent(ContentOf(q), m)
  {
    var from, to, flag := From(m), To(m), Flag(m);
    MakeParts(q, from, to, flag, analyse);
    MakeRules(q, from, to, flag, analyse);
    var c := ContentOf(MakePosition(q, from, to, flag, analyse));
    var d := MadeContent(ContentOf(q), m);
    assert c.rights == d.rights by {
      forall i: nat ensures i in c.rights <==> i in d.rights {
        HasRightIsRightsOf(q.state, i);
      }
    }
  }

  /** Positions with the same content accept the same moves, and lead to
      positions with the same content. */
  lemma ChildContent(q1: Position, q2: Position, m: Move, play: Play, analyse: Analyser)
    requires Makes(play, analyse) && ContentOf(q1) == ContentOf(q2)
    ensures Playable(q1, m) <==> Playable(q2, m)
    ensures Playable(q1, m) ==> ContentOf(Child(q1, m, play)) == ContentOf(Child(q2, m, play))
  {
    PlayableContent(q1, q2, m);
    if Playable(q1, m) {
      ChildContentIs(q1, m, play, analyse);
      ChildContentIs(q2, m, play, analyse);
    }
  }

  /** The generator reads what the hash stands for and nothing else: the
      tiles, the side to move, the castling rights and the en-passant
      target, and the pins, checkers and attacked squares, which are the
      analysis of the tiles. The halfmove clock, the move number and the
      history play no part. */
  ghost predicate ReadsContent(gen: Generate, analyse: Analyser)
  {
    forall q1: Position, q2: Position {:trigger gen(q1), gen(q2)} ::
      Coherent(q1, analyse) && Coherent(q2, analyse) && ContentOf(q1) == ContentOf(q2) ==> gen(q1) == gen(q2)
  }

  /** Perft from coherent positions with the same content counts the same
      nodes and the same kinds of moves. */
  lemma {:induction false} PerftContent(gen: Generate, play: Play, analyse: Analyser, q1: Position, q2: Position, depth: nat)
    requires Makes(play, analyse) && ReadsContent(gen, analyse)
    requires Coherent(q1, analyse) && Coherent(q2, analyse) && ContentOf(q1) == ContentOf(q2)
    ensures Perft(gen, play, q1, depth) == Perft(gen, play, q2, depth)
    ensures StatsPerft(gen, play, q1, depth) == StatsPerft(gen, play, q2, depth)
    decreases depth, 0
  {
    assert gen(q1) == gen(q2);
    if depth >= 2 {
      SumContent(gen, play, analyse, q1, q2, |gen(q1)|, depth - 1);
    }
  }

  /** The sums below the first `k` moves agree too. */
  lemma {:induction false} SumContent(gen: Generate, play: Play, analyse: Analyser, q1: Position, q2: Position, k: nat, depth: nat)
    requires Makes(play, analyse) && ReadsContent(gen, analyse)
    requires Coherent(q1, analyse) && Coherent(q2, analyse) && ContentOf(q1) == ContentOf(q2)
    requires gen(q1) == gen(q2) && k <= |gen(q1)|
    ensures PerftSum(gen, play, q1, k, depth) == PerftSum(gen, play, q2, k, depth)
    ensures StatsSum(gen, play, q1, k, depth) == StatsSum(gen, play, q2, k, depth)
    decreases depth, 1, k
  {
    if k > 0 {
      SumContent(gen, play, analyse, q1, q2, k - 1, depth);
      var m := gen(q1)[k - 1];
      ChildrenAgree(q1, q2, m, play, analyse);
      PerftContent(gen, play, analyse, Child(q1, m, play), Child(q2, m, play), depth);
    }
  }

  /** A move leads coherent positions with the same content to coherent
      positions with the same content. */
  lemma ChildrenAgree(q1: Position, q2: Position, m: Move, play: Play, analyse: Analyser)
    requires Makes(play, analyse)
    requires Coherent(q1, analyse) && Coherent(q2, analyse) && ContentOf(q1) == ContentOf(q2)
    ensures Coherent(Child(q1, m, play), analyse) && Coherent(Child(q2, m, play), analyse)
    ensures ContentOf(Child(q1, m, play)) == ContentOf(Child(q2, m, play))
  {
    ChildContent(q1, q2, m, play, analyse);
    if Playable(q1, m) {
      ChildCoherent(q1, m, play, analyse);
      ChildCoherent(q2, m, play, analyse);
    }
  }

  /** From a coherent position, every position a run visits is coherent. */
  lemma {:induction false} VisitedCoherent(gen: Generate, play: Play, analyse: Analyser, p: Position, depth: nat)
    requires Makes(play, analyse) && Coherent(p, analyse)
    ensures forall q: Position, d: nat :: (q, d) in Visited(gen, play, p, depth) ==> Coherent(q, analyse)
    decreases depth, 0
  {
    if depth >= 2 {
      VisitedBelowCoherent(gen, play, analyse, p, |gen(p)|, depth - 1);
    }
  }

  lemma {:induction false} VisitedBelowCoherent(gen: Generate, play: Play, analyse: Analyser, p: Position, k: nat, depth: nat)
    requires Makes(play, analyse) && Coherent(p, analyse) && k <= |gen(p)|
    ensures forall q: Position, d: nat :: (q, d) in VisitedBelow(gen, play, p, k, depth) ==> Coherent(q, analyse)
    decreases depth, 1, k
  {
    if k > 0 {
      VisitedBelowCoherent(gen, play, analyse, p, k - 1, depth);
      var m := gen(p)[k - 1];
      if Playable(p, m) {
        ChildCoherent(p, m, play, analyse);
      }
      VisitedCoherent(gen, play, analyse, Child(p, m, play), depth);
    }
  }

  /** The depth key XORed in is told apart from the position's keys:
      coherent positions whose keys at two depths agree are at the same
      depth and have the same counts there. */
  lemma SameKeySameCount(gen: Generate, play: Play, analyse: Analyser, q1: Position, d1: nat, q2: Position, d2: nat)
    requires Makes(play, analyse) && ReadsContent(gen, analyse)
    requires Coherent(q1, analyse) && Coherent(q2, analyse) && d1 < 32 && d2 < 32
    requires Xor(q1.state.hash, DepthHash(d1)) == Xor(q2.state.hash, DepthHash(d2))
    ensures d1 == d2
    ensures Perft(gen, play, q1, d1) == Perft(gen, play, q2, d2)
    ensures StatsPerft(gen, play, q1, d1) == StatsPerft(gen, play, q2, d2)
  {
    var h1, h2 := q1.state.hash, q2.state.hash;
    var s1, s2 := q1.state, q2.state;
    HashMembers(q1.tiles, s1.active, RightsOf(s1), EnPassantCapture(s1));
    HashMembers(q2.tiles, s2.active, RightsOf(s2), EnPassantCapture(s2));
    assert DepthKey(d1) !in h2;
    assert DepthKey(d1) in Xor(h2, DepthHash(d2));
    forall k | k in h1 ensures k in h2 {
      assert k in Xor(h2, DepthHash(d2));
    }
    forall k | k in h2 ensures k in h1 {
      assert k in Xor(h1, DepthHash(d1));
    }
    HashGivesContent(q1, q2, analyse);
    PerftContent(gen, play, analyse, q1, q2, d1);
  }

  /** `value` gives distinct words to the distinct keys of the visited
      positions: the 64-bit keys of the run do not collide. */
  ghost predicate NoCollisions(value: ZobristHash -> bv64, visited: set<(Position, nat)>)
  {
    forall q1: Position, d1: nat, q2: Position, d2: nat ::
      (q1, d1) in visited && (q2, d2) in visited && d1 < 32 && d2 < 32 && CacheKey(value, q1, d1) == CacheKey(value, q2, d2) ==>
      Xor(q1.state.hash, DepthHash(d1)) == Xor(q2.state.hash, DepthHash(d2))
  }

  /** The count of some visited position whose key is `k`, if any. */
  ghost function KeyCount(gen: Generate, play: Play, value: ZobristHash -> bv64, visited: set<(Position, nat)>, k: bv64): nat
  {
    if exists q: Position, d: nat :: (q, d) in visited && d < 32 && CacheKey(value, q, d) == k then
      var q: Position, d: nat :| (q, d) in visited && d < 32 && CacheKey(value, q, d) == k;
      Perft(gen, play, q, d)
    else 0
  }

  /** The counters of some visited position whose key is `k`, if any. */
  ghost function KeyStats(gen: Generate, play: Play, value: ZobristHash -> bv64, visited: set<(Position, nat)>, k: bv64): PerftStats
  {
    if exists q: Position, d: nat :: (q, d) in visited && d < 32 && CacheKey(value, q, d) == k then
      var q: Position, d: nat :| (q, d) in visited && d < 32 && CacheKey(value, q, d) == k;
      StatsPerft(gen, play, q, d)
    else PerftCounters.Zero
  }

  /** From a coherent position, with a generator that reads what the hash
      stands for and keys that do not collide among the visited positions,
      the counts and counters by key exist that the cached runs ask for:
      the only thing they assume of the cache is that its 64-bit keys do
      not collide. */
  lemma CountsExist(gen: Generate, play: Play, analyse: Analyser, value: ZobristHash -> bv64, p: Position, depth: nat)
    requires Makes(play, analyse) && ReadsContent(gen, analyse) && Coherent(p, analyse)
    requires NoCollisions(value, Visited(gen, play, p, depth))
    ensures var visited := Visited(gen, play, p, depth);
      && KeysCount(gen, play, value, k => KeyCount(gen, play, value, visited, k), p, depth)
      && KeysStats(gen, play, value, k => KeyStats(gen, play, value, visited, k), p, depth)
  {
    var visited := Visited(gen, play, p, depth);
    VisitedCoherent(gen, play, analyse, p, depth);
    forall q: Position, d: nat | (q, d) in visited && d < 32
      ensures KeyCount(gen, play, value, visited, CacheKey(value, q, d)) == Perft(gen, play, q, d)
      ensures KeyStats(gen, play, value, visited, CacheKey(value, q, d)) == StatsPerft(gen, play, q, d)
    {
      var k := CacheKey(value, q, d);
      forall q': Position, d': nat | (q', d') in visited && d' < 32 && CacheKey(value, q', d') == k
        ensures Perft(gen, play, q', d') == Perft(gen, play, q, d)
        ensures StatsPerft(gen, play, q', d') == StatsPerft(gen, play, q, d)
      {
        SameKeySameCount(gen, play, analyse, q', d', q, d);
      }
    }
  }
}
