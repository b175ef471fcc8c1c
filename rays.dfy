/** The ray, between, line and adjacent-file tables of the lookup-table
    generator (crates/lookup/src/generators/generic.rs). */
module RayTables {
  import opened Squares
  import opened Bitboards
  import opened Directions
  import LookupUtils

  /** A collide square no ray can reach. */
  const InvalidSquare := 64

  /** The squares from step `k` on, along direction `d` from `from`, up to
      the board edge or the collide square, whichever comes first. */
  function Walk(from: Square, d: Direction, k: nat, collide: int): Bitboard
    requires !d.NoDirection?
    decreases 8 - k
  {
    var rank := Step(Rank(from), k, Delta(d).0);
    var file := Step(File(from), k, Delta(d).1);
    if !(0 <= rank <= 7 && 0 <= file <= 7) || New(rank, file) == collide then {}
    else {New(rank, file)} + Walk(from, d, k + 1, collide)
  }

  /** One step of a walk east or west along a rank towards a square on
      the same rank: the walk stops on leaving the board or at the collide
      square, and otherwise holds the square `k` files away. */
  lemma WalkRankStep(from: Square, d: Direction, k: nat, collide: Square)
    requires Rank(from) == Rank(collide) && (d == West || d == East)
    ensures var g := if d == East then File(from) + k else File(from) - k;
      Walk(from, d, k, collide) ==
        if !(0 <= g <= 7) || g == File(collide) then {}
        else {if d == East then from + k else from - k} + Walk(from, d, k + 1, collide)
  {
    var file := Step(File(from), k, Delta(d).1);
    assert Step(Rank(from), k, Delta(d).0) == Rank(from);
    if 0 <= file <= 7 {
      WalkStep(from, d, k, collide);
      var q := New(Rank(from), file);
      NewRankFile(Rank(from), file);
      RankFileDetermineSquare(q, collide);
      assert q == if d == East then from + k else from - k;
    }
  }

  /** The board `ray(from, direction, collide)` returns. */
  function RaySquares(from: Square, d: Direction, collide: int): Bitboard
  {
    if from == collide || d.NoDirection? then {} else Walk(from, d, 1, collide)
  }

  /** `ray`: steps from `from` until the rank or file leaves the board or
      the collide square is reached; the collide square is not included.
      The source adds the step in `i8` and casts to `usize`, so a rank or
      file of -1 becomes a huge value and fails the `> 7` test; here the
      test is written out as `< 0`. */
  method Ray(from: Square, direction: Direction, collide: int) returns (ray: Bitboard)
    ensures ray == RaySquares(from, direction, collide)
  {
    if from == collide || direction.NoDirection? {
      return {};
    }
    var (deltaRank, deltaFile) := Delta(direction);
    assert deltaRank == Delta(direction).0 && deltaFile == Delta(direction).1;
    var currentRank, currentFile := Rank(from), File(from);
    ray := {};
    ghost var k: nat := 0;
    assert ray + Walk(from, direction, 1, collide) == Walk(from, direction, 1, collide);
    while true
      invariant k <= 7
      invariant currentRank == Step(Rank(from), k, deltaRank)
      invariant currentFile == Step(File(from), k, deltaFile)
      invariant ray + Walk(from, direction, k + 1, collide) == RaySquares(from, direction, collide)
      decreases 7 - k
    {
      StepSucc(Rank(from), k, deltaRank);
      StepSucc(File(from), k, deltaFile);
      currentRank := currentRank + deltaRank;
      currentFile := currentFile + deltaFile;
      k := k + 1;
      if currentRank < 0 || currentRank > 7 || currentFile < 0 || currentFile > 7 {
        WalkStops(from, direction, k, collide, ray);
        break;
      }
      if LookupUtils.Index(currentRank, currentFile) == collide {
        WalkStops(from, direction, k, collide, ray);
        break;
      }
      WalkGoesOn(from, direction, k, collide, ray);
      LookupUtils.BitsSingleton(currentRank, currentFile);
      ray := ray + LookupUtils.Bits(currentRank, currentFile);
    }
  }

  /** One more step moves by one more `dx`. */
  lemma StepSucc(x: int, k: int, dx: int)
    requires -1 <= dx <= 1
    ensures Step(x, k + 1, dx) == Step(x, k, dx) + dx
  {
  }

  /** The walk ends at step `k` when that step leaves the board or reaches
      the collide square: what was gathered is the whole ray. */
  lemma WalkStops(from: Square, d: Direction, k: nat, collide: int, ray: Bitboard)
    requires !d.NoDirection? && 1 <= k
    requires ray + Walk(from, d, k, collide) == RaySquares(from, d, collide)
    requires var rank := Step(Rank(from), k, Delta(d).0);
      var file := Step(File(from), k, Delta(d).1);
      !(0 <= rank <= 7 && 0 <= file <= 7) || New(rank, file) == collide
    ensures ray == RaySquares(from, d, collide)
  {
    assert Walk(from, d, k, collide) == {};
    assert ray + {} == ray;
  }

  /** Otherwise the square `k` steps out comes next, then the rest. */
  lemma WalkGoesOn(from: Square, d: Direction, k: nat, collide: int, ray: Bitboard)
    requires !d.NoDirection? && 1 <= k
    requires ray + Walk(from, d, k, collide) == RaySquares(from, d, collide)
    requires var rank := Step(Rank(from), k, Delta(d).0);
      var file := Step(File(from), k, Delta(d).1);
      0 <= rank <= 7 && 0 <= file <= 7 && New(rank, file) != collide
    ensures k <= 7
    ensures var q := New(Step(Rank(from), k, Delta(d).0), Step(File(from), k, Delta(d).1));
      ray + {q} + Walk(from, d, k + 1, collide) == RaySquares(from, d, collide)
  {
    StepSquare(from, d, k);
    var q := New(Step(Rank(from), k, Delta(d).0), Step(File(from), k, Delta(d).1));
    assert Walk(from, d, k, collide) == {q} + Walk(from, d, k + 1, collide);
    assert ray + {q} + Walk(from, d, k + 1, collide) == ray + ({q} + Walk(from, d, k + 1, collide));
  }

  /** The collide square sits on the ray no farther than `n` steps out. */
  predicate Blocks(from: Square, d: Direction, collide: int, n: nat)
    requires !d.NoDirection?
  {
    0 <= collide < 64 && OnRay(from, d, collide) && Distance(from, collide) <= n
  }

  /** The square `k` steps along the ray, when it is on the board, is on the
      ray at distance `k`. */
  lemma StepSquare(from: Square, d: Direction, k: nat)
    requires !d.NoDirection? && 1 <= k
    requires 0 <= Step(Rank(from), k, Delta(d).0) <= 7
    requires 0 <= Step(File(from), k, Delta(d).1) <= 7
    ensures var q := New(Step(Rank(from), k, Delta(d).0), Step(File(from), k, Delta(d).1));
      Distance(from, q) == k && OnRay(from, d, q)
  {
  }

  /** A square on the ray at distance `n` has every step before it on the
      board. */
  lemma StepOnBoard(from: Square, d: Direction, k: nat, s: Square)
    requires !d.NoDirection? && OnRay(from, d, s) && 1 <= k <= Distance(from, s)
    ensures 0 <= Step(Rank(from), k, Delta(d).0) <= 7
    ensures 0 <= Step(File(from), k, Delta(d).1) <= 7
  {
  }

  /** A ray meets each distance at most once. */
  lemma OnRayUnique(from: Square, d: Direction, s: Square, t: Square)
    requires !d.NoDirection? && OnRay(from, d, s) && OnRay(from, d, t)
    requires Distance(from, s) == Distance(from, t)
    ensures s == t
  {
    RankFileDetermineSquare(s, t);
  }

  lemma {:induction false} WalkMembers(from: Square, d: Direction, k: nat, collide: int, s: Square)
    requires !d.NoDirection? && 1 <= k
    requires !(0 <= collide < 64 && OnRay(from, d, collide) && Distance(from, collide) < k)
    ensures s in Walk(from, d, k, collide) <==>
      OnRay(from, d, s) && Distance(from, s) >= k && !Blocks(from, d, collide, Distance(from, s))
    decreases 8 - k
  {
    var rank := Step(Rank(from), k, Delta(d).0);
    var file := Step(File(from), k, Delta(d).1);
    if !(0 <= rank <= 7 && 0 <= file <= 7) {
      WalkOffBoard(from, d, k, collide, s);
    } else {
      WalkOnBoard(from, d, k, collide, s);
      if New(rank, file) != collide {
        WalkMembers(from, d, k + 1, collide, s);
      }
    }
  }

  /** Past the edge the walk is empty, and no square of the ray is that far
      out. */
  lemma WalkOffBoard(from: Square, d: Direction, k: nat, collide: int, s: Square)
    requires !d.NoDirection? && 1 <= k
    requires !(0 <= Step(Rank(from), k, Delta(d).0) <= 7 && 0 <= Step(File(from), k, Delta(d).1) <= 7)
    ensures Walk(from, d, k, collide) == {}
    ensures !(OnRay(from, d, s) && Distance(from, s) >= k)
  {
    if OnRay(from, d, s) && Distance(from, s) >= k {
      StepOnBoard(from, d, k, s);
    }
  }

  /** On the board, step `k` reaches the one square of the ray at distance
      `k`; the walk stops there when it is the collide square. */
  lemma WalkOnBoard(from: Square, d: Direction, k: nat, collide: int, s: Square)
    requires !d.NoDirection? && 1 <= k
    requires 0 <= Step(Rank(from), k, Delta(d).0) <= 7 && 0 <= Step(File(from), k, Delta(d).1) <= 7
    requires !(0 <= collide < 64 && OnRay(from, d, collide) && Distance(from, collide) < k)
    ensures var q := New(Step(Rank(from), k, Delta(d).0), Step(File(from), k, Delta(d).1));
      && k <= 7
      && (s in Walk(from, d, k, collide) <==> q != collide && (s == q || s in Walk(from, d, k + 1, collide)))
      && (OnRay(from, d, s) && Distance(from, s) == k <==> s == q)
      && (0 <= collide < 64 && OnRay(from, d, collide) && Distance(from, collide) <= k <==> q == collide)
  {
    WalkStep(from, d, k, collide);
    StepSquare(from, d, k);
    OnRayAt(from, d, k, s);
    if 0 <= collide < 64 {
      OnRayAt(from, d, k, collide);
    }
  }

  /** A walk on the board holds its square `k` steps out and the rest of
      the walk, unless that square is the collide square. */
  lemma WalkStep(from: Square, d: Direction, k: nat, collide: int)
    requires !d.NoDirection?
    requires 0 <= Step(Rank(from), k, Delta(d).0) <= 7 && 0 <= Step(File(from), k, Delta(d).1) <= 7
    ensures var q := New(Step(Rank(from), k, Delta(d).0), Step(File(from), k, Delta(d).1));
      Walk(from, d, k, collide) == if q == collide then {} else {q} + Walk(from, d, k + 1, collide)
  {
  }

  /** The one square of the ray at distance `k` is the square `k` steps out. */
  lemma OnRayAt(from: Square, d: Direction, k: nat, s: Square)
    requires !d.NoDirection? && 1 <= k
    requires 0 <= Step(Rank(from), k, Delta(d).0) <= 7 && 0 <= Step(File(from), k, Delta(d).1) <= 7
    ensures var q := New(Step(Rank(from), k, Delta(d).0), Step(File(from), k, Delta(d).1));
      OnRay(from, d, s) && Distance(from, s) == k <==> s == q
  {
    var q := New(Step(Rank(from), k, Delta(d).0), Step(File(from), k, Delta(d).1));
    StepSquare(from, d, k);
    if OnRay(from, d, s) && Distance(from, s) == k {
      OnRayUnique(from, d, s, q);
    }
  }

  /** `ray(from, d, collide)` holds exactly the squares in direction `d`
      from `from` that come before the collide square; so it never holds
      `from` or the collide square. */
  lemma RayMembers(from: Square, d: Direction, collide: int, s: Square)
    requires !d.NoDirection?
    ensures s in RaySquares(from, d, collide) <==>
      from != collide && Between(from, s) == d && !Blocks(from, d, collide, Distance(from, s))
    ensures from !in RaySquares(from, d, collide)
    ensures collide !in RaySquares(from, d, collide)
  {
    BetweenOnRay(from, d, s);
    BetweenOnRay(from, d, from);
    if from != collide {
      WalkMembers(from, d, 1, collide, s);
      WalkMembers(from, d, 1, collide, from);
      if 0 <= collide < 64 {
        WalkMembers(from, d, 1, collide, collide);
      }
    }
  }

  /** With the off-board collide square the ray runs to the edge. */
  lemma FullRayMembers(from: Square, d: Direction, s: Square)
    requires !d.NoDirection?
    ensures s in RaySquares(from, d, InvalidSquare) <==> Between(from, s) == d
  {
    RayMembers(from, d, InvalidSquare, s);
  }

  /** `generate_between[a][b]`: the ray from `a` towards `b` stopped at `b`. */
  function BetweenSquares(a: Square, b: Square): Bitboard
  {
    var d := Between(a, b);
    if d.NoDirection? then {} else RaySquares(a, d, b)
  }

  /** The between board holds exactly the squares strictly between two
      aligned squares: empty for squares not on one line, and never the
      end squares themselves. */
  lemma BetweenMembers(a: Square, b: Square, s: Square)
    ensures s in BetweenSquares(a, b) <==>
      !Between(a, b).NoDirection? && Between(a, s) == Between(a, b)
      && Distance(a, s) < Distance(a, b)
    ensures a !in BetweenSquares(a, b) && b !in BetweenSquares(a, b)
  {
    var d := Between(a, b);
    if !d.NoDirection? {
      BetweenOnRay(a, d, b);
      assert Blocks(a, d, b, Distance(a, s)) <==> Distance(a, b) <= Distance(a, s);
      RayMembers(a, d, b, s);
      BetweenOnRay(a, d, s);
    }
  }

  /** `generate_lines[a][b]`: both full rays through `a` along the line to
      `b`, and `a` itself. */
  function LineSquares(a: Square, b: Square): Bitboard
  {
    var d := Between(a, b);
    if d.NoDirection? then {}
    else RaySquares(a, d, InvalidSquare) + RaySquares(a, Opposite(d), InvalidSquare) + {a}
  }

  /** The line board holds `a` and every square reached from `a` in the
      direction of `b` or the opposite one; it is empty for squares not on
      one line, and holds both ends otherwise. */
  lemma LineMembers(a: Square, b: Square, s: Square)
    ensures s in LineSquares(a, b) <==>
      !Between(a, b).NoDirection?
      && (s == a || Between(a, s) == Between(a, b) || Between(a, s) == Opposite(Between(a, b)))
    ensures !Between(a, b).NoDirection? ==> a in LineSquares(a, b) && b in LineSquares(a, b)
  {
    var d := Between(a, b);
    if !d.NoDirection? {
      FullRayMembers(a, d, s);
      FullRayMembers(a, Opposite(d), s);
      FullRayMembers(a, d, b);
    }
  }

  /** `generate_adjacent_files[sq]`: the square and its on-board left and
      right neighbours. */
  function AdjacentFiles(s: Square): Bitboard
  {
    AdjacentFilesAt(Rank(s), File(s))
  }

  function AdjacentFilesAt(rank: int, file: int): Bitboard
    requires 0 <= rank <= 7 && 0 <= file <= 7
  {
    LookupUtils.Bits(rank, file)
    + (if file > 0 then LookupUtils.Bits(rank, file - 1) else {})
    + (if file < 7 then LookupUtils.Bits(rank, file + 1) else {})
  }

  /** The adjacent-files board holds exactly the squares of the same rank at
      most one file away. */
  lemma AdjacentFilesMembers(s: Square, t: Square)
    ensures t in AdjacentFiles(s) <==> Rank(t) == Rank(s) && Abs(File(t) - File(s)) <= 1
  {
    var rank, file := Rank(s), File(s);
    if Rank(t) == rank && Abs(File(t) - file) <= 1 {
      if File(t) == file {
        RankFileDetermineSquare(t, s);
      } else if File(t) == file - 1 {
        RankFileDetermineSquare(t, New(rank, file - 1));
      } else {
        RankFileDetermineSquare(t, New(rank, file + 1));
      }
    }
  }

  /** `generate_between`: every pair of squares, one row at a time. */
  method GenerateBetween() returns (between: array2<Bitboard>)
    ensures fresh(between) && between.Length0 == 64 && between.Length1 == 64
    ensures forall a: Square, b: Square :: between[a, b] == BetweenSquares(a, b)
  {
    between := new Bitboard[64, 64]((_, _) => {});
    ghost var table := (a: Square, b: Square) => BetweenSquares(a, b);
    for from := 0 to 64
      invariant forall a: Square, b: Square :: between[a, b] == if a < from then table(a, b) else {}
    {
      FillBetweenRow(between, from, b => table(from, b));
    }
  }

  /** The inner loop of `generate_between`: row `from`, whose entries start
      empty, gets `row`; no other row changes. */
  method FillBetweenRow(between: array2<Bitboard>, from: Square, ghost row: Square -> Bitboard)
    requires between.Length0 == 64 && between.Length1 == 64
    requires forall b: Square :: between[from, b] == {}
    requires forall b: Square {:trigger BetweenSquares(from, b)} :: row(b) == BetweenSquares(from, b)
    modifies between
    ensures forall b: Square :: between[from, b] == row(b)
    ensures forall a: Square, b: Square :: a != from ==> between[a, b] == old(between[a, b])
  {
    for to := 0 to 64
      invariant forall b: Square :: between[from, b] == if b < to then row(b) else {}
      invariant forall a: Square, b: Square :: a != from ==> between[a, b] == old(between[a, b])
    {
      AddBetween(between, from, to, row(to));
    }
  }

  /** The body of the inner loop of `generate_between`: an entry whose
      squares are not aligned stays empty. */
  method AddBetween(between: array2<Bitboard>, from: Square, to: Square, ghost entry: Bitboard)
    requires between.Length0 == 64 && between.Length1 == 64
    requires between[from, to] == {}
    requires entry == BetweenSquares(from, to)
    modifies between
    ensures between[from, to] == entry
    ensures forall a: Square, b: Square :: (a, b) != (from, to) ==> between[a, b] == old(between[a, b])
  {
    var direction := Between(from, to);
    if !direction.NoDirection? {
      var rayBetween := Ray(from, direction, to);
      between[from, to] := between[from, to] + rayBetween;
    }
  }

  /** The three boards `generate_lines` ORs into an entry whose squares
      are aligned: the ray in the direction, the ray in the opposite
      direction, and the square itself. */
  method LineThrough(from: Square, direction: Direction) returns (line: Bitboard)
    requires !direction.NoDirection?
    ensures line == RaySquares(from, direction, InvalidSquare)
      + RaySquares(from, Opposite(direction), InvalidSquare) + {from}
  {
    line := Ray(from, direction, InvalidSquare);
    var opposite := Opposite(direction);
    var rayLine := Ray(from, opposite, InvalidSquare);
    line := line + rayLine;
    var (rank, file) := LookupUtils.RankFile(from);
    LookupUtils.BitsSingleton(rank, file);
    line := line + LookupUtils.Bits(rank, file);
  }

  /** `generate_lines`: every pair of squares, one row at a time. */
  method GenerateLines() returns (lines: array2<Bitboard>)
    ensures fresh(lines) && lines.Length0 == 64 && lines.Length1 == 64
    ensures forall a: Square, b: Square :: lines[a, b] == LineSquares(a, b)
  {
    lines := new Bitboard[64, 64]((_, _) => {});
    ghost var table := (a: Square, b: Square) => LineSquares(a, b);
    for from := 0 to 64
      invariant forall a: Square, b: Square :: lines[a, b] == if a < from then table(a, b) else {}
    {
      FillLineRow(lines, from, b => table(from, b));
    }
  }

  /** The inner loop of `generate_lines`: row `from`, whose entries start
      empty, gets `row`; no other row changes. */
  method FillLineRow(lines: array2<Bitboard>, from: Square, ghost row: Square -> Bitboard)
    requires lines.Length0 == 64 && lines.Length1 == 64
    requires forall b: Square :: lines[from, b] == {}
    requires forall b: Square {:trigger LineSquares(from, b)} :: row(b) == LineSquares(from, b)
    modifies lines
    ensures forall b: Square :: lines[from, b] == row(b)
    ensures forall a: Square, b: Square :: a != from ==> lines[a, b] == old(lines[a, b])
  {
    for to := 0 to 64
      invariant forall b: Square :: lines[from, b] == if b < to then row(b) else {}
      invariant forall a: Square, b: Square :: a != from ==> lines[a, b] == old(lines[a, b])
    {
      AddLine(lines, from, to, row(to));
    }
  }

  /** The body of the inner loop of `generate_lines`: an entry whose squares
      are not aligned stays empty. */
  method AddLine(lines: array2<Bitboard>, from: Square, to: Square, ghost entry: Bitboard)
    requires lines.Length0 == 64 && lines.Length1 == 64
    requires lines[from, to] == {}
    requires entry == LineSquares(from, to)
    modifies lines
    ensures lines[from, to] == entry
    ensures forall a: Square, b: Square :: (a, b) != (from, to) ==> lines[a, b] == old(lines[a, b])
  {
    var direction := Between(from, to);
    if !direction.NoDirection? {
      var line := LineThrough(from, direction);
      lines[from, to] := lines[from, to] + line;
    }
  }

  /** `generate_adjacent_files`: every square, rank by rank. */
  method GenerateAdjacentFiles() returns (adjacentFiles: array<Bitboard>)
    ensures fresh(adjacentFiles) && adjacentFiles.Length == 64
    ensures forall s: Square :: adjacentFiles[s] == AdjacentFiles(s)
  {
    adjacentFiles := new Bitboard[64](_ => {});
    ghost var table := (s: Square) => AdjacentFiles(s);
    for rank := 0 to 8
      invariant forall s: Square :: adjacentFiles[s] == if s < rank * 8 then table(s) else {}
    {
      for file := 0 to 8
        invariant forall s: Square :: adjacentFiles[s] == if s < rank * 8 + file then table(s) else {}
      {
        AddAdjacentFiles(adjacentFiles, rank, file);
      }
    }
  }

  /** The body of `generate_adjacent_files` for one square: its own bit and
      the bits beside it on its rank are added to its (still empty) entry. */
  method AddAdjacentFiles(adjacentFiles: array<Bitboard>, rank: int, file: int)
    requires adjacentFiles.Length == 64 && 0 <= rank <= 7 && 0 <= file <= 7
    requires adjacentFiles[rank * 8 + file] == {}
    modifies adjacentFiles
    ensures adjacentFiles[rank * 8 + file] == AdjacentFiles(rank * 8 + file)
    ensures forall s :: 0 <= s < 64 && s != rank * 8 + file ==>
      adjacentFiles[s] == old(adjacentFiles[s])
  {
    var from := LookupUtils.Index(rank, file);
    assert Rank(from) == rank && File(from) == file;
    var entry := LookupUtils.Bits(rank, file);
    if file > 0 {
      entry := entry + LookupUtils.Bits(rank, file - 1);
    }
    if file < 7 {
      entry := entry + LookupUtils.Bits(rank, file + 1);
    }
    assert entry == AdjacentFilesAt(rank, file);
    adjacentFiles[from] := entry;
  }

  /** `generate_rays`: the full ray from every square in every direction. */
  method GenerateRays() returns (rays: array2<Bitboard>)
    ensures fresh(rays) && rays.Length0 == 64 && rays.Length1 == 8
    ensures forall s: Square, i :: 0 <= i < 8 ==>
      rays[s, i] == RaySquares(s, Directions.FromIndex(i), InvalidSquare)
  {
    rays := new Bitboard[64, 8]((_, _) => {});
    ghost var table := (s: Square, i: nat) => RaySquares(s, Directions.FromIndex(i), InvalidSquare);
    for from := 0 to 64
      invariant forall s: Square, i :: s < from && 0 <= i < 8 ==> rays[s, i] == table(s, i)
    {
      for direction := 0 to 8
        invariant forall s: Square, i :: s < from && 0 <= i < 8 ==> rays[s, i] == table(s, i)
        invariant forall i :: 0 <= i < direction ==> rays[from, i] == table(from, i)
      {
        var ray := Ray(from, Directions.FromIndex(direction), InvalidSquare);
        rays[from, direction] := ray;
      }
    }
  }
}
