/** Zobrist hashing of positions (crates/base/src/zobrist/hasher.rs): one
    random 64-bit key per (colour, piece, square), one for Black to move,
    one per castling right, one per en-passant file, and 32 depth keys.

    The keys are drawn at random when the hasher is built, so a hash is
    modelled by the SET of keys XORed into it: XOR-ing in a key is the
    symmetric difference with that one key, and positions whose key sets
    are equal have equal 64-bit hashes whatever values were drawn. */
module Zobrist {
  import opened Wrappers
  import opened Pieces
  import opened Squares

  /** The names of the hasher's random keys: `pieces[colour][piece][square]`,
      `side`, `castling[0..4]`, `en_passant[0..8]`, `depth[0..32]`. */
  datatype ZobristKey =
    | PieceKey(color: Color, piece: Piece, square: Square)
    | SideKey
    | CastlingKey(right: nat)
    | EnPassantKey(file: nat)
    | DepthKey(depth: nat)

  /** A hash value: the keys XORed together. */
  type ZobristHash = set<ZobristKey>

  /** `ZobristHash::new(0)`. */
  const Zero: ZobristHash := {}

  /** `^`: a key XORed in twice cancels out. */
  function Xor(a: ZobristHash, b: ZobristHash): ZobristHash
  {
    (a - b) + (b - a)
  }

  /** XOR is an abelian group on hashes with `Zero` as identity, every
      hash its own inverse. */
  lemma XorGroup(a: ZobristHash, b: ZobristHash, c: ZobristHash)
    ensures Xor(a, Zero) == a
    ensures Xor(a, a) == Zero
    ensures Xor(a, b) == Xor(b, a)
    ensures Xor(Xor(a, b), c) == Xor(a, Xor(b, c))
  {
  }

  /** `piece_hash`: the caller must not ask for `Piece::None`. */
  function PieceHash(piece: Piece, color: Color, s: Square): (k: ZobristHash)
    requires piece != NoPiece
  {
    {PieceKey(color, piece, s)}
  }

  /** `en_passant_hash`: the key of the square's file. */
  function EnPassantHash(s: Square): ZobristHash
  {
    {EnPassantKey(File(s))}
  }

  /** The en-passant key depends on the file only: the square a pawn
      passed over and the square it stands on give the same key, and
      squares on different files give different keys. */
  lemma EnPassantHashFile(a: Square, b: Square)
    ensures EnPassantHash(a) == EnPassantHash(b) <==> File(a) == File(b)
  {
    if EnPassantHash(a) == EnPassantHash(b) {
      assert EnPassantKey(File(a)) in EnPassantHash(b);
    }
  }

  /** `depth_hash`: the caller must give a depth below 32. */
  function DepthHash(depth: nat): ZobristHash
    requires depth < 32
  {
    {DepthKey(depth)}
  }

  function SideHash(): ZobristHash
  {
    {SideKey}
  }

  /** `piece_hash` reads one entry of the `pieces[2][7][64]` table: two
      lookups give the same key exactly when they ask for the same piece,
      colour and square. */
  lemma PieceHashInjective(p1: Piece, c1: Color, s1: Square, p2: Piece, c2: Color, s2: Square)
    requires p1 != NoPiece && p2 != NoPiece
    ensures PieceHash(p1, c1, s1) == PieceHash(p2, c2, s2) <==> p1 == p2 && c1 == c2 && s1 == s2
  {
    if PieceHash(p1, c1, s1) == PieceHash(p2, c2, s2) {
      assert PieceKey(c1, p1, s1) in PieceHash(p2, c2, s2);
    }
  }

  /** `depth_hash` reads one of the 32 depth keys: distinct depths give
      distinct keys, and no depth key is the side key or a piece key. */
  lemma DepthHashDistinct(d1: nat, d2: nat, p: Piece, c: Color, s: Square)
    requires d1 < 32 && d2 < 32 && p != NoPiece
    ensures DepthHash(d1) == DepthHash(d2) <==> d1 == d2
    ensures DepthHash(d1) !! SideHash() && DepthHash(d1) !! PieceHash(p, c, s)
  {
    if DepthHash(d1) == DepthHash(d2) {
      assert DepthKey(d1) in DepthHash(d2);
    }
  }

  /** `castling[i]`, in the order white kingside, white queenside, black
      kingside, black queenside. */
  function CastlingHash(right: nat): ZobristHash
    requires right < 4
  {
    {CastlingKey(right)}
  }

  /** The key of a stored tile. */
  function TileHash(t: Tile, s: Square): ZobristHash
  {
    {PieceKey(t.color, t.piece, s)}
  }

  /** The keys of the occupied squares among the first `n`. */
  function TilesHash(tiles: seq<Option<Tile>>, n: nat): ZobristHash
    requires n <= |tiles| <= 64
  {
    if n == 0 then Zero
    else
      var below := TilesHash(tiles, n - 1);
      if tiles[n - 1].Some? then Xor(below, TileHash(tiles[n - 1].value, n - 1)) else below
  }

  /** The fold holds the key of exactly the tiles on the first `n`
      squares. */
  lemma {:induction false} TilesHashMembers(tiles: seq<Option<Tile>>, n: nat)
    requires n <= |tiles| <= 64
    ensures forall k :: k in TilesHash(tiles, n) <==>
      k.PieceKey? && k.square < n && tiles[k.square] == Some(Tile(k.piece, k.color))
  {
    if n > 0 {
      TilesHashMembers(tiles, n - 1);
    }
  }

  /** The rights held, by their index in the castling keys. */
  function Rights(wk: bool, wq: bool, bk: bool, bq: bool): (r: set<nat>)
    ensures forall i :: i in r ==> i < 4
  {
    (if wk then {0} else {}) + (if wq then {1} else {}) + (if bk then {2} else {}) + (if bq then {3} else {})
  }

  /** The keys of the rights held. */
  function RightsHash(rights: set<nat>): ZobristHash
  {
    set i | i in rights :: CastlingKey(i)
  }

  /** `hash`: the tiles, the side key when Black is to move, the rights
      held, and the file key of the pawn that can be taken en passant. */
  function Hash(tiles: seq<Option<Tile>>, active: Color, rights: set<nat>, toCapture: Option<Square>): ZobristHash
    requires |tiles| == 64
  {
    TilesHash(tiles, 64)
      + (if active == Black then SideHash() else {})
      + RightsHash(rights)
      + (if toCapture.Some? then EnPassantHash(toCapture.value) else {})
  }

  /** The keys of a full hash, kind by kind: one per occupied square,
      the side key for Black, one per right held, the file key of the
      pawn that can be taken, and never a depth key. */
  lemma HashMembers(tiles: seq<Option<Tile>>, active: Color, rights: set<nat>, toCapture: Option<Square>)
    requires |tiles| == 64
    ensures forall k :: k in Hash(tiles, active, rights, toCapture) <==>
      || (k.PieceKey? && tiles[k.square] == Some(Tile(k.piece, k.color)))
      || (k.SideKey? && active == Black)
      || (k.CastlingKey? && k.right in rights)
      || (k.EnPassantKey? && toCapture.Some? && k.file == File(toCapture.value))
  {
    TilesHashMembers(tiles, 64);
  }

  /** The hash tells positions apart down to its keys: two hashes are
      equal exactly when the tiles, the side to move and the rights are
      the same and the pawns that can be taken, if any, are on the same
      file. */
  lemma HashDetermines(t1: seq<Option<Tile>>, a1: Color, r1: set<nat>, e1: Option<Square>,
                       t2: seq<Option<Tile>>, a2: Color, r2: set<nat>, e2: Option<Square>)
    requires |t1| == 64 && |t2| == 64
    ensures Hash(t1, a1, r1, e1) == Hash(t2, a2, r2, e2) <==>
      && t1 == t2 && a1 == a2 && r1 == r2
      && (e1.Some? <==> e2.Some?)
      && (e1.Some? && e2.Some? ==> File(e1.value) == File(e2.value))
  {
    var h1, h2 := Hash(t1, a1, r1, e1), Hash(t2, a2, r2, e2);
    HashMembers(t1, a1, r1, e1);
    HashMembers(t2, a2, r2, e2);
    if h1 == h2 {
      forall s | 0 <= s < 64
        ensures t1[s] == t2[s]
      {
        if t1[s].Some? {
          assert PieceKey(t1[s].value.color, t1[s].value.piece, s) in h2;
        }
        if t2[s].Some? {
          assert PieceKey(t2[s].value.color, t2[s].value.piece, s) in h1;
        }
      }
      forall i | i in r1 ensures i in r2 {
        assert CastlingKey(i) in h2;
      }
      forall i | i in r2 ensures i in r1 {
        assert CastlingKey(i) in h1;
      }
      assert a1 == Black <==> SideKey in h2;
      if e1.Some? {
        assert EnPassantKey(File(e1.value)) in h2;
      }
      if e2.Some? {
        assert EnPassantKey(File(e2.value)) in h1;
      }
    } else if t1 == t2 && a1 == a2 && r1 == r2 && (e1.Some? <==> e2.Some?) {
      if e1.Some? {
        EnPassantHashFile(e1.value, e2.value);
      }
    }
  }

  /** Each incremental update the board makes XORs exactly one key into
      the full hash: placing a tile on an empty square, ... */
  lemma HashPlace(tiles: seq<Option<Tile>>, active: Color, rights: set<nat>, toCapture: Option<Square>, s: Square, t: Tile)
    requires |tiles| == 64 && tiles[s].None?
    ensures Hash(tiles[s := Some(t)], active, rights, toCapture) == Xor(Hash(tiles, active, rights, toCapture), TileHash(t, s))
  {
    TilesHashMembers(tiles, 64);
    TilesHashMembers(tiles[s := Some(t)], 64);
  }

  /** ... lifting a tile off its square, ... */
  lemma HashLift(tiles: seq<Option<Tile>>, active: Color, rights: set<nat>, toCapture: Option<Square>, s: Square, t: Tile)
    requires |tiles| == 64 && tiles[s] == Some(t)
    ensures Hash(tiles[s := None], active, rights, toCapture) == Xor(Hash(tiles, active, rights, toCapture), TileHash(t, s))
  {
    TilesHashMembers(tiles, 64);
    TilesHashMembers(tiles[s := None], 64);
  }

  /** ... flipping the side to move, ... */
  lemma HashSide(tiles: seq<Option<Tile>>, active: Color, rights: set<nat>, toCapture: Option<Square>)
    requires |tiles| == 64
    ensures Hash(tiles, Other(active), rights, toCapture) == Xor(Hash(tiles, active, rights, toCapture), SideHash())
  {
    TilesHashMembers(tiles, 64);
  }

  /** ... dropping a right that is held, ... */
  lemma HashDropRight(tiles: seq<Option<Tile>>, active: Color, rights: set<nat>, toCapture: Option<Square>, i: nat)
    requires |tiles| == 64 && i in rights && i < 4
    ensures Hash(tiles, active, rights - {i}, toCapture) == Xor(Hash(tiles, active, rights, toCapture), CastlingHash(i))
  {
    TilesHashMembers(tiles, 64);
  }

  /** ... and setting the en-passant file. */
  lemma HashEnPassant(tiles: seq<Option<Tile>>, active: Color, rights: set<nat>, s: Square)
    requires |tiles| == 64
    ensures Hash(tiles, active, rights, Some(s)) == Xor(Hash(tiles, active, rights, None), EnPassantHash(s))
  {
    TilesHashMembers(tiles, 64);
  }

  /** The castling keys XORed in the order `hash` applies them. */
  function RightsSteps(a: ZobristHash, wk: bool, wq: bool, bk: bool, bq: bool): ZobristHash
  {
    var h1 := if wk then Xor(a, CastlingHash(0)) else a;
    var h2 := if wq then Xor(h1, CastlingHash(1)) else h1;
    var h3 := if bk then Xor(h2, CastlingHash(2)) else h2;
    if bq then Xor(h3, CastlingHash(3)) else h3
  }

  /** The XOR of the side, rights and en-passant keys into the tile keys,
      in the order `hash` applies them. */
  function KeysAfterTiles(base: ZobristHash, active: Color, wk: bool, wq: bool, bk: bool, bq: bool,
                          toCapture: Option<Square>): ZobristHash
  {
    var h1 := if active == Black then Xor(base, SideHash()) else base;
    var h5 := RightsSteps(h1, wk, wq, bk, bq);
    if toCapture.Some? then Xor(h5, EnPassantHash(toCapture.value)) else h5
  }

  /** XOR-ing in a key that is not there yet adds it. */
  lemma XorFresh(a: ZobristHash, k: ZobristKey)
    requires k !in a
    ensures Xor(a, {k}) == a + {k}
  {
  }

  /** Into a hash without castling keys, the castling steps add the keys
      of the rights held. */
  lemma RightsStepsAdd(a: ZobristHash, wk: bool, wq: bool, bk: bool, bq: bool)
    requires forall k :: k in a ==> !k.CastlingKey?
    ensures RightsSteps(a, wk, wq, bk, bq) == a + RightsHash(Rights(wk, wq, bk, bq))
  {
    var c0: ZobristHash := if wk then {CastlingKey(0)} else {};
    var c1: ZobristHash := if wq then {CastlingKey(1)} else {};
    var c2: ZobristHash := if bk then {CastlingKey(2)} else {};
    var c3: ZobristHash := if bq then {CastlingKey(3)} else {};
    var h1 := if wk then Xor(a, CastlingHash(0)) else a;
    if wk { XorFresh(a, CastlingKey(0)); }
    var h2 := if wq then Xor(h1, CastlingHash(1)) else h1;
    if wq { XorFresh(h1, CastlingKey(1)); }
    var h3 := if bk then Xor(h2, CastlingHash(2)) else h2;
    if bk { XorFresh(h2, CastlingKey(2)); }
    if bq { XorFresh(h3, CastlingKey(3)); }
    assert RightsSteps(a, wk, wq, bk, bq) == a + c0 + c1 + c2 + c3;
    RightsHashOfFlags(wk, wq, bk, bq);
  }

  /** The keys of the rights given as four flags. */
  lemma RightsHashOfFlags(wk: bool, wq: bool, bk: bool, bq: bool)
    ensures RightsHash(Rights(wk, wq, bk, bq))
         == (if wk then {CastlingKey(0)} else {}) + (if wq then {CastlingKey(1)} else {})
          + (if bk then {CastlingKey(2)} else {}) + (if bq then {CastlingKey(3)} else {})
  {
    var r := Rights(wk, wq, bk, bq);
    forall k | k in RightsHash(r)
      ensures k in (if wk then {CastlingKey(0)} else {}) + (if wq then {CastlingKey(1)} else {})
                 + (if bk then {CastlingKey(2)} else {}) + (if bq then {CastlingKey(3)} else {})
    {
      var i :| i in r && k == CastlingKey(i);
    }
  }

  /** The tile keys, the side key, the castling keys and the en-passant
      keys are distinct, so XOR-ing them one by one gives their union:
      the loop of `hash` computes `Hash`. */
  lemma KeysAfterTilesIsHash(tiles: seq<Option<Tile>>, active: Color, wk: bool, wq: bool, bk: bool, bq: bool,
                             toCapture: Option<Square>)
    requires |tiles| == 64
    ensures KeysAfterTiles(TilesHash(tiles, 64), active, wk, wq, bk, bq, toCapture)
         == Hash(tiles, active, Rights(wk, wq, bk, bq), toCapture)
  {
    TilesHashMembers(tiles, 64);
    var h0 := TilesHash(tiles, 64);
    var side := if active == Black then SideHash() else {};
    var h1 := if active == Black then Xor(h0, SideHash()) else h0;
    if active == Black { XorFresh(h0, SideKey); }
    assert h1 == h0 + side;
    RightsStepsAdd(h1, wk, wq, bk, bq);
    var h5 := RightsSteps(h1, wk, wq, bk, bq);
    if toCapture.Some? {
      var k := EnPassantKey(File(toCapture.value));
      assert k !in h5;
      XorFresh(h5, k);
    }
  }

  /** The loop of `hash` over the 64 squares. */
  method TilesHashOf(tiles: seq<Option<Tile>>) returns (hash: ZobristHash)
    requires |tiles| == 64
    ensures hash == TilesHash(tiles, 64)
  {
    hash := Zero;
    for squareIndex := 0 to 64
      invariant hash == TilesHash(tiles, squareIndex)
    {
      var tile := tiles[squareIndex];
      if tile.Some? {
        hash := Xor(hash, TileHash(tile.value, squareIndex));
      }
    }
  }

  /** `hash`: the squares, then the side, rights and en-passant keys. */
  method HashOf(tiles: seq<Option<Tile>>, active: Color, wk: bool, wq: bool, bk: bool, bq: bool,
                toCapture: Option<Square>) returns (hash: ZobristHash)
    requires |tiles| == 64
    ensures hash == Hash(tiles, active, Rights(wk, wq, bk, bq), toCapture)
  {
    hash := TilesHashOf(tiles);
    ghost var base := hash;
    if active == Black {
      hash := Xor(hash, SideHash());
    }
    if wk {
      hash := Xor(hash, CastlingHash(0));
    }
    if wq {
      hash := Xor(hash, CastlingHash(1));
    }
    if bk {
      hash := Xor(hash, CastlingHash(2));
    }
    if bq {
      hash := Xor(hash, CastlingHash(3));
    }
    if toCapture.Some? {
      hash := Xor(hash, EnPassantHash(toCapture.value));
    }
    assert hash == KeysAfterTiles(base, active, wk, wq, bk, bq, toCapture);
    KeysAfterTilesIsHash(tiles, active, wk, wq, bk, bq, toCapture);
  }
}
