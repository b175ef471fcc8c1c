/** Polyglot opening books (crates/base/src/polyglot/parser.rs): a book
    file is a sequence of 16-byte records, each a big-endian 64-bit
    position key, a 16-bit packed move, a 16-bit weight and a 32-bit
    learn value. The parser groups the records by key; a lookup hashes
    the board with the Polyglot hasher and a random move is drawn with
    probability proportional to the weights. */
module Polyglot {
  import opened Wrappers
  import opened Pieces
  import opened Squares
  import opened Moves
  import opened Positions
  import PolyglotHasher

  type Byte = x: int | 0 <= x < 256

  // ---------------------------------------------------------------------
  // Big-endian integers

  /** The number of values `n` bytes can hold. */
  function Pow256(n: nat): (r: nat)
    ensures r >= 1
  {
    if n == 0 then 1 else 256 * Pow256(n - 1)
  }

  /** `u16/u32/u64::from_be_bytes`: the first byte is the most
      significant. */
  function FromBeBytes(bytes: seq<Byte>): (r: nat)
    ensures r < Pow256(|bytes|)
  {
    if bytes == [] then 0
    else
      var high := FromBeBytes(bytes[..|bytes| - 1]);
      assert high * 256 <= (Pow256(|bytes| - 1) - 1) * 256;
      high * 256 + bytes[|bytes| - 1]
  }

  /** `to_be_bytes`: `x` written in `n` bytes, most significant first. */
  function ToBeBytes(x: nat, n: nat): (bytes: seq<Byte>)
    requires x < Pow256(n)
    ensures |bytes| == n
  {
    if n == 0 then []
    else ToBeBytes(x / 256, n - 1) + [x % 256]
  }

  /** Writing a number and reading it back gives the number. */
  lemma {:induction false} FromToBeBytes(x: nat, n: nat)
    requires x < Pow256(n)
    ensures FromBeBytes(ToBeBytes(x, n)) == x
  {
    if n > 0 {
      FromToBeBytes(x / 256, n - 1);
      var bytes := ToBeBytes(x, n);
      assert bytes[..n - 1] == ToBeBytes(x / 256, n - 1);
      assert bytes[n - 1] == x % 256;
    }
  }

  /** Reading bytes and writing the number back gives the bytes. */
  lemma {:induction false} ToFromBeBytes(bytes: seq<Byte>)
    ensures ToBeBytes(FromBeBytes(bytes), |bytes|) == bytes
  {
    if bytes != [] {
      var init, last := bytes[..|bytes| - 1], bytes[|bytes| - 1];
      ToFromBeBytes(init);
      var x := FromBeBytes(bytes);
      DivModUnique(x, 256, FromBeBytes(init), last);
      assert bytes == init + [last];
    }
  }

  /** Division with remainder has one answer. */
  lemma DivModUnique(x: nat, d: nat, q: nat, r: nat)
    requires d > 0 && x == d * q + r && r < d
    ensures x / d == q && x % d == r
  {
    var diff := x / d - q;
    assert diff * d == r - x % d;
    if diff >= 1 {
      assert false;
    } else if diff <= -1 {
      assert false;
    }
  }

  // ---------------------------------------------------------------------
  // Moves

  /** `PolyglotMove`: the five three-bit fields of a book move. */
  datatype PolyglotMove = PolyglotMove(fromFile: nat, fromRank: nat, toFile: nat, toRank: nat, promotion: nat)

  /** Every field fits its three bits. */
  predicate Fits(m: PolyglotMove)
  {
    m.fromFile < 8 && m.fromRank < 8 && m.toFile < 8 && m.toRank < 8 && m.promotion < 8
  }

  /** The packed move: to file in bits 0-2, to rank in bits 3-5, from file
      in bits 6-8, from rank in bits 9-11, promotion in bits 12-14. */
  function MoveWord(m: PolyglotMove): nat
  {
    m.toFile + 8 * m.toRank + 64 * m.fromFile + 512 * m.fromRank + 4096 * m.promotion
  }

  /** `PolyglotMove::parse`: exactly two bytes are accepted, read as a
      big-endian word and cut into its fields; bit 15 is ignored. */
  function ParseMove(data: seq<Byte>): (r: Option<PolyglotMove>)
    ensures r.Some? <==> |data| == 2
    ensures r.Some? ==> Fits(r.value)
  {
    if |data| != 2 then None
    else
      var word := FromBeBytes(data[0..2]);
      Some(PolyglotMove((word / 64) % 8, (word / 512) % 8, word % 8, (word / 8) % 8, (word / 4096) % 8))
  }

  /** The two bytes that hold a move. */
  function EncodeMove(m: PolyglotMove): (data: seq<Byte>)
    requires Fits(m)
    ensures |data| == 2
  {
    ToBeBytes(MoveWord(m), 2)
  }

  /** Fields that fit come back from their encoding unchanged. */
  lemma ParseEncodeMove(m: PolyglotMove)
    requires Fits(m)
    ensures ParseMove(EncodeMove(m)) == Some(m)
  {
    var w := MoveWord(m);
    FromToBeBytes(w, 2);
    assert EncodeMove(m)[0..2] == EncodeMove(m);
    WordFields(m);
  }

  /** The fields of a packed word are its octal digits. */
  lemma WordFields(m: PolyglotMove)
    requires Fits(m)
    ensures var w := MoveWord(m);
      && w % 8 == m.toFile && (w / 8) % 8 == m.toRank && (w / 64) % 8 == m.fromFile
      && (w / 512) % 8 == m.fromRank && (w / 4096) % 8 == m.promotion
  {
    var w := MoveWord(m);
    DivModUnique(w, 8, m.toRank + 8 * m.fromFile + 64 * m.fromRank + 512 * m.promotion, m.toFile);
    DivModUnique(m.toRank + 8 * m.fromFile + 64 * m.fromRank + 512 * m.promotion, 8,
                 m.fromFile + 8 * m.fromRank + 64 * m.promotion, m.toRank);
    DivModUnique(w, 64, m.fromFile + 8 * m.fromRank + 64 * m.promotion, m.toFile + 8 * m.toRank);
    DivModUnique(m.fromFile + 8 * m.fromRank + 64 * m.promotion, 8, m.fromRank + 8 * m.promotion, m.fromFile);
    DivModUnique(w, 512, m.fromRank + 8 * m.promotion, m.toFile + 8 * m.toRank + 64 * m.fromFile);
    DivModUnique(m.fromRank + 8 * m.promotion, 8, m.promotion, m.fromRank);
    DivModUnique(w, 4096, m.promotion, m.toFile + 8 * m.toRank + 64 * m.fromFile + 512 * m.fromRank);
    DivModUnique(m.promotion, 8, 0, m.promotion);
  }

  /** Two bytes whose top bit is clear come back from parsing and encoding
      unchanged; the parser reads fifteen of the sixteen bits. */
  lemma EncodeParseMove(data: seq<Byte>)
    requires |data| == 2 && data[0] < 128
    ensures EncodeMove(ParseMove(data).value) == data
  {
    var w := FromBeBytes(data[0..2]);
    assert data[0..2] == data;
    assert FromBeBytes(data[..1]) == data[0] by {
      assert data[..1][..0] == [];
    }
    assert w < 32768;
    var m := ParseMove(data).value;
    OctalDigits(w);
    assert MoveWord(m) == w;
    ToFromBeBytes(data);
  }

  /** A number below 8^5 is the sum of its five octal digits. */
  lemma OctalDigits(w: nat)
    requires w < 32768
    ensures w == w % 8 + 8 * ((w / 8) % 8) + 64 * ((w / 64) % 8) + 512 * ((w / 512) % 8) + 4096 * ((w / 4096) % 8)
  {
    var w1 := w / 8;
    var w2 := w1 / 8;
    var w3 := w2 / 8;
    var w4 := w3 / 8;
    DivModUnique(w, 64, w2, w % 8 + 8 * (w1 % 8));
    DivModUnique(w, 512, w3, w % 8 + 8 * (w1 % 8) + 64 * (w2 % 8));
    DivModUnique(w, 4096, w4, w % 8 + 8 * (w1 % 8) + 64 * (w2 % 8) + 512 * (w3 % 8));
    DivModUnique(w4, 8, 0, w4);
  }

  // ---------------------------------------------------------------------
  // Entries

  /** `PolyglotEntry`: the key, move, weight and learn value of a record. */
  datatype PolyglotEntry = PolyglotEntry(key: nat, mov: PolyglotMove, weight: nat, learn: nat)

  /** Every field fits the width it is stored in. */
  predicate EntryFits(e: PolyglotEntry)
  {
    e.key < Pow256(8) && Fits(e.mov) && e.weight < Pow256(2) && e.learn < Pow256(4)
  }

  /** `PolyglotEntry::parse`: exactly sixteen bytes are accepted. The move
      bytes are read as a word and written back before the move is parsed. */
  function ParseEntry(data: seq<Byte>): (r: Option<PolyglotEntry>)
    ensures r.Some? <==> |data| == 16
    ensures r.Some? ==> EntryFits(r.value)
  {
    if |data| != 16 then None
    else
      var key := FromBeBytes(data[0..8]);
      var weight := FromBeBytes(data[10..12]);
      var learn := FromBeBytes(data[12..16]);
      var movData := FromBeBytes(data[8..10]);
      match ParseMove(ToBeBytes(movData, 2))
      case None => None
      case Some(mov) => Some(PolyglotEntry(key, mov, weight, learn))
  }

  /** The sixteen bytes of a record. */
  function EncodeEntry(e: PolyglotEntry): (data: seq<Byte>)
    requires EntryFits(e)
    ensures |data| == 16
  {
    ToBeBytes(e.key, 8) + EncodeMove(e.mov) + ToBeBytes(e.weight, 2) + ToBeBytes(e.learn, 4)
  }

  /** The detour through a word leaves the move bytes as they are: a
      record's move is the move its bytes 8 and 9 hold. */
  lemma ParseEntryMove(data: seq<Byte>)
    requires |data| == 16
    ensures ParseEntry(data).value.mov == ParseMove(data[8..10]).value
    ensures ParseEntry(data).value.key == FromBeBytes(data[0..8])
    ensures ParseEntry(data).value.weight == FromBeBytes(data[10..12])
  {
    ToFromBeBytes(data[8..10]);
  }

  /** A record whose fields fit is parsed back to itself. */
  lemma ParseEncodeEntry(e: PolyglotEntry)
    requires EntryFits(e)
    ensures ParseEntry(EncodeEntry(e)) == Some(e)
  {
    var data := EncodeEntry(e);
    var key, mov, weight, learn := ToBeBytes(e.key, 8), EncodeMove(e.mov), ToBeBytes(e.weight, 2), ToBeBytes(e.learn, 4);
    var head := key + mov + weight;
    assert data == head + learn && |head| == 12;
    assert data[12..16] == learn;
    assert data[..12] == head;
    assert head[0..8] == key && head[8..10] == mov && head[10..12] == weight;
    assert data[0..8] == key && data[8..10] == mov && data[10..12] == weight;
    FromToBeBytes(e.key, 8);
    FromToBeBytes(e.weight, 2);
    FromToBeBytes(e.learn, 4);
    ParseEntryMove(data);
    ParseEncodeMove(e.mov);
  }

  /** Sixteen bytes whose move word has its top bit clear are encoded back
      from their parsed record unchanged. */
  lemma EncodeParseEntry(data: seq<Byte>)
    requires |data| == 16 && data[8] < 128
    ensures EncodeEntry(ParseEntry(data).value) == data
  {
    var e := ParseEntry(data).value;
    ParseEntryMove(data);
    ToFromBeBytes(data[0..8]);
    ToFromBeBytes(data[10..12]);
    ToFromBeBytes(data[12..16]);
    EncodeParseMove(data[8..10]);
    assert data == data[0..8] + data[8..10] + data[10..12] + data[12..16];
  }

  // ---------------------------------------------------------------------
  // Books

  /** `PolyglotError`; the I/O variant belongs to reading the file, which
      is not modelled. */
  datatype PolyglotError =
    | InvalidPromotion(index: nat)
    | NoEntries
    | InvalidData
    | MoveFailed(error: MoveError)

  /** `PolyglotBook::entries`: the records of each key, in file order. */
  type Book = map<nat, seq<PolyglotEntry>>

  /** `chunks_exact(16)`. */
  function Chunks(data: seq<Byte>): (chunks: seq<seq<Byte>>)
    requires |data| % 16 == 0
    ensures |chunks| == |data| / 16
  {
    if data == [] then [] else [data[..16]] + Chunks(data[16..])
  }

  /** The i-th chunk is bytes 16i to 16i+16. */
  lemma {:induction false} ChunksAt(data: seq<Byte>, i: nat)
    requires |data| % 16 == 0 && i < |data| / 16
    ensures Chunks(data)[i] == data[16 * i .. 16 * i + 16]
  {
    if i > 0 {
      ChunksAt(data[16..], i - 1);
    }
  }

  /** `filter_map(PolyglotEntry::parse)`. */
  function ParseEntries(chunks: seq<seq<Byte>>): seq<PolyglotEntry>
  {
    if chunks == [] then []
    else
      var rest := ParseEntries(chunks[1..]);
      match ParseEntry(chunks[0])
      case None => rest
      case Some(e) => [e] + rest
  }

  /** Sixteen-byte chunks all parse, so nothing is filtered out. */
  lemma {:induction false} ParseEntriesAll(chunks: seq<seq<Byte>>, i: nat)
    requires forall j :: 0 <= j < |chunks| ==> |chunks[j]| == 16
    requires i < |chunks|
    ensures |ParseEntries(chunks)| == |chunks|
    ensures ParseEntries(chunks)[i] == ParseEntry(chunks[i]).value
  {
    if i == 0 {
      if |chunks| > 1 {
        ParseEntriesAll(chunks[1..], 0);
      }
    } else {
      ParseEntriesAll(chunks[1..], i - 1);
    }
  }

  /** The fold into the map: each record is appended to its key's list. */
  function Group(entries: seq<PolyglotEntry>): Book
  {
    if entries == [] then map[]
    else
      var book := Group(entries[..|entries| - 1]);
      var e := entries[|entries| - 1];
      book[e.key := (if e.key in book then book[e.key] else []) + [e]]
  }

  /** The records of one key, in order. */
  function WithKey(entries: seq<PolyglotEntry>, key: nat): (r: seq<PolyglotEntry>)
    ensures forall e :: e in r ==> e in entries && e.key == key
  {
    if entries == [] then []
    else
      var init := WithKey(entries[..|entries| - 1], key);
      var e := entries[|entries| - 1];
      if e.key == key then init + [e] else init
  }

  /** A key is in the grouped book exactly when some record has it, and
      its list is every record with that key, in order. */
  lemma {:induction false} GroupLookup(entries: seq<PolyglotEntry>, key: nat)
    ensures key in Group(entries) <==> WithKey(entries, key) != []
    ensures key in Group(entries) ==> Group(entries)[key] == WithKey(entries, key)
  {
    if entries != [] {
      GroupLookup(entries[..|entries| - 1], key);
    }
  }

  /** `PolyglotBook::parse`: a length that is not a multiple of sixteen is
      refused; otherwise every record is parsed and grouped by key. */
  function ParseBook(data: seq<Byte>): (r: Result<Book, PolyglotError>)
    ensures r.Err? <==> |data| % 16 != 0
    ensures r.Err? ==> r.error == InvalidData
  {
    if |data| % 16 != 0 then Err(InvalidData)
    else Ok(Group(ParseEntries(Chunks(data))))
  }

  /** The records of a book file, one per sixteen bytes. */
  function Records(data: seq<Byte>): seq<PolyglotEntry>
    requires |data| % 16 == 0
  {
    ParseEntries(Chunks(data))
  }

  /** There is one record per sixteen bytes, and record i is bytes 16i to
      16i+16 parsed. */
  lemma RecordsAt(data: seq<Byte>, i: nat)
    requires |data| % 16 == 0 && i < |data| / 16
    ensures |Records(data)| == |data| / 16
    ensures Records(data)[i] == ParseEntry(data[16 * i .. 16 * i + 16]).value
  {
    var chunks := Chunks(data);
    forall j | 0 <= j < |chunks|
      ensures |chunks[j]| == 16
    {
      ChunksAt(data, j);
    }
    ParseEntriesAll(chunks, i);
    ChunksAt(data, i);
  }

  /** A parsed book holds a key exactly when some record carries it, and
      lists that key's records in file order. */
  lemma ParseBookLookup(data: seq<Byte>, key: nat)
    requires |data| % 16 == 0
    ensures key in ParseBook(data).value <==> WithKey(Records(data), key) != []
    ensures key in ParseBook(data).value ==> ParseBook(data).value[key] == WithKey(Records(data), key)
  {
    GroupLookup(Records(data), key);
  }

  /** What a parsed book guarantees its users: no key has an empty list and
      every stored move has three-bit fields. */
  predicate WellFormed(book: Book)
  {
    forall key :: key in book ==>
      book[key] != [] && forall e :: e in book[key] ==> Fits(e.mov)
  }

  /** Every book the parser returns is well formed. */
  lemma ParseBookWellFormed(data: seq<Byte>)
    requires |data| % 16 == 0
    ensures WellFormed(ParseBook(data).value)
  {
    var records := Records(data);
    if |data| > 0 {
      RecordsAt(data, 0);
    }
    forall e | e in records
      ensures Fits(e.mov)
    {
      var i :| 0 <= i < |records| && records[i] == e;
      RecordsAt(data, i);
    }
    forall key | key in ParseBook(data).value
      ensures ParseBook(data).value[key] != []
      ensures forall e :: e in ParseBook(data).value[key] ==> Fits(e.mov)
    {
      ParseBookLookup(data, key);
    }
  }

  /** The lookup of `get_entries` once the key is known. */
  function Lookup(book: Book, key: nat): (r: Result<seq<PolyglotEntry>, PolyglotError>)
  {
    if key in book then Ok(book[key]) else Err(NoEntries)
  }

  /** A lookup in a parsed book answers every record with the key, in
      file order, and fails with `NoEntries` exactly when there is none. */
  lemma LookupParsed(data: seq<Byte>, key: nat)
    requires |data| % 16 == 0
    ensures var r := Lookup(ParseBook(data).value, key);
      && (r == Err(NoEntries) <==> WithKey(Records(data), key) == [])
      && (r.Ok? ==> r.value == WithKey(Records(data), key) && r.value != [])
  {
    ParseBookLookup(data, key);
  }

  /** The 64-bit number a Polyglot key set stands for under the book
      format's table of random numbers. */
  type KeyValue = PolyglotHasher.PolyglotHash -> nat

  /** `get_entries`: the board's Polyglot hash is looked up. */
  method GetEntries(book: Book, value: KeyValue, p: Position) returns (r: Result<seq<PolyglotEntry>, PolyglotError>)
    requires NoEmptyTiles(p.tiles)
    ensures r == Lookup(book, value(PolyglotHasher.PolyglotKey(p)))
    ensures r.Ok? <==> value(PolyglotHasher.PolyglotKey(p)) in book
  {
    var key := PolyglotHasher.Hash(p);
    if value(key) in book {
      r := Ok(book[value(key)]);
    } else {
      r := Err(NoEntries);
    }
  }

  // ---------------------------------------------------------------------
  // From a book move to an engine move

  /** The piece a promotion index names; indices above 4 are refused. */
  function PromotionPiece(index: nat): (r: Result<Option<Piece>, PolyglotError>)
    ensures r.Err? <==> index > 4
    ensures r.Err? ==> r.error == InvalidPromotion(index)
    ensures r.Ok? ==> (r.value.None? <==> index == 0)
    ensures r.Ok? && r.value.Some? ==> r.value.value in {Knight, Bishop, Rook, Queen}
  {
    match index
    case 0 => Ok(None)
    case 1 => Ok(Some(Knight))
    case 2 => Ok(Some(Bishop))
    case 3 => Ok(Some(Rook))
    case 4 => Ok(Some(Queen))
    case _ => Err(InvalidPromotion(index))
  }

  /** Polyglot writes a castle as the king taking its own rook; the engine
      writes the king's destination. */
  function CastlingFix(from: Square, to: Square): (fixed: Square)
    ensures (from, to) !in {(E8, H8), (E8, A8), (E1, H1), (E1, A1)} ==> fixed == to
    ensures (from, to) in {(E8, H8), (E8, A8), (E1, H1), (E1, A1)} ==> Rank(fixed) == Rank(to) && File(fixed) in {2, 6}
  {
    if from == E8 && to == H8 then G8
    else if from == E8 && to == A8 then C8
    else if from == E1 && to == H1 then G1
    else if from == E1 && to == A1 then C1
    else to
  }

  /** The text handed to `Move::parse`: both square names and, for a
      promotion, the lower-case letter of the piece. */
  function MoveText(from: Square, to: Square, promoted: Option<Piece>): (text: string)
    requires promoted.Some? ==> promoted.value != NoPiece
    ensures |text| == (if promoted.Some? then 5 else 4)
    ensures text[0..2] == ToString(from) && text[2..4] == ToString(to)
  {
    ToString(from) + ToString(to) + (if promoted.Some? then [TileToFen(Tile(promoted.value, Black))] else [])
  }

  /** The en-passant target `Move::parse` reads. */
  function EnPassantSquare(p: Position): Option<Square>
  {
    if p.state.enPassant.Some? then Some(p.state.enPassant.value.toMove) else None
  }

  /** `PolyglotMove::to_move`. */
  function ToMove(m: PolyglotMove, p: Position): (r: Result<Move, PolyglotError>)
    requires Fits(m)
  {
    var from := New(m.fromRank, m.fromFile);
    var to := CastlingFix(from, New(m.toRank, m.toFile));
    match PromotionPiece(m.promotion)
    case Err(e) => Err(e)
    case Ok(promoted) =>
      match Parse(p.tiles, EnPassantSquare(p), MoveText(from, to, promoted))
      case Err(e) => Err(MoveFailed(e))
      case Ok(mov) => Ok(mov)
  }

  /** A converted move leaves the record's source square, lands on the
      record's destination (with the castling fix) and moves a piece;
      promotion indices above 4 are refused before the board is read. */
  lemma ToMoveSound(m: PolyglotMove, p: Position)
    requires Fits(m)
    ensures m.promotion > 4 ==> ToMove(m, p) == Err(InvalidPromotion(m.promotion))
    ensures var r := ToMove(m, p);
      r.Ok? ==> && Valid(r.value)
                && From(r.value) == New(m.fromRank, m.fromFile)
                && To(r.value) == CastlingFix(New(m.fromRank, m.fromFile), New(m.toRank, m.toFile))
                && p.tiles[From(r.value)].Some?
  {
    var from := New(m.fromRank, m.fromFile);
    var to := CastlingFix(from, New(m.toRank, m.toFile));
    var r := ToMove(m, p);
    if r.Ok? {
      var promoted := PromotionPiece(m.promotion).value;
      var text := MoveText(from, to, promoted);
      FromStrToString(from);
      FromStrToString(to);
      assert FromStr(text[0..2]) == Ok(from) && FromStr(text[2..4]) == Ok(to);
    }
  }

  /** A book castle, written as the king taking its own rook, becomes the
      engine's castle when the king's destination is empty. */
  lemma CastleRecord(m: PolyglotMove, p: Position, c: Color)
    requires Fits(m) && m.promotion == 0
    requires var from, to := New(m.fromRank, m.fromFile), New(m.toRank, m.toFile);
      (from, to) in {(E8, H8), (E8, A8), (E1, H1), (E1, A1)}
    requires var from := New(m.fromRank, m.fromFile);
      p.tiles[from] == Some(Tile(King, c)) && p.tiles[CastlingFix(from, New(m.toRank, m.toFile))].None?
    ensures var from := New(m.fromRank, m.fromFile);
      var to := CastlingFix(from, New(m.toRank, m.toFile));
      ToMove(m, p) == Ok(Castle(from, to, to in {G1, G8}))
  {
    var from := New(m.fromRank, m.fromFile);
    var to := CastlingFix(from, New(m.toRank, m.toFile));
    assert MoveText(from, to, None) == ToString(from) + ToString(to);
    ParseCastling(p.tiles, EnPassantSquare(p), from, to, c);
  }

  // ---------------------------------------------------------------------
  // Weighted choice

  /** The weights of the first `n` records, added up. */
  function WeightBefore(entries: seq<PolyglotEntry>, n: nat): nat
    requires n <= |entries|
  {
    if n == 0 then 0 else WeightBefore(entries, n - 1) + entries[n - 1].weight
  }

  /** `total_weight`. */
  function TotalWeight(entries: seq<PolyglotEntry>): nat
  {
    WeightBefore(entries, |entries|)
  }

  /** The loop of `get_random_move` as written: the first record from `i`
      on whose running weight reaches the draw (`<=`); `None` is the panic
      after the loop. */
  function PickAsWritten(entries: seq<PolyglotEntry>, draw: nat, i: nat): (r: Option<nat>)
    requires i <= |entries|
    ensures r.Some? ==> i <= r.value < |entries| && draw <= WeightBefore(entries, r.value + 1)
    decreases |entries| - i
  {
    if i == |entries| then None
    else if draw <= WeightBefore(entries, i + 1) then Some(i)
    else PickAsWritten(entries, draw, i + 1)
  }

  /** As written, a record of weight zero in front is picked on the draw
      0: with weights 0 and 5 the first record is chosen although it
      should never be. */
  lemma PickAsWrittenTakesZeroWeight(a: PolyglotEntry, b: PolyglotEntry)
    requires a.weight == 0 && b.weight == 5
    ensures TotalWeight([a, b]) == 5
    ensures PickAsWritten([a, b], 0, 0) == Some(0) && [a, b][0].weight == 0
  {
    assert WeightBefore([a, b], 1) == 0;
  }

  /** The draw lands in the slice of record i. */
  predicate InSlice(entries: seq<PolyglotEntry>, draw: nat, i: nat)
    requires i < |entries|
  {
    WeightBefore(entries, i) <= draw < WeightBefore(entries, i + 1)
  }

  /** The corrected loop of `get_random_move` (`<`): a draw below the total
      weight lands in the slice of exactly one record, whose weight is
      therefore positive. */
  method SelectEntry(entries: seq<PolyglotEntry>, draw: nat) returns (i: nat)
    requires draw < TotalWeight(entries)
    ensures i < |entries| && InSlice(entries, draw, i)
    ensures entries[i].weight > 0
  {
    var currentWeight := 0;
    for j := 0 to |entries|
      invariant currentWeight == WeightBefore(entries, j)
      invariant currentWeight <= draw
    {
      currentWeight := currentWeight + entries[j].weight;
      if draw < currentWeight {
        return j;
      }
    }
    assert false;
  }

  /** Slices do not overlap: a draw names at most one record. */
  lemma {:induction false} SlicesDisjoint(entries: seq<PolyglotEntry>, draw: nat, i: nat, j: nat)
    requires i < |entries| && j < |entries|
    requires InSlice(entries, draw, i) && InSlice(entries, draw, j)
    ensures i == j
  {
    if i < j {
      WeightMonotone(entries, i + 1, j);
    } else if j < i {
      WeightMonotone(entries, j + 1, i);
    }
  }

  /** Running weights never decrease. */
  lemma {:induction false} WeightMonotone(entries: seq<PolyglotEntry>, m: nat, n: nat)
    requires m <= n <= |entries|
    ensures WeightBefore(entries, m) <= WeightBefore(entries, n)
    decreases n - m
  {
    if m < n {
      WeightMonotone(entries, m, n - 1);
    }
  }

  /** Each record is picked by exactly `weight` of the draws, so records
      are drawn in proportion to their weights. */
  lemma SliceLength(entries: seq<PolyglotEntry>, i: nat)
    requires i < |entries|
    ensures |set d: nat | d < TotalWeight(entries) && InSlice(entries, d, i)| == entries[i].weight
  {
    var lo, hi := WeightBefore(entries, i), WeightBefore(entries, i + 1);
    WeightMonotone(entries, i + 1, |entries|);
    assert (set d: nat | d < TotalWeight(entries) && InSlice(entries, d, i)) == (set d: nat | d < hi && Between(lo, hi, d));
    RangeSize(lo, hi);
  }

  predicate Between(lo: nat, hi: nat, d: nat) { lo <= d < hi }

  /** The naturals from lo up to hi are hi - lo many. */
  lemma {:induction false} RangeSize(lo: nat, hi: nat)
    requires lo <= hi
    ensures |set d: nat | d < hi && Between(lo, hi, d)| == hi - lo
    decreases hi - lo
  {
    if lo < hi {
      var below := hi - 1;
      RangeSize(lo, below);
      assert (set d: nat | d < hi && Between(lo, hi, d)) == (set d: nat | d < below && Between(lo, below, d)) + {below};
    } else {
      assert (set d: nat | d < hi && Between(lo, hi, d)) == {};
    }
  }

  /** `get_random_move`: the entries of the board's key, then a weighted
      draw. The random numbers are parameters: `pick` is the uniform index
      of `choose`, `draw` the value of `gen_range(0..total_weight)`. */
  method GetRandomMove(book: Book, value: KeyValue, p: Position, pick: nat, draw: nat)
    returns (r: Result<Move, PolyglotError>)
    requires NoEmptyTiles(p.tiles) && WellFormed(book)
    requires var key := value(PolyglotHasher.PolyglotKey(p));
      key in book ==> pick < |book[key]| && (TotalWeight(book[key]) > 0 ==> draw < TotalWeight(book[key]))
    ensures var key := value(PolyglotHasher.PolyglotKey(p));
      && (key !in book <==> r == Err(NoEntries))
      && (key in book && TotalWeight(book[key]) == 0 ==> r == ToMove(book[key][pick].mov, p))
      && (key in book && TotalWeight(book[key]) > 0 ==>
            exists i :: 0 <= i < |book[key]| && InSlice(book[key], draw, i) && book[key][i].weight > 0
                        && r == ToMove(book[key][i].mov, p))
  {
    var found := GetEntries(book, value, p);
    if found.Err? {
      return Err(found.error);
    }
    var entries := found.value;
    assert entries == book[value(PolyglotHasher.PolyglotKey(p))];
    var totalWeight := TotalWeight(entries);
    if totalWeight == 0 {
      assert entries[pick] in entries;
      return ToMove(entries[pick].mov, p);
    }
    var i := SelectEntry(entries, draw);
    assert entries[i] in entries;
    r := ToMove(entries[i].mov, p);
  }
}
