/** Forsyth–Edwards Notation for the board (crates/base/src/board/board.rs,
    `from_str` and `to_fen`), as section 16.1 of the PGN standard lays it
    out: six fields separated by single spaces — the piece placement rank
    by rank from the eighth, the side to move, the castling rights, the
    en-passant square, the halfmove clock and the fullmove number. */
module Fen {
  import opened Wrappers
  import opened Pieces
  import opened Squares
  import opened Zobrist
  import opened Positions

  /** The ways `from_str` fails. `OffBoard` stands for the inputs on which
      the source stops at a debug assertion or an arithmetic overflow
      check: a piece on a ninth rank or file, an en-passant file below
      `a`, and so on. */
  datatype FenError =
    | NotEnoughParts
    | InvalidPiece(ch: char)
    | WrongActiveColor(color: string)
    | WrongCastlingAvailability(ch: char)
    | InvalidEnPassant(square: string)
    | InvalidNumber(text: string)
    | OffBoard

  // ----- fields -----

  /** `str::split` on a single character: every occurrence of `sep` ends
      a part, so the parts are one more than the separators. */
  function Split(s: string, sep: char): (parts: seq<string>)
    ensures |parts| >= 1
    ensures forall i :: 0 <= i < |parts| ==> sep !in parts[i]
    decreases |s|
  {
    if |s| == 0 then [""]
    else
      var rest := Split(s[1..], sep);
      if s[0] == sep then [""] + rest
      else [[s[0]] + rest[0]] + rest[1..]
  }

  /** The parts written back with `sep` between each two. */
  function Join(parts: seq<string>, sep: char): string
    requires |parts| >= 1
    decreases |parts|
  {
    if |parts| == 1 then parts[0] else parts[0] + [sep] + Join(parts[1..], sep)
  }

  /** Joining the parts of a split gives the string back. */
  lemma {:induction false} JoinSplit(s: string, sep: char)
    ensures Join(Split(s, sep), sep) == s
    decreases |s|
  {
    if |s| > 0 {
      var rest := Split(s[1..], sep);
      JoinSplit(s[1..], sep);
      if s[0] == sep {
        assert ([""] + rest)[1..] == rest;
      } else if |rest| == 1 {
        assert [s[0]] + rest[0] == s;
      } else {
        var parts := [[s[0]] + rest[0]] + rest[1..];
        assert parts[1..] == rest[1..];
        assert s == [s[0]] + s[1..];
      }
    }
  }

  /** None of the parts holds `c`. */
  predicate Free(parts: seq<string>, c: char)
  {
    forall i :: 0 <= i < |parts| ==> c !in parts[i]
  }

  /** Splitting parts that hold no separator, once joined, gives the
      parts back. */
  lemma {:induction false} SplitJoin(parts: seq<string>, sep: char)
    requires |parts| >= 1 && Free(parts, sep)
    ensures Split(Join(parts, sep), sep) == parts
    decreases |parts|
  {
    if |parts| == 1 {
      SplitPrefix(parts[0], "", sep);
      assert parts[0] + "" == parts[0];
    } else {
      var tail := [sep] + Join(parts[1..], sep);
      FreeTail(parts, sep);
      SplitJoin(parts[1..], sep);
      assert Split(tail, sep) == [""] + parts[1..] by {
        assert tail[1..] == Join(parts[1..], sep);
      }
      SplitPrefix(parts[0], tail, sep);
      assert parts[0] + [sep] + Join(parts[1..], sep) == parts[0] + tail;
      var rest := Split(tail, sep);
      assert rest[0] == "" && rest[1..] == parts[1..];
      assert parts[0] + rest[0] == parts[0];
      assert parts == [parts[0]] + parts[1..];
    }
  }

  /** Parts free of `c`, joined by another character, are free of `c`. */
  lemma {:induction false} JoinChars(parts: seq<string>, sep: char, c: char)
    requires |parts| >= 1 && sep != c && Free(parts, c)
    ensures c !in Join(parts, sep)
    decreases |parts|
  {
    if |parts| > 1 {
      FreeTail(parts, c);
      JoinChars(parts[1..], sep, c);
    }
  }

  /** A part free of `c` in front of parts free of `c`. */
  lemma FreeCons(part: string, parts: seq<string>, c: char)
    requires c !in part && Free(parts, c)
    ensures Free([part] + parts, c)
  {
    assert forall i :: 1 <= i < |parts| + 1 ==> ([part] + parts)[i] == parts[i - 1];
  }

  /** The parts after the first hold no character the parts do not. */
  lemma FreeTail(parts: seq<string>, c: char)
    requires |parts| >= 1 && Free(parts, c)
    ensures c !in parts[0] && Free(parts[1..], c)
  {
    assert forall i :: 1 <= i < |parts| ==> parts[1..][i - 1] == parts[i];
  }

  /** A separator-free prefix joins the first part of what follows it. */
  lemma {:induction false} SplitPrefix(a: string, tail: string, sep: char)
    requires sep !in a
    ensures Split(a + tail, sep) == [a + Split(tail, sep)[0]] + Split(tail, sep)[1..]
    decreases |a|
  {
    if |a| > 0 {
      SplitPrefix(a[1..], tail, sep);
      assert (a + tail)[1..] == a[1..] + tail;
      assert [a[0]] + (a[1..] + Split(tail, sep)[0]) == a + Split(tail, sep)[0];
    } else {
      var rest := Split(tail, sep);
      assert a + tail == tail;
      assert a + rest[0] == rest[0];
      assert [rest[0]] + rest[1..] == rest;
    }
  }

  // ----- decimal numbers -----

  function DigitValue(c: char): (d: nat)
    requires IsDigit(c)
    ensures d <= 9
  {
    c as int - '0' as int
  }

  function DigitChar(d: nat): (c: char)
    requires d <= 9
    ensures IsDigit(c) && DigitValue(c) == d
  {
    ('0' as int + d) as char
  }

  /** `to_string` of a count: its decimal digits, most significant first,
      without leading zeros. */
  function Decimal(n: nat): (s: string)
    ensures |s| >= 1 && forall i :: 0 <= i < |s| ==> IsDigit(s[i])
    ensures n < 10 ==> s == [DigitChar(n)]
    decreases n
  {
    if n < 10 then [DigitChar(n)] else Decimal(n / 10) + [DigitChar(n % 10)]
  }

  /** The number a string of decimal digits stands for. */
  function DecimalValue(s: string): nat
    requires forall i :: 0 <= i < |s| ==> IsDigit(s[i])
    decreases |s|
  {
    if |s| == 0 then 0 else DecimalValue(s[..|s| - 1]) * 10 + DigitValue(s[|s| - 1])
  }

  lemma {:induction false} DecimalRoundTrip(n: nat)
    ensures DecimalValue(Decimal(n)) == n
    decreases n
  {
    if n >= 10 {
      DecimalRoundTrip(n / 10);
      var s := Decimal(n);
      assert s[..|s| - 1] == Decimal(n / 10);
    }
  }

  predicate AllDigits(s: string)
  {
    forall i :: 0 <= i < |s| ==> IsDigit(s[i])
  }

  /** `str::parse::<u16>`: an optional `+`, then one or more decimal
      digits standing for at most 65535. The kinds of `ParseIntError` are
      not told apart. */
  function ParseU16(s: string): (r: Result<U16, FenError>)
  {
    var digits := if |s| > 0 && s[0] == '+' then s[1..] else s;
    if |digits| == 0 || !AllDigits(digits) then Err(InvalidNumber(s))
    else if DecimalValue(digits) > 0xFFFF then Err(InvalidNumber(s))
    else Ok(DecimalValue(digits))
  }

  /** A counter written by `to_string` is read back by `parse`. */
  lemma ParseU16Decimal(n: U16)
    ensures ParseU16(Decimal(n)) == Ok(n)
  {
    DecimalRoundTrip(n);
  }

  /** A sign other than `+`, or no digit at all, is refused. */
  lemma ParseU16Rejects(s: string)
    requires |s| == 0 || s[0] == '-' || s == "+"
    ensures ParseU16(s).Err?
  {
    if |s| > 0 && s[0] == '-' {
      assert !IsDigit(s[0]);
    }
  }

  // ----- piece placement -----

  /** A tile put down by the placement field. */
  datatype Placement = Placement(tile: Tile, square: Square)

  /** Placements on pairwise distinct squares. */
  predicate Distinct(ps: seq<Placement>)
  {
    forall i, j :: 0 <= i < j < |ps| ==> ps[i].square != ps[j].square
  }

  /** Placements from left to right along a rank. */
  predicate Increasing(ps: seq<Placement>)
  {
    forall i, j :: 0 <= i < j < |ps| ==> ps[i].square < ps[j].square
  }

  /** One rank of the placement field, `index` ranks below the eighth,
      read from file `file` on: a digit skips that many files, a piece
      letter puts its tile down and moves one file on. The file counter
      is a `u8`, a piece needs a rank and a file on the board, and a
      letter that names no piece is refused. */
  function ParseRank(s: string, index: nat, file: nat): Result<seq<Placement>, FenError>
    decreases |s|
  {
    if |s| == 0 then Ok([])
    else if IsDigit(s[0]) then
      var f := file + DigitValue(s[0]);
      if f > 255 then Err(OffBoard) else ParseRank(s[1..], index, f)
    else if index > 7 then Err(OffBoard)
    else match TileFromFen(s[0])
      case None => Err(InvalidPiece(s[0]))
      case Some(t) =>
        if file > 7 then Err(OffBoard)
        else match ParseRank(s[1..], index, file + 1)
          case Err(e) => Err(e)
          case Ok(rest) => Ok([Placement(t, New(7 - index, file))] + rest)
  }

  /** The ranks of the placement field in order, the first `index` ranks
      below the eighth. */
  function ParseRanks(ranks: seq<string>, index: nat): Result<seq<Placement>, FenError>
    decreases |ranks|
  {
    if |ranks| == 0 then Ok([])
    else match ParseRank(ranks[0], index, 0)
      case Err(e) => Err(e)
      case Ok(ps) =>
        match ParseRanks(ranks[1..], index + 1)
        case Err(e) => Err(e)
        case Ok(qs) => Ok(ps + qs)
  }

  /** Real pieces, all on `rank` and from file `file` on: the squares
      `rank * 8 + file` to the end of the rank. */
  predicate OnRank(ps: seq<Placement>, rank: int, file: int)
  {
    forall i :: 0 <= i < |ps| ==>
      rank * 8 + file <= ps[i].square < rank * 8 + 8 && ps[i].tile.piece != NoPiece
  }

  /** Real pieces, all on `rank` or below. */
  predicate NotAbove(ps: seq<Placement>, rank: int)
  {
    forall i :: 0 <= i < |ps| ==> ps[i].square < rank * 8 + 8 && ps[i].tile.piece != NoPiece
  }

  /** A rank reads as real pieces on that rank, left to right. */
  lemma {:induction false} ParseRankShape(s: string, index: nat, file: nat)
    ensures var r := ParseRank(s, index, file);
      r.Ok? ==> Increasing(r.value) && OnRank(r.value, 7 - index, file)
    decreases |s|
  {
    if |s| > 0 {
      if IsDigit(s[0]) {
        var f := file + DigitValue(s[0]);
        if f <= 255 {
          ParseRankShape(s[1..], index, f);
        }
      } else if index <= 7 && TileFromFen(s[0]).Some? && file <= 7 {
        var next := file + 1;
        ParseRankShape(s[1..], index, next);
        var r := ParseRank(s[1..], index, next);
        if r.Ok? {
          ConsOnRank(TileFromFen(s[0]).value, r.value, 7 - index, file);
          assert ParseRank(s, index, file) == Ok([Placement(TileFromFen(s[0]).value, New(7 - index, file))] + r.value);
        }
      }
    }
  }

  /** A real piece at the start of what follows it on the rank. */
  lemma ConsOnRank(tile: Tile, rest: seq<Placement>, rank: int, file: int)
    requires 0 <= rank <= 7 && 0 <= file <= 7 && tile.piece != NoPiece
    requires Increasing(rest) && OnRank(rest, rank, file + 1)
    ensures var ps := [Placement(tile, New(rank, file))] + rest;
      Increasing(ps) && OnRank(ps, rank, file)
  {
    var ps := [Placement(tile, New(rank, file))] + rest;
    assert forall i :: 1 <= i < |ps| ==> ps[i] == rest[i - 1];
  }

  /** The ranks read as real pieces on distinct squares, none above the
      first rank read. */
  lemma {:induction false} ParseRanksShape(ranks: seq<string>, index: nat)
    ensures var r := ParseRanks(ranks, index);
      r.Ok? ==> Distinct(r.value) && NotAbove(r.value, 7 - index)
    decreases |ranks|
  {
    if |ranks| > 0 {
      ParseRankShape(ranks[0], index, 0);
      ParseRanksShape(ranks[1..], index + 1);
      var a := ParseRank(ranks[0], index, 0);
      var b := ParseRanks(ranks[1..], index + 1);
      if a.Ok? && b.Ok? {
        assert ParseRanks(ranks, index) == Ok(a.value + b.value);
        AppendRanks(a.value, b.value, 7 - index);
      }
    }
  }

  /** A rank's placements followed by those of the ranks below it. */
  lemma AppendRanks(a: seq<Placement>, b: seq<Placement>, rank: int)
    requires Increasing(a) && OnRank(a, rank, 0)
    requires Distinct(b) && NotAbove(b, rank - 1)
    ensures Distinct(a + b) && NotAbove(a + b, rank)
  {
    var ps := a + b;
    assert forall i :: |a| <= i < |ps| ==> ps[i] == b[i - |a|];
  }

  /** The tiles of `Board::empty`. */
  function EmptyTiles(): Tiles { seq(64, _ => None) }

  /** The toggles of the placements, in order, from `t`. */
  function PlaceAll(t: Tiles, ps: seq<Placement>): Tiles
    decreases |ps|
  {
    if |ps| == 0 then t
    else
      var last := ps[|ps| - 1];
      ToggleTile(PlaceAll(t, ps[..|ps| - 1]), last.tile.color, last.tile.piece, last.square)
  }

  /** The tile the last placement on `q` puts down, if any. */
  function TileAt(ps: seq<Placement>, q: Square): Option<Tile>
    decreases |ps|
  {
    if |ps| == 0 then None
    else if ps[|ps| - 1].square == q then Some(ps[|ps| - 1].tile)
    else TileAt(ps[..|ps| - 1], q)
  }

  /** No placement on `q` leaves nothing there. */
  lemma {:induction false} TileAtAbsent(ps: seq<Placement>, q: Square)
    requires forall i :: 0 <= i < |ps| ==> ps[i].square != q
    ensures TileAt(ps, q).None?
    decreases |ps|
  {
    if |ps| > 0 {
      TileAtAbsent(ps[..|ps| - 1], q);
    }
  }

  /** Placements on distinct squares, toggled onto an empty board, leave
      each square holding the tile placed on it. */
  lemma {:induction false} PlaceAllTileAt(ps: seq<Placement>, q: Square)
    requires Distinct(ps)
    ensures PlaceAll(EmptyTiles(), ps)[q] == TileAt(ps, q)
    decreases |ps|
  {
    if |ps| > 0 {
      var init := ps[..|ps| - 1];
      assert Distinct(init);
      PlaceAllTileAt(init, q);
      if ps[|ps| - 1].square == q {
        assert forall i :: 0 <= i < |init| ==> init[i].square != q by {
          forall i | 0 <= i < |init| ensures init[i].square != q {
            assert ps[i].square != ps[|ps| - 1].square;
          }
        }
        TileAtAbsent(init, q);
      }
    }
  }

  /** The later placements win. */
  lemma {:induction false} TileAtConcat(a: seq<Placement>, b: seq<Placement>, q: Square)
    ensures TileAt(a + b, q) == if TileAt(b, q).Some? then TileAt(b, q) else TileAt(a, q)
    decreases |b|
  {
    if |b| == 0 {
      assert a + b == a;
    } else {
      assert (a + b)[..|a + b| - 1] == a + b[..|b| - 1];
      TileAtConcat(a, b[..|b| - 1], q);
    }
  }

  // ----- castling rights -----

  datatype Castling = Castling(whiteKingside: bool, whiteQueenside: bool, blackKingside: bool, blackQueenside: bool)

  const NoRights := Castling(false, false, false, false)

  /** The castling field up to its first `-`. */
  function BeforeDash(s: string): (r: string)
    ensures |r| <= |s| && r == s[..|r|] && '-' !in r
    decreases |s|
  {
    if |s| == 0 || s[0] == '-' then "" else [s[0]] + BeforeDash(s[1..])
  }

  /** The castling field: the letters up to a `-` each grant a right; a
      letter of another piece is refused, and a character that names no
      piece at all fails as a piece letter. */
  function ParseCastling(s: string, c: Castling): Result<Castling, FenError>
    decreases |s|
  {
    if |s| == 0 || s[0] == '-' then Ok(c)
    else match TileFromFen(s[0])
      case None => Err(InvalidPiece(s[0]))
      case Some(t) =>
        if t == Tile(Queen, Black) then ParseCastling(s[1..], c.(blackQueenside := true))
        else if t == Tile(Queen, White) then ParseCastling(s[1..], c.(whiteQueenside := true))
        else if t == Tile(King, Black) then ParseCastling(s[1..], c.(blackKingside := true))
        else if t == Tile(King, White) then ParseCastling(s[1..], c.(whiteKingside := true))
        else Err(WrongCastlingAvailability(s[0]))
  }

  /** The castling field is accepted exactly when every letter before
      its first `-` names a right, and each right is then granted exactly
      when its letter is there. */
  lemma {:induction false} ParseCastlingMeaning(s: string, c: Castling)
    ensures var r := ParseCastling(s, c);
      r.Ok? <==> RightLetters(BeforeDash(s))
    ensures var r := ParseCastling(s, c);
      r.Ok? ==> r.value == Castling(
        c.whiteKingside || 'K' in BeforeDash(s), c.whiteQueenside || 'Q' in BeforeDash(s),
        c.blackKingside || 'k' in BeforeDash(s), c.blackQueenside || 'q' in BeforeDash(s))
    decreases |s|
  {
    if |s| > 0 && s[0] != '-' {
      var d := BeforeDash(s);
      var rest := BeforeDash(s[1..]);
      assert d == [s[0]] + rest;
      if s[0] in "KQkq" {
        ParseCastlingStep(s, c);
        ParseCastlingMeaning(s[1..], Grant(c, s[0]));
        GrantLetter(c, s[0], rest);
        RightLettersCons(s[0], rest);
      } else {
        ParseCastlingOther(s, c);
        RightLettersCons(s[0], rest);
      }
    }
  }

  /** Every character names a castling right. */
  predicate RightLetters(d: string)
  {
    forall i :: 0 <= i < |d| ==> d[i] in "KQkq"
  }

  lemma RightLettersCons(ch: char, rest: string)
    ensures RightLetters([ch] + rest) <==> ch in "KQkq" && RightLetters(rest)
  {
    var d := [ch] + rest;
    assert d[0] == ch;
    assert forall i :: 0 <= i < |rest| ==> d[i + 1] == rest[i];
  }

  /** A right's letter in front grants the right and reads on. */
  lemma ParseCastlingStep(s: string, c: Castling)
    requires |s| > 0 && s[0] in "KQkq"
    ensures ParseCastling(s, c) == ParseCastling(s[1..], Grant(c, s[0]))
  {
  }

  /** Any other character in front is refused. */
  lemma ParseCastlingOther(s: string, c: Castling)
    requires |s| > 0 && s[0] != '-' && s[0] !in "KQkq"
    ensures ParseCastling(s, c).Err?
  {
    var t := TileFromFen(s[0]);
    if t.Some? {
      TileFenRoundTrip(t.value, s[0]);
    }
  }

  /** Granting a letter's right is the same as finding the letter. */
  lemma GrantLetter(c: Castling, ch: char, rest: string)
    requires ch in "KQkq"
    ensures var g := Grant(c, ch); var d := [ch] + rest;
      && (g.whiteKingside || 'K' in rest) == (c.whiteKingside || 'K' in d)
      && (g.whiteQueenside || 'Q' in rest) == (c.whiteQueenside || 'Q' in d)
      && (g.blackKingside || 'k' in rest) == (c.blackKingside || 'k' in d)
      && (g.blackQueenside || 'q' in rest) == (c.blackQueenside || 'q' in d)
  {
  }

  /** The castling field `to_fen` writes: `KQkq` in that order for the
      rights held, or `-` for none. */
  function CastlingText(c: Castling): string
  {
    var s := (if c.whiteKingside then "K" else "") + (if c.whiteQueenside then "Q" else "")
           + (if c.blackKingside then "k" else "") + (if c.blackQueenside then "q" else "");
    if s == "" then "-" else s
  }

  /** The right a castling letter grants. */
  function Grant(c: Castling, letter: char): Castling
  {
    match letter
    case 'K' => c.(whiteKingside := true)
    case 'Q' => c.(whiteQueenside := true)
    case 'k' => c.(blackKingside := true)
    case _ => c.(blackQueenside := true)
  }

  /** Reading an optional castling letter in front of the rest of the
      field grants its right and goes on with the rest. */
  lemma ParseCastlingLetter(present: bool, letter: char, rest: string, c: Castling)
    requires letter == 'K' || letter == 'Q' || letter == 'k' || letter == 'q'
    ensures ParseCastling((if present then [letter] else "") + rest, c)
         == ParseCastling(rest, if present then Grant(c, letter) else c)
  {
    if present {
      assert ([letter] + rest)[1..] == rest;
    } else {
      assert "" + rest == rest;
    }
  }

  /** The castling field `to_fen` writes reads back as the same rights. */
  lemma CastlingRoundTrip(c: Castling)
    ensures ParseCastling(CastlingText(c), NoRights) == Ok(c)
  {
    var wk := if c.whiteKingside then "K" else "";
    var wq := if c.whiteQueenside then "Q" else "";
    var bk := if c.blackKingside then "k" else "";
    var bq := if c.blackQueenside then "q" else "";
    var letters := wk + wq + bk + bq;
    if letters == "" {
      assert |letters| == |wk| + |wq| + |bk| + |bq|;
    } else {
      assert letters == wk + (wq + (bk + (bq + "")));
      var c1 := if c.whiteKingside then Grant(NoRights, 'K') else NoRights;
      var c2 := if c.whiteQueenside then Grant(c1, 'Q') else c1;
      var c3 := if c.blackKingside then Grant(c2, 'k') else c2;
      var c4 := if c.blackQueenside then Grant(c3, 'q') else c3;
      ParseCastlingLetter(c.whiteKingside, 'K', wq + (bk + (bq + "")), NoRights);
      ParseCastlingLetter(c.whiteQueenside, 'Q', bk + (bq + ""), c1);
      ParseCastlingLetter(c.blackKingside, 'k', bq + "", c2);
      ParseCastlingLetter(c.blackQueenside, 'q', "", c3);
      assert c4 == c;
    }
  }

  // ----- en passant -----

  /** The en-passant field: `-`, or a file letter and a rank digit from
      1 to 8 naming the square the capturing pawn lands on; the pawn to be
      taken stands one rank nearer the side to move. Further characters
      are ignored. The file is the low byte of the letter minus `a`, a
      `u8` subtraction. */
  function ParseEnPassant(s: string, active: Color): (r: Result<Option<EnPassantTarget>, FenError>)
    ensures r.Ok? && r.value.Some? ==>
      && |s| >= 2 && IsDigit(s[1]) && Rank(r.value.value.toMove) == DigitValue(s[1]) - 1
      && File(r.value.value.toMove) == File(r.value.value.toCapture) == s[0] as int % 256 - 'a' as int
      && r.value.value.toCapture == r.value.value.toMove + (if active == White then -8 else 8)
    ensures r.Ok? && r.value.None? <==> s == "-"
    ensures |s| >= 2 && IsDigit(s[1]) && (DigitValue(s[1]) < 1 || DigitValue(s[1]) > 8) ==> r.Err?
  {
    if s == "-" then Ok(None)
    else if |s| == 0 then Err(InvalidEnPassant(s))
    else
      var code := s[0] as int % 256;
      if code < 'a' as int then Err(OffBoard)
      else
        var file := code - 'a' as int;
        if |s| < 2 || !IsDigit(s[1]) then Err(InvalidEnPassant(s))
        else
          var rank := DigitValue(s[1]);
          if rank < 1 || rank > 8 then Err(InvalidEnPassant(s))
          else if file > 7 then Err(OffBoard)
          else
            var toMoveRank := rank - 1;
            var toCaptureRank := if active == White then toMoveRank - 1 else toMoveRank + 1;
            if toCaptureRank < 0 || toCaptureRank > 7 then Err(OffBoard)
            else
              NewRankFile(toMoveRank, file);
              NewRankFile(toCaptureRank, file);
              Ok(Some(EnPassantTarget(New(toMoveRank, file), New(toCaptureRank, file))))
  }

  /** A target as a double push leaves it for the side to move: the
      square passed over is on the sixth rank (White to move) or the third
      (Black to move), and the pawn to take is just beyond it. */
  predicate EnPassantFits(ep: Option<EnPassantTarget>, active: Color)
  {
    ep.Some? ==>
      && Rank(ep.value.toMove) == (if active == White then 5 else 2)
      && ep.value.toCapture == ep.value.toMove + (if active == White then -8 else 8)
  }

  /** The en-passant field as section 16.1 of the PGN standard defines it:
      the square the capturing pawn lands on. */
  function EnPassantText(ep: Option<EnPassantTarget>): string
  {
    if ep.None? then "-" else Squares.ToString(ep.value.toMove)
  }

  /** The en-passant field as `to_fen` writes it: the square of the pawn
      to be taken. */
  function EnPassantTextAsWritten(ep: Option<EnPassantTarget>): string
  {
    if ep.None? then "-" else Squares.ToString(ep.value.toCapture)
  }

  lemma EnPassantRoundTrip(ep: Option<EnPassantTarget>, active: Color)
    requires EnPassantFits(ep, active)
    ensures ParseEnPassant(EnPassantText(ep), active) == Ok(ep)
  {
    if ep.Some? {
      var e := ep.value;
      var m := e.toMove;
      var rank, file := Rank(m), File(m);
      assert m == rank * 8 + file;
      var s := EnPassantText(ep);
      assert s == ToString(m);
      assert s[0] as int % 256 == 'a' as int + file;
      assert IsDigit(s[1]) && DigitValue(s[1]) == rank + 1;
      var capRank := if active == White then rank - 1 else rank + 1;
      assert ParseEnPassant(s, active) == Ok(Some(EnPassantTarget(New(rank, file), New(capRank, file))));
    }
  }

  /** With White to move after e7-e5, `to_fen` writes `e5`, which reads
      back as a target on e5 with the pawn on e4. */
  lemma EnPassantTextAsWrittenBreaksRoundTrip()
    ensures var ep := Some(EnPassantTarget(44, 36));
      && EnPassantFits(ep, White)
      && EnPassantTextAsWritten(ep) == "e5"
      && ParseEnPassant(EnPassantTextAsWritten(ep), White) == Ok(Some(EnPassantTarget(36, 28)))
  {
    var ep := Some(EnPassantTarget(44, 36));
    assert EnPassantTextAsWritten(ep) == ['e', '5'];
  }

  // ----- the whole record -----

  /** The position `from_str` builds from parsed fields: the tiles, a
      state with the hash computed from scratch, no capture recorded and
      the pins, checkers and attacked squares of `update_game_state`, and
      no saved states. */
  function FenPosition(tiles: Tiles, active: Color, c: Castling, ep: Option<EnPassantTarget>,
                       halfmoves: U16, fullmoves: U16, analyse: Analyser): Position
  {
    var rights := Rights(c.whiteKingside, c.whiteQueenside, c.blackKingside, c.blackQueenside);
    var toCapture := if ep.Some? then Some(ep.value.toCapture) else None;
    var state := GameState(Hash(tiles, active, rights, toCapture), active, halfmoves, fullmoves, ep,
                           c.whiteKingside, c.whiteQueenside, c.blackKingside, c.blackQueenside,
                           {}, {}, {}, NoPiece);
    Analyse(Position(tiles, state, []), analyse)
  }

  /** The position `from_str` builds keeps its tiles and side to move,
      has no saved states and a hash that matches it. */
  lemma FenPositionSynced(tiles: Tiles, active: Color, c: Castling, ep: Option<EnPassantTarget>,
                          halfmoves: U16, fullmoves: U16, analyse: Analyser)
    ensures var p := FenPosition(tiles, active, c, ep, halfmoves, fullmoves, analyse);
      p.tiles == tiles && p.state.active == active && p.history == [] && Synced(p)
  {
  }

  /** `Board::from_str`: the six fields are read in order and the first
      failure is returned. */
  function ParseFen(fen: string, analyse: Analyser): (r: Result<Position, FenError>)
    ensures |Split(fen, ' ')| != 6 ==> r == Err(NotEnoughParts)
    ensures r.Ok? ==> var parts := Split(fen, ' ');
      && (parts[1] == "w" || parts[1] == "b")
      && r.value.state.active == (if parts[1] == "w" then White else Black)
      && r.value.history == [] && Synced(r.value) && NoEmptyTiles(r.value.tiles)
  {
    var parts := Split(fen, ' ');
    if |parts| != 6 then Err(NotEnoughParts)
    else
      var placed := ParseRanks(Split(parts[0], '/'), 0);
      if placed.Err? then Err(placed.error)
      else if parts[1] != "w" && parts[1] != "b" then Err(WrongActiveColor(parts[1]))
      else
        var active := if parts[1] == "w" then White else Black;
        var castling := ParseCastling(parts[2], NoRights);
        if castling.Err? then Err(castling.error)
        else
          var ep := ParseEnPassant(parts[3], active);
          if ep.Err? then Err(ep.error)
          else
            var halfmoves := ParseU16(parts[4]);
            if halfmoves.Err? then Err(halfmoves.error)
            else
              var fullmoves := ParseU16(parts[5]);
              if fullmoves.Err? then Err(fullmoves.error)
              else
                ParseRanksShape(Split(parts[0], '/'), 0);
                PlacedNoEmpty(placed.value);
                FenPositionSynced(PlaceAll(EmptyTiles(), placed.value), active, castling.value, ep.value,
                                  halfmoves.value, fullmoves.value, analyse);
                Ok(FenPosition(PlaceAll(EmptyTiles(), placed.value), active, castling.value, ep.value,
                               halfmoves.value, fullmoves.value, analyse))
  }

  /** Placing only real pieces leaves no tile without one. */
  lemma PlacedNoEmpty(ps: seq<Placement>)
    requires Distinct(ps) && NotAbove(ps, 7)
    ensures NoEmptyTiles(PlaceAll(EmptyTiles(), ps))
  {
    forall q: Square | PlaceAll(EmptyTiles(), ps)[q].Some?
      ensures PlaceAll(EmptyTiles(), ps)[q].value.piece != NoPiece
    {
      PlaceAllTileAt(ps, q);
      TileAtPiece(ps, q);
    }
  }

  /** The tile found for a square is one of the placements'. */
  lemma {:induction false} TileAtPiece(ps: seq<Placement>, q: Square)
    requires forall i :: 0 <= i < |ps| ==> ps[i].tile.piece != NoPiece
    ensures TileAt(ps, q).Some? ==> TileAt(ps, q).value.piece != NoPiece
    decreases |ps|
  {
    if |ps| > 0 && ps[|ps| - 1].square != q {
      TileAtPiece(ps[..|ps| - 1], q);
    }
  }

  // ----- writing -----

  /** `to_fen` for one rank from file `file` on, with `empty` empty
      squares counted before it: each run of empty squares becomes its
      length, each tile its letter. */
  function RowText(t: Tiles, rank: int, file: int, empty: nat): string
    requires 0 <= rank <= 7 && 0 <= file <= 8 && NoEmptyTiles(t)
    decreases 8 - file
  {
    var run := if empty > 0 then Decimal(empty) else "";
    if file == 8 then run
    else
      var tile := t[New(rank, file)];
      if tile.Some? then
        run + [TileToFen(tile.value)] + RowText(t, rank, file + 1, 0)
      else RowText(t, rank, file + 1, empty + 1)
  }

  /** The ranks from `rank` down to the first, as `to_fen` writes them. */
  function RowsFrom(t: Tiles, rank: int): (rows: seq<string>)
    requires 0 <= rank <= 7 && NoEmptyTiles(t)
    ensures |rows| == rank + 1
    decreases rank
  {
    [RowText(t, rank, 0, 0)] + (if rank > 0 then RowsFrom(t, rank - 1) else [])
  }

  /** A rank's text holds neither separator. */
  lemma {:induction false} RowTextChars(t: Tiles, rank: int, file: int, empty: nat)
    requires 0 <= rank <= 7 && 0 <= file <= 8 && NoEmptyTiles(t)
    ensures var s := RowText(t, rank, file, empty); '/' !in s && ' ' !in s
    decreases 8 - file
  {
    if file < 8 {
      var tile := t[New(rank, file)];
      if tile.Some? {
        TileFenRoundTrip(tile.value, ' ');
        TileFenRoundTrip(tile.value, '/');
        RowTextChars(t, rank, file + 1, 0);
      } else {
        RowTextChars(t, rank, file + 1, empty + 1);
      }
    }
  }

  lemma {:induction false} RowsFromChars(t: Tiles, rank: int)
    requires 0 <= rank <= 7 && NoEmptyTiles(t)
    ensures Free(RowsFrom(t, rank), '/') && Free(RowsFrom(t, rank), ' ')
    decreases rank
  {
    var row := RowText(t, rank, 0, 0);
    var rows := RowsFrom(t, rank);
    RowTextChars(t, rank, 0, 0);
    RowsFromFront(t, rank);
    if rank > 0 {
      var below := rank - 1;
      var rest := RowsFrom(t, below);
      RowsFromChars(t, below);
      FreeCons(row, rest, '/');
      FreeCons(row, rest, ' ');
      assert rows == [row] + rest;
    } else {
      FreeCons(row, [], '/');
      FreeCons(row, [], ' ');
      assert rows == [row] + [];
    }
  }

  /** The placement field: the ranks from the eighth, separated by `/`. */
  function PlacementText(t: Tiles): string
    requires NoEmptyTiles(t)
  {
    Join(RowsFrom(t, 7), '/')
  }

  function ActiveText(c: Color): string
  {
    if c == White then "w" else "b"
  }

  function CastlingOf(st: GameState): Castling
  {
    Castling(st.whiteKingside, st.whiteQueenside, st.blackKingside, st.blackQueenside)
  }

  /** The six fields `to_fen` writes, with the en-passant field corrected
      to the landing square. */
  function FenFields(p: Position): (fields: seq<string>)
    requires NoEmptyTiles(p.tiles)
    ensures |fields| == 6
  {
    [PlacementText(p.tiles), ActiveText(p.state.active), CastlingText(CastlingOf(p.state)),
     EnPassantText(p.state.enPassant), Decimal(p.state.halfmoves), Decimal(p.state.fullmoves)]
  }

  function FenText(p: Position): string
    requires NoEmptyTiles(p.tiles)
  {
    Join(FenFields(p), ' ')
  }

  /** `RowText`, one square unfolded. */
  lemma RowTextStep(t: Tiles, rank: int, file: int, empty: nat)
    requires 0 <= rank <= 7 && 0 <= file < 8 && NoEmptyTiles(t)
    ensures var tile := t[New(rank, file)]; var run := if empty > 0 then Decimal(empty) else "";
      RowText(t, rank, file, empty) ==
        if tile.Some? then run + [TileToFen(tile.value)] + RowText(t, rank, file + 1, 0)
        else RowText(t, rank, file + 1, empty + 1)
  {
  }

  /** The step of `to_fen`'s square loop: a tile writes the pending run
      and its letter and restarts the count; an empty square extends the
      count. */
  lemma RowTextAppend(t: Tiles, rank: int, file: int, empty: nat, row: string)
    requires 0 <= rank <= 7 && 0 <= file < 8 && NoEmptyTiles(t)
    ensures var tile := t[New(rank, file)];
      tile.Some? ==>
        row + RowText(t, rank, file, empty) ==
          (row + (if empty > 0 then Decimal(empty) else "") + [TileToFen(tile.value)]) + RowText(t, rank, file + 1, 0)
    ensures t[New(rank, file)].None? ==> RowText(t, rank, file, empty) == RowText(t, rank, file + 1, empty + 1)
  {
    RowTextStep(t, rank, file, empty);
  }

  /** `RowText` at the end of the rank: the pending run, if any. */
  lemma RowTextEnd(t: Tiles, rank: int, empty: nat)
    requires 0 <= rank <= 7 && NoEmptyTiles(t)
    ensures RowText(t, rank, 8, empty) == if empty > 0 then Decimal(empty) else ""
  {
  }

  /** The placement field, one rank split off the front. */
  lemma JoinRows(t: Tiles, rank: int)
    requires 0 <= rank <= 7 && NoEmptyTiles(t)
    ensures Join(RowsFrom(t, rank), '/') ==
      RowText(t, rank, 0, 0) + (if rank > 0 then "/" + Join(RowsFrom(t, rank - 1), '/') else "")
  {
    RowsFromFront(t, rank);
    var rows := RowsFrom(t, rank);
    if rank > 0 {
      assert rows[1..] == RowsFrom(t, rank - 1);
    }
  }

  /** One rank of the placement field written after the ranks above it. */
  lemma PlacementStep(t: Tiles, rank: int, placement: string)
    requires 0 <= rank <= 7 && NoEmptyTiles(t)
    requires placement + Join(RowsFrom(t, rank), '/') == PlacementText(t)
    ensures var next := placement + RowText(t, rank, 0, 0) + (if rank > 0 then "/" else "");
      && (rank > 0 ==> next + Join(RowsFrom(t, rank - 1), '/') == PlacementText(t))
      && (rank == 0 ==> next == PlacementText(t))
  {
    JoinRows(t, rank);
    var row := RowText(t, rank, 0, 0);
    if rank > 0 {
      var rest := Join(RowsFrom(t, rank - 1), '/');
      assert placement + (row + ("/" + rest)) == placement + row + "/" + rest;
    } else {
      assert placement + (row + "") == placement + row + "";
    }
  }

  /** Six parts joined by spaces, written out. */
  lemma JoinSix(a: string, b: string, c: string, d: string, e: string, f: string)
    ensures Join([a, b, c, d, e, f], ' ') == a + " " + b + " " + c + " " + d + " " + e + " " + f
  {
    var parts := [a, b, c, d, e, f];
    var j5 := Join(parts[5..], ' ');
    assert parts[5..] == [f];
    var j4 := Join(parts[4..], ' ');
    assert parts[4..][1..] == parts[5..];
    var j3 := Join(parts[3..], ' ');
    assert parts[3..][1..] == parts[4..];
    var j2 := Join(parts[2..], ' ');
    assert parts[2..][1..] == parts[3..];
    var j1 := Join(parts[1..], ' ');
    assert parts[1..][1..] == parts[2..];
    assert j4 == e + " " + f;
    assert j3 == d + " " + e + " " + f;
    assert j2 == c + " " + d + " " + e + " " + f;
    assert j1 == b + " " + c + " " + d + " " + e + " " + f;
  }

  /** The six fields of `to_fen` written one after another, with a space
      between each two. */
  lemma FenTextFields(p: Position, placement: string, castling: string, enPassant: string, fen: string)
    requires NoEmptyTiles(p.tiles)
    requires placement == PlacementText(p.tiles)
    requires castling == CastlingText(CastlingOf(p.state))
    requires enPassant == EnPassantText(p.state.enPassant)
    requires fen == placement + " " + ActiveText(p.state.active) + " " + castling + " " + enPassant
                    + " " + Decimal(p.state.halfmoves) + " " + Decimal(p.state.fullmoves)
    ensures fen == FenText(p)
  {
    JoinSix(placement, ActiveText(p.state.active), castling, enPassant,
            Decimal(p.state.halfmoves), Decimal(p.state.fullmoves));
  }

  // ----- reading back what was written -----

  /** A rank's text reads back as its tiles, left to right. */
  function RowPlacements(t: Tiles, rank: int, file: int): seq<Placement>
    requires 0 <= rank <= 7 && 0 <= file <= 8
    decreases 8 - file
  {
    if file == 8 then []
    else
      var tile := t[New(rank, file)];
      (if tile.Some? then [Placement(tile.value, New(rank, file))] else []) + RowPlacements(t, rank, file + 1)
  }

  function PlacementsFrom(t: Tiles, rank: int): seq<Placement>
    requires 0 <= rank <= 7
    decreases rank
  {
    RowPlacements(t, rank, 0) + (if rank > 0 then PlacementsFrom(t, rank - 1) else [])
  }

  /** A digit moves the file on by its value. */
  lemma ParseRankDigit(d: char, rest: string, index: nat, file: nat, to: nat)
    requires IsDigit(d) && to == file + DigitValue(d) && to <= 255
    ensures ParseRank([d] + rest, index, file) == ParseRank(rest, index, to)
  {
    assert ([d] + rest)[1..] == rest;
  }

  /** A piece letter on the board puts its tile down and moves one file
      on. */
  lemma ParsePieceLetter(tile: Tile, rest: string, index: nat, file: nat, rank: int, ps: seq<Placement>)
    requires tile.piece != NoPiece && index <= 7 && file <= 7 && index == 7 - rank
    requires ParseRank(rest, index, file + 1) == Ok(ps)
    ensures ParseRank([TileToFen(tile)] + rest, index, file) == Ok([Placement(tile, New(rank, file))] + ps)
  {
    TileFenRoundTrip(tile, ' ');
    var ch := TileToFen(tile);
    assert !IsDigit(ch);
    assert ([ch] + rest)[1..] == rest;
  }

  /** The text of a rank reads back as its tiles: the encoder's pending
      run of `empty` squares before `file` is the reader's file lag. */
  lemma {:induction false} ParseRowText(t: Tiles, rank: int, file: int, empty: nat)
    requires 0 <= rank <= 7 && 0 <= file <= 8 && empty <= file && NoEmptyTiles(t)
    ensures ParseRank(RowText(t, rank, file, empty), 7 - rank, file - empty) == Ok(RowPlacements(t, rank, file))
    decreases 8 - file, 1
  {
    if file == 8 {
      ParseRowEnd(t, rank, empty);
    } else {
      ParseRowSquare(t, rank, file, empty);
    }
  }

  /** `ParseRowText` at a square on the board, by the text of the rest of
      the rank. */
  lemma {:induction false} ParseRowSquare(t: Tiles, rank: int, file: int, empty: nat)
    requires 0 <= rank <= 7 && 0 <= file < 8 && empty <= file && NoEmptyTiles(t)
    ensures ParseRank(RowText(t, rank, file, empty), 7 - rank, file - empty) == Ok(RowPlacements(t, rank, file))
    decreases 8 - file, 0
  {
    if t[New(rank, file)].Some? {
      ParseRowText(t, rank, file + 1, 0);
      ParseRowPiece(t, rank, file, empty);
    } else {
      ParseRowText(t, rank, file + 1, empty + 1);
      RowEmptyStep(t, rank, file, empty);
    }
  }

  /** The end of a rank: only the pending run of empty squares is
      left. */
  lemma ParseRowEnd(t: Tiles, rank: int, empty: nat)
    requires 0 <= rank <= 7 && empty <= 8 && NoEmptyTiles(t)
    ensures ParseRank(RowText(t, rank, 8, empty), 7 - rank, 8 - empty) == Ok(RowPlacements(t, rank, 8))
  {
    if empty > 0 {
      ParseRankDigit(DigitChar(empty), "", 7 - rank, 8 - empty, 8);
      assert [DigitChar(empty)] + "" == [DigitChar(empty)];
    }
  }

  /** `RowText` and `RowPlacements` at an empty square, one step
      unfolded. */
  lemma RowEmptyStep(t: Tiles, rank: int, file: int, empty: nat)
    requires 0 <= rank <= 7 && 0 <= file < 8 && NoEmptyTiles(t)
    requires t[New(rank, file)].None?
    ensures RowText(t, rank, file, empty) == RowText(t, rank, file + 1, empty + 1)
    ensures RowPlacements(t, rank, file) == RowPlacements(t, rank, file + 1)
  {
  }

  /** The step of `ParseRowText` at a tile. */
  lemma ParseRowPiece(t: Tiles, rank: int, file: int, empty: nat)
    requires 0 <= rank <= 7 && 0 <= file < 8 && empty <= file && NoEmptyTiles(t)
    requires t[New(rank, file)].Some?
    requires ParseRank(RowText(t, rank, file + 1, 0), 7 - rank, file + 1) == Ok(RowPlacements(t, rank, file + 1))
    ensures ParseRank(RowText(t, rank, file, empty), 7 - rank, file - empty) == Ok(RowPlacements(t, rank, file))
  {
    var tile := t[New(rank, file)].value;
    var rest := RowText(t, rank, file + 1, 0);
    var letter := [TileToFen(tile)] + rest;
    RowTextTile(t, rank, file, empty);
    RowPlacementsTile(t, rank, file);
    ParsePieceLetter(tile, rest, 7 - rank, file, rank, RowPlacements(t, rank, file + 1));
    if empty > 0 {
      ParseRankDigit(DigitChar(empty), letter, 7 - rank, file - empty, file);
    }
  }

  /** `RowText` at a tile, one step unfolded. */
  lemma RowTextTile(t: Tiles, rank: int, file: int, empty: nat)
    requires 0 <= rank <= 7 && 0 <= file < 8 && empty <= file && NoEmptyTiles(t)
    requires t[New(rank, file)].Some?
    ensures RowText(t, rank, file, empty)
         == (if empty > 0 then [DigitChar(empty)] else [])
            + ([TileToFen(t[New(rank, file)].value)] + RowText(t, rank, file + 1, 0))
  {
  }

  /** `RowPlacements` at a tile, one step unfolded. */
  lemma RowPlacementsTile(t: Tiles, rank: int, file: int)
    requires 0 <= rank <= 7 && 0 <= file < 8
    requires t[New(rank, file)].Some?
    ensures RowPlacements(t, rank, file)
         == [Placement(t[New(rank, file)].value, New(rank, file))] + RowPlacements(t, rank, file + 1)
  {
  }

  /** The ranks `to_fen` writes from `rank` down read back as the tiles
      of those ranks, top rank first. */
  lemma {:induction false} ParseRowsFrom(t: Tiles, rank: int, index: nat)
    requires 0 <= rank <= 7 && index == 7 - rank && NoEmptyTiles(t)
    ensures ParseRanks(RowsFrom(t, rank), index) == Ok(PlacementsFrom(t, rank))
    decreases rank
  {
    var row := RowText(t, rank, 0, 0);
    ParseRowFromStart(t, rank, index);
    RowsFromStep(t, rank);
    if rank > 0 {
      ParseRowsFrom(t, rank - 1, index + 1);
      ParseRanksCons(row, RowsFrom(t, rank - 1), index, RowPlacements(t, rank, 0), PlacementsFrom(t, rank - 1));
    } else {
      assert ParseRanks([], index + 1) == Ok([]);
      ParseRanksCons(row, [], index, RowPlacements(t, rank, 0), []);
      assert [row] + [] == [row];
    }
  }

  /** `ParseRowText` for a whole rank. */
  lemma ParseRowFromStart(t: Tiles, rank: int, index: nat)
    requires 0 <= rank <= 7 && index == 7 - rank && NoEmptyTiles(t)
    ensures ParseRank(RowText(t, rank, 0, 0), index, 0) == Ok(RowPlacements(t, rank, 0))
  {
    ParseRowText(t, rank, 0, 0);
  }

  /** `ParseRanks` of a first rank and the rest. */
  lemma ParseRanksCons(r: string, rs: seq<string>, index: nat, a: seq<Placement>, b: seq<Placement>)
    requires ParseRank(r, index, 0) == Ok(a) && ParseRanks(rs, index + 1) == Ok(b)
    ensures ParseRanks([r] + rs, index) == Ok(a + b)
  {
    assert ([r] + rs)[0] == r;
    assert ([r] + rs)[1..] == rs;
  }

  /** `RowsFrom`, one step unfolded. */
  lemma RowsFromFront(t: Tiles, rank: int)
    requires 0 <= rank <= 7 && NoEmptyTiles(t)
    ensures RowsFrom(t, rank) == [RowText(t, rank, 0, 0)] + (if rank > 0 then RowsFrom(t, rank - 1) else [])
  {
  }

  /** `RowsFrom` and `PlacementsFrom`, one step unfolded. */
  lemma RowsFromStep(t: Tiles, rank: int)
    requires 0 <= rank <= 7 && NoEmptyTiles(t)
    ensures RowsFrom(t, rank) == [RowText(t, rank, 0, 0)] + (if rank > 0 then RowsFrom(t, rank - 1) else [])
    ensures PlacementsFrom(t, rank) == RowPlacements(t, rank, 0) + (if rank > 0 then PlacementsFrom(t, rank - 1) else [])
  {
  }

  /** The tile a rank's placements put on `q`: its own tile, if `q` is on
      that rank from `file` on (the squares `rank * 8 + file` up to the end
      of the rank). */
  lemma {:induction false} RowPlacementsTileAt(t: Tiles, rank: int, file: int, q: Square)
    requires 0 <= rank <= 7 && 0 <= file <= 8
    ensures TileAt(RowPlacements(t, rank, file), q) == if rank * 8 + file <= q < rank * 8 + 8 then t[q] else None
    decreases 8 - file
  {
    if file < 8 {
      var s := New(rank, file);
      var next := file + 1;
      var head := if t[s].Some? then [Placement(t[s].value, s)] else [];
      RowPlacementsTileAt(t, rank, next, q);
      RowPlacementsStep(t, rank, file, next);
      TileAtConcat(head, RowPlacements(t, rank, next), q);
      TileAtSingle(t[s], s, q);
    }
  }

  /** `RowPlacements`, one step unfolded. */
  lemma RowPlacementsStep(t: Tiles, rank: int, file: int, next: int)
    requires 0 <= rank <= 7 && 0 <= file < 8 && next == file + 1
    ensures var s := New(rank, file);
      RowPlacements(t, rank, file) == (if t[s].Some? then [Placement(t[s].value, s)] else []) + RowPlacements(t, rank, next)
  {
  }

  /** The tile at most one placement puts on `q`. */
  lemma TileAtSingle(tile: Option<Tile>, s: Square, q: Square)
    ensures TileAt(if tile.Some? then [Placement(tile.value, s)] else [], q) == if s == q then tile else None
  {
    if tile.Some? {
      assert [Placement(tile.value, s)][..0] == [];
    }
  }

  /** The tile the placements of the ranks from `rank` down put on `q`:
      its own tile, if `q` is on one of those ranks. */
  lemma {:induction false} PlacementsFromTileAt(t: Tiles, rank: int, q: Square)
    requires 0 <= rank <= 7
    ensures TileAt(PlacementsFrom(t, rank), q) == if q < rank * 8 + 8 then t[q] else None
    decreases rank
  {
    if rank == 0 {
      FirstRankTileAt(t, q);
    } else {
      PlacementsFromTileAt(t, rank - 1, q);
      RowPlacementsTileAt(t, rank, 0, q);
      TileAtRanks(RowPlacements(t, rank, 0), PlacementsFrom(t, rank - 1), t, rank, q);
      PlacementsFromStep(t, rank);
    }
  }

  /** A rank's placements followed by those of the ranks below it. */
  lemma TileAtRanks(a: seq<Placement>, b: seq<Placement>, t: Tiles, rank: int, q: Square)
    requires TileAt(a, q) == if rank * 8 + 0 <= q < rank * 8 + 8 then t[q] else None
    requires TileAt(b, q) == if q < (rank - 1) * 8 + 8 then t[q] else None
    ensures TileAt(a + b, q) == if q < rank * 8 + 8 then t[q] else None
  {
    TileAtConcat(a, b, q);
  }

  /** `PlacementsFromTileAt` for the first rank alone. */
  lemma FirstRankTileAt(t: Tiles, q: Square)
    ensures TileAt(PlacementsFrom(t, 0), q) == if q < 0 * 8 + 8 then t[q] else None
  {
    PlacementsFromFirst(t);
    RowPlacementsTileAt(t, 0, 0, q);
  }

  /** `PlacementsFrom`, one step unfolded. */
  lemma PlacementsFromStep(t: Tiles, rank: int)
    requires 0 < rank <= 7
    ensures PlacementsFrom(t, rank) == RowPlacements(t, rank, 0) + PlacementsFrom(t, rank - 1)
  {
  }

  /** `PlacementsFrom` of the first rank is that rank's placements. */
  lemma PlacementsFromFirst(t: Tiles)
    ensures PlacementsFrom(t, 0) == RowPlacements(t, 0, 0)
  {
    assert RowPlacements(t, 0, 0) + [] == RowPlacements(t, 0, 0);
  }

  /** The placement field `to_fen` writes reads back as the same tiles. */
  lemma PlacementRoundTrip(t: Tiles)
    requires NoEmptyTiles(t)
    ensures ParseRanks(Split(PlacementText(t), '/'), 0) == Ok(PlacementsFrom(t, 7))
    ensures PlaceAll(EmptyTiles(), PlacementsFrom(t, 7)) == t
  {
    var rows := RowsFrom(t, 7);
    RowsFromChars(t, 7);
    SplitJoin(rows, '/');
    ParseRowsFrom(t, 7, 0);
    PlaceRows(t);
  }

  /** The tiles read back, put down on an empty board, are the tiles. */
  lemma PlaceRows(t: Tiles)
    requires NoEmptyTiles(t)
    ensures PlaceAll(EmptyTiles(), PlacementsFrom(t, 7)) == t
  {
    var rows := RowsFrom(t, 7);
    var ps := PlacementsFrom(t, 7);
    ParseRowsFrom(t, 7, 0);
    ParseRanksShape(rows, 0);
    var placed := PlaceAll(EmptyTiles(), ps);
    forall q: Square ensures placed[q] == t[q] {
      PlaceAllTileAt(ps, q);
      PlacementsFromTileAt(t, 7, q);
    }
    SameTiles(placed, t);
  }

  /** Boards that agree on every square are the same board. */
  lemma SameTiles(a: Tiles, b: Tiles)
    requires forall q: Square :: a[q] == b[q]
    ensures a == b
  {
    assert forall i :: 0 <= i < 64 ==> a[i] == b[i];
  }

  /** Reading what is written gives back the tiles, the side to move, the
      rights, the en-passant target and the counters, with the hash
      computed afresh, no capture recorded and no saved states. */
  lemma FenRoundTrip(p: Position, analyse: Analyser)
    requires NoEmptyTiles(p.tiles) && EnPassantFits(p.state.enPassant, p.state.active)
    ensures ParseFen(FenText(p), analyse) ==
      Ok(FenPosition(p.tiles, p.state.active, CastlingOf(p.state), p.state.enPassant,
                     p.state.halfmoves, p.state.fullmoves, analyse))
  {
    var fields := FenFields(p);
    FieldsRead(p);
    ParseFenFields(FenText(p), fields, analyse, PlacementsFrom(p.tiles, 7), p.state.active, CastlingOf(p.state),
                   p.state.enPassant, p.state.halfmoves, p.state.fullmoves);
    PlaceRows(p.tiles);
  }

  /** Each field `to_fen` writes reads back as what it was written from. */
  lemma FieldsRead(p: Position)
    requires NoEmptyTiles(p.tiles) && EnPassantFits(p.state.enPassant, p.state.active)
    ensures var fields := FenFields(p);
      && Split(FenText(p), ' ') == fields
      && ParseRanks(Split(fields[0], '/'), 0) == Ok(PlacementsFrom(p.tiles, 7))
      && fields[1] == ActiveText(p.state.active)
      && ParseCastling(fields[2], NoRights) == Ok(CastlingOf(p.state))
      && ParseEnPassant(fields[3], p.state.active) == Ok(p.state.enPassant)
      && ParseU16(fields[4]) == Ok(p.state.halfmoves) && ParseU16(fields[5]) == Ok(p.state.fullmoves)
  {
    FieldsSplit(p);
    FieldsPlacement(p);
    FieldsCastling(p);
    FieldsEnPassant(p);
    FieldsCounters(p);
  }

  lemma FieldsSplit(p: Position)
    requires NoEmptyTiles(p.tiles)
    ensures Split(FenText(p), ' ') == FenFields(p)
  {
    FieldsFree(p);
    SplitJoin(FenFields(p), ' ');
  }

  lemma FieldsPlacement(p: Position)
    requires NoEmptyTiles(p.tiles)
    ensures ParseRanks(Split(FenFields(p)[0], '/'), 0) == Ok(PlacementsFrom(p.tiles, 7))
  {
    PlacementRoundTrip(p.tiles);
  }

  lemma FieldsCastling(p: Position)
    requires NoEmptyTiles(p.tiles)
    ensures ParseCastling(FenFields(p)[2], NoRights) == Ok(CastlingOf(p.state))
  {
    CastlingRoundTrip(CastlingOf(p.state));
  }

  lemma FieldsEnPassant(p: Position)
    requires NoEmptyTiles(p.tiles) && EnPassantFits(p.state.enPassant, p.state.active)
    ensures ParseEnPassant(FenFields(p)[3], p.state.active) == Ok(p.state.enPassant)
  {
    EnPassantRoundTrip(p.state.enPassant, p.state.active);
  }

  lemma FieldsCounters(p: Position)
    requires NoEmptyTiles(p.tiles)
    ensures ParseU16(FenFields(p)[4]) == Ok(p.state.halfmoves) && ParseU16(FenFields(p)[5]) == Ok(p.state.fullmoves)
  {
    ParseU16Decimal(p.state.halfmoves);
    ParseU16Decimal(p.state.fullmoves);
  }

  /** `from_str` on six fields each of which reads. */
  lemma ParseFenFields(fen: string, parts: seq<string>, analyse: Analyser, ps: seq<Placement>,
                       active: Color, c: Castling, ep: Option<EnPassantTarget>, halfmoves: U16, fullmoves: U16)
    requires Split(fen, ' ') == parts && |parts| == 6
    requires ParseRanks(Split(parts[0], '/'), 0) == Ok(ps)
    requires parts[1] == ActiveText(active)
    requires ParseCastling(parts[2], NoRights) == Ok(c)
    requires ParseEnPassant(parts[3], active) == Ok(ep)
    requires ParseU16(parts[4]) == Ok(halfmoves) && ParseU16(parts[5]) == Ok(fullmoves)
    ensures ParseFen(fen, analyse) == Ok(FenPosition(PlaceAll(EmptyTiles(), ps), active, c, ep, halfmoves, fullmoves, analyse))
  {
  }

  /** No field `to_fen` writes holds a space. */
  lemma FieldsFree(p: Position)
    requires NoEmptyTiles(p.tiles)
    ensures Free(FenFields(p), ' ')
  {
    var fields := FenFields(p);
    forall i | 0 <= i < 6 ensures ' ' !in fields[i] {
      if i == 0 {
        RowsFromChars(p.tiles, 7);
        JoinChars(RowsFrom(p.tiles, 7), '/', ' ');
      } else if i == 2 {
        assert ' ' !in CastlingText(CastlingOf(p.state));
      } else if i == 3 {
        assert ' ' !in EnPassantText(p.state.enPassant);
      } else if i >= 4 {
        var d := fields[i];
        assert forall k :: 0 <= k < |d| ==> IsDigit(d[k]);
      }
    }
  }

  /** A position as `from_str` leaves it is written and read back
      unchanged. */
  lemma FenRoundTripFresh(p: Position, analyse: Analyser)
    requires NoEmptyTiles(p.tiles) && EnPassantFits(p.state.enPassant, p.state.active)
    requires Synced(p) && p.history == [] && p.state.capturedPiece == NoPiece && Analyse(p, analyse) == p
    ensures ParseFen(FenText(p), analyse) == Ok(p)
  {
    FenRoundTrip(p, analyse);
  }
}
