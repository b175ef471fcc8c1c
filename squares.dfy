/** Squares of the board: index arithmetic, the algebraic name of a
    square and its parser (crates/base/src/square/square.rs). */
module Squares {
  import opened Wrappers

  /** A square index: a1 = 0, h1 = 7, a8 = 56, h8 = 63. */
  type Square = i: int | 0 <= i < 64

  function Rank(s: Square): (r: int)
    ensures 0 <= r <= 7
  {
    s / 8
  }

  function File(s: Square): (f: int)
    ensures 0 <= f <= 7
  {
    s % 8
  }

  /** `Square::new`: the caller must give a rank and a file on the board. */
  function New(rank: int, file: int): Square
    requires 0 <= rank <= 7 && 0 <= file <= 7
  {
    rank * 8 + file
  }

  /** The square `New` builds lies on the given rank and file. */
  lemma NewRankFile(rank: int, file: int)
    requires 0 <= rank <= 7 && 0 <= file <= 7
    ensures Rank(New(rank, file)) == rank && File(New(rank, file)) == file
  {
  }

  /** `Square::from_index`: the caller must give an index below 64. */
  function FromIndex(index: int): (s: Square)
    requires 0 <= index <= 63
    ensures s == index && New(Rank(s), File(s)) == s
  {
    index
  }

  /** Rank and file determine the square. */
  lemma RankFileDetermineSquare(a: Square, b: Square)
    ensures Rank(a) == Rank(b) && File(a) == File(b) <==> a == b
  {
    assert a == New(Rank(a), File(a));
    assert b == New(Rank(b), File(b));
  }

  function Abs(x: int): nat { if x < 0 then -x else x }

  /** The algebraic name of a square: the file letter, then the rank digit. */
  function ToString(s: Square): (str: string)
    ensures |str| == 2
    ensures 'a' <= str[0] <= 'h' && '1' <= str[1] <= '8'
    ensures str[0] as int - 'a' as int == File(s)
    ensures str[1] as int - '1' as int == Rank(s)
  {
    [('a' as int + File(s)) as char, ('1' as int + Rank(s)) as char]
  }

  datatype SquareError = InvalidSquareFormat(input: string)

  predicate IsAsciiLowercase(c: char) { 'a' <= c <= 'z' }
  predicate IsDigit(c: char) { '0' <= c <= '9' }

  /** `Square::from_str` as written: the first character must be a lower-case
      letter and the second a digit, but neither is checked against the
      board, and the subtraction and the packing run in `u8`. The result is
      the raw `u8` index, which for "i1" or "a9" is not a square. */
  function FromStrAsWritten(input: string): (r: Result<int, SquareError>)
    ensures r.Ok? <==> |input| >= 2 && IsAsciiLowercase(input[0]) && IsDigit(input[1])
    ensures r.Ok? ==> 0 <= r.value < 256
  {
    if |input| < 1 || !IsAsciiLowercase(input[0]) then Err(InvalidSquareFormat(input))
    else if |input| < 2 || !IsDigit(input[1]) then Err(InvalidSquareFormat(input))
    else
      var file := input[0] as int - 'a' as int;
      var rank := (input[1] as int - '0' as int - 1) % 256;
      Ok((rank * 8 + file) % 256)
  }

  /** The as-written parser accepts "a9" and yields index 64, one past h8. */
  lemma FromStrAsWrittenAcceptsOffBoard()
    ensures FromStrAsWritten("a9") == Ok(64)
    ensures FromStrAsWritten("i1") == Ok(8)
  {
  }

  /** `Square::from_str` with the range check the debug assertions in
      `Square::new` ask for: a file letter a..h and a rank digit 1..8. */
  function FromStr(input: string): (r: Result<Square, SquareError>)
    ensures r.Ok? <==> |input| >= 2 && 'a' <= input[0] <= 'h' && '1' <= input[1] <= '8'
  {
    if |input| < 2 || !('a' <= input[0] <= 'h') || !('1' <= input[1] <= '8') then
      Err(InvalidSquareFormat(input))
    else
      Ok(New(input[1] as int - '1' as int, input[0] as int - 'a' as int))
  }

  /** Parsing a square's name gives the square back, with either parser. */
  lemma FromStrToString(s: Square)
    ensures FromStr(ToString(s)) == Ok(s)
    ensures FromStrAsWritten(ToString(s)) == Ok(s)
  {
    var str := ToString(s);
    var rank, file := Rank(s), File(s);
    assert |str| == 2 && 'a' <= str[0] <= 'h' && '1' <= str[1] <= '8';
    assert str[1] as int - '1' as int == rank && str[0] as int - 'a' as int == file;
    RankFileDetermineSquare(s, New(rank, file));
    assert FromStr(str) == Ok(s);
    FromStrAgrees(str);
  }

  /** A successful parse reads exactly the first two characters: they are
      the name of the square returned. */
  lemma ToStringFromStr(input: string)
    requires FromStr(input).Ok?
    ensures ToString(FromStr(input).value) == input[..2]
  {
    var rank, file := input[1] as int - '1' as int, input[0] as int - 'a' as int;
    var s := New(rank, file);
    assert FromStr(input) == Ok(s);
    NewRankFile(rank, file);
    var str := ToString(s);
    assert str[0] == input[0] && str[1] == input[1];
    assert str == input[..2];
  }

  /** Where the corrected parser succeeds, the as-written one returns the
      same square; they differ only on letters past h and digits 0 and 9. */
  lemma FromStrAgrees(input: string)
    requires FromStr(input).Ok?
    ensures FromStrAsWritten(input) == Ok(FromStr(input).value as int)
  {
    var rank, file := input[1] as int - '1' as int, input[0] as int - 'a' as int;
    assert IsAsciiLowercase(input[0]) && IsDigit(input[1]);
    var r := (input[1] as int - '0' as int - 1) % 256;
    assert r == rank by { ByteIdentity(rank); }
    var w := (r * 8 + file) % 256;
    assert w == rank * 8 + file by { ByteIdentity(rank * 8 + file); }
    assert FromStrAsWritten(input) == Ok(w);
    assert FromStr(input) == Ok(New(rank, file));
  }

  /** Wrapping a value that fits into a byte leaves it unchanged. */
  lemma ByteIdentity(x: int)
    requires 0 <= x < 256
    ensures x % 256 == x
  {
  }

  /** A non-lower-case first character or a non-digit second character is
      refused by both parsers. */
  lemma FromStrRejectsMalformed(input: string)
    requires |input| < 2 || !IsAsciiLowercase(input[0]) || !IsDigit(input[1])
    ensures FromStrAsWritten(input).Err? && FromStr(input).Err?
  {
  }
}
