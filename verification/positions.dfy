/**
 * Board coordinates.  A square is a bit index `rank * 8 + (7 - file)`, so
 * h1 is 0, a1 is 7 and a8 is 63 (`src/chess/game_elements/position.rs`);
 * the oldest revision keeps a plain (file, rank) pair instead
 * (`src/game_elements/position.rs`).  Files and ranks count from 0.
 */
module Positions {
  import opened Base
  import opened BitBoards

  datatype SquareError =
    | InvalidPosition(text: string)
    | InvalidFileChar(c: char)
    | InvalidRankChar(c: char)
    | InvalidFile(file: nat)
    /** Carries the number the message prints, which is the file (see `FromFileRankAsWritten`). */
    | InvalidRank(shown: nat)

  /** `Square::new`, which asserts that the index is below 64. */
  function NewSquare(square: nat): (s: Sq)
    requires square < 64
    ensures s == square
  {
    square
  }

  /** `file`: `7 - square % 8`. */
  function File(s: Sq): (f: nat)
    ensures f < 8
  {
    7 - s % 8
  }

  /** `rank`: `square / 8`. */
  function Rank(s: Sq): (r: nat)
    ensures r < 8
  {
    s / 8
  }

  /** `as_bitboard`: `1 << square`. */
  function AsBitboard(s: Sq): (b: BitBoard)
    ensures forall t: Sq :: b[t] <==> t == s
  {
    FromSquare(s)
  }

  /** The index of a file and rank, both below 8. */
  function Index(file: nat, rank: nat): Sq
    requires file < 8 && rank < 8
  {
    rank * 8 + (7 - file)
  }

  /** The square of a file and rank has that file and rank. */
  lemma IndexFileRank(file: nat, rank: nat)
    requires file < 8 && rank < 8
    ensures File(Index(file, rank)) == file && Rank(Index(file, rank)) == rank
  {
  }

  /** A square is determined by its file and rank. */
  lemma FileRankDetermine(s: Sq)
    ensures Index(File(s), Rank(s)) == s
  {
  }

  /**
   * `from_file_rank` as written: its rank error formats the file, so the
   * error for a bad rank reports the wrong number.
   */
  function FromFileRankAsWritten(file: nat, rank: nat): (r: Result<Sq, SquareError>)
    ensures r.Ok? <==> file < 8 && rank < 8
    ensures r.Ok? ==> File(r.value) == file && Rank(r.value) == rank
    ensures file >= 8 ==> r == Err(InvalidFile(file))
    ensures file < 8 && rank >= 8 ==> r == Err(InvalidRank(file))
  {
    if file > 7 then Err(InvalidFile(file))
    else if rank > 7 then Err(InvalidRank(file))
    else Ok(Index(file, rank))
  }

  /** A bad rank with a valid file is reported with the file's value. */
  lemma RankErrorShowsFile()
    ensures FromFileRankAsWritten(0, 9) == Err(InvalidRank(0))
    ensures FromFileRankAsWritten(0, 9) != Err(InvalidRank(9))
  {
  }

  /** `from_file_rank` with the rank error reporting the rank. */
  function FromFileRank(file: nat, rank: nat): Result<Sq, SquareError>
  {
    if file > 7 then Err(InvalidFile(file))
    else if rank > 7 then Err(InvalidRank(rank))
    else Ok(Index(file, rank))
  }

  /**
   * The corrected constructor accepts exactly files and ranks below 8,
   * giving the square with that file and rank, names the bad coordinate in
   * each error, and agrees with the source on every accepted pair.
   */
  lemma FromFileRankMeaning(file: nat, rank: nat)
    ensures FromFileRank(file, rank).Ok? <==> file < 8 && rank < 8
    ensures FromFileRank(file, rank).Ok? ==>
      File(FromFileRank(file, rank).value) == file && Rank(FromFileRank(file, rank).value) == rank
    ensures file >= 8 ==> FromFileRank(file, rank) == Err(InvalidFile(file))
    ensures file < 8 && rank >= 8 ==> FromFileRank(file, rank) == Err(InvalidRank(rank))
    ensures FromFileRank(file, rank).Ok? ==> FromFileRank(file, rank) == FromFileRankAsWritten(file, rank)
  {
  }

  // ---------------------------------------------------------------------
  // Notation.

  const FileLetters: string := "abcdefgh"
  const UpperFileLetters: string := "ABCDEFGH"
  const RankDigits: string := "12345678"

  /** The file a letter names, in either case. */
  function FileOfChar(c: char): (f: Option<nat>)
    ensures f.Some? <==> c in FileLetters || c in UpperFileLetters
    ensures f.Some? ==> f.value < 8 && (FileLetters[f.value] == c || UpperFileLetters[f.value] == c)
  {
    if 'a' <= c <= 'h' then Some((c - 'a') as nat)
    else if 'A' <= c <= 'H' then Some((c - 'A') as nat)
    else None
  }

  /** The rank a digit names. */
  function RankOfChar(c: char): (r: Option<nat>)
    ensures r.Some? <==> c in RankDigits
    ensures r.Some? ==> r.value < 8 && RankDigits[r.value] == c
  {
    if '1' <= c <= '8' then Some((c - '1') as nat) else None
  }

  /**
   * `Square::from_notation`: exactly two characters, a file letter in
   * either case and a rank digit.
   */
  function SquareFromNotation(text: string): (r: Result<Sq, SquareError>)
    ensures |text| != 2 ==> r == Err(InvalidPosition(text))
    ensures r.Ok? <==> |text| == 2 && FileOfChar(text[0]).Some? && RankOfChar(text[1]).Some?
    ensures r.Ok? ==> File(r.value) == FileOfChar(text[0]).value && Rank(r.value) == RankOfChar(text[1]).value
  {
    if |text| != 2 then Err(InvalidPosition(text))
    else
      match FileOfChar(text[0])
      case None => Err(InvalidFileChar(text[0]))
      case Some(file) =>
        match RankOfChar(text[1])
        case None => Err(InvalidRankChar(text[1]))
        case Some(rank) =>
          IndexFileRank(file, rank);
          Ok(Index(file, rank))
  }

  /** `Display`: the lower-case file letter and the rank digit. */
  function SquareNotation(s: Sq): (text: string)
    ensures |text| == 2
    ensures text[0] == FileLetters[File(s)] && text[1] == RankDigits[Rank(s)]
  {
    [FileLetters[File(s)], RankDigits[Rank(s)]]
  }

  /** Printing then parsing a square gives the square back. */
  lemma SquareNotationRoundTrip(s: Sq)
    ensures SquareFromNotation(SquareNotation(s)) == Ok(s)
  {
    var text := SquareNotation(s);
    assert FileOfChar(text[0]) == Some(File(s));
    assert RankOfChar(text[1]) == Some(Rank(s));
    FileRankDetermine(s);
  }

  /** Whatever parses prints back as itself, up to the case of the file letter. */
  lemma SquareParsePrints(text: string)
    requires SquareFromNotation(text).Ok?
    ensures SquareNotation(SquareFromNotation(text).value)[1] == text[1]
    ensures SquareNotation(SquareFromNotation(text).value)[0] == text[0]
         || UpperFileLetters[File(SquareFromNotation(text).value)] == text[0]
  {
  }

  // ---------------------------------------------------------------------
  // The oldest revision's coordinate pair.

  datatype Position = Position(file: nat, rank: nat)

  /** `new_0based`. */
  function New0Based(file: nat, rank: nat): (p: Position)
    ensures p.file == file && p.rank == rank
  {
    Position(file, rank)
  }

  /** `new_1based`: subtracts one from each `usize`, which underflows at 0. */
  function New1Based(file: nat, rank: nat): (p: Position)
    requires file >= 1 && rank >= 1
    ensures p == New0Based(file - 1, rank - 1)
    ensures p.file + 1 == file && p.rank + 1 == rank
  {
    Position(file - 1, rank - 1)
  }

  /** `Position::from_notation`: the same checks as the square parser. */
  function PositionFromNotation(text: string): (r: Result<Position, SquareError>)
    ensures |text| != 2 ==> r == Err(InvalidPosition(text))
    ensures r.Ok? ==> r.value.file < 8 && r.value.rank < 8
  {
    if |text| != 2 then Err(InvalidPosition(text))
    else
      match FileOfChar(text[0])
      case None => Err(InvalidFileChar(text[0]))
      case Some(file) =>
        match RankOfChar(text[1])
        case None => Err(InvalidRankChar(text[1]))
        case Some(rank) => Ok(New0Based(file, rank))
  }

  /**
   * Both revisions accept and reject the same texts with the same errors,
   * and agree on the file and rank they read.
   */
  lemma PositionAgreesWithSquare(text: string)
    ensures PositionFromNotation(text).Ok? <==> SquareFromNotation(text).Ok?
    ensures PositionFromNotation(text).Err? ==> PositionFromNotation(text).error == SquareFromNotation(text).error
    ensures PositionFromNotation(text).Ok? ==>
      PositionFromNotation(text).value.file == File(SquareFromNotation(text).value)
      && PositionFromNotation(text).value.rank == Rank(SquareFromNotation(text).value)
  {
  }
}
