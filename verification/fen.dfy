/**
 * The FEN reader of the engine core (`shakmat-core/src/fen/fen_utils.rs`):
 * Forsyth-Edwards Notation as described in section 16.1 of the PGN
 * Standard, read into the two sides' piece boards, the kind on every
 * square, the side to move, the castling rights, the en passant square and
 * the two move counters.
 *
 * The placement is read row by row, row `i` being rank `7 - i`; a digit
 * skips that many files and a letter puts a man on the current file.  The
 * source casts the running file to `u8` before checking it, so a row that
 * skips 256 files or more wraps round to the a-file; `LoadRow` takes a flag
 * saying whether to cast, the reader of the source being the one that does
 * (`ReadFenAsWritten`) and the one the board is built with the one that
 * does not (`ReadFen`).
 */
module Fen {
  import opened Base
  import opened Colors
  import opened PieceTypes
  import opened BitBoards
  import opened PieceSets
  import opened Text
  import Castling
  import Pos = Positions

  /** `DEFAULT_FEN`, the starting position. */
  const DefaultFen: string := "rnbqkbnr/pppppppp/8/8/8/8/PPPPPPPP/RNBQKBNR w KQkq - 0 1"

  datatype FenError =
    | WrongPartCount(parts: nat)
    | WrongRowCount(rows: nat)
    | BadSquare(err: Pos.SquareError)
    | InvalidBoardChar(c: char)
    | MissingWhiteKing
    | MissingBlackKing
    | InvalidTurn(turn: string)
    | InvalidCastlingChar(c: char)
    | BadEnPassant(err: Pos.SquareError)
    | BadHalfmoves
    | BadFullmoves

  // ---------------------------------------------------------------------
  // Men and their letters.

  /** A man: its side and its kind. */
  datatype Man = Man(color: Color, kind: PieceType)

  /** The twelve letters that name a man. */
  predicate IsManLetter(c: char)
  {
    c == 'r' || c == 'n' || c == 'b' || c == 'q' || c == 'k' || c == 'p'
    || c == 'R' || c == 'N' || c == 'B' || c == 'Q' || c == 'K' || c == 'P'
  }

  /** The placement letter of a man: upper case for White, lower case for Black. */
  function Letter(m: Man): (c: char)
    ensures m.color == White <==> 'A' <= c <= 'Z'
    ensures IsManLetter(c) && !IsDigit(c)
  {
    match (m.color, m.kind)
    case (Black, Rook) => 'r'
    case (Black, Knight) => 'n'
    case (Black, Bishop) => 'b'
    case (Black, Queen) => 'q'
    case (Black, King) => 'k'
    case (Black, Pawn) => 'p'
    case (White, Rook) => 'R'
    case (White, Knight) => 'N'
    case (White, Bishop) => 'B'
    case (White, Queen) => 'Q'
    case (White, King) => 'K'
    case (White, Pawn) => 'P'
  }

  /** The man a placement letter names, if it names one. */
  function ManOfLetter(c: char): (m: Option<Man>)
    ensures m.Some? <==> IsManLetter(c)
    ensures m.Some? ==> Letter(m.value) == c
  {
    match c
    case 'r' => Some(Man(Black, Rook))
    case 'n' => Some(Man(Black, Knight))
    case 'b' => Some(Man(Black, Bishop))
    case 'q' => Some(Man(Black, Queen))
    case 'k' => Some(Man(Black, King))
    case 'p' => Some(Man(Black, Pawn))
    case 'R' => Some(Man(White, Rook))
    case 'N' => Some(Man(White, Knight))
    case 'B' => Some(Man(White, Bishop))
    case 'Q' => Some(Man(White, Queen))
    case 'K' => Some(Man(White, King))
    case 'P' => Some(Man(White, Pawn))
    case _ => None
  }

  /** Every man has its own letter, and reading it names the man again. */
  lemma LetterRoundTrip(m: Man, n: Man)
    ensures ManOfLetter(Letter(m)) == Some(m)
    ensures Letter(m) == Letter(n) <==> m == n
  {
  }

  // ---------------------------------------------------------------------
  // What the reader fills in.

  function NoKinds(): (on: seq<Option<PieceType>>)
    ensures |on| == 64 && forall s :: 0 <= s < 64 ==> on[s] == None
  {
    seq(64, _ => None)
  }

  /** `piece_on_square`: the kind of man on each square. */
  type SquareMap = on: seq<Option<PieceType>> | |on| == 64 witness NoKinds()

  /** The men of a position: each side's boards and the kind on every square. */
  datatype Placement = Placement(white: Pieces, black: Pieces, pieceOn: SquareMap)

  const EmptyPlacement: Placement := Placement(NoPieces, NoPieces, NoKinds())

  /** The boards of one side. */
  function Side(pl: Placement, c: Color): Pieces
  {
    match c
    case White => pl.white
    case Black => pl.black
  }

  /**
   * Putting a man on a square, as the reader does: or the square into its
   * kind's board and record the kind on the square.
   */
  function Put(pl: Placement, m: Man, s: Sq): Placement
  {
    var ps := Side(pl, m.color);
    var ps' := WithType(ps, m.kind, OfType(ps, m.kind)[s := true]);
    var on := pl.pieceOn[s := Some(m.kind)];
    match m.color
    case White => Placement(ps', pl.black, on)
    case Black => Placement(pl.white, ps', on)
  }

  /**
   * After a put, a side's board of a kind holds a square exactly when it did
   * before or the man put there is that side's man of that kind; only the
   * put square's recorded kind changes.
   */
  lemma PutPlaces(pl: Placement, m: Man, s: Sq)
    ensures forall c, p, t: Sq :: OfType(Side(Put(pl, m, s), c), p)[t] == (OfType(Side(pl, c), p)[t] || (Man(c, p) == m && t == s))
    ensures Put(pl, m, s).pieceOn == pl.pieceOn[s := Some(m.kind)]
  {
  }

  // ---------------------------------------------------------------------
  // The meaning of a placement: one optional man per square.

  type Cell = Option<Man>

  function EmptyCells(): (g: seq<Cell>)
    ensures |g| == 64 && forall s :: 0 <= s < 64 ==> g[s] == None
  {
    seq(64, _ => None)
  }

  /** The man on every square. */
  type Grid = g: seq<Cell> | |g| == 64 witness EmptyCells()

  function KindOf(c: Cell): Option<PieceType>
  {
    if c.Some? then Some(c.value.kind) else None
  }

  /**
   * A placement shows a grid when each side's board of each kind holds
   * exactly the squares the grid gives to that man, and the kind recorded
   * on each square is the kind of the grid's man there.
   */
  predicate Shows(pl: Placement, g: Grid)
  {
    BoardsShow(pl, g) && KindsShow(pl, g)
  }

  /** Each side's board of each kind holds exactly the squares of that man in the grid. */
  predicate BoardsShow(pl: Placement, g: Grid)
  {
    forall c, p, s: Sq {:trigger OfType(Side(pl, c), p)[s]} :: OfType(Side(pl, c), p)[s] <==> g[s] == Some(Man(c, p))
  }

  /** The kind recorded on each square is the kind of the grid's man there. */
  predicate KindsShow(pl: Placement, g: Grid)
  {
    forall s: Sq {:trigger pl.pieceOn[s]} :: pl.pieceOn[s] == KindOf(g[s])
  }

  lemma EmptyShowsNothing()
    ensures Shows(EmptyPlacement, EmptyCells())
  {
    forall c, p ensures OfType(Side(EmptyPlacement, c), p) == Empty {
      NoPiecesEmpty(p);
    }
  }

  /** Putting a man on a square the grid leaves empty shows the grid with that man added. */
  lemma PutShows(pl: Placement, g: Grid, m: Man, s: Sq)
    requires Shows(pl, g) && g[s] == None
    ensures Shows(Put(pl, m, s), g[s := Some(m)])
  {
    PutPlaces(pl, m, s);
  }

  /** A grid is shown by one placement only. */
  lemma ShowsUnique(pl: Placement, ql: Placement, g: Grid)
    requires Shows(pl, g) && Shows(ql, g)
    ensures pl == ql
  {
    forall c, p ensures OfType(Side(pl, c), p) == OfType(Side(ql, c), p) {
      forall s: Sq ensures OfType(Side(pl, c), p)[s] == OfType(Side(ql, c), p)[s] {
        assert OfType(Side(pl, c), p)[s] <==> g[s] == Some(Man(c, p));
        assert OfType(Side(ql, c), p)[s] <==> g[s] == Some(Man(c, p));
      }
    }
    KindsDetermine(pl.white, ql.white) by {
      assert forall p :: OfType(pl.white, p) == OfType(Side(pl, White), p);
      assert forall p :: OfType(ql.white, p) == OfType(Side(ql, White), p);
    }
    KindsDetermine(pl.black, ql.black) by {
      assert forall p :: OfType(pl.black, p) == OfType(Side(pl, Black), p);
      assert forall p :: OfType(ql.black, p) == OfType(Side(ql, Black), p);
    }
    assert forall s: Sq :: pl.pieceOn[s] == ql.pieceOn[s];
  }

  /** Whether some square holds the man. */
  predicate HasMan(g: Grid, m: Man)
  {
    exists s: Sq :: g[s] == Some(m)
  }

  // ---------------------------------------------------------------------
  // Rows.

  /** `d` empty cells, as a digit describes. */
  function Blanks(d: nat): (cells: seq<Cell>)
    ensures |cells| == d && forall k :: 0 <= k < d ==> cells[k] == None
  {
    seq(d, _ => None)
  }

  /**
   * The cells a row of the placement field describes, from the a-file on:
   * a digit stands for that many empty cells and a letter for its man.
   * None when the row holds any other character.
   */
  function RowCells(row: string): (cells: Option<seq<Cell>>)
  {
    if row == [] then Some([])
    else
      match RowCells(row[1..])
      case None => None
      case Some(rest) =>
        if IsDigit(row[0]) then Some(Blanks(DigitValue(row[0])) + rest)
        else
          match ManOfLetter(row[0])
          case None => None
          case Some(m) => Some([Some(m)] + rest)
  }

  /** Every man of the cells, placed from `file` on, lands on the board. */
  predicate Fits(cells: seq<Cell>, file: nat)
  {
    forall k :: 0 <= k < |cells| && cells[k].Some? ==> file + k < 8
  }

  /** A row the reader accepts: only digits and man letters, and no man beyond the h-file. */
  predicate RowOk(row: string)
  {
    RowCells(row).Some? && Fits(RowCells(row).value, 0)
  }

  /** The grid with the cells written onto the rank from `file` on. */
  function RowUpdate(g: Grid, cells: seq<Cell>, rank: nat, file: nat): (g': Grid)
  {
    seq(64, s requires 0 <= s < 64 =>
      if Pos.Rank(s) == rank && file <= Pos.File(s) < file + |cells| then cells[Pos.File(s) - file] else g[s])
  }

  /** No square of the rank from `file` on holds a man yet. */
  predicate ClearFrom(g: Grid, rank: nat, file: nat)
  {
    forall s: Sq :: Pos.Rank(s) == rank && Pos.File(s) >= file ==> g[s] == None
  }

  /** The file the reader looks up: cast to `u8` with `wrapFile`. */
  function ReadFile(file: nat, wrapFile: bool): nat
  {
    if wrapFile then file % 256 else file
  }

  /**
   * The inner loop of `load_board` over the characters of one row.  The
   * square is computed before the character is looked at, so a man beyond
   * the h-file is reported as a bad file even when the character is not a
   * letter.  With `wrapFile` the file is first cast to `u8`, as the source
   * does.
   */
  function LoadRow(row: string, rank: nat, file: nat, pl: Placement, wrapFile: bool): (r: Result<Placement, FenError>)
    requires rank < 8
    decreases |row|
  {
    if row == [] then Ok(pl)
    else if IsDigit(row[0]) then LoadRow(row[1..], rank, file + DigitValue(row[0]), pl, wrapFile)
    else
      match Pos.FromFileRank(ReadFile(file, wrapFile), rank)
      case Err(e) => Err(BadSquare(e))
      case Ok(s) =>
        match ManOfLetter(row[0])
        case None => Err(InvalidBoardChar(row[0]))
        case Some(m) => LoadRow(row[1..], rank, file + 1, Put(pl, m, s), wrapFile)
  }

  /** A digit skips its count of files. */
  lemma LoadRowDigit(row: string, rank: nat, file: nat, pl: Placement, wrapFile: bool)
    requires rank < 8 && row != [] && IsDigit(row[0])
    ensures LoadRow(row, rank, file, pl, wrapFile) == LoadRow(row[1..], rank, file + DigitValue(row[0]), pl, wrapFile)
  {
  }

  /** A man letter on a square of the board places its man there. */
  lemma LoadRowPlaces(row: string, rank: nat, file: nat, pl: Placement, wrapFile: bool, s: Sq, m: Man)
    requires rank < 8 && row != [] && !IsDigit(row[0])
    requires Pos.FromFileRank(ReadFile(file, wrapFile), rank) == Ok(s) && ManOfLetter(row[0]) == Some(m)
    ensures LoadRow(row, rank, file, pl, wrapFile) == LoadRow(row[1..], rank, file + 1, Put(pl, m, s), wrapFile)
  {
  }

  /** Any other character on a square of the board is refused. */
  lemma LoadRowBadChar(row: string, rank: nat, file: nat, pl: Placement, wrapFile: bool)
    requires rank < 8 && row != [] && !IsDigit(row[0])
    requires Pos.FromFileRank(ReadFile(file, wrapFile), rank).Ok? && ManOfLetter(row[0]).None?
    ensures LoadRow(row, rank, file, pl, wrapFile) == Err(InvalidBoardChar(row[0]))
  {
  }

  /** A character that is not a digit off the board is refused for its square. */
  lemma LoadRowBadSquare(row: string, rank: nat, file: nat, pl: Placement, wrapFile: bool)
    requires rank < 8 && row != [] && !IsDigit(row[0]) && Pos.FromFileRank(ReadFile(file, wrapFile), rank).Err?
    ensures LoadRow(row, rank, file, pl, wrapFile) == Err(BadSquare(Pos.FromFileRank(ReadFile(file, wrapFile), rank).error))
  {
  }

  /** A file of the board is its own square, with or without the cast. */
  lemma OnBoardSquare(file: nat, rank: nat, wrapFile: bool)
    requires file < 8 && rank < 8
    ensures Pos.FromFileRank(ReadFile(file, wrapFile), rank) == Ok(Pos.Index(file, rank))
  {
  }

  /**
   * Reading a row without the cast accepts exactly the rows of digits and
   * man letters whose men, placed from `file` on, stay on the board.
   */
  lemma {:induction false} LoadRowAccepts(row: string, rank: nat, file: nat, pl: Placement)
    requires rank < 8
    ensures LoadRow(row, rank, file, pl, false).Ok? <==> RowCells(row).Some? && Fits(RowCells(row).value, file)
    decreases |row|
  {
    if row == [] {
    } else if IsDigit(row[0]) {
      var d := DigitValue(row[0]);
      LoadRowDigit(row, rank, file, pl, false);
      LoadRowAccepts(row[1..], rank, file + d, pl);
      DigitCells(row);
      if RowCells(row[1..]).Some? {
        DigitsFit(RowCells(row[1..]).value, d, file);
      }
    } else if file >= 8 {
      LoadRowBadSquare(row, rank, file, pl, false);
      if RowCells(row).Some? {
        assert RowCells(row).value[0].Some?;
      }
    } else {
      OnBoardSquare(file, rank, false);
      match ManOfLetter(row[0])
      case None =>
        LoadRowBadChar(row, rank, file, pl, false);
      case Some(m) =>
        var s := Pos.Index(file, rank);
        LoadRowPlaces(row, rank, file, pl, false, s, m);
        LoadRowAccepts(row[1..], rank, file + 1, Put(pl, m, s));
        if RowCells(row[1..]).Some? {
          var rest := RowCells(row[1..]).value;
          assert RowCells(row) == Some([Some(m)] + rest);
          LetterFits(m, rest, file);
        }
    }
  }

  /**
   * An accepted row, read onto a rank still clear from `file` on, writes
   * its cells onto that rank and changes nothing else.
   */
  lemma {:induction false} LoadRowWrites(row: string, rank: nat, file: nat, pl: Placement, g: Grid)
    requires rank < 8 && RowCells(row).Some? && Fits(RowCells(row).value, file)
    requires Shows(pl, g) && ClearFrom(g, rank, file)
    ensures LoadRow(row, rank, file, pl, false).Ok?
    ensures Shows(LoadRow(row, rank, file, pl, false).value, RowUpdate(g, RowCells(row).value, rank, file))
    decreases |row|
  {
    if row == [] {
      assert RowUpdate(g, [], rank, file) == g;
    } else if IsDigit(row[0]) {
      DigitWrites(row, rank, file, pl, g);
    } else {
      LetterWrites(row, rank, file, pl, g);
    }
  }

  lemma {:induction false} DigitWrites(row: string, rank: nat, file: nat, pl: Placement, g: Grid)
    requires rank < 8 && row != [] && IsDigit(row[0])
    requires RowCells(row).Some? && Fits(RowCells(row).value, file)
    requires Shows(pl, g) && ClearFrom(g, rank, file)
    ensures LoadRow(row, rank, file, pl, false).Ok?
    ensures Shows(LoadRow(row, rank, file, pl, false).value, RowUpdate(g, RowCells(row).value, rank, file))
    decreases |row|, 0
  {
    var d := DigitValue(row[0]);
    DigitCells(row);
    var rest := RowCells(row[1..]).value;
    DigitsFit(rest, d, file);
    LoadRowDigit(row, rank, file, pl, false);
    LoadRowWrites(row[1..], rank, file + d, pl, g);
    DigitShows(g, rest, rank, file, d, LoadRow(row[1..], rank, file + d, pl, false).value);
  }

  /** Showing the rest of a row after a digit is showing the row written from the digit on. */
  lemma DigitShows(g: Grid, rest: seq<Cell>, rank: nat, file: nat, d: nat, pl: Placement)
    requires ClearFrom(g, rank, file) && Shows(pl, RowUpdate(g, rest, rank, file + d))
    ensures Shows(pl, RowUpdate(g, Blanks(d) + rest, rank, file))
  {
    DigitUpdate(g, rest, rank, file, d);
  }

  /** A row that starts with a digit: that many empty cells, then the cells of the rest. */
  lemma DigitCells(row: string)
    requires row != [] && IsDigit(row[0])
    ensures RowCells(row).Some? <==> RowCells(row[1..]).Some?
    ensures RowCells(row).Some? ==> RowCells(row).value == Blanks(DigitValue(row[0])) + RowCells(row[1..]).value
  {
  }

  /** A row that starts with a letter: its man, then the cells of the rest. */
  lemma LetterCells(row: string)
    requires row != [] && !IsDigit(row[0]) && RowCells(row).Some?
    ensures ManOfLetter(row[0]).Some? && RowCells(row[1..]).Some?
    ensures RowCells(row).value == [Some(ManOfLetter(row[0]).value)] + RowCells(row[1..]).value
  {
  }

  lemma {:induction false} LetterWrites(row: string, rank: nat, file: nat, pl: Placement, g: Grid)
    requires rank < 8 && row != [] && !IsDigit(row[0])
    requires RowCells(row).Some? && Fits(RowCells(row).value, file)
    requires Shows(pl, g) && ClearFrom(g, rank, file)
    ensures LoadRow(row, rank, file, pl, false).Ok?
    ensures Shows(LoadRow(row, rank, file, pl, false).value, RowUpdate(g, RowCells(row).value, rank, file))
    decreases |row|, 0
  {
    LetterCells(row);
    var m := ManOfLetter(row[0]).value;
    var rest := RowCells(row[1..]).value;
    LetterFits(m, rest, file);
    var s := LetterSquare(row, rank, file, pl, m);
    PutClears(pl, g, m, s, rank, file);
    LoadRowWrites(row[1..], rank, file + 1, Put(pl, m, s), g[s := Some(m)]);
    LetterUpdate(g, m, rest, rank, file, s);
  }

  /** A man letter on a file of the board is placed on the square of that file and rank. */
  lemma LetterSquare(row: string, rank: nat, file: nat, pl: Placement, m: Man) returns (s: Sq)
    requires rank < 8 && file < 8 && row != [] && !IsDigit(row[0]) && ManOfLetter(row[0]) == Some(m)
    ensures Pos.File(s) == file && Pos.Rank(s) == rank
    ensures LoadRow(row, rank, file, pl, false) == LoadRow(row[1..], rank, file + 1, Put(pl, m, s), false)
  {
    s := Pos.Index(file, rank);
    OnBoardSquare(file, rank, false);
    LoadRowPlaces(row, rank, file, pl, false, s, m);
    Pos.IndexFileRank(file, rank);
  }

  /** Putting a man on the next clear square of the rank shows it there, and the rank stays clear after it. */
  lemma PutClears(pl: Placement, g: Grid, m: Man, s: Sq, rank: nat, file: nat)
    requires Shows(pl, g) && ClearFrom(g, rank, file) && Pos.File(s) == file && Pos.Rank(s) == rank
    ensures Shows(Put(pl, m, s), g[s := Some(m)]) && ClearFrom(g[s := Some(m)], rank, file + 1)
  {
    PutShows(pl, g, m, s);
  }

  lemma LetterFits(m: Man, rest: seq<Cell>, file: nat)
    ensures Fits([Some(m)] + rest, file) <==> file < 8 && Fits(rest, file + 1)
  {
    var cells := [Some(m)] + rest;
    if file < 8 && Fits(rest, file + 1) {
      forall k | 0 <= k < |cells| && cells[k].Some? ensures file + k < 8 {
        if k > 0 { assert cells[k] == rest[k - 1]; }
      }
    }
    if Fits(cells, file) {
      assert cells[0].Some?;
      forall k | 0 <= k < |rest| && rest[k].Some? ensures file + 1 + k < 8 {
        assert cells[k + 1] == rest[k];
      }
    }
  }

  lemma DigitUpdate(g: Grid, rest: seq<Cell>, rank: nat, file: nat, d: nat)
    requires ClearFrom(g, rank, file)
    ensures RowUpdate(g, Blanks(d) + rest, rank, file) == RowUpdate(g, rest, rank, file + d)
  {
    var cells: seq<Cell> := Blanks(d) + rest;
    forall t: Sq ensures RowUpdate(g, cells, rank, file)[t] == RowUpdate(g, rest, rank, file + d)[t] {
      if Pos.Rank(t) == rank && file <= Pos.File(t) < file + |cells| && Pos.File(t) - file >= d {
        assert cells[Pos.File(t) - file] == rest[Pos.File(t) - file - d];
      }
    }
  }

  /** Writing a man on the row's next square, then the rest after it, is writing the man and the rest. */
  lemma LetterUpdate(g: Grid, m: Man, rest: seq<Cell>, rank: nat, file: nat, s: Sq)
    requires Pos.File(s) == file && Pos.Rank(s) == rank
    ensures RowUpdate(g[s := Some(m)], rest, rank, file + 1) == RowUpdate(g, [Some(m)] + rest, rank, file)
  {
    var cells := [Some(m)] + rest;
    forall t: Sq ensures RowUpdate(g[s := Some(m)], rest, rank, file + 1)[t] == RowUpdate(g, cells, rank, file)[t] {
      if Pos.Rank(t) == rank && Pos.File(t) == file {
        Pos.FileRankDetermine(t);
        Pos.FileRankDetermine(s);
      } else if Pos.Rank(t) == rank && file + 1 <= Pos.File(t) < file + |cells| {
        assert t != s;
        assert cells[Pos.File(t) - file] == rest[Pos.File(t) - file - 1];
      } else {
        assert t != s;
      }
    }
  }

  /** Skipping `d` empty cells moves the first man `d` files along. */
  lemma DigitsFit(rest: seq<Cell>, d: nat, file: nat)
    ensures Fits(Blanks(d) + rest, file) <==> Fits(rest, file + d)
  {
    var cells: seq<Cell> := Blanks(d) + rest;
    if Fits(rest, file + d) {
      forall k | 0 <= k < |cells| && cells[k].Some? ensures file + k < 8 {
        assert k >= d;
        assert cells[k] == rest[k - d];
      }
    }
    if Fits(cells, file) {
      forall k | 0 <= k < |rest| && rest[k].Some? ensures file + d + k < 8 {
        assert cells[d + k] == rest[k];
      }
    }
  }

  /**
   * Only a file of 256 or more tells the casting reader apart: on a row too
   * short to skip that far, both readers do the same.
   */
  lemma {:induction false} ShortRowsAgree(row: string, rank: nat, file: nat, pl: Placement)
    requires rank < 8
    requires file + 9 * |row| < 256
    ensures LoadRow(row, rank, file, pl, true) == LoadRow(row, rank, file, pl, false)
    decreases |row|
  {
    if row != [] {
      assert ReadFile(file, true) == ReadFile(file, false);
      if IsDigit(row[0]) {
        LoadRowDigit(row, rank, file, pl, true);
        LoadRowDigit(row, rank, file, pl, false);
        ShortRowsAgree(row[1..], rank, file + DigitValue(row[0]), pl);
      } else if file < 8 {
        var s := Pos.Index(file, rank);
        OnBoardSquare(file, rank, true);
        OnBoardSquare(file, rank, false);
        match ManOfLetter(row[0])
        case None =>
          LoadRowBadChar(row, rank, file, pl, true);
          LoadRowBadChar(row, rank, file, pl, false);
        case Some(m) =>
          LoadRowPlaces(row, rank, file, pl, true, s, m);
          LoadRowPlaces(row, rank, file, pl, false, s, m);
          ShortRowsAgree(row[1..], rank, file + 1, Put(pl, m, s));
      } else {
        LoadRowBadSquare(row, rank, file, pl, true);
        LoadRowBadSquare(row, rank, file, pl, false);
      }
    }
  }

  // ---------------------------------------------------------------------
  // The placement field.

  /** The outer loop of `load_board`: row `i` is rank `7 - i`, read from the a-file. */
  function LoadRows(rows: seq<string>, i: nat, pl: Placement, wrapFile: bool): (r: Result<Placement, FenError>)
    requires |rows| == 8 && i <= 8
    decreases 8 - i
  {
    if i == 8 then Ok(pl)
    else
      match LoadRow(rows[i], 7 - i, 0, pl, wrapFile)
      case Err(e) => Err(e)
      case Ok(pl') => LoadRows(rows, i + 1, pl', wrapFile)
  }

  /** The man a row puts on a file, None past the row's end. */
  function RowCell(row: string, f: nat): Cell
    requires RowCells(row).Some?
  {
    var cells := RowCells(row).value;
    if f < |cells| then cells[f] else None
  }

  /** The grid the first `i` rows describe, the ranks below still empty. */
  function PartialGrid(rows: seq<string>, i: nat): Grid
    requires |rows| == 8 && i <= 8
    requires forall j :: 0 <= j < i ==> RowCells(rows[j]).Some?
  {
    seq(64, s requires 0 <= s < 64 =>
      if 7 - Pos.Rank(s) < i then RowCell(rows[7 - Pos.Rank(s)], Pos.File(s)) else None)
  }

  /** The grid the eight rows describe. */
  function GridOf(rows: seq<string>): Grid
    requires |rows| == 8
    requires forall j :: 0 <= j < 8 ==> RowCells(rows[j]).Some?
  {
    PartialGrid(rows, 8)
  }

  /** Every row from row `i` on is one the reader accepts. */
  predicate RowsOkFrom(rows: seq<string>, i: nat)
    requires |rows| == 8
  {
    forall j :: i <= j < 8 ==> RowOk(rows[j])
  }

  /** The eight rows, read from row `i` on, are accepted exactly when each of them is. */
  lemma {:induction false} LoadRowsAccepts(rows: seq<string>, i: nat, pl: Placement)
    requires |rows| == 8 && i <= 8
    ensures LoadRows(rows, i, pl, false).Ok? <==> RowsOkFrom(rows, i)
    decreases 8 - i
  {
    if i < 8 {
      RowsOkStep(rows, i);
      var q := RowStep(rows, i, pl);
      if q.Some? {
        LoadRowsAccepts(rows, i + 1, q.value);
      }
    }
  }

  /** The rows from `i` on are good exactly when row `i` and those after it are. */
  lemma RowsOkStep(rows: seq<string>, i: nat)
    requires |rows| == 8 && i < 8
    ensures RowsOkFrom(rows, i) <==> RowOk(rows[i]) && RowsOkFrom(rows, i + 1)
  {
  }

  /** Row `i` either moves the outer loop on with the placement it gives, or stops it. */
  lemma RowStep(rows: seq<string>, i: nat, pl: Placement) returns (q: Option<Placement>)
    requires |rows| == 8 && i < 8
    ensures q.Some? <==> RowOk(rows[i])
    ensures q.Some? ==> LoadRows(rows, i, pl, false) == LoadRows(rows, i + 1, q.value, false)
    ensures q.None? ==> LoadRows(rows, i, pl, false).Err?
  {
    LoadRowAccepts(rows[i], 7 - i, 0, pl);
    var r := LoadRow(rows[i], 7 - i, 0, pl, false);
    if r.Ok? {
      LoadRowsNext(rows, i, 7 - i, pl, false, r.value);
      q := Some(r.value);
    } else {
      LoadRowsStops(rows, i, 7 - i, pl, false);
      q := None;
    }
  }

  /**
   * Good rows, read from row `i` on onto a placement showing the rows
   * before, give a placement showing the grid of all eight.
   */
  lemma {:induction false} LoadRowsWrites(rows: seq<string>, i: nat, pl: Placement)
    requires |rows| == 8 && i <= 8
    requires forall j :: 0 <= j < 8 ==> RowCells(rows[j]).Some? && Fits(RowCells(rows[j]).value, 0)
    requires Shows(pl, PartialGrid(rows, i))
    ensures LoadRows(rows, i, pl, false).Ok? && Shows(LoadRows(rows, i, pl, false).value, GridOf(rows))
    decreases 8 - i
  {
    if i < 8 {
      RowWrites(rows, i, pl);
      var q := LoadRow(rows[i], 7 - i, 0, pl, false).value;
      LoadRowsWrites(rows, i + 1, q);
      LoadRowsNext(rows, i, 7 - i, pl, false, q);
    }
  }

  /** A good row `i`, read onto the grid of the rows before it, shows the grid of one more row. */
  lemma RowWrites(rows: seq<string>, i: nat, pl: Placement)
    requires |rows| == 8 && i < 8
    requires forall j :: 0 <= j < 8 ==> RowCells(rows[j]).Some? && Fits(RowCells(rows[j]).value, 0)
    requires Shows(pl, PartialGrid(rows, i))
    ensures LoadRow(rows[i], 7 - i, 0, pl, false).Ok?
    ensures Shows(LoadRow(rows[i], 7 - i, 0, pl, false).value, PartialGrid(rows, i + 1))
  {
    NextRankClear(rows, i);
    LoadRowWrites(rows[i], 7 - i, 0, pl, PartialGrid(rows, i));
    RowShows(rows, i, LoadRow(rows[i], 7 - i, 0, pl, false).value);
  }

  /** A placement showing row `i` written onto the grid of the rows before it shows the grid of one more row. */
  lemma RowShows(rows: seq<string>, i: nat, pl: Placement)
    requires |rows| == 8 && i < 8
    requires forall j :: 0 <= j <= i ==> RowCells(rows[j]).Some?
    requires Shows(pl, RowUpdate(PartialGrid(rows, i), RowCells(rows[i]).value, 7 - i, 0))
    ensures Shows(pl, PartialGrid(rows, i + 1))
  {
    RowCompletes(rows, i);
  }

  /** The rank row `i` fills is still empty in the grid of the rows before it. */
  lemma NextRankClear(rows: seq<string>, i: nat)
    requires |rows| == 8 && i < 8
    requires forall j :: 0 <= j < i ==> RowCells(rows[j]).Some?
    ensures ClearFrom(PartialGrid(rows, i), 7 - i, 0)
  {
  }

  /** Writing row `i` onto its rank extends the grid of the rows before it by that row. */
  lemma RowCompletes(rows: seq<string>, i: nat)
    requires |rows| == 8 && i < 8
    requires forall j :: 0 <= j <= i ==> RowCells(rows[j]).Some?
    ensures RowUpdate(PartialGrid(rows, i), RowCells(rows[i]).value, 7 - i, 0) == PartialGrid(rows, i + 1)
  {
    var a := RowUpdate(PartialGrid(rows, i), RowCells(rows[i]).value, 7 - i, 0);
    var b := PartialGrid(rows, i + 1);
    forall t: Sq ensures a[t] == b[t] {
    }
  }

  /**
   * `load_board`: split on '/', exactly 8 rows, read them, then require a
   * white king and, after that, a black king.
   */
  function LoadBoardWith(text: string, wrapFile: bool): (r: Result<Placement, FenError>)
    ensures |Split(text, '/')| != 8 ==> r == Err(WrongRowCount(|Split(text, '/')|))
    ensures r.Ok? ==> !IsEmpty(OfType(r.value.white, King)) && !IsEmpty(OfType(r.value.black, King))
  {
    var rows := Split(text, '/');
    if |rows| != 8 then Err(WrongRowCount(|rows|))
    else
      match LoadRows(rows, 0, EmptyPlacement, wrapFile)
      case Err(e) => Err(e)
      case Ok(pl) =>
        if IsEmpty(OfType(pl.white, King)) then Err(MissingWhiteKing)
        else if IsEmpty(OfType(pl.black, King)) then Err(MissingBlackKing)
        else Ok(pl)
  }

  /** The placement field as the board is built from it. */
  function LoadBoard(text: string): Result<Placement, FenError>
  {
    LoadBoardWith(text, false)
  }

  /** A placement field the reader accepts: 8 good rows with a king of each side. */
  predicate BoardTextOk(text: string)
  {
    var rows := Split(text, '/');
    |rows| == 8 && (forall j :: 0 <= j < 8 ==> RowOk(rows[j]))
    && HasMan(GridOf(rows), Man(White, King)) && HasMan(GridOf(rows), Man(Black, King))
  }

  /**
   * The reader accepts exactly the well-formed fields, and the placement it
   * returns holds exactly the men the text names, each on its square.
   */
  lemma LoadBoardMeaning(text: string)
    ensures LoadBoard(text).Ok? <==> BoardTextOk(text)
    ensures LoadBoard(text).Ok? ==> Shows(LoadBoard(text).value, GridOf(Split(text, '/')))
  {
    var rows := Split(text, '/');
    if |rows| == 8 {
      if forall j :: 0 <= j < 8 ==> RowOk(rows[j]) {
        GoodRowsLoad(rows);
        KingsDecide(text, LoadRows(rows, 0, EmptyPlacement, false).value);
      } else {
        BadRowsRefused(text);
      }
    }
  }

  /** A field with a bad row is refused. */
  lemma BadRowsRefused(text: string)
    requires |Split(text, '/')| == 8 && !forall j :: 0 <= j < 8 ==> RowOk(Split(text, '/')[j])
    ensures LoadBoard(text).Err?
  {
    var rows := Split(text, '/');
    LoadRowsAccepts(rows, 0, EmptyPlacement);
    LoadBoardRowsErr(text, false, LoadRows(rows, 0, EmptyPlacement, false).error);
  }

  /** Eight good rows read onto the empty placement give one showing their grid. */
  lemma GoodRowsLoad(rows: seq<string>)
    requires |rows| == 8 && forall j :: 0 <= j < 8 ==> RowOk(rows[j])
    ensures forall j :: 0 <= j < 8 ==> RowCells(rows[j]).Some?
    ensures LoadRows(rows, 0, EmptyPlacement, false).Ok?
    ensures Shows(LoadRows(rows, 0, EmptyPlacement, false).value, GridOf(rows))
  {
    assert PartialGrid(rows, 0) == EmptyCells();
    EmptyShowsNothing();
    LoadRowsWrites(rows, 0, EmptyPlacement);
  }

  /** With its rows read, the field is accepted exactly when the grid has a king of each side. */
  lemma KingsDecide(text: string, pl: Placement)
    requires |Split(text, '/')| == 8 && forall j :: 0 <= j < 8 ==> RowCells(Split(text, '/')[j]).Some?
    requires LoadRows(Split(text, '/'), 0, EmptyPlacement, false) == Ok(pl)
    requires Shows(pl, GridOf(Split(text, '/')))
    ensures LoadBoard(text).Ok? <==>
      HasMan(GridOf(Split(text, '/')), Man(White, King)) && HasMan(GridOf(Split(text, '/')), Man(Black, King))
    ensures LoadBoard(text).Ok? ==> LoadBoard(text).value == pl
  {
    KingPresent(pl, GridOf(Split(text, '/')), White);
    KingPresent(pl, GridOf(Split(text, '/')), Black);
  }

  /** A side has a king on the board exactly when the grid gives it one. */
  lemma KingPresent(pl: Placement, g: Grid, c: Color)
    requires Shows(pl, g)
    ensures !IsEmpty(OfType(Side(pl, c), King)) <==> HasMan(g, Man(c, King))
  {
    var b := OfType(Side(pl, c), King);
    if HasMan(g, Man(c, King)) {
      var s: Sq :| g[s] == Some(Man(c, King));
      assert b[s] && !Empty[s];
    }
    if !IsEmpty(b) {
      assert IsNotEmpty(b);
      var s: Sq :| b[s];
      assert g[s] == Some(Man(c, King));
    }
  }

  // ---------------------------------------------------------------------
  // The other fields.

  /**
   * `load_castling`: from the rights held so far, each of K, Q, k and q
   * grants its right, '-' does nothing and anything else is an error.
   */
  function LoadCastling(text: string, rights: Castling.Rights): Result<Castling.Rights, FenError>
    decreases |text|
  {
    if text == [] then Ok(rights)
    else
      match text[0]
      case 'K' => LoadCastling(text[1..], Castling.UpdateKingside(rights, White, true))
      case 'Q' => LoadCastling(text[1..], Castling.UpdateQueenside(rights, White, true))
      case 'k' => LoadCastling(text[1..], Castling.UpdateKingside(rights, Black, true))
      case 'q' => LoadCastling(text[1..], Castling.UpdateQueenside(rights, Black, true))
      case '-' => LoadCastling(text[1..], rights)
      case x => Err(InvalidCastlingChar(x))
  }

  /**
   * The castling field is accepted exactly when it holds only K, Q, k, q
   * and '-', and then each right is held exactly when it was held before
   * or its letter occurs.
   */
  lemma {:induction false} LoadCastlingRights(text: string, rights: Castling.Rights)
    ensures LoadCastling(text, rights).Ok? <==> forall i :: 0 <= i < |text| ==> text[i] in "KQkq-"
    ensures LoadCastling(text, rights).Ok? ==> Granted(LoadCastling(text, rights).value, rights, text)
    decreases |text|
  {
    if text != [] {
      InTail(text);
      if text[0] in "KQkq-" {
        LoadCastlingStep(text, rights);
        LoadCastlingRights(text[1..], Grant(rights, text[0]));
        GrantMeaning(rights, text[0]);
      }
    }
  }

  /** The rights after one character of the castling field. */
  function Grant(rights: Castling.Rights, c: char): Castling.Rights
  {
    match c
    case 'K' => Castling.UpdateKingside(rights, White, true)
    case 'Q' => Castling.UpdateQueenside(rights, White, true)
    case 'k' => Castling.UpdateKingside(rights, Black, true)
    case 'q' => Castling.UpdateQueenside(rights, Black, true)
    case _ => rights
  }

  /** A good character moves the reading on with its right granted. */
  lemma LoadCastlingStep(text: string, rights: Castling.Rights)
    requires text != [] && text[0] in "KQkq-"
    ensures LoadCastling(text, rights) == LoadCastling(text[1..], Grant(rights, text[0]))
  {
  }

  /** One character grants exactly the right its letter names. */
  lemma GrantMeaning(rights: Castling.Rights, c: char)
    ensures Castling.CanCastleKingside(Grant(rights, c), White) <==> Castling.CanCastleKingside(rights, White) || c == 'K'
    ensures Castling.CanCastleQueenside(Grant(rights, c), White) <==> Castling.CanCastleQueenside(rights, White) || c == 'Q'
    ensures Castling.CanCastleKingside(Grant(rights, c), Black) <==> Castling.CanCastleKingside(rights, Black) || c == 'k'
    ensures Castling.CanCastleQueenside(Grant(rights, c), Black) <==> Castling.CanCastleQueenside(rights, Black) || c == 'q'
  {
  }

  /** A character is in a non-empty text exactly when it leads it or is in the rest. */
  lemma InTail(text: string)
    requires text != []
    ensures forall c :: c in text <==> c == text[0] || c in text[1..]
  {
    assert text == [text[0]] + text[1..];
  }

  /** Each right of `r` is held exactly when it is in `rights` or its letter is in the text. */
  predicate Granted(r: Castling.Rights, rights: Castling.Rights, text: string)
  {
    (Castling.CanCastleKingside(r, White) <==> Castling.CanCastleKingside(rights, White) || 'K' in text)
    && (Castling.CanCastleQueenside(r, White) <==> Castling.CanCastleQueenside(rights, White) || 'Q' in text)
    && (Castling.CanCastleKingside(r, Black) <==> Castling.CanCastleKingside(rights, Black) || 'k' in text)
    && (Castling.CanCastleQueenside(r, Black) <==> Castling.CanCastleQueenside(rights, Black) || 'q' in text)
  }

  /** What `read_fen` returns. */
  datatype FenInfo = FenInfo(
    turn: Color,
    castlingRights: Castling.Rights,
    enPassant: BitBoard,
    halfmoves: nat,
    fullmoves: nat,
    placement: Placement)

  /** The en passant field: "-" for none, else a square. */
  function EnPassantOf(text: string): (r: Result<BitBoard, FenError>)
    ensures text == "-" ==> r == Ok(Empty)
    ensures text != "-" ==> (r.Ok? <==> Pos.SquareFromNotation(text).Ok?)
    ensures text != "-" && r.Ok? ==> r.value == FromSquare(Pos.SquareFromNotation(text).value)
  {
    if text == "-" then Ok(Empty)
    else
      match Pos.SquareFromNotation(text)
      case Err(e) => Err(BadEnPassant(e))
      case Ok(s) => Ok(FromSquare(s))
  }

  /**
   * `read_fen`: six whitespace-separated fields, read in order, the first
   * error winning.
   */
  function ReadFenWith(fen: string, wrapFile: bool): (r: Result<FenInfo, FenError>)
    ensures |SplitWhitespace(fen)| != 6 ==> r == Err(WrongPartCount(|SplitWhitespace(fen)|))
  {
    var parts := SplitWhitespace(fen);
    if |parts| != 6 then Err(WrongPartCount(|parts|))
    else
      match LoadBoardWith(parts[0], wrapFile)
      case Err(e) => Err(e)
      case Ok(pl) =>
        if parts[1] != "w" && parts[1] != "b" then Err(InvalidTurn(parts[1]))
        else
          var turn := if parts[1] == "w" then White else Black;
          match LoadCastling(parts[2], Castling.NoRights())
          case Err(e) => Err(e)
          case Ok(rights) =>
            match EnPassantOf(parts[3])
            case Err(e) => Err(e)
            case Ok(ep) =>
              match ParseU16(parts[4])
              case None => Err(BadHalfmoves)
              case Some(half) =>
                match ParseU16(parts[5])
                case None => Err(BadFullmoves)
                case Some(full) => Ok(FenInfo(turn, rights, ep, half, full, pl))
  }

  /** The reader of the source, with the cast of the file to `u8`. */
  function ReadFenAsWritten(fen: string): Result<FenInfo, FenError>
  {
    ReadFenWith(fen, true)
  }

  /** The reader the board is built with: a file past the h-file is always an error. */
  function ReadFen(fen: string): Result<FenInfo, FenError>
  {
    ReadFenWith(fen, false)
  }

  // ---------------------------------------------------------------------
  // Writing a FEN and reading it back.

  function TurnText(c: Color): (t: string)
    ensures t in {"w", "b"}
  {
    if c == White then "w" else "b"
  }

  /** The en passant field of an optional square. */
  function EnPassantText(ep: Option<Sq>): string
  {
    if ep.None? then "-" else Pos.SquareNotation(ep.value)
  }

  /**
   * Six fields written with single spaces read back field by field: the
   * placement as loaded, the side to move, the castling rights, the en
   * passant square and both counters.
   */
  lemma ReadAssembled(board: string, turn: Color, castling: string, ep: Option<Sq>, half: nat, full: nat)
    requires IsWord(board) && LoadBoard(board).Ok?
    requires IsWord(castling) && forall i :: 0 <= i < |castling| ==> castling[i] in "KQkq-"
    requires half <= U16_MAX && full <= U16_MAX
    ensures var fen := Unwords([board, TurnText(turn), castling, EnPassantText(ep), Decimal(half), Decimal(full)]);
      ReadFen(fen).Ok?
      && ReadFen(fen).value.placement == LoadBoard(board).value
      && ReadFen(fen).value.turn == turn
      && Ok(ReadFen(fen).value.castlingRights) == LoadCastling(castling, Castling.NoRights())
      && ReadFen(fen).value.enPassant == (if ep.None? then Empty else FromSquare(ep.value))
      && ReadFen(fen).value.halfmoves == half
      && ReadFen(fen).value.fullmoves == full
  {
    var words := [board, TurnText(turn), castling, EnPassantText(ep), Decimal(half), Decimal(full)];
    AssembledWords(board, turn, castling, ep, half, full);
    assert ParseU16(words[4]) == Some(half) && ParseU16(words[5]) == Some(full) by {
      ParseU16RoundTrip(half);
      ParseU16RoundTrip(full);
    }
    assert LoadCastling(words[2], Castling.NoRights()).Ok? by {
      LoadCastlingRights(castling, Castling.NoRights());
    }
    EnPassantTextReads(ep);
    ReadFields(Unwords(words), words, LoadBoard(board).value, turn,
      LoadCastling(castling, Castling.NoRights()).value, EnPassantOf(EnPassantText(ep)).value, half, full);
  }

  /**
   * What a successful read holds: six words, the first loaded as the
   * placement, the second naming the side to move, the castling word
   * granting the rights, the en passant word giving its square and both
   * counters parsed as `u16` numbers.
   */
  lemma ReadFenFields(fen: string)
    requires ReadFen(fen).Ok?
    ensures var words := SplitWhitespace(fen); var info := ReadFen(fen).value;
      |words| == 6
      && LoadBoard(words[0]) == Ok(info.placement)
      && words[1] == TurnText(info.turn)
      && LoadCastling(words[2], Castling.NoRights()) == Ok(info.castlingRights)
      && EnPassantOf(words[3]) == Ok(info.enPassant)
      && ParseU16(words[4]) == Some(info.halfmoves)
      && ParseU16(words[5]) == Some(info.fullmoves)
  {
    var words := SplitWhitespace(fen);
    assert |words| == 6;
    var pl := LoadBoardWith(words[0], false);
    assert pl.Ok?;
    assert words[1] == "w" || words[1] == "b";
    var rights := LoadCastling(words[2], Castling.NoRights());
    assert rights.Ok?;
    var ep := EnPassantOf(words[3]);
    assert ep.Ok?;
    assert ParseU16(words[4]).Some? && ParseU16(words[5]).Some?;
    assert ReadFen(fen) == Ok(FenInfo(if words[1] == "w" then White else Black, rights.value, ep.value,
      ParseU16(words[4]).value, ParseU16(words[5]).value, pl.value));
  }

  /** Six fields that each read give the record of what they read. */
  lemma ReadFields(fen: string, words: seq<string>, pl: Placement, turn: Color, rights: Castling.Rights,
                   ep: BitBoard, half: nat, full: nat)
    requires SplitWhitespace(fen) == words && |words| == 6
    requires LoadBoard(words[0]) == Ok(pl) && words[1] == TurnText(turn)
    requires LoadCastling(words[2], Castling.NoRights()) == Ok(rights) && EnPassantOf(words[3]) == Ok(ep)
    requires ParseU16(words[4]) == Some(half) && ParseU16(words[5]) == Some(full)
    ensures ReadFen(fen) == Ok(FenInfo(turn, rights, ep, half, full, pl))
  {
    assert LoadBoardWith(words[0], false) == Ok(pl);
    assert (if words[1] == "w" then White else Black) == turn;
  }

  /** The six fields are words, so splitting their join gives them back. */
  lemma AssembledWords(board: string, turn: Color, castling: string, ep: Option<Sq>, half: nat, full: nat)
    requires IsWord(board) && IsWord(castling)
    ensures var words := [board, TurnText(turn), castling, EnPassantText(ep), Decimal(half), Decimal(full)];
      SplitWhitespace(Unwords(words)) == words
  {
    var words := [board, TurnText(turn), castling, EnPassantText(ep), Decimal(half), Decimal(full)];
    EnPassantTextIsWord(ep);
    DecimalIsWord(half);
    DecimalIsWord(full);
    assert forall i :: 0 <= i < 6 ==> IsWord(words[i]);
    SplitUnwords(words);
  }

  lemma DecimalIsWord(n: nat)
    ensures IsWord(Decimal(n))
  {
    var d := Decimal(n);
    assert forall i :: 0 <= i < |d| ==> IsDigit(d[i]);
  }

  lemma EnPassantTextIsWord(ep: Option<Sq>)
    ensures IsWord(EnPassantText(ep))
  {
    if ep.Some? {
      var t := Pos.SquareNotation(ep.value);
      assert t[0] in Pos.FileLetters && t[1] in Pos.RankDigits;
    }
  }

  lemma EnPassantTextReads(ep: Option<Sq>)
    ensures EnPassantOf(EnPassantText(ep)).Ok?
    ensures EnPassantOf(EnPassantText(ep)).value == if ep.None? then Empty else FromSquare(ep.value)
  {
    if ep.Some? {
      Pos.SquareNotationRoundTrip(ep.value);
      assert EnPassantText(ep) != "-";
    }
  }

  // ---------------------------------------------------------------------
  // The cast of the file to `u8`.

  /** `n` nines: a run of digits skipping 9 files each. */
  function Nines(n: nat): (s: string)
    ensures |s| == n && forall i :: 0 <= i < n ==> s[i] == '9'
  {
    seq(n, _ => '9')
  }

  /** A run of nines advances the file by nine per digit and places nothing. */
  lemma {:induction false} NinesAdvance(n: nat, t: string, rank: nat, file: nat, pl: Placement, wrapFile: bool)
    requires rank < 8
    ensures LoadRow(Nines(n) + t, rank, file, pl, wrapFile) == LoadRow(t, rank, file + 9 * n, pl, wrapFile)
  {
    if n == 0 {
      assert Nines(n) + t == t;
    } else {
      assert Nines(n) + t == [Nines(n)[0]] + (Nines(n - 1) + t);
      DigitAdvance(Nines(n)[0], Nines(n - 1) + t, rank, file, pl, wrapFile);
      NinesAdvance(n - 1, t, rank, file + 9, pl, wrapFile);
    }
  }

  /** A leading digit moves the file along by its value. */
  lemma DigitAdvance(c: char, t: string, rank: nat, file: nat, pl: Placement, wrapFile: bool)
    requires rank < 8 && IsDigit(c)
    ensures LoadRow([c] + t, rank, file, pl, wrapFile) == LoadRow(t, rank, file + DigitValue(c), pl, wrapFile)
  {
    assert ([c] + t)[0] == c && ([c] + t)[1..] == t;
    LoadRowDigit([c] + t, rank, file, pl, wrapFile);
  }

  /** The row that skips 256 files between a white and a black king. */
  function WrapRow(): string
  {
    "K" + Nines(28) + "3k"
  }

  /** Both kings put on a8 over whatever the placement held. */
  function Stacked(pl: Placement): Placement
  {
    Put(Put(pl, Man(White, King), 63), Man(Black, King), 63)
  }

  /**
   * With the cast, the black king of `WrapRow` lands back on a8, the square
   * of the white king; without it, the row is refused at file 256.
   */
  lemma WrapRowStacksKings(pl: Placement, wrapFile: bool)
    ensures LoadRow(WrapRow(), 7, 0, pl, wrapFile)
      == if wrapFile then Ok(Stacked(pl)) else Err(BadSquare(Pos.InvalidFile(256)))
  {
    var wl := Put(pl, Man(White, King), 63);
    KingThenNines(WrapRow(), pl, wl, wrapFile);
    SkipThenKing(wl, wrapFile);
  }

  /** A man letter on a file of the board puts the man there and moves to the next file. */
  lemma LetterAdvance(m: Man, t: string, rank: nat, file: nat, pl: Placement, wrapFile: bool)
    requires rank < 8 && file < 8
    ensures LoadRow([Letter(m)] + t, rank, file, pl, wrapFile)
      == LoadRow(t, rank, file + 1, Put(pl, m, Pos.Index(file, rank)), wrapFile)
  {
    var s := [Letter(m)] + t;
    assert s[0] == Letter(m) && s[1..] == t;
    LetterRoundTrip(m, m);
    OnBoardSquare(file, rank, wrapFile);
    LoadRowPlaces(s, rank, file, pl, wrapFile, Pos.Index(file, rank), m);
  }

  lemma KingThenNines(row: string, pl: Placement, wl: Placement, wrapFile: bool)
    requires row == WrapRow() && wl == Put(pl, Man(White, King), 63)
    ensures LoadRow(row, 7, 0, pl, wrapFile) == LoadRow("3k", 7, 253, wl, wrapFile)
  {
    assert row == [Letter(Man(White, King))] + (Nines(28) + "3k");
    LetterAdvance(Man(White, King), Nines(28) + "3k", 7, 0, pl, wrapFile);
    NinesAdvance(28, "3k", 7, 1, wl, wrapFile);
  }

  lemma SkipThenKing(pl: Placement, wrapFile: bool)
    ensures LoadRow("3k", 7, 253, pl, wrapFile)
      == if wrapFile then Ok(Put(pl, Man(Black, King), 63)) else Err(BadSquare(Pos.InvalidFile(256)))
  {
    assert "3k" == ['3'] + "k";
    assert IsDigit('3') && DigitValue('3') == 3;
    DigitAdvance('3', "k", 7, 253, pl, wrapFile);
    if wrapFile {
      KingOnWrappedFile("k", pl);
    } else {
      KingOffBoard("k", pl);
    }
  }

  /** With the cast, the king letter at file 256 lands on the a-file. */
  lemma KingOnWrappedFile(k: string, pl: Placement)
    requires |k| == 1 && k[0] == 'k'
    ensures LoadRow(k, 7, 256, pl, true) == Ok(Put(pl, Man(Black, King), 63))
  {
    assert ReadFile(256, true) == 0;
    OnBoardSquare(0, 7, false);
    LoadRowPlaces(k, 7, 256, pl, true, 63, Man(Black, King));
  }

  /** Without the cast, the king letter at file 256 is refused for its file. */
  lemma KingOffBoard(k: string, pl: Placement)
    requires |k| == 1 && k[0] == 'k'
    ensures LoadRow(k, 7, 256, pl, false) == Err(BadSquare(Pos.InvalidFile(256)))
  {
    LoadRowBadSquare(k, 7, 256, pl, false);
  }

  /** The placement field with `WrapRow` as its top row and seven empty rows. */
  function WrapBoardRows(): (rows: seq<string>)
    ensures |rows| == 8
  {
    [WrapRow(), "8", "8", "8", "8", "8", "8", "8"]
  }

  lemma EmptyRowsKeep(rows: seq<string>, i: nat, pl: Placement, wrapFile: bool)
    requires |rows| == 8 && 1 <= i <= 8 && forall j :: 1 <= j < 8 ==> rows[j] == "8"
    ensures LoadRows(rows, i, pl, wrapFile) == Ok(pl)
    decreases 8 - i
  {
    if i < 8 {
      assert rows[i][0] == '8' && IsDigit('8') && rows[i][1..] == [];
      LoadRowDigit(rows[i], 7 - i, 0, pl, wrapFile);
      EmptyRowsKeep(rows, i + 1, pl, wrapFile);
    }
  }

  /**
   * The whole placement field: the reader of the source accepts it with the
   * white and the black king on the same square, a8, and without the cast
   * it is refused.
   */
  lemma WrapBoardStacksKings()
    ensures LoadBoardWith(Join(WrapBoardRows(), '/'), true) == Ok(Stacked(EmptyPlacement))
    ensures OfType(Stacked(EmptyPlacement).white, King)[63] && OfType(Stacked(EmptyPlacement).black, King)[63]
    ensures LoadBoard(Join(WrapBoardRows(), '/')) == Err(BadSquare(Pos.InvalidFile(256)))
  {
    var text := Join(WrapBoardRows(), '/');
    WrapBoardSplits();
    WrapBoardShape(Split(text, '/'));
    WrapFieldStacksKings(text, true);
    WrapFieldStacksKings(text, false);
    StackedKingsOnA8(EmptyPlacement);
  }

  /** A field that splits into the wrapping rows, read with and without the cast. */
  lemma WrapFieldStacksKings(text: string, wrapFile: bool)
    requires |Split(text, '/')| == 8 && Split(text, '/')[0] == WrapRow()
    requires forall j :: 1 <= j < 8 ==> Split(text, '/')[j] == "8"
    ensures LoadBoardWith(text, wrapFile)
      == if wrapFile then Ok(Stacked(EmptyPlacement)) else Err(BadSquare(Pos.InvalidFile(256)))
  {
    var rows := Split(text, '/');
    WrapRowStacksKings(EmptyPlacement, wrapFile);
    WrapRowsLoad(rows, EmptyPlacement, wrapFile);
    if wrapFile {
      StackedKingsOnA8(EmptyPlacement);
      LoadBoardOfRows(text, wrapFile, Stacked(EmptyPlacement));
    } else {
      LoadBoardRowsErr(text, wrapFile, BadSquare(Pos.InvalidFile(256)));
    }
  }

  /** No row of the wrapping field holds a '/', so splitting the joined field gives the rows back. */
  lemma WrapBoardSplits()
    ensures Split(Join(WrapBoardRows(), '/'), '/') == WrapBoardRows()
  {
    var rows := WrapBoardRows();
    forall j | 0 <= j < 8 ensures '/' !in rows[j] {
      if j == 0 {
        assert forall k :: 0 <= k < |rows[0]| ==> rows[0][k] != '/' by {
          assert WrapRow() == ['K'] + Nines(28) + "3k";
        }
      }
    }
    SplitJoin(rows, '/');
  }

  /** The wrapping field is `WrapRow` over seven empty rows. */
  lemma WrapBoardShape(rows: seq<string>)
    requires rows == WrapBoardRows()
    ensures |rows| == 8 && rows[0] == WrapRow() && forall j :: 1 <= j < 8 ==> rows[j] == "8"
  {
  }

  /** A top row read as `WrapRow` is and seven empty rows: the field reads as its top row. */
  lemma WrapRowsLoad(rows: seq<string>, pl: Placement, wrapFile: bool)
    requires |rows| == 8 && forall j :: 1 <= j < 8 ==> rows[j] == "8"
    requires LoadRow(rows[0], 7, 0, pl, wrapFile)
      == if wrapFile then Ok(Stacked(pl)) else Err(BadSquare(Pos.InvalidFile(256)))
    ensures LoadRows(rows, 0, pl, wrapFile)
      == if wrapFile then Ok(Stacked(pl)) else Err(BadSquare(Pos.InvalidFile(256)))
  {
    if wrapFile {
      LoadRowsNext(rows, 0, 7, pl, wrapFile, Stacked(pl));
      EmptyRowsKeep(rows, 1, Stacked(pl), wrapFile);
    } else {
      LoadRowsStops(rows, 0, 7, pl, wrapFile);
    }
  }

  lemma StackedKingsOnA8(pl: Placement)
    ensures OfType(Stacked(pl).white, King)[63] && OfType(Stacked(pl).black, King)[63]
    ensures !IsEmpty(OfType(Stacked(pl).white, King)) && !IsEmpty(OfType(Stacked(pl).black, King))
  {
    var wl := Put(pl, Man(White, King), 63);
    PutPlaces(pl, Man(White, King), 63);
    PutPlaces(wl, Man(Black, King), 63);
    assert OfType(Side(Stacked(pl), White), King)[63];
    assert OfType(Side(Stacked(pl), Black), King)[63];
    EmptyAndOnes();
  }

  /** A good row moves the outer loop on to the next row. */
  lemma LoadRowsNext(rows: seq<string>, i: nat, rank: nat, pl: Placement, wrapFile: bool, ql: Placement)
    requires |rows| == 8 && i < 8 && rank == 7 - i && LoadRow(rows[i], rank, 0, pl, wrapFile) == Ok(ql)
    ensures LoadRows(rows, i, pl, wrapFile) == LoadRows(rows, i + 1, ql, wrapFile)
  {
  }

  /** A bad row stops the outer loop with its error. */
  lemma LoadRowsStops(rows: seq<string>, i: nat, rank: nat, pl: Placement, wrapFile: bool)
    requires |rows| == 8 && i < 8 && rank == 7 - i && LoadRow(rows[i], rank, 0, pl, wrapFile).Err?
    ensures LoadRows(rows, i, pl, wrapFile) == Err(LoadRow(rows[i], rank, 0, pl, wrapFile).error)
  {
  }

  /** Eight rows read with a king of each side give the field's placement. */
  lemma LoadBoardOfRows(text: string, wrapFile: bool, pl: Placement)
    requires |Split(text, '/')| == 8 && LoadRows(Split(text, '/'), 0, EmptyPlacement, wrapFile) == Ok(pl)
    requires !IsEmpty(OfType(pl.white, King)) && !IsEmpty(OfType(pl.black, King))
    ensures LoadBoardWith(text, wrapFile) == Ok(pl)
  {
  }

  /** An error in the eight rows is the field's error. */
  lemma LoadBoardRowsErr(text: string, wrapFile: bool, e: FenError)
    requires |Split(text, '/')| == 8 && LoadRows(Split(text, '/'), 0, EmptyPlacement, wrapFile) == Err(e)
    ensures LoadBoardWith(text, wrapFile) == Err(e)
  {
  }
}
