/**
 * The FEN readers of the two earlier revisions: `src/fen/fen_utils.rs`
 * fills an 8×8 grid of men, and `src/chess/fen/fen_utils.rs` collects
 * each side's men into a list, king first, and dumps it into an array of
 * sixteen slots.  Both read the other five fields the same way.
 *
 * The rows of the placement field are described with the core reader's
 * `RowCells`: a digit for that many empty cells, a letter for its man.
 */
module LegacyFen {
  import opened Base
  import opened Colors
  import opened PieceTypes
  import opened Text
  import LC = LegacyCastling
  import Pos = Positions
  import F = Fen

  datatype LegacyFenError =
    | WrongPartCount
    | WrongRowCount
    | InvalidBoardChar(c: char)
    | InvalidTurn(t: string)
    | InvalidCastlingChar(c: char)
    | BadSquare(e: Pos.SquareError)
    | BadHalfmoves
    | BadFullmoves
    | NoWhiteKing
    | NoBlackKing
    | TooManyPieces
    /** The grid reader's index past the h-file: a Rust panic. */
    | IndexOutOfBounds

  // ---------------------------------------------------------------------
  // The fields after the placement, read alike by both revisions.

  /** The turn field: "w" or "b". */
  function ReadTurn(t: string): (r: Result<Color, LegacyFenError>)
    ensures r.Ok? <==> t == "w" || t == "b"
    ensures r.Ok? ==> (r.value == White <==> t == "w")
    ensures r.Err? ==> r.error == InvalidTurn(t)
  {
    if t == "w" then Ok(White) else if t == "b" then Ok(Black) else Err(InvalidTurn(t))
  }

  predicate IsCastlingChar(c: char)
  {
    c == 'K' || c == 'Q' || c == 'k' || c == 'q' || c == '-'
  }

  /** `load_castling`: each letter grants its right; '-' grants none; anything else is an error. */
  function LoadCastling(text: string, rights: LC.CastlingRights): Result<LC.CastlingRights, LegacyFenError>
    decreases |text|
  {
    if text == [] then Ok(rights)
    else
      match text[0]
      case 'K' => LoadCastling(text[1..], LC.UpdateKingside(rights, White, true))
      case 'Q' => LoadCastling(text[1..], LC.UpdateQueenside(rights, White, true))
      case 'k' => LoadCastling(text[1..], LC.UpdateKingside(rights, Black, true))
      case 'q' => LoadCastling(text[1..], LC.UpdateQueenside(rights, Black, true))
      case '-' => LoadCastling(text[1..], rights)
      case c => Err(InvalidCastlingChar(c))
  }

  /**
   * The castling field is accepted exactly when it holds only "KQkq-"
   * characters, and a right ends up granted exactly when it was granted
   * before or its letter occurs.
   */
  lemma {:induction false} LoadCastlingMeaning(text: string, rights: LC.CastlingRights)
    ensures LoadCastling(text, rights).Ok? <==> forall i :: 0 <= i < |text| ==> IsCastlingChar(text[i])
    ensures LoadCastling(text, rights).Ok? ==>
      var r := LoadCastling(text, rights).value;
      (LC.KingSide(r, White) <==> LC.KingSide(rights, White) || 'K' in text)
      && (LC.QueenSide(r, White) <==> LC.QueenSide(rights, White) || 'Q' in text)
      && (LC.KingSide(r, Black) <==> LC.KingSide(rights, Black) || 'k' in text)
      && (LC.QueenSide(r, Black) <==> LC.QueenSide(rights, Black) || 'q' in text)
    decreases |text|
  {
    if text != [] {
      var c := text[0];
      var next := match c
        case 'K' => LC.UpdateKingside(rights, White, true)
        case 'Q' => LC.UpdateQueenside(rights, White, true)
        case 'k' => LC.UpdateKingside(rights, Black, true)
        case 'q' => LC.UpdateQueenside(rights, Black, true)
        case _ => rights;
      LoadCastlingMeaning(text[1..], next);
      assert text == [c] + text[1..];
      assert forall x :: x in text <==> x == c || x in text[1..];
      if !IsCastlingChar(c) {
        assert !IsCastlingChar(text[0]);
      } else {
        assert LoadCastling(text, rights) == LoadCastling(text[1..], next);
        assert (forall i :: 0 <= i < |text| ==> IsCastlingChar(text[i]))
          <==> (forall i :: 0 <= i < |text[1..]| ==> IsCastlingChar(text[1..][i])) by {
          forall i | 0 < i < |text| ensures text[i] == text[1..][i - 1] { }
        }
      }
    }
  }

  /** The five fields after the placement. */
  datatype Fields = Fields(turn: Color, castling: LC.CastlingRights, ep: Option<Pos.Position>, halfmoves: nat, fullmoves: nat)

  /**
   * `read_fen` after the placement: the turn, the castling rights from
   * none, the e.p. square unless the field is "-", and the two counters
   * as `u16`, each failing with its own error, in that order.
   */
  function ReadFields(parts: seq<string>): (r: Result<Fields, LegacyFenError>)
    requires |parts| == 6
    ensures r.Ok? <==> (ReadTurn(parts[1]).Ok? && LoadCastling(parts[2], LC.NoRights()).Ok?
      && (parts[3] == "-" || Pos.PositionFromNotation(parts[3]).Ok?)
      && ParseU16(parts[4]).Some? && ParseU16(parts[5]).Some?)
    ensures r.Ok? ==> (r.value.turn == ReadTurn(parts[1]).value
      && r.value.castling == LoadCastling(parts[2], LC.NoRights()).value
      && r.value.ep == (if parts[3] == "-" then None else Some(Pos.PositionFromNotation(parts[3]).value))
      && r.value.halfmoves == ParseU16(parts[4]).value && r.value.fullmoves == ParseU16(parts[5]).value)
  {
    match ReadTurn(parts[1])
    case Err(e) => Err(e)
    case Ok(turn) =>
      match LoadCastling(parts[2], LC.NoRights())
      case Err(e) => Err(e)
      case Ok(castling) =>
        var ep: Result<Option<Pos.Position>, LegacyFenError> :=
          if parts[3] == "-" then Ok(None)
          else match Pos.PositionFromNotation(parts[3])
            case Err(e) => Err(BadSquare(e))
            case Ok(p) => Ok(Some(p));
        if ep.Err? then Err(ep.error)
        else
          match ParseU16(parts[4])
          case None => Err(BadHalfmoves)
          case Some(half) =>
            match ParseU16(parts[5])
            case None => Err(BadFullmoves)
            case Some(full) => Ok(Fields(turn, castling, ep.value, half, full))
  }

  // ---------------------------------------------------------------------
  // `src/fen/fen_utils.rs`: the placement into an 8×8 grid.

  function EmptyLine(): (l: seq<F.Cell>)
    ensures |l| == 8 && forall f :: 0 <= f < 8 ==> l[f].None?
  {
    seq(8, _ => None)
  }

  /** `[[None; 8]; 8]`, indexed by rank and then file. */
  function EmptyGrid(): (g: seq<seq<F.Cell>>)
    ensures |g| == 8 && forall r :: 0 <= r < 8 ==> g[r] == EmptyLine()
  {
    seq(8, _ => EmptyLine())
  }

  predicate IsGrid(g: seq<seq<F.Cell>>)
  {
    |g| == 8 && forall r :: 0 <= r < 8 ==> |g[r]| == 8
  }

  /**
   * The inner loop of `load_board` on one rank's line: a digit skips
   * files, a letter writes its man at the current file, any other
   * character is an error, and a letter past the h-file indexes out of
   * the line.
   */
  function LoadLine(row: string, file: nat, line: seq<F.Cell>): (r: Result<seq<F.Cell>, LegacyFenError>)
    requires |line| == 8
    ensures r.Ok? ==> |r.value| == 8
    decreases |row|
  {
    if row == [] then Ok(line)
    else if IsDigit(row[0]) then LoadLine(row[1..], file + DigitValue(row[0]), line)
    else
      match F.ManOfLetter(row[0])
      case None => Err(InvalidBoardChar(row[0]))
      case Some(m) =>
        if file < 8 then LoadLine(row[1..], file + 1, line[file := Some(m)]) else Err(IndexOutOfBounds)
  }

  /** The cell of a line after the cells were written from `file` on: a man where a cell holds one, the old cell elsewhere. */
  function Written(cells: seq<F.Cell>, file: nat, line: seq<F.Cell>, f: nat): F.Cell
    requires f < |line|
  {
    if file <= f < file + |cells| && cells[f - file].Some? then cells[f - file] else line[f]
  }

  /**
   * A row is loaded exactly when its characters are digits and man
   * letters and no man falls past the h-file; a row whose characters are
   * all valid fails only by indexing past the line. The loaded line holds
   * each man of the row on its file and keeps every other cell.
   */
  lemma {:induction false} LoadLineMeaning(row: string, file: nat, line: seq<F.Cell>)
    requires |line| == 8
    ensures LoadLine(row, file, line).Ok? <==> F.RowCells(row).Some? && F.Fits(F.RowCells(row).value, file)
    ensures F.RowCells(row).Some? && LoadLine(row, file, line).Err? ==> LoadLine(row, file, line).error == IndexOutOfBounds
    ensures LoadLine(row, file, line).Ok? ==>
      forall f :: 0 <= f < 8 ==> LoadLine(row, file, line).value[f] == Written(F.RowCells(row).value, file, line, f)
    decreases |row|
  {
    if row != [] {
      var rest := F.RowCells(row[1..]);
      if IsDigit(row[0]) {
        var d := DigitValue(row[0]);
        LoadLineMeaning(row[1..], file + d, line);
        if rest.Some? {
          F.DigitsFit(rest.value, d, file);
          if LoadLine(row, file, line).Ok? {
            BlanksWritten(rest.value, d, file, line);
          }
        }
      } else if F.ManOfLetter(row[0]).Some? {
        var m := F.ManOfLetter(row[0]).value;
        if file < 8 {
          var line' := line[file := Some(m)];
          LoadLineMeaning(row[1..], file + 1, line');
          if rest.Some? {
            F.LetterFits(m, rest.value, file);
            if LoadLine(row, file, line).Ok? {
              ManWritten(m, rest.value, file, line);
            }
          }
        } else if rest.Some? {
          F.LetterFits(m, rest.value, file);
        }
      }
    }
  }

  /** Blanks before some cells write nothing: the cells land `d` files further on. */
  lemma BlanksWritten(cells: seq<F.Cell>, d: nat, file: nat, line: seq<F.Cell>)
    requires |line| == 8
    ensures forall f :: 0 <= f < 8 ==> Written(cells, file + d, line, f) == Written(F.Blanks(d) + cells, file, line, f)
  {
    forall f | 0 <= f < 8
      ensures Written(cells, file + d, line, f) == Written(F.Blanks(d) + cells, file, line, f)
    {
      var all := F.Blanks(d) + cells;
      if file <= f < file + d {
        assert all[f - file].None?;
      } else if file + d <= f < file + |all| {
        assert all[f - file] == cells[f - file - d];
      }
    }
  }

  /** A man written first, then the other cells one file on, is the man followed by the cells. */
  lemma ManWritten(m: F.Man, cells: seq<F.Cell>, file: nat, line: seq<F.Cell>)
    requires |line| == 8 && file < 8
    ensures forall f :: 0 <= f < 8 ==> Written(cells, file + 1, line[file := Some(m)], f) == Written([Some(m)] + cells, file, line, f)
  {
    forall f | 0 <= f < 8
      ensures Written(cells, file + 1, line[file := Some(m)], f) == Written([Some(m)] + cells, file, line, f)
    {
      var all := [Some(m)] + cells;
      if file < f < file + |all| {
        assert all[f - file] == cells[f - file - 1];
      }
    }
  }

  /** The outer loop of `load_board`: row `i` is loaded onto rank `7 - i`. */
  function LoadLines(rows: seq<string>, i: nat, g: seq<seq<F.Cell>>): (r: Result<seq<seq<F.Cell>>, LegacyFenError>)
    requires |rows| == 8 && i <= 8 && IsGrid(g)
    ensures r.Ok? ==> IsGrid(r.value)
    decreases 8 - i
  {
    if i == 8 then Ok(g)
    else
      match LoadLine(rows[i], 0, g[7 - i])
      case Err(e) => Err(e)
      case Ok(l) => LoadLines(rows, i + 1, g[7 - i := l])
  }

  /** A row the grid reader accepts: the core reader's well-formed row. */
  predicate RowsOk(rows: seq<string>)
    requires |rows| == 8
  {
    forall i :: 0 <= i < 8 ==> F.RowOk(rows[i])
  }

  /** The ranks of the first `i` rows hold their rows' men; the others are untouched. */
  predicate LoadedFrom(rows: seq<string>, i: nat, g: seq<seq<F.Cell>>, g0: seq<seq<F.Cell>>)
    requires |rows| == 8 && i <= 8 && IsGrid(g) && IsGrid(g0)
  {
    && (forall j :: 0 <= j < i ==> F.RowCells(rows[j]).Some? && g[7 - j] == RowLine(rows[j]))
    && (forall r :: 0 <= r && r + i < 8 ==> g[r] == g0[r])
  }

  /** The line a well-formed row describes. */
  function RowLine(row: string): (l: seq<F.Cell>)
    requires F.RowCells(row).Some?
    ensures |l| == 8 && forall f :: 0 <= f < 8 ==> l[f] == F.RowCell(row, f)
  {
    seq(8, f requires 0 <= f < 8 => F.RowCell(row, f))
  }

  /** A well-formed row loaded onto an empty line gives the line it describes. */
  lemma LineOfRow(row: string)
    requires F.RowOk(row)
    ensures LoadLine(row, 0, EmptyLine()) == Ok(RowLine(row))
  {
    LoadLineMeaning(row, 0, EmptyLine());
    var l := LoadLine(row, 0, EmptyLine()).value;
    var cells := F.RowCells(row).value;
    forall f | 0 <= f < 8 ensures l[f] == RowLine(row)[f]
    {
      assert l[f] == Written(cells, 0, EmptyLine(), f);
      assert EmptyLine()[f] == None;
    }
    assert l == RowLine(row);
  }

  /**
   * Loading from row `i` on succeeds exactly when every remaining row is
   * well formed, and then every rank holds the line its row describes.
   */
  lemma {:induction false} LoadLinesMeaning(rows: seq<string>, i: nat, g: seq<seq<F.Cell>>)
    requires |rows| == 8 && i <= 8 && IsGrid(g)
    requires LoadedFrom(rows, i, g, EmptyGrid())
    ensures LoadLines(rows, i, g).Ok? <==> forall j :: i <= j < 8 ==> F.RowOk(rows[j])
    ensures LoadLines(rows, i, g).Ok? ==> LoadedFrom(rows, 8, LoadLines(rows, i, g).value, EmptyGrid())
    decreases 8 - i
  {
    if i < 8 {
      var e := EmptyGrid();
      assert e[7 - i] == EmptyLine();
      assert g[7 - i] == e[7 - i];
      LoadLineMeaning(rows[i], 0, EmptyLine());
      if F.RowOk(rows[i]) {
        LineOfRow(rows[i]);
        var g' := g[7 - i := RowLine(rows[i])];
        forall r | 0 <= r < 8 && r != 7 - i ensures g'[r] == g[r] { }
        assert IsGrid(g');
        assert LoadedFrom(rows, i + 1, g', EmptyGrid());
        LoadLinesMeaning(rows, i + 1, g');
      }
    }
  }

  /** `load_board` of the grid reader. */
  function LoadGrid(text: string): Result<seq<seq<F.Cell>>, LegacyFenError>
  {
    var rows := Split(text, '/');
    if |rows| != 8 then Err(WrongRowCount) else LoadLines(rows, 0, EmptyGrid())
  }

  /**
   * The placement is read exactly when it has eight well-formed rows;
   * then `grid[rank][file]` is the cell row `7 - rank` describes at that
   * file.
   */
  lemma LoadGridMeaning(text: string)
    ensures var rows := Split(text, '/');
      LoadGrid(text).Ok? <==> |rows| == 8 && RowsOk(rows)
    ensures var rows := Split(text, '/');
      LoadGrid(text).Ok? ==>
        |rows| == 8 && IsGrid(LoadGrid(text).value)
        && forall r, f :: 0 <= r < 8 && 0 <= f < 8 ==> LoadGrid(text).value[r][f] == F.RowCell(rows[7 - r], f)
  {
    var rows := Split(text, '/');
    if |rows| == 8 {
      LoadLinesMeaning(rows, 0, EmptyGrid());
      if LoadGrid(text).Ok? {
        var g := LoadGrid(text).value;
        forall r, f | 0 <= r < 8 && 0 <= f < 8 ensures g[r][f] == F.RowCell(rows[7 - r], f)
        {
          assert g[7 - (7 - r)] == RowLine(rows[7 - r]);
        }
      }
    }
  }

  /** What the grid reader produces. */
  datatype GridFenInfo = GridFenInfo(grid: seq<seq<F.Cell>>, fields: Fields)

  /** `read_fen` of `src/fen/fen_utils.rs`. */
  function ReadGridFen(fen: string): Result<GridFenInfo, LegacyFenError>
  {
    var parts := Split(fen, ' ');
    if |parts| != 6 then Err(WrongPartCount)
    else
      match LoadGrid(parts[0])
      case Err(e) => Err(e)
      case Ok(g) =>
        match ReadFields(parts)
        case Err(e) => Err(e)
        case Ok(fs) => Ok(GridFenInfo(g, fs))
  }

  /**
   * The grid reader accepts exactly six space-separated parts with eight
   * well-formed rows and valid fields, and places each man of row `i` at
   * `grid[7 - i][file]`.
   */
  lemma ReadGridFenMeaning(fen: string)
    ensures var parts := Split(fen, ' ');
      ReadGridFen(fen).Ok? <==> (|parts| == 6 && |Split(parts[0], '/')| == 8 && RowsOk(Split(parts[0], '/'))
        && ReadFields(parts).Ok?)
    ensures var parts := Split(fen, ' ');
      ReadGridFen(fen).Ok? ==>
        var rows := Split(parts[0], '/');
        |parts| == 6 && |rows| == 8 && ReadGridFen(fen).value.fields == ReadFields(parts).value
        && IsGrid(ReadGridFen(fen).value.grid)
        && forall r, f :: 0 <= r < 8 && 0 <= f < 8 ==> ReadGridFen(fen).value.grid[r][f] == F.RowCell(rows[7 - r], f)
  {
    var parts := Split(fen, ' ');
    if |parts| == 6 {
      LoadGridMeaning(parts[0]);
    }
  }

  /** A ninth file is out of the grid: "8k" as a row panics instead of being refused. */
  lemma WideRowPanics()
    ensures LoadLine("8k", 0, EmptyLine()) == Err(IndexOutOfBounds)
  {
    assert "8k"[1..] == "k";
  }

  // ---------------------------------------------------------------------
  // `src/chess/fen/fen_utils.rs`: the placement into per-side lists.

  /** A man with its square, as that revision's `Piece`. */
  datatype ListPiece = ListPiece(color: Color, kind: PieceType, pos: Pos.Position)

  /** A king goes to the front of its side's list, any other man to the back. */
  function Insert(list: seq<ListPiece>, p: ListPiece): (r: seq<ListPiece>)
    ensures |r| == |list| + 1
  {
    if p.kind == King then [p] + list else list + [p]
  }

  datatype Lists = Lists(white: seq<ListPiece>, black: seq<ListPiece>)

  function Side(ls: Lists, c: Color): seq<ListPiece>
  {
    match c
    case White => ls.white
    case Black => ls.black
  }

  /** A man read from the placement joins its own side's list only. */
  function Add(ls: Lists, p: ListPiece): Lists
  {
    match p.color
    case White => ls.(white := Insert(ls.white, p))
    case Black => ls.(black := Insert(ls.black, p))
  }

  /** The inner loop of this revision's `load_board` on one row: no file bound is checked. */
  function LoadListRow(row: string, rank: nat, file: nat, ls: Lists): Result<Lists, LegacyFenError>
    decreases |row|
  {
    if row == [] then Ok(ls)
    else if IsDigit(row[0]) then LoadListRow(row[1..], rank, file + DigitValue(row[0]), ls)
    else
      match F.ManOfLetter(row[0])
      case None => Err(InvalidBoardChar(row[0]))
      case Some(m) => LoadListRow(row[1..], rank, file + 1, Add(ls, ListPiece(m.color, m.kind, Pos.New0Based(file, rank))))
  }

  /** The men of a row's cells, in reading order, placed from `file` on. */
  function MenOfCells(cells: seq<F.Cell>, rank: nat, file: nat): seq<ListPiece>
    decreases |cells|
  {
    if cells == [] then []
    else
      (match cells[0]
       case None => []
       case Some(m) => [ListPiece(m.color, m.kind, Pos.New0Based(file, rank))])
      + MenOfCells(cells[1..], rank, file + 1)
  }

  /** Each man in turn joins its side's list. */
  function AddAll(ls: Lists, ps: seq<ListPiece>): Lists
    decreases |ps|
  {
    if ps == [] then ls else AddAll(Add(ls, ps[0]), ps[1..])
  }

  lemma {:induction false} BlanksHoldNoMen(d: nat, rest: seq<F.Cell>, rank: nat, file: nat)
    ensures MenOfCells(F.Blanks(d) + rest, rank, file) == MenOfCells(rest, rank, file + d)
    decreases d
  {
    var cells := F.Blanks(d) + rest;
    if d == 0 {
      assert cells == rest;
    } else {
      assert cells[0] == None;
      assert cells[1..] == F.Blanks(d - 1) + rest;
      BlanksHoldNoMen(d - 1, rest, rank, file + 1);
      assert MenOfCells(cells, rank, file) == [] + MenOfCells(cells[1..], rank, file + 1);
    }
  }

  lemma {:induction false} AddAllAppend(ls: Lists, ps: seq<ListPiece>, qs: seq<ListPiece>)
    ensures AddAll(ls, ps + qs) == AddAll(AddAll(ls, ps), qs)
    decreases |ps|
  {
    if ps == [] {
      assert ps + qs == qs;
    } else {
      assert (ps + qs)[0] == ps[0];
      assert (ps + qs)[1..] == ps[1..] + qs;
      AddAllAppend(Add(ls, ps[0]), ps[1..], qs);
    }
  }

  /**
   * A row is read exactly when its characters are digits and man letters,
   * whatever files they reach; its men then join the lists in reading
   * order, each on its own file of the rank.
   */
  lemma {:induction false} LoadListRowMeaning(row: string, rank: nat, file: nat, ls: Lists)
    ensures LoadListRow(row, rank, file, ls).Ok? <==> F.RowCells(row).Some?
    ensures LoadListRow(row, rank, file, ls).Ok? ==>
      LoadListRow(row, rank, file, ls).value == AddAll(ls, MenOfCells(F.RowCells(row).value, rank, file))
    decreases |row|
  {
    if row != [] {
      var rest := F.RowCells(row[1..]);
      if IsDigit(row[0]) {
        var d := DigitValue(row[0]);
        LoadListRowMeaning(row[1..], rank, file + d, ls);
        assert LoadListRow(row, rank, file, ls) == LoadListRow(row[1..], rank, file + d, ls);
        if rest.Some? {
          assert F.RowCells(row).value == F.Blanks(d) + rest.value;
          BlanksHoldNoMen(d, rest.value, rank, file);
        }
      } else if F.ManOfLetter(row[0]).Some? {
        var m := F.ManOfLetter(row[0]).value;
        var p := ListPiece(m.color, m.kind, Pos.New0Based(file, rank));
        LoadListRowMeaning(row[1..], rank, file + 1, Add(ls, p));
        assert LoadListRow(row, rank, file, ls) == LoadListRow(row[1..], rank, file + 1, Add(ls, p));
        if rest.Some? {
          assert F.RowCells(row).value == [Some(m)] + rest.value;
          ManJoins(m, rest.value, rank, file, ls);
        }
      }
    }
  }

  /** A man cell puts its man on the lists before the men after it. */
  lemma ManJoins(m: F.Man, rest: seq<F.Cell>, rank: nat, file: nat, ls: Lists)
    ensures var p := ListPiece(m.color, m.kind, Pos.New0Based(file, rank));
      AddAll(ls, MenOfCells([Some(m)] + rest, rank, file)) == AddAll(Add(ls, p), MenOfCells(rest, rank, file + 1))
  {
    var p := ListPiece(m.color, m.kind, Pos.New0Based(file, rank));
    var cells := [Some(m)] + rest;
    var after := MenOfCells(rest, rank, file + 1);
    assert cells[1..] == rest;
    assert MenOfCells(cells, rank, file) == [p] + after;
    assert ([p] + after)[1..] == after;
  }

  /** The outer loop: row `i` is rank `7 - i`. */
  function LoadListRows(rows: seq<string>, i: nat, ls: Lists): Result<Lists, LegacyFenError>
    requires |rows| == 8 && i <= 8
    decreases 8 - i
  {
    if i == 8 then Ok(ls)
    else
      match LoadListRow(rows[i], 7 - i, 0, ls)
      case Err(e) => Err(e)
      case Ok(ls') => LoadListRows(rows, i + 1, ls')
  }

  predicate RowsRead(rows: seq<string>, i: nat)
  {
    forall j :: i <= j < |rows| ==> F.RowCells(rows[j]).Some?
  }

  lemma RowsReadStep(rows: seq<string>, i: nat)
    requires i < |rows|
    ensures RowsRead(rows, i) <==> F.RowCells(rows[i]).Some? && RowsRead(rows, i + 1)
  {
  }

  /** Every man of the placement from row `i` on, in reading order. */
  function ReadingOrder(rows: seq<string>, i: nat): seq<ListPiece>
    requires |rows| == 8 && i <= 8 && RowsRead(rows, i)
    decreases 8 - i
  {
    if i == 8 then [] else MenOfCells(F.RowCells(rows[i]).value, 7 - i, 0) + ReadingOrder(rows, i + 1)
  }

  /** Adding row `i`'s men and then the later rows' is adding the reading order from row `i`. */
  lemma ReadingOrderStep(rows: seq<string>, i: nat, ls: Lists)
    requires |rows| == 8 && i < 8 && RowsRead(rows, i)
    ensures RowsRead(rows, i + 1)
    ensures AddAll(AddAll(ls, MenOfCells(F.RowCells(rows[i]).value, 7 - i, 0)), ReadingOrder(rows, i + 1))
      == AddAll(ls, ReadingOrder(rows, i))
  {
    AddAllAppend(ls, MenOfCells(F.RowCells(rows[i]).value, 7 - i, 0), ReadingOrder(rows, i + 1));
  }

  /** The rows from `i` on are read exactly when each of them is a valid row. */
  lemma {:induction false} LoadListRowsOk(rows: seq<string>, i: nat, ls: Lists)
    requires |rows| == 8 && i <= 8
    ensures LoadListRows(rows, i, ls).Ok? <==> RowsRead(rows, i)
    decreases 8 - i
  {
    if i < 8 {
      LoadListRowOk(rows[i], 7 - i, 0, ls);
      RowsReadStep(rows, i);
      var r := LoadListRow(rows[i], 7 - i, 0, ls);
      if r.Ok? {
        LoadListRowsOk(rows, i + 1, r.value);
      }
    }
  }

  /** The verdict half of `LoadListRowMeaning`. */
  lemma LoadListRowOk(row: string, rank: nat, file: nat, ls: Lists)
    ensures LoadListRow(row, rank, file, ls).Ok? <==> F.RowCells(row).Some?
  {
    LoadListRowMeaning(row, rank, file, ls);
  }

  /** Reading the rows from `i` on adds their men to the lists in reading order. */
  lemma {:induction false} LoadListRowsMeaning(rows: seq<string>, i: nat, ls: Lists)
    requires |rows| == 8 && i <= 8 && RowsRead(rows, i)
    ensures LoadListRows(rows, i, ls).Ok?
    ensures LoadListRows(rows, i, ls).value == AddAll(ls, ReadingOrder(rows, i))
    decreases 8 - i
  {
    LoadListRowsOk(rows, i, ls);
    if i < 8 {
      LoadListRowMeaning(rows[i], 7 - i, 0, ls);
      RowsReadStep(rows, i);
      var r := LoadListRow(rows[i], 7 - i, 0, ls).value;
      LoadListRowsMeaning(rows, i + 1, r);
      assert LoadListRows(rows, i, ls) == LoadListRows(rows, i + 1, r);
      ReadingOrderStep(rows, i, ls);
    }
  }

  /** The kings of one side, in reading order. */
  function Kings(c: Color, ps: seq<ListPiece>): seq<ListPiece>
    decreases |ps|
  {
    if ps == [] then []
    else (if ps[0].color == c && ps[0].kind == King then [ps[0]] else []) + Kings(c, ps[1..])
  }

  /** The other men of one side, in reading order. */
  function Others(c: Color, ps: seq<ListPiece>): seq<ListPiece>
    decreases |ps|
  {
    if ps == [] then []
    else (if ps[0].color == c && ps[0].kind != King then [ps[0]] else []) + Others(c, ps[1..])
  }

  /** The kings are kings of the side and the other men are not kings. */
  lemma {:induction false} KingsAndOthersKinds(c: Color, ps: seq<ListPiece>)
    ensures forall p :: p in Kings(c, ps) ==> p.color == c && p.kind == King
    ensures forall p :: p in Others(c, ps) ==> p.color == c && p.kind != King
    decreases |ps|
  {
    if ps != [] {
      KingsAndOthersKinds(c, ps[1..]);
    }
  }

  /** The number of men of one side. */
  function Count(c: Color, ps: seq<ListPiece>): nat
    decreases |ps|
  {
    if ps == [] then 0 else (if ps[0].color == c then 1 else 0) + Count(c, ps[1..])
  }

  lemma {:induction false} KingsAndOthersCount(c: Color, ps: seq<ListPiece>)
    ensures |Kings(c, ps)| + |Others(c, ps)| == Count(c, ps)
    decreases |ps|
  {
    if ps != [] {
      KingsAndOthersCount(c, ps[1..]);
    }
  }

  function Reverse<T>(s: seq<T>): (r: seq<T>)
    ensures |r| == |s|
    decreases |s|
  {
    if s == [] then [] else [s[|s| - 1]] + Reverse(s[..|s| - 1])
  }

  /** A side's list as `load_board` leaves it: the kings, last read first, then the other men in reading order. */
  function Arranged(c: Color, order: seq<ListPiece>): seq<ListPiece>
  {
    Reverse(Kings(c, order)) + Others(c, order)
  }

  /**
   * Reading men onto a list of the form "kings reversed, then the rest"
   * keeps that form: each king is put in front of the earlier ones and
   * every other man behind the earlier ones.
   */
  lemma {:induction false} AddAllArranges(ls: Lists, ps: seq<ListPiece>, c: Color, ks: seq<ListPiece>, os: seq<ListPiece>)
    requires Side(ls, c) == Reverse(ks) + os
    ensures Side(AddAll(ls, ps), c) == Reverse(ks + Kings(c, ps)) + (os + Others(c, ps))
    decreases |ps|
  {
    if ps == [] {
      assert ks + Kings(c, ps) == ks;
      assert os + Others(c, ps) == os;
    } else {
      var p := ps[0];
      AddArranges(ls, p, c, ks, os);
      AddAllArranges(Add(ls, p), ps[1..], c, KingsAfter(c, ks, p), OthersAfter(c, os, p));
      KingsAndOthersStep(c, ks, os, ps);
    }
  }

  /** The kings of a side after one more man is read. */
  function KingsAfter(c: Color, ks: seq<ListPiece>, p: ListPiece): seq<ListPiece>
  {
    if p.color == c && p.kind == King then ks + [p] else ks
  }

  /** The other men of a side after one more man is read. */
  function OthersAfter(c: Color, os: seq<ListPiece>, p: ListPiece): seq<ListPiece>
  {
    if p.color == c && p.kind != King then os + [p] else os
  }

  /** One man read keeps a side's list of the form "kings reversed, then the rest". */
  lemma AddArranges(ls: Lists, p: ListPiece, c: Color, ks: seq<ListPiece>, os: seq<ListPiece>)
    requires Side(ls, c) == Reverse(ks) + os
    ensures Side(Add(ls, p), c) == Reverse(KingsAfter(c, ks, p)) + OthersAfter(c, os, p)
  {
    if p.color == c && p.kind == King {
      assert (ks + [p])[..|ks|] == ks;
    }
  }

  /** Reading one more man extends a side's kings or its other men by that man. */
  lemma KingsAndOthersStep(c: Color, ks: seq<ListPiece>, os: seq<ListPiece>, ps: seq<ListPiece>)
    requires ps != []
    ensures ks + Kings(c, ps) == KingsAfter(c, ks, ps[0]) + Kings(c, ps[1..])
    ensures os + Others(c, ps) == OthersAfter(c, os, ps[0]) + Others(c, ps[1..])
  {
    var p := ps[0];
    var k, o := Kings(c, ps[1..]), Others(c, ps[1..]);
    if p.color == c && p.kind == King {
      assert Kings(c, ps) == [p] + k && Others(c, ps) == o;
      assert ks + ([p] + k) == (ks + [p]) + k;
    } else if p.color == c {
      assert Kings(c, ps) == k && Others(c, ps) == [p] + o;
      assert os + ([p] + o) == (os + [p]) + o;
    } else {
      assert Kings(c, ps) == k && Others(c, ps) == o;
    }
  }

  /**
   * A side's list starts with a king exactly when the side has a king:
   * the kings come first and no other man is one.
   */
  lemma KingFirst(c: Color, order: seq<ListPiece>)
    ensures var l := Arranged(c, order);
      (l != [] && l[0].kind == King) <==> Kings(c, order) != []
  {
    var ks := Kings(c, order);
    var os := Others(c, order);
    KingsAndOthersKinds(c, order);
    if ks != [] {
      assert Arranged(c, order)[0] == ks[|ks| - 1];
      assert ks[|ks| - 1] in ks;
    } else if os != [] {
      assert os[0] in os;
    }
  }

  /** Reading men onto two empty lists arranges each side's men. */
  lemma ReadIntoLists(order: seq<ListPiece>)
    ensures AddAll(Lists([], []), order) == Lists(Arranged(White, order), Arranged(Black, order))
  {
    var start := Lists([], []);
    var ls := AddAll(start, order);
    assert Side(start, White) == Reverse([]) + [];
    assert Side(start, Black) == Reverse([]) + [];
    AddAllArranges(start, order, White, [], []);
    AddAllArranges(start, order, Black, [], []);
    assert [] + Kings(White, order) == Kings(White, order) && [] + Others(White, order) == Others(White, order);
    assert [] + Kings(Black, order) == Kings(Black, order) && [] + Others(Black, order) == Others(Black, order);
    assert ls.white == Side(ls, White) && ls.black == Side(ls, Black);
  }

  /** The slots of an array that hold a man, in order. */
  function Present(a: seq<Option<ListPiece>>): seq<ListPiece>
    decreases |a|
  {
    if a == [] then [] else (match a[0] case None => [] case Some(p) => [p]) + Present(a[1..])
  }

  /**
   * Dumping a list into an array of `n` slots: the slots read back as the
   * list, and every slot past it is empty.
   */
  function Dump(list: seq<ListPiece>, n: nat): (a: seq<Option<ListPiece>>)
    requires |list| <= n
    ensures |a| == n && Present(a) == list
    ensures forall i :: |list| <= i < n ==> a[i].None?
    decreases n
  {
    if n == 0 then []
    else if list == [] then [None] + Dump([], n - 1)
    else
      var a := [Some(list[0])] + Dump(list[1..], n - 1);
      assert a[1..] == Dump(list[1..], n - 1);
      a
  }

  /** The sixteen slots of a side's `PieceArray`. */
  const PieceSlots: nat := 16

  /** `load_board` of the list reader: both kings present, then at most sixteen men a side. */
  function LoadLists(text: string): (r: Result<(seq<Option<ListPiece>>, seq<Option<ListPiece>>), LegacyFenError>)
    ensures r.Ok? ==> |r.value.0| == PieceSlots && |r.value.1| == PieceSlots
  {
    var rows := Split(text, '/');
    if |rows| != 8 then Err(WrongRowCount)
    else
      match LoadListRows(rows, 0, Lists([], []))
      case Err(e) => Err(e)
      case Ok(ls) =>
        if ls.white == [] || ls.white[0].kind != King then Err(NoWhiteKing)
        else if ls.black == [] || ls.black[0].kind != King then Err(NoBlackKing)
        else if |ls.black| > PieceSlots || |ls.white| > PieceSlots then Err(TooManyPieces)
        else Ok((Dump(ls.white, PieceSlots), Dump(ls.black, PieceSlots)))
  }

  /**
   * The list reader accepts a placement exactly when it has eight rows of
   * digits and man letters, each side has a king and no side has more
   * than sixteen men. Each side's array then holds its kings, last read
   * first, and its other men in reading order, with the remaining slots
   * empty.
   */
  lemma LoadListsMeaning(text: string)
    ensures var rows := Split(text, '/');
      LoadLists(text).Ok? <==> (|rows| == 8 && RowsRead(rows, 0)
        && Kings(White, ReadingOrder(rows, 0)) != [] && Kings(Black, ReadingOrder(rows, 0)) != []
        && Count(White, ReadingOrder(rows, 0)) <= PieceSlots && Count(Black, ReadingOrder(rows, 0)) <= PieceSlots)
    ensures var rows := Split(text, '/');
      LoadLists(text).Ok? ==> (|rows| == 8 && RowsRead(rows, 0)
        && Present(LoadLists(text).value.0) == Arranged(White, ReadingOrder(rows, 0))
        && Present(LoadLists(text).value.1) == Arranged(Black, ReadingOrder(rows, 0)))
  {
    var rows := Split(text, '/');
    if |rows| == 8 {
      var start := Lists([], []);
      LoadListRowsOk(rows, 0, start);
      if RowsRead(rows, 0) {
        LoadListRowsMeaning(rows, 0, start);
        var order := ReadingOrder(rows, 0);
        ReadIntoLists(order);
        KingFirst(White, order);
        KingFirst(Black, order);
        KingsAndOthersCount(White, order);
        KingsAndOthersCount(Black, order);
      }
    }
  }

  /** What the list reader produces. */
  datatype ListFenInfo = ListFenInfo(fields: Fields, whitePieces: seq<Option<ListPiece>>, blackPieces: seq<Option<ListPiece>>)

  /** `read_fen` of `src/chess/fen/fen_utils.rs`. */
  function ReadListFen(fen: string): (r: Result<ListFenInfo, LegacyFenError>)
    ensures r.Ok? ==> |r.value.whitePieces| == PieceSlots && |r.value.blackPieces| == PieceSlots
  {
    var parts := Split(fen, ' ');
    if |parts| != 6 then Err(WrongPartCount)
    else
      match LoadLists(parts[0])
      case Err(e) => Err(e)
      case Ok((white, black)) =>
        match ReadFields(parts)
        case Err(e) => Err(e)
        case Ok(fs) => Ok(ListFenInfo(fs, white, black))
  }

  /**
   * The list reader accepts exactly six parts whose placement it can load
   * and whose fields are valid; the fields are those of the shared
   * reading.
   */
  lemma ReadListFenMeaning(fen: string)
    ensures var parts := Split(fen, ' ');
      ReadListFen(fen).Ok? <==> (|parts| == 6 && LoadLists(parts[0]).Ok? && ReadFields(parts).Ok?)
    ensures var parts := Split(fen, ' ');
      ReadListFen(fen).Ok? ==> (|parts| == 6 && ReadListFen(fen).value.fields == ReadFields(parts).value
        && ReadListFen(fen).value.whitePieces == LoadLists(parts[0]).value.0
        && ReadListFen(fen).value.blackPieces == LoadLists(parts[0]).value.1)
  {
  }

  /** A man past the h-file is still read: "8k" puts a black king on the ninth file. */
  lemma WideRowRead()
    ensures LoadListRow("8k", 0, 0, Lists([], [])) == Ok(Lists([], [ListPiece(Black, King, Pos.New0Based(8, 0))]))
  {
    assert "8k"[1..] == "k";
    assert "k"[1..] == "";
    var king := ListPiece(Black, King, Pos.New0Based(8, 0));
    assert IsDigit('8') && DigitValue('8') == 8 && !IsDigit('k');
    assert F.ManOfLetter('k') == Some(F.Man(Black, King));
    assert Add(Lists([], []), king) == Lists([], [king]);
    assert LoadListRow("k", 0, 8, Lists([], [])) == LoadListRow("", 0, 9, Add(Lists([], []), king));
  }
}
