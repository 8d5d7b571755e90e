/**
 * The piece-array board of the first revision (`Board` in
 * `src/chess/board/board.rs`): each side keeps its men in sixteen slots,
 * the king first, and an 8×8 array of squares refers to a slot by colour
 * and index.  Making a move edits both in place.
 *
 * Indexing the square array off the board and unwrapping a missing piece
 * are Rust panics; here they are the errors `OffBoard` and `NoPieceThere`.
 */
module LegacyBoard {
  import opened Base
  import opened Colors
  import opened PieceTypes
  import opened BitBoards
  import LC = LegacyCastling
  import Pos = Positions
  import LF = LegacyFen
  import LM = LegacyMoves

  datatype BoardError =
    | FenError(e: LF.LegacyFenError)
    /** `100 - halfmoves` or the castling correction below zero: a `u16` underflow. */
    | CounterUnderflow
    /** A counter past `u16::MAX`. */
    | CounterOverflow
    /** An index past the square array. */
    | OffBoard
    /** An unwrap of an empty square or slot. */
    | NoPieceThere
    /** A checked move that is not among the legal ones. */
    | IllegalMove

  /** A signed coordinate pair, as `add_delta` produces. */
  datatype Coord = Coord(file: int, rank: int)

  function CoordOf(p: Pos.Position): Coord
  {
    Coord(p.file, p.rank)
  }

  type Piece = LF.ListPiece

  const Slots: nat := LF.PieceSlots

  type SlotIndex = i: nat | i < 16

  /** What a square refers to: a slot of one side's array. */
  datatype Slot = Slot(color: Color, index: SlotIndex)

  type Cells = seq<seq<Option<Slot>>>

  predicate IsCells(g: Cells)
  {
    |g| == 8 && forall r :: 0 <= r < 8 ==> |g[r]| == 8
  }

  predicate InGrid(p: Pos.Position)
  {
    p.file < 8 && p.rank < 8
  }

  function EmptyCells(): (g: Cells)
    ensures IsCells(g)
    ensures forall r, f :: 0 <= r < 8 && 0 <= f < 8 ==> g[r][f].None?
  {
    seq(8, _ => seq(8, _ => None))
  }

  /** One square of the array rewritten. */
  function Put(g: Cells, p: Pos.Position, v: Option<Slot>): (g': Cells)
    requires IsCells(g) && InGrid(p)
    ensures IsCells(g') && g'[p.rank][p.file] == v
    ensures forall r, f :: 0 <= r < 8 && 0 <= f < 8 && (r != p.rank || f != p.file) ==> g'[r][f] == g[r][f]
  {
    g[p.rank := g[p.rank][p.file := v]]
  }

  datatype Board = Board(
    castling: LC.CastlingRights,
    ep: Option<Coord>,
    turn: Color,
    halfTurns: nat,
    fullTurns: nat,
    squares: Cells,
    white: seq<Option<Piece>>,
    black: seq<Option<Piece>>)

  /** The fixed sizes of the Rust arrays. */
  predicate Shaped(b: Board)
  {
    IsCells(b.squares) && |b.white| == Slots && |b.black| == Slots
  }

  function Pieces(b: Board, c: Color): seq<Option<Piece>>
  {
    match c
    case White => b.white
    case Black => b.black
  }

  function WithPieces(b: Board, c: Color, a: seq<Option<Piece>>): Board
  {
    match c
    case White => b.(white := a)
    case Black => b.(black := a)
  }

  /** Every man of both arrays stands inside the square array, as `from_fen` leaves them. */
  predicate Placed(b: Board)
  {
    Shaped(b) && AllInGrid(b.white, 0) && AllInGrid(b.black, 0)
  }

  function At(b: Board, p: Pos.Position): Option<Slot>
    requires Shaped(b) && InGrid(p)
  {
    b.squares[p.rank][p.file]
  }

  /** `get_pos`: the man a square refers to. */
  function GetPos(b: Board, p: Pos.Position): (r: Result<Option<Piece>, BoardError>)
    requires Shaped(b)
    ensures r.Ok? ==> InGrid(p) && (r.value.Some? <==> At(b, p).Some?)
    ensures !InGrid(p) ==> r == Err(OffBoard)
  {
    if !InGrid(p) then Err(OffBoard)
    else
      match At(b, p)
      case None => Ok(None)
      case Some(s) =>
        match Pieces(b, s.color)[s.index]
        case None => Err(NoPieceThere)
        case Some(piece) => Ok(Some(piece))
  }

  // ---------------------------------------------------------------------
  // `from_fen`

  /** The loop of `from_fen` over one side's array: each man's square refers to its slot. */
  function PlaceAll(g: Cells, a: seq<Option<Piece>>, c: Color, i: nat): (r: Result<Cells, BoardError>)
    requires IsCells(g) && |a| == Slots && i <= Slots
    ensures r.Ok? ==> IsCells(r.value)
    decreases Slots - i
  {
    if i == Slots then Ok(g)
    else
      match a[i]
      case None => PlaceAll(g, a, c, i + 1)
      case Some(p) =>
        if InGrid(p.pos) then PlaceAll(Put(g, p.pos, Some(Slot(c, i))), a, c, i + 1) else Err(OffBoard)
  }

  /** Every square that refers to a slot refers to a man standing on that square. */
  predicate Sound(g: Cells, white: seq<Option<Piece>>, black: seq<Option<Piece>>)
    requires IsCells(g) && |white| == Slots && |black| == Slots
  {
    forall r, f :: 0 <= r < 8 && 0 <= f < 8 && g[r][f].Some? ==>
      var s := g[r][f].value;
      var a := if s.color == White then white else black;
      a[s.index].Some? && a[s.index].value.pos == Pos.Position(f, r)
  }

  /** Every man of an array from slot `i` on stands on a square that refers to a slot. */
  predicate Covers(g: Cells, a: seq<Option<Piece>>, i: nat)
    requires IsCells(g)
  {
    forall j :: i <= j < |a| && a[j].Some? ==> InGrid(a[j].value.pos) && g[a[j].value.pos.rank][a[j].value.pos.file].Some?
  }

  predicate AllInGrid(a: seq<Option<Piece>>, i: nat)
  {
    forall j :: i <= j < |a| && a[j].Some? ==> InGrid(a[j].value.pos)
  }

  /**
   * Placing one side's men succeeds exactly when each stands inside the
   * 8×8 array; it keeps the squares sound, keeps every square that
   * referred to a slot referring to one, and makes the side's squares
   * refer to slots.
   */
  lemma {:induction false} PlaceAllMeaning(g: Cells, c: Color, white: seq<Option<Piece>>, black: seq<Option<Piece>>, i: nat)
    requires IsCells(g) && |white| == Slots && |black| == Slots && i <= Slots
    requires Sound(g, white, black)
    ensures var a := if c == White then white else black;
      PlaceAll(g, a, c, i).Ok? <==> AllInGrid(a, i)
    ensures var a := if c == White then white else black;
      PlaceAll(g, a, c, i).Ok? ==>
        var g' := PlaceAll(g, a, c, i).value;
        IsCells(g') && Sound(g', white, black) && Covers(g', a, i)
        && forall r, f :: 0 <= r < 8 && 0 <= f < 8 && g[r][f].Some? ==> g'[r][f].Some?
    decreases Slots - i
  {
    var a := if c == White then white else black;
    if i < Slots {
      match a[i]
      case None =>
        PlaceAllMeaning(g, c, white, black, i + 1);
      case Some(p) =>
        if InGrid(p.pos) {
          var g1 := Put(g, p.pos, Some(Slot(c, i)));
          assert Sound(g1, white, black);
          PlaceAllMeaning(g1, c, white, black, i + 1);
        }
    }
  }

  /** `from_fen`: the arrays of the list reader, the squares referring to them, and `100 - halfmoves` half-turns left. */
  function FromFen(fen: string): Result<Board, BoardError>
  {
    match LF.ReadListFen(fen)
    case Err(e) => Err(FenError(e))
    case Ok(info) =>
      if info.fields.halfmoves > 100 then Err(CounterUnderflow)
      else
        match PlaceAll(EmptyCells(), info.whitePieces, White, 0)
        case Err(e) => Err(e)
        case Ok(g1) =>
          match PlaceAll(g1, info.blackPieces, Black, 0)
          case Err(e) => Err(e)
          case Ok(g2) =>
            var f := info.fields;
            Ok(Board(f.castling, if f.ep.Some? then Some(CoordOf(f.ep.value)) else None, f.turn,
              100 - f.halfmoves, f.fullmoves, g2, info.whitePieces, info.blackPieces))
  }

  /**
   * A FEN makes a board exactly when the list reader accepts it, the
   * half-move clock is at most 100 and every man stands inside the
   * array. Then the board holds the reader's arrays, each man's square
   * refers to a slot, every square that refers to a slot refers to a man
   * standing there, and the other squares are empty.
   */
  lemma FromFenMeaning(fen: string)
    ensures FromFen(fen).Ok? <==> (LF.ReadListFen(fen).Ok? && LF.ReadListFen(fen).value.fields.halfmoves <= 100
      && AllInGrid(LF.ReadListFen(fen).value.whitePieces, 0) && AllInGrid(LF.ReadListFen(fen).value.blackPieces, 0))
    ensures FromFen(fen).Ok? ==>
      var b := FromFen(fen).value;
      var info := LF.ReadListFen(fen).value;
      Placed(b) && b.white == info.whitePieces && b.black == info.blackPieces
      && b.turn == info.fields.turn && b.castling == info.fields.castling
      && b.halfTurns + info.fields.halfmoves == 100 && b.fullTurns == info.fields.fullmoves
      && Sound(b.squares, b.white, b.black) && Covers(b.squares, b.white, 0) && Covers(b.squares, b.black, 0)
  {
    if LF.ReadListFen(fen).Ok? {
      var info := LF.ReadListFen(fen).value;
      var w, bl := info.whitePieces, info.blackPieces;
      PlaceAllMeaning(EmptyCells(), White, w, bl, 0);
      if info.fields.halfmoves <= 100 && AllInGrid(w, 0) {
        var g1 := PlaceAll(EmptyCells(), w, White, 0).value;
        PlaceAllMeaning(g1, Black, w, bl, 0);
      }
    }
  }

  // ---------------------------------------------------------------------
  // Moving men

  /** `remove_piece`: clears the square and the slot it refers to; tells whether there was one. */
  function RemovePiece(b: Board, p: Pos.Position): (r: Result<(Board, bool), BoardError>)
    requires Shaped(b)
    ensures r.Ok? <==> InGrid(p)
    ensures r.Ok? ==> Shaped(r.value.0)
    ensures r.Ok? && Placed(b) ==> Placed(r.value.0)
    ensures r.Ok? ==> r.value.0.turn == b.turn && r.value.0.fullTurns == b.fullTurns
  {
    if !InGrid(p) then Err(OffBoard)
    else
      match At(b, p)
      case None => Ok((b, false))
      case Some(s) =>
        SlotUpdateInGrid(Pieces(b, s.color), s.index, None);
        var cleared := WithPieces(b, s.color, Pieces(b, s.color)[s.index := None]);
        Ok((cleared.(squares := Put(b.squares, p, None)), true))
  }

  /**
   * Removing reports a capture exactly when the square referred to a
   * slot; then both the square and that slot are empty and nothing else
   * changes, and otherwise the board is unchanged.
   */
  lemma RemovePieceMeaning(b: Board, p: Pos.Position)
    requires Shaped(b) && InGrid(p)
    ensures var (b', taken) := RemovePiece(b, p).value;
      (taken <==> At(b, p).Some?)
      && (!taken ==> b' == b)
      && (taken ==> (At(b', p).None? && Pieces(b', At(b, p).value.color)[At(b, p).value.index].None?
        && b'.castling == b.castling && b'.ep == b.ep && b'.turn == b.turn
        && b'.halfTurns == b.halfTurns && b'.fullTurns == b.fullTurns))
    ensures var b' := RemovePiece(b, p).value.0;
      forall r, f :: 0 <= r < 8 && 0 <= f < 8 && (r != p.rank || f != p.file) ==> b'.squares[r][f] == b.squares[r][f]
  {
  }

  function HomeRank(c: Color): nat
  {
    match c
    case White => 0
    case Black => 7
  }

  /** `disable_all`: both rights of one side cleared. */
  function DisableAll(r: LC.CastlingRights, c: Color): LC.CastlingRights
  {
    LC.UpdateQueenside(LC.UpdateKingside(r, c, false), c, false)
  }

  /**
   * `update_castling_rights`: a move onto a rook's home square of the
   * opponent clears that right; a king move clears both of the mover's
   * rights, and a move from one of the mover's rook homes clears that one.
   */
  function UpdateCastlingRights(r: LC.CastlingRights, color: Color, kind: PieceType, from: Pos.Position, to: Pos.Position): LC.CastlingRights
  {
    var op := Opposite(color);
    var r1 :=
      if LC.QueenSide(r, op) && to == Pos.Position(0, HomeRank(op)) then LC.UpdateQueenside(r, op, false)
      else if LC.KingSide(r, op) && to == Pos.Position(7, HomeRank(op)) then LC.UpdateKingside(r, op, false)
      else r;
    if kind == King then DisableAll(r1, color)
    else if LC.QueenSide(r1, color) && from == Pos.Position(0, HomeRank(color)) then LC.UpdateQueenside(r1, color, false)
    else if LC.KingSide(r1, color) && from == Pos.Position(7, HomeRank(color)) then LC.UpdateKingside(r1, color, false)
    else r1
  }

  /**
   * Each right survives exactly when it was held and the move neither
   * left nor landed on the square that guards it: the mover loses both
   * with a king move and one with a move from that rook's home, the
   * opponent loses one with a move onto that rook's home.
   */
  lemma UpdateCastlingRightsMeaning(r: LC.CastlingRights, color: Color, kind: PieceType, from: Pos.Position, to: Pos.Position)
    ensures var r' := UpdateCastlingRights(r, color, kind, from, to);
      var op := Opposite(color);
      (LC.QueenSide(r', color) <==> LC.QueenSide(r, color) && kind != King && from != Pos.Position(0, HomeRank(color)))
      && (LC.KingSide(r', color) <==> LC.KingSide(r, color) && kind != King && from != Pos.Position(7, HomeRank(color)))
      && (LC.QueenSide(r', op) <==> LC.QueenSide(r, op) && to != Pos.Position(0, HomeRank(op)))
      && (LC.KingSide(r', op) <==> LC.KingSide(r, op) && to != Pos.Position(7, HomeRank(op)))
  {
  }

  /** The square behind a man of colour `c` that stands on `to`: one rank back toward its own side. */
  function Behind(to: Pos.Position, c: Color): Coord
  {
    match c
    case White => Coord(to.file, to.rank - 1)
    case Black => Coord(to.file, to.rank + 1)
  }

  /** A coordinate inside the array, as a position. */
  function PosOfCoord(c: Coord): Option<Pos.Position>
  {
    if 0 <= c.file < 8 && 0 <= c.rank < 8 then Some(Pos.Position(c.file, c.rank)) else None
  }

  /** The e.p. capture of `move_piece`: the man behind the target square is removed. */
  function RemoveBehind(b: Board, to: Pos.Position, c: Color): (r: Result<Board, BoardError>)
    requires Shaped(b)
    ensures r.Ok? ==> Shaped(r.value)
    ensures r.Ok? && Placed(b) ==> Placed(r.value)
    ensures r.Ok? ==> r.value.turn == b.turn && r.value.fullTurns == b.fullTurns
  {
    match PosOfCoord(Behind(to, c))
    case None => Err(OffBoard)
    case Some(p) => Ok(RemovePiece(b, p).value.0)
  }

  /**
   * `move_piece` for a normal move or a promotion: a man on the target is
   * removed, a pawn landing on the e.p. target also removes the man behind
   * it, the moving slot is rewritten at the target (promoted if asked), the
   * half-move counter resets on a capture or a pawn move and otherwise
   * grows, and the castling rights follow the move.
   */
  function MovePiece(b: Board, from: Pos.Position, to: Pos.Position, promoteTo: Option<PieceType>): (r: Result<Board, BoardError>)
    requires Shaped(b) && InGrid(from) && InGrid(to)
    ensures r.Ok? ==> Shaped(r.value)
    ensures r.Ok? ==> r.value.turn == b.turn && r.value.fullTurns == b.fullTurns
    ensures r.Ok? && Placed(b) ==> Placed(r.value)
  {
    var (b1, isCapture) := RemovePiece(b, to).value;
    match At(b1, from)
    case None => Err(NoPieceThere)
    case Some(slot) =>
      match Pieces(b1, slot.color)[slot.index]
      case None => Err(NoPieceThere)
      case Some(piece) =>
        var epCapture := b1.ep == Some(CoordOf(to)) && piece.kind == Pawn;
        var b2 := if epCapture then RemoveBehind(b1, to, piece.color) else Ok(b1);
        if b2.Err? then Err(b2.error)
        else
          var b3 := ShiftSquare(b2.value, slot, from, to);
          match Relocate(b3, slot, to, promoteTo)
          case Err(e) => Err(e)
          case Ok(b4) =>
            if !(isCapture || piece.kind == Pawn) && b4.halfTurns + 1 > U16_MAX then Err(CounterOverflow)
            else
              Ok(b4.(halfTurns := if isCapture || piece.kind == Pawn then 0 else b4.halfTurns + 1,
                castling := UpdateCastlingRights(b4.castling, piece.color, piece.kind, from, to)))
  }

  /** The target square made to refer to the moving slot and the origin emptied. */
  function ShiftSquare(b: Board, slot: Slot, from: Pos.Position, to: Pos.Position): (r: Board)
    requires Shaped(b) && InGrid(from) && InGrid(to)
    ensures Shaped(r) && r.white == b.white && r.black == b.black
    ensures r.turn == b.turn && r.fullTurns == b.fullTurns && r.halfTurns == b.halfTurns
    ensures r.castling == b.castling && r.ep == b.ep
  {
    b.(squares := Put(Put(b.squares, to, Some(slot)), from, None))
  }

  /** The moving slot's man put on the target, with the promoted type if any; an emptied slot is an unwrap of None. */
  function Relocate(b: Board, slot: Slot, to: Pos.Position, promoteTo: Option<PieceType>): (r: Result<Board, BoardError>)
    requires Shaped(b) && InGrid(to)
    ensures r.Ok? ==> Shaped(r.value) && r.value.squares == b.squares
    ensures r.Ok? ==> Pieces(r.value, slot.color)[slot.index].Some? && Pieces(r.value, slot.color)[slot.index].value.pos == to
    ensures r.Ok? && Placed(b) ==> Placed(r.value)
    ensures r.Ok? ==> r.value.turn == b.turn && r.value.fullTurns == b.fullTurns
  {
    match Pieces(b, slot.color)[slot.index]
    case None => Err(NoPieceThere)
    case Some(moving) =>
      var moved := moving.(pos := to, kind := if promoteTo.Some? then promoteTo.value else moving.kind);
      SlotUpdateInGrid(Pieces(b, slot.color), slot.index, Some(moved));
      Ok(WithPieces(b, slot.color, Pieces(b, slot.color)[slot.index := Some(moved)]))
  }

  /** Emptying a slot, or filling it with a man inside the array, keeps every man inside. */
  lemma SlotUpdateInGrid(a: seq<Option<Piece>>, i: nat, v: Option<Piece>)
    requires i < |a| && (v.None? || InGrid(v.value.pos))
    ensures AllInGrid(a, 0) ==> AllInGrid(a[i := v], 0)
  {
  }

  /**
   * A move that does not capture e.p. puts the moving slot on the target
   * square, empties the origin and leaves every other square alone; the
   * slot's man now stands on the target, promoted if asked; the counter
   * resets exactly on a capture or a pawn move.
   */
  lemma MovePieceMeaning(b: Board, from: Pos.Position, to: Pos.Position, promoteTo: Option<PieceType>)
    requires Shaped(b) && InGrid(from) && InGrid(to) && from != to
    requires MovePiece(b, from, to, promoteTo).Ok?
    requires b.ep != Some(CoordOf(to))
    ensures var b' := MovePiece(b, from, to, promoteTo).value;
      var slot := At(b, from).value;
      At(b, from).Some? && At(b', to) == Some(slot) && At(b', from).None?
      && Pieces(b', slot.color)[slot.index].Some? && Pieces(b', slot.color)[slot.index].value.pos == to
      && (promoteTo.Some? ==> Pieces(b', slot.color)[slot.index].value.kind == promoteTo.value)
      && (promoteTo.None? ==> Pieces(b', slot.color)[slot.index].value.kind == Pieces(b, slot.color)[slot.index].value.kind)
      && (b'.halfTurns == 0 <==> At(b, to).Some? || Pieces(b, slot.color)[slot.index].value.kind == Pawn)
      && (forall r, f :: 0 <= r < 8 && 0 <= f < 8 && (r != from.rank || f != from.file) && (r != to.rank || f != to.file) ==>
            b'.squares[r][f] == b.squares[r][f])
      && b'.turn == b.turn && b'.ep == b.ep && b'.fullTurns == b.fullTurns
  {
    MovePieceSquares(b, from, to, promoteTo);
    MovePieceSlot(b, from, to, promoteTo);
  }

  /** The square half of `MovePieceMeaning`. */
  lemma MovePieceSquares(b: Board, from: Pos.Position, to: Pos.Position, promoteTo: Option<PieceType>)
    requires Shaped(b) && InGrid(from) && InGrid(to) && from != to
    requires MovePiece(b, from, to, promoteTo).Ok?
    requires b.ep != Some(CoordOf(to))
    ensures var b' := MovePiece(b, from, to, promoteTo).value;
      At(b, from).Some? && At(b', to) == At(b, from) && At(b', from).None?
      && (forall r, f :: 0 <= r < 8 && 0 <= f < 8 && (r != from.rank || f != from.file) && (r != to.rank || f != to.file) ==>
            b'.squares[r][f] == b.squares[r][f])
  {
    RemovePieceMeaning(b, to);
  }

  /** The slot and counter half of `MovePieceMeaning`. */
  lemma MovePieceSlot(b: Board, from: Pos.Position, to: Pos.Position, promoteTo: Option<PieceType>)
    requires Shaped(b) && InGrid(from) && InGrid(to) && from != to
    requires MovePiece(b, from, to, promoteTo).Ok?
    requires b.ep != Some(CoordOf(to))
    ensures At(b, from).Some?
    ensures var b' := MovePiece(b, from, to, promoteTo).value;
      var slot := At(b, from).value;
      Pieces(b', slot.color)[slot.index].Some? && Pieces(b', slot.color)[slot.index].value.pos == to
      && (promoteTo.Some? ==> Pieces(b', slot.color)[slot.index].value.kind == promoteTo.value)
      && (promoteTo.None? ==> Pieces(b', slot.color)[slot.index].value.kind == Pieces(b, slot.color)[slot.index].value.kind)
      && (b'.halfTurns == 0 <==> At(b, to).Some? || Pieces(b, slot.color)[slot.index].value.kind == Pawn)
      && b'.turn == b.turn && b'.ep == b.ep && b'.fullTurns == b.fullTurns
  {
    RemovePieceMeaning(b, to);
  }

  /**
   * `castle`: the side to move, on rank 0 for White and 7 for Black,
   * moves its king from the e-file to the g-file (short) or c-file
   * (long), then its rook from the h-file to the f-file or from the
   * a-file to the d-file.
   */
  function Castle(b: Board, short: bool): (r: Result<Board, BoardError>)
    requires Shaped(b)
    ensures r.Ok? ==> Shaped(r.value)
    ensures r.Ok? ==> r.value.turn == b.turn && r.value.fullTurns == b.fullTurns
    ensures r.Ok? && Placed(b) ==> Placed(r.value)
  {
    var rank := HomeRank(b.turn);
    var kingTo := if short then 6 else 2;
    var rookFrom := if short then 7 else 0;
    var rookTo := if short then 5 else 3;
    match MovePiece(b, Pos.Position(4, rank), Pos.Position(kingTo, rank), None)
    case Err(e) => Err(e)
    case Ok(b1) => MovePiece(b1, Pos.Position(rookFrom, rank), Pos.Position(rookTo, rank), None)
  }

  /**
   * After castling on the home rank, the king's slot stands on the g- or
   * c-file and the rook's slot on the f- or d-file, and the e-file and
   * the rook's corner are empty.
   */
  lemma CastleMeaning(b: Board, short: bool)
    requires Shaped(b) && Castle(b, short).Ok?
    requires b.ep.None? || b.ep.value.rank != HomeRank(b.turn)
    ensures var rank := HomeRank(b.turn);
      var b' := Castle(b, short).value;
      var rookFrom := Pos.Position(if short then 7 else 0, rank);
      At(b, Pos.Position(4, rank)).Some? && At(b, rookFrom).Some?
      && At(b', Pos.Position(if short then 6 else 2, rank)) == At(b, Pos.Position(4, rank))
      && At(b', Pos.Position(if short then 5 else 3, rank)) == At(b, rookFrom)
      && At(b', Pos.Position(4, rank)).None? && At(b', rookFrom).None?
      && b'.turn == b.turn
  {
    var rank := HomeRank(b.turn);
    var kingFrom, kingTo := Pos.Position(4, rank), Pos.Position(if short then 6 else 2, rank);
    var rookFrom, rookTo := Pos.Position(if short then 7 else 0, rank), Pos.Position(if short then 5 else 3, rank);
    MovePieceMeaning(b, kingFrom, kingTo, None);
    var b1 := MovePiece(b, kingFrom, kingTo, None).value;
    MovePieceMeaning(b1, rookFrom, rookTo, None);
  }

  /**
   * `update_en_passant`: after a normal move by a pawn over two ranks the
   * target is the square behind it; after anything else there is none.
   * The moved man is read back from the target square.
   */
  function UpdateEnPassant(b: Board, m: LM.Move): (r: Result<Board, BoardError>)
    requires Shaped(b)
    ensures r.Ok? ==> r.value == b.(ep := r.value.ep)
  {
    match m
    case NormalMove(from, to) =>
      var toPos := PosOf(to);
      (match GetPos(b, toPos)
       case Err(e) => Err(e)
       case Ok(None) => Err(NoPieceThere)
       case Ok(Some(piece)) =>
         var double := Pos.Rank(from) - Pos.Rank(to) == 2 || Pos.Rank(to) - Pos.Rank(from) == 2;
         Ok(b.(ep := if piece.kind == Pawn && double then Some(Behind(toPos, piece.color)) else None)))
    case _ => Ok(b.(ep := None))
  }

  /** The position of a square of the bitboard layout. */
  function PosOf(s: Sq): (p: Pos.Position)
    ensures InGrid(p)
  {
    Pos.Position(Pos.File(s), Pos.Rank(s))
  }

  /**
   * The e.p. target is set exactly after a normal move of a pawn over two
   * ranks, one rank behind its target on the same file.
   */
  lemma UpdateEnPassantMeaning(b: Board, m: LM.Move)
    requires Shaped(b) && UpdateEnPassant(b, m).Ok?
    ensures var ep := UpdateEnPassant(b, m).value.ep;
      (ep.Some? <==> (m.NormalMove? && GetPos(b, PosOf(m.to)).value.value.kind == Pawn
        && (Pos.Rank(m.from) == Pos.Rank(m.to) + 2 || Pos.Rank(m.to) == Pos.Rank(m.from) + 2)))
      && (ep.Some? ==> (ep.value.file == Pos.File(m.to)
        && ep.value.rank == Pos.Rank(m.to) - Sign(GetPos(b, PosOf(m.to)).value.value.color)))
  {
  }

  /**
   * `make_move` without the legality check: a castle moves king and rook
   * and takes back one of the two counter steps, any other move moves its
   * man; then the e.p. target is updated, the turn passes and the
   * full-move number grows when White is next.
   */
  function MakeMoveUnchecked(b: Board, m: LM.Move): (r: Result<Board, BoardError>)
    requires Shaped(b)
    ensures r.Ok? ==> Shaped(r.value)
    ensures r.Ok? && Placed(b) ==> Placed(r.value)
  {
    var moved :=
      if m.ShortCastle? || m.LongCastle? then
        match Castle(b, m.ShortCastle?)
        case Err(e) => Err(e)
        case Ok(b1) => if b1.halfTurns == 0 then Err(CounterUnderflow) else Ok(b1.(halfTurns := b1.halfTurns - 1))
      else MovePiece(b, PosOf(LM.From(m)), PosOf(LM.To(m)), if m.PawnPromotion? then Some(m.promoteTo) else None);
    match moved
    case Err(e) => Err(e)
    case Ok(b2) =>
      match UpdateEnPassant(b2, m)
      case Err(e) => Err(e)
      case Ok(b3) =>
        var next := Opposite(b.turn);
        if next == White && b3.fullTurns + 1 > U16_MAX then Err(CounterOverflow)
        else Ok(b3.(turn := next, fullTurns := if next == White then b3.fullTurns + 1 else b3.fullTurns))
  }

  /** Making a move unchecked never reports an illegal move: that error belongs to the legality check alone. */
  lemma MakeMoveNeverIllegal(b: Board, m: LM.Move)
    requires Shaped(b)
    ensures MakeMoveUnchecked(b, m) != Err(IllegalMove)
  {
    if m.ShortCastle? || m.LongCastle? {
      CastleNeverIllegal(b, m.ShortCastle?);
    } else {
      MovePieceNeverIllegal(b, PosOf(LM.From(m)), PosOf(LM.To(m)), if m.PawnPromotion? then Some(m.promoteTo) else None);
    }
    var moved :=
      if m.ShortCastle? || m.LongCastle? then
        match Castle(b, m.ShortCastle?)
        case Err(e) => Err(e)
        case Ok(b1) => if b1.halfTurns == 0 then Err(CounterUnderflow) else Ok(b1.(halfTurns := b1.halfTurns - 1))
      else MovePiece(b, PosOf(LM.From(m)), PosOf(LM.To(m)), if m.PawnPromotion? then Some(m.promoteTo) else None);
    if moved.Ok? {
      UpdateEnPassantNeverIllegal(moved.value, m);
    }
  }

  lemma MovePieceNeverIllegal(b: Board, from: Pos.Position, to: Pos.Position, promoteTo: Option<PieceType>)
    requires Shaped(b) && InGrid(from) && InGrid(to)
    ensures MovePiece(b, from, to, promoteTo) != Err(IllegalMove)
  {
  }

  lemma CastleNeverIllegal(b: Board, short: bool)
    requires Shaped(b)
    ensures Castle(b, short) != Err(IllegalMove)
  {
    var rank := HomeRank(b.turn);
    MovePieceNeverIllegal(b, Pos.Position(4, rank), Pos.Position(if short then 6 else 2, rank), None);
    var b1 := MovePiece(b, Pos.Position(4, rank), Pos.Position(if short then 6 else 2, rank), None);
    if b1.Ok? {
      MovePieceNeverIllegal(b1.value, Pos.Position(if short then 7 else 0, rank), Pos.Position(if short then 5 else 3, rank), None);
    }
  }

  lemma UpdateEnPassantNeverIllegal(b: Board, m: LM.Move)
    requires Shaped(b)
    ensures UpdateEnPassant(b, m) != Err(IllegalMove)
  {
  }

  /** The turn passes, and the full-move number grows by one exactly when White is next. */
  lemma MakeMoveTurns(b: Board, m: LM.Move)
    requires Shaped(b) && MakeMoveUnchecked(b, m).Ok?
    ensures var b' := MakeMoveUnchecked(b, m).value;
      b'.turn == Opposite(b.turn)
      && b'.fullTurns == b.fullTurns + (if b'.turn == White then 1 else 0)
  {
  }

  /** A white pawn from e2 to e4 sets the target e3. */
  lemma DoublePushSetsTarget(b: Board)
    requires Shaped(b)
    requires GetPos(b, Pos.Position(4, 3)) == Ok(Some(LF.ListPiece(White, Pawn, Pos.Position(4, 3))))
    ensures UpdateEnPassant(b, LM.NormalMove(11, 27)) == Ok(b.(ep := Some(Coord(4, 2))))
  {
    assert PosOf(27) == Pos.Position(4, 3);
  }
}
