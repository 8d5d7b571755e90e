/**
 * The men of the earliest revision (`src/board/piece.rs`).  Only the king
 * and the knight have generators, both without castling; every other kind
 * is `unimplemented!()`, which panics.  The board is the 8x8 array
 * `squares[rank][file]` that `read_fen` of `src/fen/fen_utils.rs` fills.
 *
 * The `Position` helpers `king_moves` and `knight_jumps`, and the
 * `make_move`/`is_check` pair the legal filter calls, are not part of this
 * model: they are the fields of a `Geometry` record.
 */
module OldestPieces {
  import opened Base
  import opened Colors
  import opened PieceTypes
  import Pos = Positions
  import F = Fen

  datatype Piece = Piece(color: Color, kind: PieceType)

  /** `Move` of `src/game_elements/movement.rs`. */
  datatype Move = NormalMove(from: Pos.Position, to: Pos.Position) | ShortCastle | LongCastle

  /** The panics of this revision: an index outside the array, and `unimplemented!()`. */
  datatype PieceError = OffGrid | Unimplemented

  /** The part of the board the generators read: `squares[rank][file]`. */
  datatype Board = Board(squares: seq<seq<F.Cell>>)

  datatype Geometry = Geometry(
    kingMoves: Pos.Position -> seq<Pos.Position>,
    knightJumps: Pos.Position -> seq<Pos.Position>,
    /** Whether the side of a colour is in check after the board plays a move. */
    checkAfter: (Board, Move, Color) -> bool)

  /** A position that indexes the array without a panic. */
  predicate OnGrid(b: Board, p: Pos.Position)
  {
    p.rank < |b.squares| && p.file < |b.squares[p.rank]|
  }

  /** The square at a position; an index outside the array panics. */
  function GetPos(b: Board, p: Pos.Position): (r: Result<F.Cell, PieceError>)
    ensures r.Ok? <==> OnGrid(b, p)
    ensures r.Ok? ==> r.value == b.squares[p.rank][p.file]
  {
    if OnGrid(b, p) then Ok(b.squares[p.rank][p.file]) else Err(OffGrid)
  }

  /** A target a man of `color` may move to: empty or held by the other side. */
  predicate Open(b: Board, color: Color, p: Pos.Position)
    requires OnGrid(b, p)
  {
    b.squares[p.rank][p.file].None? || b.squares[p.rank][p.file].value.color != color
  }

  /**
   * The filter-and-map shared by the king and the knight: a normal move
   * from `from` to each candidate that is open, in candidate order.
   */
  function StepMoves(b: Board, color: Color, from: Pos.Position, ts: seq<Pos.Position>): Result<seq<Move>, PieceError>
  {
    if ts == [] then Ok([])
    else
      match GetPos(b, ts[0])
      case Err(e) => Err(e)
      case Ok(cell) =>
        match StepMoves(b, color, from, ts[1..])
        case Err(e) => Err(e)
        case Ok(rest) =>
          if cell.None? || cell.value.color != color then Ok([NormalMove(from, ts[0])] + rest) else Ok(rest)
  }

  /**
   * The step generator fails exactly when a candidate lies outside the
   * array; otherwise it lists a move exactly when it is a normal move from
   * `from` to an open candidate.
   */
  lemma {:induction false} StepMovesMeaning(b: Board, color: Color, from: Pos.Position, ts: seq<Pos.Position>)
    ensures StepMoves(b, color, from, ts).Ok? <==> forall t :: t in ts ==> OnGrid(b, t)
    ensures StepMoves(b, color, from, ts).Err? ==> StepMoves(b, color, from, ts).error == OffGrid
    ensures StepMoves(b, color, from, ts).Ok? ==> forall m :: m in StepMoves(b, color, from, ts).value <==>
      m.NormalMove? && m.from == from && m.to in ts && OnGrid(b, m.to) && Open(b, color, m.to)
  {
    if ts != [] {
      StepMovesMeaning(b, color, from, ts[1..]);
      assert forall t :: t in ts <==> t == ts[0] || t in ts[1..];
    }
  }

  /** `get_moves_king`: the king's steps to open squares; no castling yet. */
  function KingMoves(p: Piece, pos: Pos.Position, b: Board, geo: Geometry): Result<seq<Move>, PieceError>
  {
    StepMoves(b, p.color, pos, geo.kingMoves(pos))
  }

  /** `get_moves_knight`: the knight's jumps to open squares. */
  function KnightMoves(p: Piece, pos: Pos.Position, b: Board, geo: Geometry): Result<seq<Move>, PieceError>
  {
    StepMoves(b, p.color, pos, geo.knightJumps(pos))
  }

  /** `get_pseudolegal_moves`: only the king and the knight are implemented. */
  function PseudoMoves(p: Piece, pos: Pos.Position, b: Board, geo: Geometry): Result<seq<Move>, PieceError>
  {
    match p.kind
    case King => KingMoves(p, pos, b, geo)
    case Knight => KnightMoves(p, pos, b, geo)
    case _ => Err(Unimplemented)
  }

  /** The candidate squares of the two implemented kinds. */
  function Candidates(p: Piece, pos: Pos.Position, geo: Geometry): seq<Pos.Position>
  {
    if p.kind == King then geo.kingMoves(pos) else geo.knightJumps(pos)
  }

  /**
   * Any other kind panics; a king or knight panics exactly when a candidate
   * lies outside the array, and otherwise lists exactly the normal moves
   * from its square to open candidates: never a castle, and never onto a
   * man of its own side.
   */
  lemma PseudoMovesMeaning(p: Piece, pos: Pos.Position, b: Board, geo: Geometry)
    ensures p.kind != King && p.kind != Knight ==> PseudoMoves(p, pos, b, geo) == Err(Unimplemented)
    ensures (p.kind == King || p.kind == Knight) ==>
      (PseudoMoves(p, pos, b, geo).Ok? <==> forall t :: t in Candidates(p, pos, geo) ==> OnGrid(b, t))
    ensures PseudoMoves(p, pos, b, geo).Ok? ==> forall m :: m in PseudoMoves(p, pos, b, geo).value <==>
      m.NormalMove? && m.from == pos && m.to in Candidates(p, pos, geo) && OnGrid(b, m.to) && Open(b, p.color, m.to)
  {
    StepMovesMeaning(b, p.color, pos, Candidates(p, pos, geo));
  }

  /** The filter of `get_legal_moves`: moves after which the mover is not in check. */
  function KeepLegal(b: Board, color: Color, geo: Geometry, ms: seq<Move>): seq<Move>
  {
    if ms == [] then []
    else if !geo.checkAfter(b, ms[0], color) then [ms[0]] + KeepLegal(b, color, geo, ms[1..])
    else KeepLegal(b, color, geo, ms[1..])
  }

  /** The filter keeps exactly the moves that do not leave the mover in check. */
  lemma {:induction false} KeepLegalMeaning(b: Board, color: Color, geo: Geometry, ms: seq<Move>)
    ensures forall m :: m in KeepLegal(b, color, geo, ms) <==> m in ms && !geo.checkAfter(b, m, color)
  {
    if ms != [] {
      KeepLegalMeaning(b, color, geo, ms[1..]);
      assert forall m :: m in ms <==> m == ms[0] || m in ms[1..];
    }
  }

  /** `get_legal_moves`. */
  function LegalMoves(p: Piece, pos: Pos.Position, b: Board, geo: Geometry): Result<seq<Move>, PieceError>
  {
    match PseudoMoves(p, pos, b, geo)
    case Err(e) => Err(e)
    case Ok(ms) => Ok(KeepLegal(b, p.color, geo, ms))
  }

  /**
   * The legal list panics exactly when the pseudo-legal one does, and holds
   * exactly the pseudo-legal moves after which the mover is not in check.
   */
  lemma LegalMovesMeaning(p: Piece, pos: Pos.Position, b: Board, geo: Geometry)
    ensures LegalMoves(p, pos, b, geo).Ok? <==> PseudoMoves(p, pos, b, geo).Ok?
    ensures LegalMoves(p, pos, b, geo).Ok? ==> forall m :: m in LegalMoves(p, pos, b, geo).value <==>
      m in PseudoMoves(p, pos, b, geo).value && !geo.checkAfter(b, m, p.color)
  {
    if PseudoMoves(p, pos, b, geo).Ok? {
      KeepLegalMeaning(b, p.color, geo, PseudoMoves(p, pos, b, geo).value);
    }
  }

  /** `as_char`: the man's Unicode glyph. */
  function AsChar(p: Piece): char
  {
    Glyph(p.color, p.kind)
  }

  /** The glyph identifies the man: outlined for White, filled for Black, and no two men alike. */
  lemma AsCharInjective(p: Piece, q: Piece)
    ensures AsChar(p) == AsChar(q) <==> p == q
    ensures p.color == White <==> '\U{2654}' <= AsChar(p) <= '\U{2659}'
  {
    GlyphInjective(p.color, p.kind, q.color, q.kind);
  }
}
