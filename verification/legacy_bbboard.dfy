/**
 * The bitboard board of the first revision (`BBBoard` in
 * `src/chess/board/board.rs`) and its pseudo-legal generator
 * (`src/chess/board/movegen.rs`), which has no pawn moves yet and checks
 * castling only for an empty path. The magic lookups are the fields of a
 * `Tables` record. The generator is given twice: `PseudoLegal` walks the
 * squares with the core iterator of `BitBoards`, and `PseudoLegalAsWritten`
 * walks them with this revision's own iterator (`LegacyBitBoards`), which
 * fails on a board holding only square 63 (a8).
 */
module LegacyBBBoard {
  import opened Base
  import opened Colors
  import opened PieceTypes
  import opened BitBoards
  import opened PieceSets
  import Pos = Positions
  import LC = LegacyCastling
  import LF = LegacyFen
  import MG = MoveGen
  import LB = LegacyBitBoards

  datatype BBError = FenError(e: LF.LegacyFenError) | CounterUnderflow | BadSquare(s: Pos.SquareError)

  datatype BBBoard = BBBoard(
    castling: LC.CastlingRights,
    turn: Color,
    halfTurns: nat,
    fullTurns: nat,
    ep: BitBoard,
    white: Pieces,
    black: Pieces,
    allWhites: BitBoard,
    allBlacks: BitBoard,
    allPieces: BitBoard,
    blackAttacks: BitBoard,
    whiteAttacks: BitBoard)

  /** `get_pieces`. */
  function PiecesOf(b: BBBoard, c: Color): Pieces
  {
    match c
    case White => b.white
    case Black => b.black
  }

  /** `get_color_bitboard`. */
  function ColorBoard(b: BBBoard, c: Color): BitBoard
  {
    match c
    case White => b.allWhites
    case Black => b.allBlacks
  }

  // ---------------------------------------------------------------------
  // from_fen

  /** Slot `j` of a piece array holds a man of kind `t` on square `s`. */
  predicate Marks(a: seq<Option<LF.ListPiece>>, j: int, t: PieceType, s: Sq)
  {
    0 <= j < |a| && a[j].Some? && a[j].value.kind == t
    && a[j].value.pos.file == Pos.File(s) && a[j].value.pos.rank == Pos.Rank(s)
  }

  /** Some slot from `i` on holds a man of kind `t` on square `s`. */
  predicate MarkedFrom(a: seq<Option<LF.ListPiece>>, i: nat, t: PieceType, s: Sq)
  {
    exists j :: i <= j < |a| && Marks(a, j, t, s)
  }

  /** Every man in the slots from `i` on stands on the 8×8 board. */
  predicate OnBoard(a: seq<Option<LF.ListPiece>>, i: nat)
  {
    forall j :: i <= j < |a| && a[j].Some? ==> a[j].value.pos.file < 8 && a[j].value.pos.rank < 8
  }

  /**
   * The loop over one side's array: each man's bit is or-ed into the
   * board of its kind; `from_file_rank(..).unwrap()` panics on a man off
   * the board.
   */
  function SetMen(ps: Pieces, a: seq<Option<LF.ListPiece>>, i: nat): Result<Pieces, BBError>
    decreases |a| - i
  {
    if i >= |a| then Ok(ps)
    else if a[i].None? then SetMen(ps, a, i + 1)
    else
      var p := a[i].value;
      match Pos.FromFileRankAsWritten(p.pos.file, p.pos.rank)
      case Err(e) => Err(BadSquare(e))
      case Ok(s) => SetMen(WithType(ps, p.kind, Or(OfType(ps, p.kind), FromSquare(s))), a, i + 1)
  }

  lemma OnBoardStep(a: seq<Option<LF.ListPiece>>, i: nat)
    requires i < |a|
    ensures OnBoard(a, i) <==> (a[i].Some? ==> a[i].value.pos.file < 8 && a[i].value.pos.rank < 8) && OnBoard(a, i + 1)
  {
  }

  /**
   * Setting the men succeeds exactly when every man stands on the board;
   * then a kind's board holds a square exactly when it held it before or
   * some slot from `i` on has a man of that kind there.
   */
  lemma {:induction false} SetMenMeaning(ps: Pieces, a: seq<Option<LF.ListPiece>>, i: nat)
    ensures SetMen(ps, a, i).Ok? <==> OnBoard(a, i)
    ensures SetMen(ps, a, i).Ok? ==> forall t, s: Sq ::
      OfType(SetMen(ps, a, i).value, t)[s] <==> OfType(ps, t)[s] || MarkedFrom(a, i, t, s)
    decreases |a| - i
  {
    if i < |a| {
      OnBoardStep(a, i);
      if a[i].None? {
        SetMenMeaning(ps, a, i + 1);
        SkipEmpty(a, i);
      } else {
        var p := a[i].value;
        var r := Pos.FromFileRankAsWritten(p.pos.file, p.pos.rank);
        if r.Ok? {
          var ps' := WithType(ps, p.kind, Or(OfType(ps, p.kind), FromSquare(r.value)));
          SetMenMeaning(ps', a, i + 1);
          if SetMen(ps, a, i).Ok? {
            AddOne(ps, a, i, r.value);
          }
        }
      }
    }
  }

  lemma SkipEmpty(a: seq<Option<LF.ListPiece>>, i: nat)
    requires i < |a| && a[i].None?
    ensures forall t, s: Sq :: (MarkedFrom(a, i, t, s)) <==> MarkedFrom(a, i + 1, t, s)
  {
  }

  /** One man's bit or-ed in, then the rest: the marks from `i` on. */
  lemma AddOne(ps: Pieces, a: seq<Option<LF.ListPiece>>, i: nat, sq: Sq)
    requires i < |a| && a[i].Some?
    requires Pos.File(sq) == a[i].value.pos.file && Pos.Rank(sq) == a[i].value.pos.rank
    ensures var ps' := WithType(ps, a[i].value.kind, Or(OfType(ps, a[i].value.kind), FromSquare(sq)));
      forall t, s: Sq :: (OfType(ps', t)[s] || MarkedFrom(a, i + 1, t, s))
        <==> (OfType(ps, t)[s] || MarkedFrom(a, i, t, s))
  {
    var p := a[i].value;
    var ps' := WithType(ps, p.kind, Or(OfType(ps, p.kind), FromSquare(sq)));
    forall t, s: Sq
      ensures (OfType(ps', t)[s] || MarkedFrom(a, i + 1, t, s))
        <==> (OfType(ps, t)[s] || MarkedFrom(a, i, t, s))
    {
      Pos.FileRankDetermine(s);
      Pos.FileRankDetermine(sq);
      assert Marks(a, i, t, s) <==> t == p.kind && s == sq;
    }
  }

  /** `update_aux_bitboards`: each side's men, and all men, as single boards. */
  function UpdateAux(b: BBBoard): (r: BBBoard)
    ensures forall s: Sq :: r.allWhites[s] <==> exists t :: OfType(b.white, t)[s]
    ensures forall s: Sq :: r.allBlacks[s] <==> exists t :: OfType(b.black, t)[s]
    ensures forall s: Sq :: r.allPieces[s] <==> r.allWhites[s] || r.allBlacks[s]
    ensures r.white == b.white && r.black == b.black && r.castling == b.castling && r.turn == b.turn
    ensures r.halfTurns == b.halfTurns && r.fullTurns == b.fullTurns && r.ep == b.ep
    ensures r.whiteAttacks == b.whiteAttacks && r.blackAttacks == b.blackAttacks
  {
    var blacks := All(b.black);
    var whites := All(b.white);
    b.(allBlacks := blacks, allWhites := whites, allPieces := Or(blacks, whites))
  }

  /**
   * `BBBoard::from_fen`: the list reader's fields and arrays; the fifty-move
   * countdown `100 - halfmoves` underflows past 100; each man's bit is set
   * on the board of its kind; the attack boards stay empty and so does the
   * e.p. board, whatever the record says.
   */
  function FromFen(fen: string): Result<BBBoard, BBError>
  {
    match LF.ReadListFen(fen)
    case Err(e) => Err(FenError(e))
    case Ok(info) =>
      var f := info.fields;
      if f.halfmoves > 100 then Err(CounterUnderflow)
      else
        match SetMen(NoPieces, info.whitePieces, 0)
        case Err(e) => Err(e)
        case Ok(white) =>
          match SetMen(NoPieces, info.blackPieces, 0)
          case Err(e) => Err(e)
          case Ok(black) =>
            Ok(UpdateAux(BBBoard(f.castling, f.turn, 100 - f.halfmoves, f.fullmoves, Empty,
              white, black, Empty, Empty, Empty, Empty, Empty)))
  }

  /**
   * The board is built exactly when the text reads, the half-move count is
   * at most 100 and every man stands on the board; then a kind's board of
   * a side holds exactly the squares of that side's men of that kind, the
   * side boards are the unions of the kinds, and all men are their union.
   */
  lemma FromFenMeaning(fen: string)
    ensures FromFen(fen).Ok? <==> (LF.ReadListFen(fen).Ok? && LF.ReadListFen(fen).value.fields.halfmoves <= 100
      && OnBoard(LF.ReadListFen(fen).value.whitePieces, 0) && OnBoard(LF.ReadListFen(fen).value.blackPieces, 0))
    ensures FromFen(fen).Ok? ==>
      var info := LF.ReadListFen(fen).value;
      var b := FromFen(fen).value;
      (forall t, s: Sq :: OfType(b.white, t)[s] <==> MarkedFrom(info.whitePieces, 0, t, s))
      && (forall t, s: Sq :: OfType(b.black, t)[s] <==> MarkedFrom(info.blackPieces, 0, t, s))
      && (forall s: Sq :: b.allWhites[s] <==> exists t :: OfType(b.white, t)[s])
      && (forall s: Sq :: b.allBlacks[s] <==> exists t :: OfType(b.black, t)[s])
      && (forall s: Sq :: b.allPieces[s] <==> b.allWhites[s] || b.allBlacks[s])
      && b.turn == info.fields.turn && b.castling == info.fields.castling
      && b.halfTurns == 100 - info.fields.halfmoves && b.fullTurns == info.fields.fullmoves
      && b.ep == Empty && b.whiteAttacks == Empty && b.blackAttacks == Empty
  {
    if LF.ReadListFen(fen).Ok? {
      var info := LF.ReadListFen(fen).value;
      SetMenMeaning(NoPieces, info.whitePieces, 0);
      SetMenMeaning(NoPieces, info.blackPieces, 0);
      forall t ensures forall s: Sq :: !OfType(NoPieces, t)[s] {
        NoPiecesEmpty(t);
      }
    }
  }

  // ---------------------------------------------------------------------
  // The generator

  /** The move of this generator: a normal move names its man and whether it takes e.p. */
  datatype BBMove =
    | Normal(from: Sq, to: Sq, piece: PieceType, ep: bool)
    | ShortCastle
    | LongCastle

  /** The magic lookups of `src/chess/magic`: king and knight tables, and sliders given the occupancy. */
  datatype Tables = Tables(
    kingMoves: Sq -> BitBoard,
    knightMoves: Sq -> BitBoard,
    rookMoves: (Sq, BitBoard) -> BitBoard,
    bishopMoves: (Sq, BitBoard) -> BitBoard)

  /** The table of a man of kind `p` on `from`; the queen's is the bishop's or-ed with the rook's. */
  function Table(o: Tables, p: PieceType, from: Sq, all: BitBoard): BitBoard
  {
    match p
    case Rook => o.rookMoves(from, all)
    case Bishop => o.bishopMoves(from, all)
    case Queen => Or(o.bishopMoves(from, all), o.rookMoves(from, all))
    case Knight => o.knightMoves(from)
    case King => o.kingMoves(from)
    case Pawn => Empty
  }

  /** The kinds the generator visits, in its order; pawns are not among them. */
  const Generated: seq<PieceType> := [Rook, Bishop, Queen, Knight, King]

  /** Normal moves of a `p` from `from` to each listed square. */
  function Targets(from: Sq, p: PieceType, tos: seq<Sq>): (r: seq<BBMove>)
    ensures |r| == |tos|
    ensures forall i :: 0 <= i < |tos| ==> r[i] == Normal(from, tos[i], p, false)
  {
    seq(|tos|, i requires 0 <= i < |tos| => Normal(from, tos[i], p, false))
  }

  /** The squares a `p` on `from` may move to: its table less the side's own men. */
  function StepBoard(o: Tables, b: BBBoard, c: Color, p: PieceType, from: Sq): (r: BitBoard)
    ensures forall s: Sq :: r[s] <==> Table(o, p, from, b.allPieces)[s] && !ColorBoard(b, c)[s]
  {
    And(Table(o, p, from, b.allPieces), Not(ColorBoard(b, c)))
  }

  function KindMovesFrom(o: Tables, b: BBBoard, c: Color, p: PieceType, froms: seq<Sq>): seq<BBMove>
  {
    if froms == [] then []
    else Targets(froms[0], p, PieceIndices(StepBoard(o, b, c, p, froms[0]))) + KindMovesFrom(o, b, c, p, froms[1..])
  }

  /** The moves of the side's men of one kind, square by square in ascending order. */
  function KindMoves(o: Tables, b: BBBoard, c: Color, p: PieceType): seq<BBMove>
  {
    KindMovesFrom(o, b, c, p, PieceIndices(OfType(PiecesOf(b, c), p)))
  }

  function KindsMoves(o: Tables, b: BBBoard, c: Color, kinds: seq<PieceType>): seq<BBMove>
  {
    if kinds == [] then [] else KindMoves(o, b, c, kinds[0]) + KindsMoves(o, b, c, kinds[1..])
  }

  /** A castle is listed when the side holds the right and no man stands on the path. */
  function CastleMoves(b: BBBoard, c: Color): seq<BBMove>
  {
    (if LC.KingSide(b.castling, c) && IsEmpty(And(b.allPieces, MG.CastlePath(c, true))) then [ShortCastle] else [])
    + (if LC.QueenSide(b.castling, c) && IsEmpty(And(b.allPieces, MG.CastlePath(c, false))) then [LongCastle] else [])
  }

  /** `get_pseudolegal_moves`: rooks, bishops, queens, knights and the king, then the castles. */
  function PseudoLegal(o: Tables, b: BBBoard, c: Color): seq<BBMove>
  {
    KindsMoves(o, b, c, Generated) + CastleMoves(b, c)
  }

  lemma TargetsMeaning(from: Sq, p: PieceType, board: BitBoard, m: BBMove)
    ensures m in Targets(from, p, PieceIndices(board)) <==>
      m.Normal? && m.from == from && m.piece == p && !m.ep && board[m.to]
  {
    var tos := PieceIndices(board);
    var t := Targets(from, p, tos);
    PieceIndicesSpec(board);
    if m in t {
      var i :| 0 <= i < |t| && t[i] == m;
    }
    if m.Normal? && m.from == from && m.piece == p && !m.ep && board[m.to] {
      var i :| 0 <= i < |tos| && tos[i] == m.to;
      assert t[i] == m;
    }
  }

  lemma {:induction false} KindMovesFromMeaning(o: Tables, b: BBBoard, c: Color, p: PieceType, froms: seq<Sq>, m: BBMove)
    ensures m in KindMovesFrom(o, b, c, p, froms) <==>
      m.Normal? && m.piece == p && !m.ep && m.from in froms && StepBoard(o, b, c, p, m.from)[m.to]
  {
    if froms != [] {
      KindMovesFromMeaning(o, b, c, p, froms[1..], m);
      TargetsMeaning(froms[0], p, StepBoard(o, b, c, p, froms[0]), m);
    }
  }

  /** A kind's list holds exactly the normal moves of its men to the squares of their step boards. */
  lemma KindMovesMeaning(o: Tables, b: BBBoard, c: Color, p: PieceType, m: BBMove)
    ensures m in KindMoves(o, b, c, p) <==>
      m.Normal? && m.piece == p && !m.ep && OfType(PiecesOf(b, c), p)[m.from] && StepBoard(o, b, c, p, m.from)[m.to]
  {
    var board := OfType(PiecesOf(b, c), p);
    PieceIndicesSpec(board);
    KindMovesFromMeaning(o, b, c, p, PieceIndices(board), m);
  }

  lemma {:induction false} KindsMovesMeaning(o: Tables, b: BBBoard, c: Color, kinds: seq<PieceType>, m: BBMove)
    ensures m in KindsMoves(o, b, c, kinds) <==>
      m.Normal? && m.piece in kinds && !m.ep && OfType(PiecesOf(b, c), m.piece)[m.from] && StepBoard(o, b, c, m.piece, m.from)[m.to]
  {
    if kinds != [] {
      KindsMovesMeaning(o, b, c, kinds[1..], m);
      KindMovesMeaning(o, b, c, kinds[0], m);
    }
  }

  /**
   * The generator lists exactly: the normal moves, never e.p., of the
   * side's rooks, bishops, queens, knights and king to squares of their
   * tables that hold none of the side's men, each naming its man's kind;
   * a short castle when the kingside right is held and no man stands on
   * its path; a long castle likewise. No pawn ever moves, and attacks on
   * the king's path are not looked at.
   */
  lemma PseudoLegalMeaning(o: Tables, b: BBBoard, c: Color, m: BBMove)
    ensures m in PseudoLegal(o, b, c) <==>
      (m.Normal? && m.piece != Pawn && !m.ep && OfType(PiecesOf(b, c), m.piece)[m.from]
        && Table(o, m.piece, m.from, b.allPieces)[m.to] && !ColorBoard(b, c)[m.to])
      || (m.ShortCastle? && LC.KingSide(b.castling, c) && IsEmpty(And(b.allPieces, MG.CastlePath(c, true))))
      || (m.LongCastle? && LC.QueenSide(b.castling, c) && IsEmpty(And(b.allPieces, MG.CastlePath(c, false))))
  {
    KindsMovesMeaning(o, b, c, Generated, m);
    assert m.Normal? ==> (m.piece in Generated <==> m.piece != Pawn);
  }

  /** The squares of a board, walked with this revision's iterator. */
  function Squares(board: BitBoard): Result<seq<Sq>, LB.IterError>
  {
    LB.IndicesAsWritten(LB.Start(board))
  }

  function KindMovesFromAsWritten(o: Tables, b: BBBoard, c: Color, p: PieceType, froms: seq<Sq>): Result<seq<BBMove>, LB.IterError>
  {
    if froms == [] then Ok([])
    else
      match Squares(StepBoard(o, b, c, p, froms[0]))
      case Err(e) => Err(e)
      case Ok(tos) =>
        match KindMovesFromAsWritten(o, b, c, p, froms[1..])
        case Err(e) => Err(e)
        case Ok(rest) => Ok(Targets(froms[0], p, tos) + rest)
  }

  /** One kind's `for_each` over `piece_indices`, nested over each man's step board. */
  function KindMovesAsWritten(o: Tables, b: BBBoard, c: Color, p: PieceType): Result<seq<BBMove>, LB.IterError>
  {
    match Squares(OfType(PiecesOf(b, c), p))
    case Err(e) => Err(e)
    case Ok(froms) => KindMovesFromAsWritten(o, b, c, p, froms)
  }

  function KindsMovesAsWritten(o: Tables, b: BBBoard, c: Color, kinds: seq<PieceType>): Result<seq<BBMove>, LB.IterError>
  {
    if kinds == [] then Ok([])
    else
      match KindMovesAsWritten(o, b, c, kinds[0])
      case Err(e) => Err(e)
      case Ok(first) =>
        match KindsMovesAsWritten(o, b, c, kinds[1..])
        case Err(e) => Err(e)
        case Ok(rest) => Ok(first + rest)
  }

  /** `get_pseudolegal_moves` with the revision's own iterator; `Err` is its shift overflow. */
  function PseudoLegalAsWritten(o: Tables, b: BBBoard, c: Color): Result<seq<BBMove>, LB.IterError>
  {
    match KindsMovesAsWritten(o, b, c, Generated)
    case Err(e) => Err(e)
    case Ok(ms) => Ok(ms + CastleMoves(b, c))
  }

  /**
   * Walking a kind's men fails when the kind's board, or the step board of
   * one of its men, is exactly square 63.
   */
  predicate KindFails(o: Tables, b: BBBoard, c: Color, p: PieceType)
  {
    OfType(PiecesOf(b, c), p) == FromSquare(63)
    || exists s: Sq :: OfType(PiecesOf(b, c), p)[s] && StepBoard(o, b, c, p, s) == FromSquare(63)
  }

  lemma {:induction false} KindMovesFromAsWrittenMeaning(o: Tables, b: BBBoard, c: Color, p: PieceType, froms: seq<Sq>)
    ensures KindMovesFromAsWritten(o, b, c, p, froms).Err? <==>
      exists s: Sq :: s in froms && StepBoard(o, b, c, p, s) == FromSquare(63)
    ensures KindMovesFromAsWritten(o, b, c, p, froms).Ok? ==>
      KindMovesFromAsWritten(o, b, c, p, froms).value == KindMovesFrom(o, b, c, p, froms)
  {
    if froms != [] {
      KindMovesFromAsWrittenMeaning(o, b, c, p, froms[1..]);
      LB.AsWrittenFailsOnlyOnTopSquare(StepBoard(o, b, c, p, froms[0]));
      assert forall s :: s in froms <==> s == froms[0] || s in froms[1..];
    }
  }

  /**
   * A kind's moves walked as written fail exactly when the kind fails; when
   * they do not, they are the moves walked with the core iterator.
   */
  lemma KindMovesAsWrittenMeaning(o: Tables, b: BBBoard, c: Color, p: PieceType)
    ensures KindMovesAsWritten(o, b, c, p).Err? <==> KindFails(o, b, c, p)
    ensures KindMovesAsWritten(o, b, c, p).Ok? ==> KindMovesAsWritten(o, b, c, p).value == KindMoves(o, b, c, p)
  {
    var board := OfType(PiecesOf(b, c), p);
    LB.AsWrittenFailsOnlyOnTopSquare(board);
    if board != FromSquare(63) {
      var froms := PieceIndices(board);
      PieceIndicesSpec(board);
      KindMovesFromAsWrittenMeaning(o, b, c, p, froms);
      if exists s: Sq :: board[s] && StepBoard(o, b, c, p, s) == FromSquare(63) {
        var s: Sq :| board[s] && StepBoard(o, b, c, p, s) == FromSquare(63);
        assert s in froms;
      }
    }
  }

  lemma {:induction false} KindsMovesAsWrittenMeaning(o: Tables, b: BBBoard, c: Color, kinds: seq<PieceType>)
    ensures KindsMovesAsWritten(o, b, c, kinds).Err? <==> exists p :: p in kinds && KindFails(o, b, c, p)
    ensures KindsMovesAsWritten(o, b, c, kinds).Ok? ==> KindsMovesAsWritten(o, b, c, kinds).value == KindsMoves(o, b, c, kinds)
  {
    if kinds != [] {
      KindsMovesAsWrittenMeaning(o, b, c, kinds[1..]);
      KindMovesAsWrittenMeaning(o, b, c, kinds[0]);
      if exists p :: p in kinds && KindFails(o, b, c, p) {
        var p :| p in kinds && KindFails(o, b, c, p);
        assert p == kinds[0] || p in kinds[1..];
      }
    }
  }

  /**
   * The generator as written fails exactly when one of the visited kinds
   * fails, and otherwise lists what `PseudoLegal` lists.
   */
  lemma PseudoLegalAsWrittenMeaning(o: Tables, b: BBBoard, c: Color)
    ensures PseudoLegalAsWritten(o, b, c).Err? <==> exists p :: p in Generated && KindFails(o, b, c, p)
    ensures PseudoLegalAsWritten(o, b, c).Ok? ==> PseudoLegalAsWritten(o, b, c).value == PseudoLegal(o, b, c)
  {
    KindsMovesAsWrittenMeaning(o, b, c, Generated);
  }

  /** A side whose only king stands on a8 (square 63) makes the generator fail. */
  lemma KingOnA8Fails(o: Tables, b: BBBoard, c: Color)
    requires OfType(PiecesOf(b, c), King) == FromSquare(63)
    ensures PseudoLegalAsWritten(o, b, c).Err?
  {
    PseudoLegalAsWrittenMeaning(o, b, c);
    assert King in Generated && KindFails(o, b, c, King);
  }

  function HomeRank(c: Color): nat
  {
    match c
    case White => 0
    case Black => 7
  }

  /** The castling paths are the squares between king and rook: f1-g1, b1-d1, f8-g8 and b8-d8. */
  lemma CastlePathsAreBetween(c: Color, s: Sq)
    ensures MG.CastlePath(c, true)[s] <==> Pos.Rank(s) == HomeRank(c) && 5 <= Pos.File(s) <= 6
    ensures MG.CastlePath(c, false)[s] <==> Pos.Rank(s) == HomeRank(c) && 1 <= Pos.File(s) <= 3
  {
  }
}
