/**
 * Playing moves on a `Board` of `shakmat-core/src/board/chess_board.rs`:
 * `from_fen`, `make_move` with its helpers `move_piece`, `castle`,
 * `update_en_passant` and `update_castling_rights`, the check and draw
 * tests and the legal-move filter.
 *
 * The source works on a mutable copy of the board; here every step is a
 * function from a board to a board. A panic of the source (an `unwrap` of
 * an empty square, a `u8` or `u16` leaving its range, a shift by 64 or
 * more) is an `Err` carrying a `Fault`.
 */
module ChessBoard {
  import opened Base
  import opened Colors
  import opened PieceTypes
  import opened BitBoards
  import opened PieceSets
  import Castling
  import Z = Zobrist
  import F = Fen
  import opened Moves
  import opened BoardState
  import G = MoveGen

  datatype Fault =
    | MissingPiece  // `unwrap` of an empty square
    | Underflow     // a `u8` or `u16` subtraction below zero
    | Overflow      // a `u16` sum past 65535
    | OffBoard      // `1 << s` or `piece_on_square[s]` with `s >= 64`

  datatype MoveError = Illegal | Panic(fault: Fault)

  datatype FenBoardError = BadFen(error: F.FenError) | FenPanic(fault: Fault)

  predicate IsCastleMove(m: Move)
  {
    m.ShortCastle? || m.LongCastle?
  }

  // ---------------------------------------------------------------------
  // Editing the men.

  /** The placement with one side's boards replaced. */
  function WithSide(pl: F.Placement, c: Color, ps: Pieces): (r: F.Placement)
    ensures F.Side(r, c) == ps
    ensures F.Side(r, Opposite(c)) == F.Side(pl, Opposite(c))
    ensures r.pieceOn == pl.pieceOn
  {
    match c
    case White => pl.(white := ps)
    case Black => pl.(black := ps)
  }

  /** `*board_of(p) ^= from_bb | to_bb` on side `c`. */
  function MoveBits(pl: F.Placement, c: Color, p: PieceType, from: Sq, to: Sq): F.Placement
  {
    var ps := F.Side(pl, c);
    WithSide(pl, c, WithType(ps, p, Xor(OfType(ps, p), Or(FromSquare(from), FromSquare(to)))))
  }

  /** `apply_mask(!to_bb)` on side `c`: every board of the side loses the square. */
  function ClearSquare(pl: F.Placement, c: Color, s: Sq): F.Placement
  {
    WithSide(pl, c, ApplyMask(F.Side(pl, c), Not(FromSquare(s))))
  }

  // ---------------------------------------------------------------------
  // `move_piece`.

  /** The board after the victim of a move, if any, has been taken off. */
  datatype Capture = Capture(men: F.Placement, captured: Option<PieceType>, key: Z.Key)

  /** The e.p. victim's square, `to - 8` for White and `to + 8` for Black, as a `u8`. */
  function EpVictim(c: Color, to: Sq): (r: Result<Sq, Fault>)
    ensures r.Ok? ==> r.value == (if c == White then to - 8 else to + 8)
    ensures r.Err? <==> ((c == White && to < 8) || (c == Black && to >= 56))
  {
    match c
    case White => if to < 8 then Err(Underflow) else Ok(to - 8)
    case Black => if to >= 56 then Err(OffBoard) else Ok(to + 8)
  }

  /**
   * The capture half of `move_piece`: a pawn moving onto the e.p. square
   * takes the pawn behind it; otherwise a man of the enemy (as `enemyAux`,
   * the enemy's board when the move began, shows) on the destination is
   * masked off every enemy board, its kind read from the destination.
   */
  function RemoveVictim(o: Magic, b: Board, m: Move, piece: PieceType, enemyAux: BitBoard): Result<Capture, Fault>
    requires m.Normal? || m.PawnPromotion?
  {
    var enemy := Opposite(b.turn);
    if piece == Pawn && FromSquare(m.to) == b.ep then
      match EpVictim(b.turn, m.to)
      case Err(f) => Err(f)
      case Ok(t) =>
        Ok(Capture(SetKind(Flip(b.men, enemy, Pawn, t), t, None), Some(Pawn),
                   Xor(b.key, Z.PieceKey(o.keys, Pawn, enemy, t))))
    else if enemyAux[m.to] then
      match b.men.pieceOn[m.to]
      case None => Err(MissingPiece)
      case Some(q) =>
        Ok(Capture(ClearSquare(b.men, enemy, m.to), Some(q), Xor(b.key, Z.PieceKey(o.keys, q, enemy, m.to))))
    else Ok(Capture(b.men, None, b.key))
  }

  /**
   * The moving half of `move_piece`: the mover leaves `from`; a promotion
   * takes a pawn off `from` and puts the new piece on `to`, any other move
   * toggles `from` and `to` on the moving kind's board.
   */
  function PlaceMover(o: Magic, men: F.Placement, key: Z.Key, c: Color, m: Move, piece: PieceType)
    : (F.Placement, Z.Key)
    requires m.Normal? || m.PawnPromotion?
  {
    var key1 := Xor(key, Z.PieceKey(o.keys, piece, c, m.from));
    var men1 := SetKind(men, m.from, None);
    if m.PawnPromotion? then
      (SetKind(Flip(Flip(men1, c, Pawn, m.from), c, m.promoteTo, m.to), m.to, Some(m.promoteTo)),
       Xor(key1, Z.PieceKey(o.keys, m.promoteTo, c, m.to)))
    else
      (SetKind(MoveBits(men1, c, piece, m.from, m.to), m.to, Some(piece)),
       Xor(key1, Z.PieceKey(o.keys, piece, c, m.to)))
  }

  /** The home squares of the rooks, queen side first: a1 and h1, a8 and h8. */
  function RookHomes(c: Color): (Sq, Sq)
  {
    if c == White then (7, 0) else (63, 56)
  }

  /**
   * `update_castling_rights`, run once the man stands on `to`: arriving on
   * an enemy rook's home square takes that right from the enemy; then a
   * king on `to` loses both of the mover's rights, and otherwise leaving a
   * rook's home square loses that right.
   */
  function UpdateCastlingRights(r: Castling.Rights, c: Color, from: Sq, to: Sq, onTo: Option<PieceType>)
    : Castling.Rights
  {
    OwnRightsAfter(EnemyRightsAfter(r, c, to), c, from, onTo)
  }

  /** The first half: a move of `c` arriving on an enemy rook's home square. */
  function EnemyRightsAfter(r: Castling.Rights, c: Color, to: Sq): Castling.Rights
  {
    var d := Opposite(c);
    var (oppQ, oppK) := RookHomes(d);
    if Castling.CanCastleQueenside(r, d) && to == oppQ then Castling.UpdateQueenside(r, d, false)
    else if Castling.CanCastleKingside(r, d) && to == oppK then Castling.UpdateKingside(r, d, false)
    else r
  }

  /** The second half: the mover's king, or a move from one of its rooks' home squares. */
  function OwnRightsAfter(r: Castling.Rights, c: Color, from: Sq, onTo: Option<PieceType>): Castling.Rights
  {
    var (ownQ, ownK) := RookHomes(c);
    if onTo == Some(King) then Castling.DisableAll(r, c)
    else if Castling.CanCastleQueenside(r, c) && from == ownQ then Castling.UpdateQueenside(r, c, false)
    else if Castling.CanCastleKingside(r, c) && from == ownK then Castling.UpdateKingside(r, c, false)
    else r
  }

  /**
   * `move_piece`: take the victim off, move the man, reset or advance the
   * fifty-move counter, and update the castling rights, the key following
   * every change.
   */
  function MovePiece(o: Magic, b: Board, m: Move, enemyAux: BitBoard): (r: Result<Board, Fault>)
    requires m.Normal? || m.PawnPromotion?
    ensures r.Ok? ==> r.value.turn == b.turn && r.value.plies == b.plies && r.value.fullTurns == b.fullTurns
    ensures r.Ok? ==> r.value.ep == b.ep
  {
    match b.men.pieceOn[m.from]
    case None => Err(MissingPiece)
    case Some(piece) =>
      match RemoveVictim(o, b, m, piece, enemyAux)
      case Err(f) => Err(f)
      case Ok(cap) =>
        var (men, key) := PlaceMover(o, cap.men, cap.key, b.turn, m, piece);
        var fifty := if cap.captured.Some? || piece == Pawn then 0 else b.fifty + 1;
        if fifty > U16_MAX then Err(Overflow)
        else
          var rights := UpdateCastlingRights(b.castling, b.turn, m.from, m.to, men.pieceOn[m.to]);
          Ok(b.(men := men, fifty := fifty, castling := rights,
                key := Xor(Xor(key, Z.CastlingKey(o.keys, b.castling)), Z.CastlingKey(o.keys, rights))))
  }

  // ---------------------------------------------------------------------
  // `castle`.

  /** King from, king to, rook from, rook to. */
  datatype CastleSquares = CastleSquares(kingFrom: Sq, kingTo: Sq, rookFrom: Sq, rookTo: Sq)

  /** The squares of a castle: rank 1 for White, rank 8 for Black. */
  function CastleLayout(c: Color, short: bool): CastleSquares
  {
    var row := if c == White then 0 else 56;
    if short then CastleSquares(row + 3, row + 1, row, row + 2)
    else CastleSquares(row + 3, row + 5, row + 7, row + 4)
  }

  /** `castle`: the king's move, then the rook's, each by `move_piece`. */
  function Castle(o: Magic, b: Board, short: bool, enemyAux: BitBoard): (r: Result<Board, Fault>)
    ensures r.Ok? ==> r.value.turn == b.turn && r.value.plies == b.plies && r.value.fullTurns == b.fullTurns
    ensures r.Ok? ==> r.value.ep == b.ep
  {
    var sq := CastleLayout(b.turn, short);
    match MovePiece(o, b, Normal(sq.kingFrom, sq.kingTo), enemyAux)
    case Err(f) => Err(f)
    case Ok(b1) => MovePiece(o, b1, Normal(sq.rookFrom, sq.rookTo), enemyAux)
  }

  // ---------------------------------------------------------------------
  // `update_en_passant`.

  /**
   * Clear the e.p. square; after a pawn's double push set it to the square
   * passed over, and add its key when a pawn of the side to move next
   * attacks it. The tests `to - from == 16` (White) and `from - to == 16`
   * (Black) are `u8` subtractions.
   */
  function UpdateEnPassant(o: Magic, b: Board, m: Move): (r: Result<Board, Fault>)
    ensures r.Ok? ==> r.value.turn == b.turn && r.value.plies == b.plies && r.value.fullTurns == b.fullTurns
    ensures r.Ok? ==> r.value.men == b.men && r.value.castling == b.castling && r.value.fifty == b.fifty
  {
    var b0 := b.(ep := Empty);
    if m.Normal? && b.men.pieceOn[m.to] == Some(Pawn) then
      if b.turn == White then
        if m.to < m.from then Err(Underflow)
        else if m.to - m.from == 16 then Ok(SetEp(o, b0, m.from + 8, Black))
        else Ok(b0)
      else
        if m.from < m.to then Err(Underflow)
        else if m.from - m.to == 16 then Ok(SetEp(o, b0, m.from - 8, White))
        else Ok(b0)
    else Ok(b0)
  }

  /** The e.p. square set to `s`, its key added when `capturing` can take on it. */
  function SetEp(o: Magic, b: Board, s: Sq, capturing: Color): Board
  {
    var b1 := b.(ep := FromSquare(s));
    if EpFlag(o, b1, capturing) then b1.(key := Xor(b1.key, Z.EpKey(o.keys, s))) else b1
  }

  // ---------------------------------------------------------------------
  // `make_move`.

  /**
   * `make_move(m, false)`: drop the key of an e.p. square the mover could
   * take, play the move (a castle is two `move_piece` calls and gives one
   * fifty-move step back), set the e.p. square, hand the turn over and
   * advance the counters. The enemy's board is the one of the position the
   * move starts from, as the source reads its auxiliary boards.
   */
  function MakeMoveUnchecked(o: Magic, b: Board, m: Move): Result<Board, Fault>
  {
    match Played(o, DropEpKey(o, b), m, ColorBoard(b, Opposite(b.turn)))
    case Err(f) => Err(f)
    case Ok(b1) =>
      match UpdateEnPassant(o, b1, m)
      case Err(f) => Err(f)
      case Ok(b2) => HandOver(o, b2)
  }

  /** The key without the e.p. square's value, when the mover could take on it. */
  function DropEpKey(o: Magic, b: Board): (r: Board)
    ensures r == b.(key := r.key)
  {
    if EpFlag(o, b, b.turn) then b.(key := Xor(b.key, Z.EpKey(o.keys, FirstPieceIndex(b.ep)))) else b
  }

  /** The move itself: a castle, one step of the fifty-move counter undone, or `move_piece`. */
  function Played(o: Magic, b: Board, m: Move, enemyAux: BitBoard): (r: Result<Board, Fault>)
    ensures r.Ok? ==> r.value.turn == b.turn && r.value.plies == b.plies && r.value.fullTurns == b.fullTurns
    ensures r.Ok? ==> r.value.ep == b.ep
  {
    if IsCastleMove(m) then
      match Castle(o, b, m.ShortCastle?, enemyAux)
      case Err(f) => Err(f)
      case Ok(b1) => if b1.fifty == 0 then Err(Underflow) else Ok(b1.(fifty := b1.fifty - 1))
    else MovePiece(o, b, m, enemyAux)
  }

  /** The end of `make_move`: the other side to move, the turn and ply counters advanced. */
  function HandOver(o: Magic, b: Board): Result<Board, Fault>
  {
    var turn := Opposite(b.turn);
    var full := if turn == White then b.fullTurns + 1 else b.fullTurns;
    if full > U16_MAX || b.plies + 1 > U16_MAX then Err(Overflow)
    else Ok(b.(turn := turn, key := Xor(b.key, Z.WhiteTurnKey(o.keys)), fullTurns := full, plies := b.plies + 1))
  }

  /** `make_move`: with `check`, a move not among the legal moves is refused. */
  function MakeMove(o: Magic, b: Board, m: Move, check: bool): Result<Board, MoveError>
  {
    if check then
      match LegalMoves(o, b)
      case Err(f) => Err(Panic(f))
      case Ok(legal) => if m !in legal then Err(Illegal) else Lift(MakeMoveUnchecked(o, b, m))
    else Lift(MakeMoveUnchecked(o, b, m))
  }

  function Lift(r: Result<Board, Fault>): (r': Result<Board, MoveError>)
    ensures r.Ok? <==> r'.Ok?
    ensures r.Ok? ==> r'.value == r.value
    ensures r.Err? ==> r'.error == Panic(r.error)
  {
    match r
    case Ok(nb) => Ok(nb)
    case Err(f) => Err(Panic(f))
  }

  // ---------------------------------------------------------------------
  // Checks, draws and the move lists.

  /** `is_check`: the king of `c` stands on a square the other side controls. */
  predicate IsCheck(o: Magic, b: Board, c: Color)
  {
    !IsEmpty(And(OfType(PiecesOf(b, c), King), G.Controlled(o, b, Opposite(c))))
  }

  /** A side that is a bare king, or a king with one bishop or one knight. */
  predicate Bare(b: Board, c: Color)
  {
    var n := Count(ColorBoard(b, c));
    n == 1 || (n == 2 && (Count(OfType(PiecesOf(b, c), Bishop)) == 1 || Count(OfType(PiecesOf(b, c), Knight)) == 1))
  }

  /** `is_draw_by_material`: never while the side to move is in check. */
  predicate IsDrawByMaterial(o: Magic, b: Board)
  {
    !IsCheck(o, b, b.turn) && Bare(b, White) && Bare(b, Black)
  }

  /** `is_draw`. */
  predicate IsDraw(o: Magic, b: Board)
  {
    b.fifty >= 100 || IsDrawByMaterial(o, b)
  }

  function CoreMoves(ms: seq<G.GenMove>): (r: seq<Move>)
    ensures |r| == |ms|
    ensures forall i :: 0 <= i < |ms| ==> r[i] == G.Core(ms[i])
  {
    seq(|ms|, i requires 0 <= i < |ms| => G.Core(ms[i]))
  }

  /** `pseudolegal_moves`: none in a drawn position, else the generator's list. */
  function PseudoLegalMoves(o: Magic, b: Board): seq<Move>
  {
    if IsDraw(o, b) then [] else CoreMoves(G.PseudoLegal(o, b, b.turn))
  }

  /**
   * The filter of `legal_moves` on one move: a castle is kept unplayed;
   * any other move is played and kept when it does not leave the mover in
   * check. A panic while playing it is the filter's panic.
   */
  function Keeps(o: Magic, b: Board, m: Move): Result<bool, Fault>
  {
    if IsCastleMove(m) then Ok(true)
    else
      match MakeMoveUnchecked(o, b, m)
      case Err(f) => Err(f)
      case Ok(nb) => Ok(!IsCheck(o, nb, b.turn))
  }

  /** The filter over a list, in order, stopping at the first panic. */
  function FilterLegal(o: Magic, b: Board, ms: seq<Move>): Result<seq<Move>, Fault>
  {
    if |ms| == 0 then Ok([])
    else
      match Keeps(o, b, ms[0])
      case Err(f) => Err(f)
      case Ok(keep) =>
        match FilterLegal(o, b, ms[1..])
        case Err(f) => Err(f)
        case Ok(rest) => Ok(if keep then [ms[0]] + rest else rest)
  }

  /** `legal_moves`. */
  function LegalMoves(o: Magic, b: Board): Result<seq<Move>, Fault>
  {
    FilterLegal(o, b, PseudoLegalMoves(o, b))
  }

  // ---------------------------------------------------------------------
  // `from_fen`.

  /**
   * `from_fen`: the fields as read, `plies` counted from the full-move
   * number as the `u16` expression `(fullmoves - 1) * 2 + black`, and the
   * key computed from scratch.
   */
  function FromFen(o: Magic, fen: string): Result<Board, FenBoardError>
  {
    match F.ReadFen(fen)
    case Err(e) => Err(BadFen(e))
    case Ok(info) => FromInfo(o, info)
  }

  /** The board of the fields a FEN has been read into. */
  function FromInfo(o: Magic, info: F.FenInfo): Result<Board, FenBoardError>
  {
    if info.fullmoves == 0 then Err(FenPanic(Underflow))
    else if (info.fullmoves - 1) * 2 > U16_MAX then Err(FenPanic(Overflow))
    else
      var plies := (info.fullmoves - 1) * 2 + (if info.turn == Black then 1 else 0);
      Ok(Keyed(o, Board(info.castlingRights, info.turn, info.halfmoves, info.fullmoves, plies,
                        info.enPassant, info.placement, Empty)))
  }

  /** `create_zobrist_key`: the board with the key computed from scratch. */
  function Keyed(o: Magic, b: Board): (r: Board)
    ensures r == b.(key := r.key)
    ensures r.key == ScratchKey(o, r)
  {
    var r := b.(key := ScratchKey(o, b));
    ScratchKeyIgnoresKey(o, b, r.key);
    r
  }

  /** The key computed from scratch does not read the key stored in the board. */
  lemma ScratchKeyIgnoresKey(o: Magic, b: Board, k: Z.Key)
    ensures ScratchKey(o, b.(key := k)) == ScratchKey(o, b)
  {
    var b' := b.(key := k);
    assert PiecesOf(b', b.turn) == PiecesOf(b, b.turn);
    assert EpKeyOf(o, b') == EpKeyOf(o, b);
  }
}

/**
 * What the operations of `ChessBoard` promise: the counters, the legality
 * check, the draw rules, the castling rights, the e.p. square and the
 * geometry of castling.
 */
module ChessBoardFacts {
  import opened Base
  import opened Colors
  import opened PieceTypes
  import opened BitBoards
  import opened PieceSets
  import Castling
  import Z = Zobrist
  import F = Fen
  import opened Moves
  import opened BoardState
  import G = MoveGen
  import opened ChessBoard
  import opened Text

  /** The ply counter agrees with the move number and the side to move. */
  predicate PliesAgree(b: Board)
  {
    b.fullTurns >= 1 && b.plies == 2 * (b.fullTurns - 1) + (if b.turn == Black then 1 else 0)
  }

  /**
   * `from_fen` fails with the reader's error, panics on a full-move number
   * of 0 (and past 32768, where the doubling leaves `u16`), and otherwise
   * builds the board the six fields describe: its men are the placement
   * the first field draws, its turn, castling rights, e.p. square and
   * counters are the ones the other fields give, its plies agree with the
   * move number and its key is the one computed from scratch.
   */
  lemma FromFenMeaning(o: Magic, fen: string)
    ensures F.ReadFen(fen).Err? ==> FromFen(o, fen) == Err(BadFen(F.ReadFen(fen).error))
    ensures FromFen(o, fen).Ok? <==> F.ReadFen(fen).Ok? && 1 <= F.ReadFen(fen).value.fullmoves <= 32768
    ensures FromFen(o, fen).Ok? ==>
      FieldsDescribe(SplitWhitespace(fen), FromFen(o, fen).value)
      && PliesAgree(FromFen(o, fen).value)
      && FromFen(o, fen).value.key == ScratchKey(o, FromFen(o, fen).value)
  {
    if F.ReadFen(fen).Ok? {
      var info := F.ReadFen(fen).value;
      FromInfoMeaning(o, info);
      if FromFen(o, fen).Ok? {
        BuiltFromFields(fen, info, FromFen(o, fen).value);
      }
    }
  }

  /** The six FEN fields describe a board: each reads as the part of it it sets. */
  predicate FieldsDescribe(words: seq<string>, nb: Board)
  {
    |words| == 6
    && F.BoardTextOk(words[0]) && F.Shows(nb.men, F.GridOf(Split(words[0], '/')))
    && words[1] == F.TurnText(nb.turn)
    && F.LoadCastling(words[2], Castling.NoRights()) == Ok(nb.castling)
    && F.EnPassantOf(words[3]) == Ok(nb.ep)
    && ParseU16(words[4]) == Some(nb.fifty)
    && ParseU16(words[5]) == Some(nb.fullTurns)
  }

  lemma BuiltFromFields(fen: string, info: F.FenInfo, nb: Board)
    requires F.ReadFen(fen) == Ok(info)
    requires nb.turn == info.turn && nb.castling == info.castlingRights && nb.ep == info.enPassant
    requires nb.fifty == info.halfmoves && nb.fullTurns == info.fullmoves && nb.men == info.placement
    ensures FieldsDescribe(SplitWhitespace(fen), nb)
  {
    F.ReadFenFields(fen);
    F.LoadBoardMeaning(SplitWhitespace(fen)[0]);
  }

  lemma FromInfoMeaning(o: Magic, info: F.FenInfo)
    ensures var r := FromInfo(o, info);
      (info.fullmoves == 0 ==> r == Err(FenPanic(Underflow)))
      && (r.Ok? <==> 1 <= info.fullmoves <= 32768)
      && (r.Ok? ==>
            var nb := r.value;
            nb.turn == info.turn && nb.castling == info.castlingRights && nb.ep == info.enPassant
            && nb.fifty == info.halfmoves && nb.fullTurns == info.fullmoves && nb.men == info.placement
            && PliesAgree(nb) && nb.plies % 2 == (if nb.turn == Black then 1 else 0)
            && nb.plies / 2 + 1 == nb.fullTurns
            && nb.key == ScratchKey(o, nb))
  {
    if 1 <= info.fullmoves <= 32768 {
      PliesArithmetic(FromInfo(o, info).value.plies, info.fullmoves, info.turn == Black);
    }
  }

  lemma PliesArithmetic(p: nat, full: nat, black: bool)
    requires full >= 1 && p == (full - 1) * 2 + (if black then 1 else 0)
    ensures p % 2 == (if black then 1 else 0) && p / 2 + 1 == full
  {
  }


  /**
   * A move played hands the turn over, advances the ply counter by one and
   * the move number by one exactly when Black moved, so the ply counter
   * keeps agreeing with the move number.
   */
  lemma CountersAdvance(o: Magic, b: Board, m: Move)
    requires MakeMoveUnchecked(o, b, m).Ok?
    ensures var nb := MakeMoveUnchecked(o, b, m).value;
      nb.turn == Opposite(b.turn) && nb.plies == b.plies + 1
      && nb.fullTurns == b.fullTurns + (if b.turn == Black then 1 else 0)
      && (PliesAgree(b) ==> PliesAgree(nb))
  {
  }

  /** With the check, a move is refused exactly when it is not legal; a legal move is played as without it. */
  lemma MakeMoveChecked(o: Magic, b: Board, m: Move)
    ensures LegalMoves(o, b).Ok? ==> (MakeMove(o, b, m, true) == Err(Illegal) <==> m !in LegalMoves(o, b).value)
    ensures LegalMoves(o, b).Ok? && m in LegalMoves(o, b).value ==> MakeMove(o, b, m, true) == MakeMove(o, b, m, false)
    ensures LegalMoves(o, b).Err? ==> MakeMove(o, b, m, true) == Err(Panic(LegalMoves(o, b).error))
    ensures MakeMove(o, b, m, false) != Err(Illegal)
  {
  }

  /**
   * The filter succeeds exactly when every move of the list can be tested
   * without a panic, and then keeps exactly the moves it accepts.
   */
  lemma {:induction false} FilterLegalMeaning(o: Magic, b: Board, ms: seq<Move>)
    ensures FilterLegal(o, b, ms).Ok? <==> forall i :: 0 <= i < |ms| ==> Keeps(o, b, ms[i]).Ok?
    ensures FilterLegal(o, b, ms).Ok? ==>
      forall m :: m in FilterLegal(o, b, ms).value <==> m in ms && Keeps(o, b, m) == Ok(true)
    decreases |ms|
  {
    if |ms| > 0 {
      FilterLegalMeaning(o, b, ms[1..]);
      assert forall i :: 1 <= i < |ms| ==> ms[i] == ms[1..][i - 1];
      assert forall m :: m in ms <==> m == ms[0] || m in ms[1..];
    }
  }

  /**
   * A legal move is a pseudo-legal move that is a castle or, played, does
   * not leave the mover's king attacked.
   */
  lemma LegalMovesMeaning(o: Magic, b: Board, m: Move)
    requires LegalMoves(o, b).Ok?
    ensures m in LegalMoves(o, b).value <==>
      m in PseudoLegalMoves(o, b)
      && (IsCastleMove(m)
          || (MakeMoveUnchecked(o, b, m).Ok? && !IsCheck(o, MakeMoveUnchecked(o, b, m).value, b.turn)))
  {
    FilterLegalMeaning(o, b, PseudoLegalMoves(o, b));
    if m in PseudoLegalMoves(o, b) && !IsCastleMove(m) {
      var i :| 0 <= i < |PseudoLegalMoves(o, b)| && PseudoLegalMoves(o, b)[i] == m;
      assert Keeps(o, b, m).Ok?;
    }
  }

  /**
   * A drawn position (fifty moves without a capture or pawn move, or bare
   * kings with at most one minor piece each) has no moves; otherwise the
   * moves are the generator's. The material draw never holds in check.
   */
  lemma PseudoLegalMovesMeaning(o: Magic, b: Board, m: Move)
    ensures IsDraw(o, b) ==> PseudoLegalMoves(o, b) == [] && LegalMoves(o, b) == Ok([])
    ensures b.fifty >= 100 ==> PseudoLegalMoves(o, b) == []
    ensures IsDrawByMaterial(o, b) ==> !IsCheck(o, b, b.turn)
    ensures m in PseudoLegalMoves(o, b) <==>
      !IsDraw(o, b) && exists g :: g in G.PseudoLegal(o, b, b.turn) && G.Core(g) == m
  {
    if !IsDraw(o, b) && exists g :: g in G.PseudoLegal(o, b, b.turn) && G.Core(g) == m {
      var g :| g in G.PseudoLegal(o, b, b.turn) && G.Core(g) == m;
      var i :| 0 <= i < |G.PseudoLegal(o, b, b.turn)| && G.PseudoLegal(o, b, b.turn)[i] == g;
      assert PseudoLegalMoves(o, b)[i] == m;
    }
  }

  /**
   * Castling rights after a move: the enemy loses the right of a rook's
   * home square the move arrives on, the mover loses both rights when its
   * king stands on the destination and otherwise the right of a rook's
   * home square the move leaves. No right is ever gained.
   */
  lemma UpdateCastlingRightsMeaning(r: Castling.Rights, c: Color, from: Sq, to: Sq, onTo: Option<PieceType>)
    ensures var r' := UpdateCastlingRights(r, c, from, to, onTo);
      var d := Opposite(c);
      (Castling.CanCastleQueenside(r', d) <==> Castling.CanCastleQueenside(r, d) && to != RookHomes(d).0)
      && (Castling.CanCastleKingside(r', d) <==> Castling.CanCastleKingside(r, d) && to != RookHomes(d).1)
      && (onTo == Some(King) ==> !Castling.CanCastleQueenside(r', c) && !Castling.CanCastleKingside(r', c))
      && (onTo != Some(King) ==>
            (Castling.CanCastleQueenside(r', c) <==> Castling.CanCastleQueenside(r, c) && from != RookHomes(c).0)
            && (Castling.CanCastleKingside(r', c) <==> Castling.CanCastleKingside(r, c) && from != RookHomes(c).1))
  {
    EnemyRightsAfterMeaning(r, c, to);
    OwnRightsAfterMeaning(EnemyRightsAfter(r, c, to), c, from, onTo);
  }

  lemma EnemyRightsAfterMeaning(r: Castling.Rights, c: Color, to: Sq)
    ensures var r' := EnemyRightsAfter(r, c, to);
      var d := Opposite(c);
      (Castling.CanCastleQueenside(r', d) <==> Castling.CanCastleQueenside(r, d) && to != RookHomes(d).0)
      && (Castling.CanCastleKingside(r', d) <==> Castling.CanCastleKingside(r, d) && to != RookHomes(d).1)
      && (Castling.CanCastleQueenside(r', c) <==> Castling.CanCastleQueenside(r, c))
      && (Castling.CanCastleKingside(r', c) <==> Castling.CanCastleKingside(r, c))
  {
  }

  lemma OwnRightsAfterMeaning(r: Castling.Rights, c: Color, from: Sq, onTo: Option<PieceType>)
    ensures var r' := OwnRightsAfter(r, c, from, onTo);
      var d := Opposite(c);
      (Castling.CanCastleQueenside(r', d) <==> Castling.CanCastleQueenside(r, d))
      && (Castling.CanCastleKingside(r', d) <==> Castling.CanCastleKingside(r, d))
      && (onTo == Some(King) ==> !Castling.CanCastleQueenside(r', c) && !Castling.CanCastleKingside(r', c))
      && (onTo != Some(King) ==>
            (Castling.CanCastleQueenside(r', c) <==> Castling.CanCastleQueenside(r, c) && from != RookHomes(c).0)
            && (Castling.CanCastleKingside(r', c) <==> Castling.CanCastleKingside(r, c) && from != RookHomes(c).1))
  {
  }

  /** A two-square pawn advance, the move after which an e.p. square is set. */
  predicate DoublePush(b: Board, m: Move)
  {
    m.Normal? && b.men.pieceOn[m.to] == Some(Pawn)
    && (if b.turn == White then m.to == m.from + 16 else m.from == m.to + 16)
  }

  /** The square a double push passes over. */
  function PassedSquare(b: Board, m: Move): (s: Sq)
    requires DoublePush(b, m)
    ensures 2 * s == m.from + m.to
  {
    if b.turn == White then m.from + 8 else m.from - 8
  }

  /**
   * After a double push the e.p. square is the square passed over, and
   * after any other move there is none, the key then unchanged. A pawn
   * seen going backwards is the `u8` underflow of the source's test.
   */
  lemma UpdateEnPassantMeaning(o: Magic, b: Board, m: Move)
    ensures var r := UpdateEnPassant(o, b, m);
      (r.Err? <==> m.Normal? && b.men.pieceOn[m.to] == Some(Pawn)
                   && (if b.turn == White then m.to < m.from else m.from < m.to))
      && (r.Ok? ==> r.value.ep == (if DoublePush(b, m) then FromSquare(PassedSquare(b, m)) else Empty))
      && (r.Ok? && !DoublePush(b, m) ==> r.value.key == b.key)
  {
  }

  /**
   * The squares of a castle against the generator's masks: the path that
   * must be empty is exactly the squares between king and rook, and the
   * squares that must not be attacked are exactly the king's start, the
   * square it crosses (where the rook lands) and its destination.
   */
  lemma CastleLayoutMeaning(c: Color, short: bool)
    ensures var sq := CastleLayout(c, short);
      (forall s: Sq :: G.CastlePath(c, short)[s] <==>
         (sq.rookFrom < s < sq.kingFrom || sq.kingFrom < s < sq.rookFrom))
      && (forall s: Sq :: G.CastleChecks(c, short)[s] <==> s == sq.kingFrom || s == sq.rookTo || s == sq.kingTo)
      && (if short then sq.kingTo + 2 == sq.kingFrom else sq.kingTo == sq.kingFrom + 2)
      && 2 * sq.rookTo == sq.kingFrom + sq.kingTo
      && sq.kingFrom / 8 == sq.kingTo / 8 == sq.rookFrom / 8 == sq.rookTo / 8 == (if c == White then 0 else 7)
  {
  }
}
