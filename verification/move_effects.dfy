/**
 * What `move_piece` and `castle` of `chess_board.rs` do to the record of
 * the kind on each square, the fifty-move counter and the castling rights,
 * and when they panic.
 */
module MoveEffects {
  import opened Base
  import opened Colors
  import opened PieceTypes
  import opened BitBoards
  import Castling
  import opened Moves
  import opened BoardState
  import G = MoveGen
  import opened ChessBoard
  import opened ChessBoardFacts

  /** The kind a move leaves on its destination: the promoted piece or the mover. */
  function Landing(m: Move, piece: PieceType): PieceType
    requires m.Normal? || m.PawnPromotion?
  {
    if m.PawnPromotion? then m.promoteTo else piece
  }

  /** A pawn moving onto the e.p. square: the capture of the pawn behind it. */
  predicate TakesEnPassant(b: Board, m: Move)
    requires m.Normal? || m.PawnPromotion?
  {
    b.men.pieceOn[m.from] == Some(Pawn) && FromSquare(m.to) == b.ep
  }

  /**
   * `move_piece` panics exactly when there is no man on `from`, when the
   * e.p. victim's square is off the board, when the enemy's board shows a
   * man on `to` that the record of kinds does not, or when the fifty-move
   * counter would pass `u16::MAX`.
   */
  lemma MovePieceFails(o: Magic, b: Board, m: Move, aux: BitBoard)
    requires m.Normal? || m.PawnPromotion?
    ensures MovePiece(o, b, m, aux).Err? <==>
      b.men.pieceOn[m.from].None?
      || (TakesEnPassant(b, m) && EpVictim(b.turn, m.to).Err?)
      || (!TakesEnPassant(b, m) && aux[m.to] && b.men.pieceOn[m.to].None?)
      || (b.men.pieceOn[m.from].Some? && b.men.pieceOn[m.from] != Some(Pawn) && !aux[m.to] && b.fifty + 1 > U16_MAX)
  {
  }

  /**
   * After `move_piece` between two squares the destination records the
   * landing kind and the origin nothing; only the e.p. victim's square
   * changes besides. The fifty-move counter restarts on a pawn move or a
   * capture and otherwise advances.
   */
  lemma MovePieceEffects(o: Magic, b: Board, m: Move, aux: BitBoard)
    requires m.Normal? || m.PawnPromotion?
    requires m.from != m.to
    requires MovePiece(o, b, m, aux).Ok?
    ensures var r := MovePiece(o, b, m, aux).value;
      var piece := b.men.pieceOn[m.from].value;
      r.men.pieceOn[m.to] == Some(Landing(m, piece))
      && r.men.pieceOn[m.from].None?
      && (forall s: Sq :: s != m.from && s != m.to
            && !(TakesEnPassant(b, m) && s == EpVictim(b.turn, m.to).value)
            ==> r.men.pieceOn[s] == b.men.pieceOn[s])
      && r.fifty == (if piece == Pawn || aux[m.to] then 0 else b.fifty + 1)
  {
  }

  /** Played without its king at home, a castle panics at the king's `unwrap`. */
  lemma CastleWithoutKingFails(o: Magic, b: Board, short: bool)
    requires b.men.pieceOn[CastleLayout(b.turn, short).kingFrom].None?
    ensures MakeMoveUnchecked(o, b, if short then ShortCastle else LongCastle) == Err(MissingPiece)
  {
    var b0 := DropEpKey(o, b);
    var sq := CastleLayout(b.turn, short);
    assert MovePiece(o, b0, Normal(sq.kingFrom, sq.kingTo), ColorBoard(b, Opposite(b.turn))) == Err(MissingPiece);
    assert Castle(o, b0, short, ColorBoard(b, Opposite(b.turn))) == Err(MissingPiece);
  }

  /** A castle the generator allows is the core of a generated move. */
  lemma CastleIsListed(o: Magic, b: Board, short: bool)
    requires G.CastleAllowed(o, b, b.turn, short)
    ensures var m := if short then ShortCastle else LongCastle;
      exists g :: g in G.PseudoLegal(o, b, b.turn) && G.Core(g) == m
  {
    G.CastleListed(o, b, b.turn);
    if short {
      assert G.Core(G.ShortCastle) == ShortCastle;
    } else {
      assert G.Core(G.LongCastle) == LongCastle;
    }
  }

  /**
   * A castle right whose king is not at home: the generator still lists
   * the castle when its path is empty and unattacked, the legality filter
   * keeps it, and playing it panics.
   */
  lemma CastleWithoutKingPanics(o: Magic, b: Board, short: bool)
    requires G.CastleAllowed(o, b, b.turn, short)
    requires b.men.pieceOn[CastleLayout(b.turn, short).kingFrom].None?
    requires !IsDraw(o, b) && LegalMoves(o, b).Ok?
    ensures var m := if short then ShortCastle else LongCastle;
      m in LegalMoves(o, b).value && MakeMove(o, b, m, true) == Err(Panic(MissingPiece))
  {
    var m := if short then ShortCastle else LongCastle;
    CastleIsListed(o, b, short);
    PseudoLegalMovesMeaning(o, b, m);
    LegalMovesMeaning(o, b, m);
    CastleWithoutKingFails(o, b, short);
  }

  /** The king's half of a castle, on a landing square no enemy holds. */
  lemma KingHalf(o: Magic, b: Board, short: bool, aux: BitBoard)
    requires var sq := CastleLayout(b.turn, short);
      b.men.pieceOn[sq.kingFrom] == Some(King) && !aux[sq.kingTo]
    requires b.fifty + 1 <= U16_MAX
    ensures var sq := CastleLayout(b.turn, short);
      var r := MovePiece(o, b, Normal(sq.kingFrom, sq.kingTo), aux);
      r.Ok?
      && r.value.men.pieceOn == b.men.pieceOn[sq.kingFrom := None][sq.kingTo := Some(King)]
      && r.value.fifty == b.fifty + 1
      && !Castling.CanCastleKingside(r.value.castling, b.turn)
      && !Castling.CanCastleQueenside(r.value.castling, b.turn)
      && (Castling.CanCastleKingside(r.value.castling, Opposite(b.turn))
          <==> Castling.CanCastleKingside(b.castling, Opposite(b.turn)))
      && (Castling.CanCastleQueenside(r.value.castling, Opposite(b.turn))
          <==> Castling.CanCastleQueenside(b.castling, Opposite(b.turn)))
  {
    var sq := CastleLayout(b.turn, short);
    var m := Normal(sq.kingFrom, sq.kingTo);
    MovePieceFails(o, b, m, aux);
    MovePieceEffects(o, b, m, aux);
    var r := MovePiece(o, b, m, aux).value;
    assert r.men.pieceOn == b.men.pieceOn[sq.kingFrom := None][sq.kingTo := Some(King)];
    UpdateCastlingRightsMeaning(b.castling, b.turn, sq.kingFrom, sq.kingTo, Some(King));
  }

  /** The rook's half of a castle, after the king's. */
  lemma RookHalf(o: Magic, b: Board, short: bool, aux: BitBoard)
    requires var sq := CastleLayout(b.turn, short);
      b.men.pieceOn[sq.rookFrom] == Some(Rook) && !aux[sq.rookTo]
    requires !Castling.CanCastleKingside(b.castling, b.turn) && !Castling.CanCastleQueenside(b.castling, b.turn)
    requires b.fifty + 1 <= U16_MAX
    ensures var sq := CastleLayout(b.turn, short);
      var r := MovePiece(o, b, Normal(sq.rookFrom, sq.rookTo), aux);
      r.Ok?
      && r.value.men.pieceOn == b.men.pieceOn[sq.rookFrom := None][sq.rookTo := Some(Rook)]
      && r.value.fifty == b.fifty + 1
      && !Castling.CanCastleKingside(r.value.castling, b.turn)
      && !Castling.CanCastleQueenside(r.value.castling, b.turn)
      && (Castling.CanCastleKingside(r.value.castling, Opposite(b.turn))
          <==> Castling.CanCastleKingside(b.castling, Opposite(b.turn)))
      && (Castling.CanCastleQueenside(r.value.castling, Opposite(b.turn))
          <==> Castling.CanCastleQueenside(b.castling, Opposite(b.turn)))
  {
    var sq := CastleLayout(b.turn, short);
    var m := Normal(sq.rookFrom, sq.rookTo);
    MovePieceFails(o, b, m, aux);
    MovePieceEffects(o, b, m, aux);
    var r := MovePiece(o, b, m, aux).value;
    assert r.men.pieceOn == b.men.pieceOn[sq.rookFrom := None][sq.rookTo := Some(Rook)];
    UpdateCastlingRightsMeaning(b.castling, b.turn, sq.rookFrom, sq.rookTo, Some(Rook));
  }

  /**
   * With its king and rook at home and their landing squares free of the
   * enemy, a castle is played without panic: king and rook stand on their
   * new squares, the fifty-move counter has advanced by one, and the
   * mover has lost both rights while the enemy's stay.
   */
  lemma CastleEffects(o: Magic, b: Board, short: bool, aux: BitBoard)
    requires var sq := CastleLayout(b.turn, short);
      b.men.pieceOn[sq.kingFrom] == Some(King) && b.men.pieceOn[sq.rookFrom] == Some(Rook)
      && !aux[sq.kingTo] && !aux[sq.rookTo]
    requires b.fifty + 2 <= U16_MAX
    ensures var sq := CastleLayout(b.turn, short);
      var m := if short then ShortCastle else LongCastle;
      var r := Played(o, b, m, aux);
      r.Ok?
      && r.value.men.pieceOn == b.men.pieceOn[sq.kingFrom := None][sq.kingTo := Some(King)]
                                             [sq.rookFrom := None][sq.rookTo := Some(Rook)]
      && r.value.fifty == b.fifty + 1
      && !Castling.CanCastleKingside(r.value.castling, b.turn)
      && !Castling.CanCastleQueenside(r.value.castling, b.turn)
      && (Castling.CanCastleKingside(r.value.castling, Opposite(b.turn))
          <==> Castling.CanCastleKingside(b.castling, Opposite(b.turn)))
      && (Castling.CanCastleQueenside(r.value.castling, Opposite(b.turn))
          <==> Castling.CanCastleQueenside(b.castling, Opposite(b.turn)))
  {
    var sq := CastleLayout(b.turn, short);
    CastleLayoutMeaning(b.turn, short);
    KingHalf(o, b, short, aux);
    var b1 := MovePiece(o, b, Normal(sq.kingFrom, sq.kingTo), aux).value;
    RookHalf(o, b1, short, aux);
  }
}
