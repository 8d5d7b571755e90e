/**
 * The Zobrist key `make_move` keeps up to date step by step, against the
 * key `create_zobrist_key` computes from scratch: on a board whose key is
 * right and whose two records of the men agree, every well-formed move
 * leaves a board whose key is right (the property `test_zobrist.rs` checks
 * on sample games).
 *
 * Between dropping the old e.p. value and adding the new one, `make_move`
 * keeps the key of the men, the castling rights and the side to move
 * (`MidKey`); each step below keeps that invariant.
 */
module BoardKeys {
  import opened Base
  import opened Colors
  import opened PieceTypes
  import opened BitBoards
  import opened PieceSets
  import Z = Zobrist
  import F = Fen
  import opened Moves
  import opened BoardState
  import G = MoveGen
  import opened ChessBoard
  import opened ChessBoardFacts

  // ---------------------------------------------------------------------
  // Key algebra.

  /** A key without its e.p. part. */
  function Mid(men: Z.Key, castling: Z.Key, turn: Z.Key): Z.Key
  {
    Xor(Xor(men, castling), turn)
  }

  function MidKey(o: Magic, b: Board): Z.Key
  {
    Mid(MenKey(o.keys, b.men), Z.CastlingKey(o.keys, b.castling), TurnKey(o, b.turn))
  }

  lemma AddToMen(m: Z.Key, c: Z.Key, t: Z.Key, p: Z.Key)
    ensures Xor(Mid(m, c, t), p) == Mid(Xor(m, p), c, t)
  {
    assert forall s: Sq :: Xor(Mid(m, c, t), p)[s] == Mid(Xor(m, p), c, t)[s];
  }

  lemma SwapCastling(m: Z.Key, c: Z.Key, c': Z.Key, t: Z.Key)
    ensures Xor(Xor(Mid(m, c, t), c), c') == Mid(m, c', t)
  {
    assert forall s: Sq :: Xor(Xor(Mid(m, c, t), c), c')[s] == Mid(m, c', t)[s];
  }

  lemma DropPart(m: Z.Key, c: Z.Key, e: Z.Key, t: Z.Key)
    ensures Xor(Xor(Xor(Xor(m, c), e), t), e) == Mid(m, c, t)
  {
    assert forall s: Sq :: Xor(Xor(Xor(Xor(m, c), e), t), e)[s] == Mid(m, c, t)[s];
  }

  lemma FinishPart(m: Z.Key, c: Z.Key, e: Z.Key, t: Z.Key, w: Z.Key)
    ensures Xor(Xor(Mid(m, c, t), e), w) == Xor(Xor(Xor(m, c), e), Xor(t, w))
  {
    assert forall s: Sq :: Xor(Xor(Mid(m, c, t), e), w)[s] == Xor(Xor(Xor(m, c), e), Xor(t, w))[s];
  }

  /** Handing the turn over changes the turn's part by the White-to-move value. */
  lemma TurnKeyFlip(o: Magic, c: Color)
    ensures TurnKey(o, Opposite(c)) == Xor(TurnKey(o, c), Z.WhiteTurnKey(o.keys))
  {
    XorCancel(Z.WhiteTurnKey(o.keys), Z.WhiteTurnKey(o.keys));
    assert forall s: Sq :: Xor(Z.WhiteTurnKey(o.keys), Z.WhiteTurnKey(o.keys))[s] == Empty[s];
  }

  // ---------------------------------------------------------------------
  // The men's key under the edits of `move_piece`.

  /** Side `c` has a man of kind `q` on `s` and no man of another kind there. */
  predicate HoldsExactly(pl: F.Placement, c: Color, q: PieceType, s: Sq)
  {
    OfType(F.Side(pl, c), q)[s] && forall k :: k != q ==> !OfType(F.Side(pl, c), k)[s]
  }

  /** Recording a kind on a square does not change the men's key. */
  lemma SetKindKey(v: Z.Values, pl: F.Placement, s: Sq, k: Option<PieceType>)
    ensures MenKey(v, SetKind(pl, s, k)) == MenKey(v, pl)
  {
    assert SetKind(pl, s, k).white == pl.white && SetKind(pl, s, k).black == pl.black;
  }

  /** Masking a square off a side that holds exactly one man there toggles that man's bit. */
  lemma ClearIsFlip(pl: F.Placement, c: Color, q: PieceType, s: Sq)
    requires HoldsExactly(pl, c, q, s)
    ensures ClearSquare(pl, c, s) == Flip(pl, c, q, s)
  {
    var ps := F.Side(pl, c);
    var cleared := ApplyMask(ps, Not(FromSquare(s)));
    var flipped := FlipKind(ps, q, s);
    forall k ensures OfType(cleared, k) == OfType(flipped, k) {
      assert forall t: Sq :: OfType(cleared, k)[t] == OfType(flipped, k)[t];
    }
    KindsDetermine(cleared, flipped);
  }

  /** Toggling `from | to` with two different squares is two single toggles. */
  lemma MoveBitsIsFlips(pl: F.Placement, c: Color, p: PieceType, from: Sq, to: Sq)
    requires from != to
    ensures MoveBits(pl, c, p, from, to) == Flip(Flip(pl, c, p, from), c, p, to)
  {
    var ps := F.Side(pl, c);
    var moved := WithType(ps, p, Xor(OfType(ps, p), Or(FromSquare(from), FromSquare(to))));
    var twice := FlipKind(FlipKind(ps, p, from), p, to);
    forall k ensures OfType(moved, k) == OfType(twice, k) {
      assert forall t: Sq :: OfType(moved, k)[t] == OfType(twice, k)[t];
    }
    KindsDetermine(moved, twice);
  }

  /** Taking the victim off changes the key by the victim's value, as it changes the men. */
  lemma CaptureTracks(o: Magic, b: Board, m: Move, piece: PieceType, aux: BitBoard)
    requires m.Normal? || m.PawnPromotion?
    requires aux[m.to] && b.men.pieceOn[m.to].Some? ==>
      HoldsExactly(b.men, Opposite(b.turn), b.men.pieceOn[m.to].value, m.to)
    requires b.key == MidKey(o, b)
    requires RemoveVictim(o, b, m, piece, aux).Ok?
    ensures var cap := RemoveVictim(o, b, m, piece, aux).value;
      cap.key == Mid(MenKey(o.keys, cap.men), Z.CastlingKey(o.keys, b.castling), TurnKey(o, b.turn))
  {
    var enemy := Opposite(b.turn);
    var c, t := Z.CastlingKey(o.keys, b.castling), TurnKey(o, b.turn);
    if piece == Pawn && FromSquare(m.to) == b.ep {
      var v := EpVictim(b.turn, m.to).value;
      SetKindKey(o.keys, Flip(b.men, enemy, Pawn, v), v, None);
      FlipKey(o.keys, b.men, enemy, Pawn, v);
      AddToMen(MenKey(o.keys, b.men), c, t, Z.PieceKey(o.keys, Pawn, enemy, v));
    } else if aux[m.to] {
      var q := b.men.pieceOn[m.to].value;
      ClearIsFlip(b.men, enemy, q, m.to);
      FlipKey(o.keys, b.men, enemy, q, m.to);
      AddToMen(MenKey(o.keys, b.men), c, t, Z.PieceKey(o.keys, q, enemy, m.to));
    }
  }

  /** Moving the man changes the key by its values on both squares, as it changes the men. */
  lemma PlaceTracks(o: Magic, men: F.Placement, key: Z.Key, col: Color, m: Move, piece: PieceType, c: Z.Key, t: Z.Key)
    requires m.Normal? || m.PawnPromotion?
    requires m.from != m.to
    requires m.PawnPromotion? ==> piece == Pawn
    requires key == Mid(MenKey(o.keys, men), c, t)
    ensures var (men', key') := PlaceMover(o, men, key, col, m, piece);
      key' == Mid(MenKey(o.keys, men'), c, t)
  {
    var v := o.keys;
    var men1 := SetKind(men, m.from, None);
    SetKindKey(v, men, m.from, None);
    var pf := Z.PieceKey(v, piece, col, m.from);
    var p2 := if m.PawnPromotion? then m.promoteTo else piece;
    var pt := Z.PieceKey(v, p2, col, m.to);
    var flipped := Flip(Flip(men1, col, piece, m.from), col, p2, m.to);
    FlipKey(v, men1, col, piece, m.from);
    FlipKey(v, Flip(men1, col, piece, m.from), col, p2, m.to);
    SetKindKey(v, flipped, m.to, Some(p2));
    if m.Normal? {
      MoveBitsIsFlips(men1, col, piece, m.from, m.to);
    }
    AddToMen(MenKey(v, men), c, t, pf);
    AddToMen(Xor(MenKey(v, men), pf), c, t, pt);
  }

  /**
   * `move_piece` keeps the key in step with the men and the castling
   * rights, for a move between two squares whose victim, if the enemy's
   * board shows one, is a single man of the kind recorded there.
   */
  lemma MovePieceTracks(o: Magic, b: Board, m: Move, aux: BitBoard)
    requires m.Normal? || m.PawnPromotion?
    requires m.from != m.to
    requires m.PawnPromotion? ==> b.men.pieceOn[m.from] == Some(Pawn)
    requires aux[m.to] && b.men.pieceOn[m.to].Some? ==>
      HoldsExactly(b.men, Opposite(b.turn), b.men.pieceOn[m.to].value, m.to)
    requires b.key == MidKey(o, b)
    requires MovePiece(o, b, m, aux).Ok?
    ensures MovePiece(o, b, m, aux).value.key == MidKey(o, MovePiece(o, b, m, aux).value)
  {
    var piece := b.men.pieceOn[m.from].value;
    var cap := RemoveVictim(o, b, m, piece, aux).value;
    var c, t := Z.CastlingKey(o.keys, b.castling), TurnKey(o, b.turn);
    CaptureTracks(o, b, m, piece, aux);
    PlaceTracks(o, cap.men, cap.key, b.turn, m, piece, c, t);
    var (men, key) := PlaceMover(o, cap.men, cap.key, b.turn, m, piece);
    var nb := MovePiece(o, b, m, aux).value;
    SwapCastling(MenKey(o.keys, men), c, Z.CastlingKey(o.keys, nb.castling), t);
  }

  // ---------------------------------------------------------------------
  // The other steps of `make_move`.

  /** Dropping the e.p. value of a right key leaves the key without its e.p. part. */
  lemma DropEpKeyTracks(o: Magic, b: Board)
    requires b.key == ScratchKey(o, b)
    ensures DropEpKey(o, b).key == MidKey(o, DropEpKey(o, b))
  {
    var m, c, t := MenKey(o.keys, b.men), Z.CastlingKey(o.keys, b.castling), TurnKey(o, b.turn);
    if EpFlag(o, b, b.turn) {
      DropPart(m, c, EpKeyOf(o, b), t);
    } else {
      XorCancel(Empty, Xor(m, c));
    }
  }

  /** A castle whose king and rook land on squares the enemy does not hold keeps the key in step. */
  lemma CastleTracks(o: Magic, b: Board, short: bool, aux: BitBoard)
    requires !aux[CastleLayout(b.turn, short).kingTo] && !aux[CastleLayout(b.turn, short).rookTo]
    requires b.key == MidKey(o, b)
    requires Castle(o, b, short, aux).Ok?
    ensures Castle(o, b, short, aux).value.key == MidKey(o, Castle(o, b, short, aux).value)
  {
    var sq := CastleLayout(b.turn, short);
    MovePieceTracks(o, b, Normal(sq.kingFrom, sq.kingTo), aux);
    var b1 := MovePiece(o, b, Normal(sq.kingFrom, sq.kingTo), aux).value;
    MovePieceTracks(o, b1, Normal(sq.rookFrom, sq.rookTo), aux);
  }

  /**
   * What `make_move` relies on to keep its key right: a castle's king and
   * rook land on squares the enemy does not hold; any other move joins two
   * different squares, a promotion moves a pawn, and a victim the enemy's
   * board shows is one man of the kind recorded there.
   */
  predicate WellShaped(b: Board, m: Move, aux: BitBoard)
  {
    if IsCastleMove(m) then
      var sq := CastleLayout(b.turn, m.ShortCastle?);
      !aux[sq.kingTo] && !aux[sq.rookTo]
    else
      m.from != m.to
      && (m.PawnPromotion? ==> b.men.pieceOn[m.from] == Some(Pawn))
      && (aux[m.to] && b.men.pieceOn[m.to].Some? ==>
            HoldsExactly(b.men, Opposite(b.turn), b.men.pieceOn[m.to].value, m.to))
  }

  lemma PlayedTracks(o: Magic, b: Board, m: Move, aux: BitBoard)
    requires WellShaped(b, m, aux)
    requires b.key == MidKey(o, b)
    requires Played(o, b, m, aux).Ok?
    ensures Played(o, b, m, aux).value.key == MidKey(o, Played(o, b, m, aux).value)
  {
    if IsCastleMove(m) {
      CastleTracks(o, b, m.ShortCastle?, aux);
    } else {
      MovePieceTracks(o, b, m, aux);
    }
  }

  lemma FirstOfSquare(s: Sq)
    ensures !IsEmpty(FromSquare(s)) && FirstPieceIndex(FromSquare(s)) == s
  {
    assert FromSquare(s)[s];
  }

  /** `update_en_passant` adds exactly the e.p. part the side to move next will see. */
  lemma EpAdded(o: Magic, b: Board, m: Move)
    requires UpdateEnPassant(o, b, m).Ok?
    ensures var b2 := UpdateEnPassant(o, b, m).value;
      b2.key == Xor(b.key, EpKeyOf(o, b2.(turn := Opposite(b.turn))))
  {
    var b2 := UpdateEnPassant(o, b, m).value;
    var nb := b2.(turn := Opposite(b.turn));
    if b2.ep == Empty {
      assert !EpFlag(o, nb, nb.turn);
      XorCancel(Empty, b.key);
    } else {
      var s := if b.turn == White then m.from + 8 else m.from - 8;
      FirstOfSquare(s);
      assert b2 == SetEp(o, b.(ep := Empty), s, Opposite(b.turn));
      if !EpFlag(o, nb, nb.turn) {
        XorCancel(Empty, b.key);
      }
    }
  }

  /** Setting the e.p. square and handing the turn over complete a right key. */
  lemma FinishTracks(o: Magic, b: Board, m: Move)
    requires b.key == MidKey(o, b)
    requires UpdateEnPassant(o, b, m).Ok? && HandOver(o, UpdateEnPassant(o, b, m).value).Ok?
    ensures var nb := HandOver(o, UpdateEnPassant(o, b, m).value).value;
      nb.key == ScratchKey(o, nb)
  {
    var b2 := UpdateEnPassant(o, b, m).value;
    var nb := HandOver(o, b2).value;
    EpAdded(o, b, m);
    assert EpKeyOf(o, nb) == EpKeyOf(o, b2.(turn := Opposite(b.turn)));
    TurnKeyFlip(o, b.turn);
    FinishPart(MenKey(o.keys, b.men), Z.CastlingKey(o.keys, b.castling), EpKeyOf(o, nb),
               TurnKey(o, b.turn), Z.WhiteTurnKey(o.keys));
  }

  /**
   * The incremental key of `make_move` equals the key computed from
   * scratch after every well-shaped move that does not panic, given that
   * it did before.
   */
  lemma MakeMoveKeepsKey(o: Magic, b: Board, m: Move)
    requires b.key == ScratchKey(o, b)
    requires WellShaped(b, m, ColorBoard(b, Opposite(b.turn)))
    requires MakeMoveUnchecked(o, b, m).Ok?
    ensures MakeMoveUnchecked(o, b, m).value.key == ScratchKey(o, MakeMoveUnchecked(o, b, m).value)
  {
    var aux := ColorBoard(b, Opposite(b.turn));
    var b0 := DropEpKey(o, b);
    DropEpKeyTracks(o, b);
    PlayedTracks(o, b0, m, aux);
    FinishTracks(o, Played(o, b0, m, aux).value, m);
  }

  // ---------------------------------------------------------------------
  // The generator's moves are well shaped.

  /** On a consistent placement a square holds men of at most one side, and of one kind. */
  lemma ConsistentExact(b: Board, c: Color, s: Sq)
    requires Consistent(b.men)
    requires ColorBoard(b, c)[s]
    ensures !ColorBoard(b, Opposite(c))[s]
    ensures b.men.pieceOn[s].Some? && HoldsExactly(b.men, c, b.men.pieceOn[s].value, s)
  {
    assert SquareOk(b.men, s);
    var p :| OfType(PiecesOf(b, c), p)[s];
    assert ManOn(b.men, s) == Some(F.Man(c, p));
  }

  /** A move of the pawn part starts on a pawn of the mover. */
  lemma PawnFromOwn(o: Magic, b: Board, c: Color, g: G.GenMove)
    requires g in G.PawnMoves(o, b, c)
    ensures (g.Normal? || g.PawnPromotion?) && OfType(PiecesOf(b, c), Pawn)[g.from]
  {
    G.PawnMovesMeaning(o, b, c, g);
  }

  /** A move of the other pieces' parts starts on a man of the mover of the moving kind. */
  lemma KindFromOwn(o: Magic, b: Board, c: Color, g: G.GenMove)
    requires g in G.KindMoves(o, b, c, Rook) || g in G.KindMoves(o, b, c, Bishop) || g in G.KindMoves(o, b, c, Queen)
      || g in G.KindMoves(o, b, c, Knight) || g in G.KindMoves(o, b, c, King)
    ensures g.Normal? && OfType(PiecesOf(b, c), g.piece)[g.from]
  {
    if g in G.KindMoves(o, b, c, Rook) {
      G.KindMovesMeaning(o, b, c, Rook, g);
    } else if g in G.KindMoves(o, b, c, Bishop) {
      G.KindMovesMeaning(o, b, c, Bishop, g);
    } else if g in G.KindMoves(o, b, c, Queen) {
      G.KindMovesMeaning(o, b, c, Queen, g);
    } else if g in G.KindMoves(o, b, c, Knight) {
      G.KindMovesMeaning(o, b, c, Knight, g);
    } else {
      G.KindMovesMeaning(o, b, c, King, g);
    }
  }

  /** A generated move other than a castle starts on a man of the mover, a promotion on a pawn. */
  lemma GeneratedFromOwn(o: Magic, b: Board, c: Color, g: G.GenMove)
    requires g in G.PseudoLegal(o, b, c) && !G.IsCastle(g)
    ensures g.Normal? || g.PawnPromotion?
    ensures ColorBoard(b, c)[g.from]
    ensures g.PawnPromotion? ==> OfType(PiecesOf(b, c), Pawn)[g.from]
  {
    G.PseudoLegalParts(o, b, c, g);
    G.CastleMovesAreCastles(o, b, c, g);
    if g in G.PawnMoves(o, b, c) {
      PawnFromOwn(o, b, c, g);
    } else {
      KindFromOwn(o, b, c, g);
    }
  }

  lemma EmptyMisses(x: BitBoard, s: Sq)
    requires IsEmpty(x)
    ensures !x[s]
  {
    assert s !in Squares(x);
  }

  /** A castle the generator lists has its king's and rook's landing squares empty. */
  lemma CastleLandsOnEmpty(o: Magic, b: Board, short: bool)
    requires G.CastleAllowed(o, b, b.turn, short)
    ensures var sq := CastleLayout(b.turn, short);
      !AllBoard(b)[sq.kingTo] && !AllBoard(b)[sq.rookTo]
  {
    var sq := CastleLayout(b.turn, short);
    var path := G.CastlePath(b.turn, short);
    var blocked := And(AllBoard(b), path);
    assert path[sq.kingTo] && path[sq.rookTo];
    EmptyMisses(blocked, sq.kingTo);
    EmptyMisses(blocked, sq.rookTo);
  }

  /** On a consistent placement the two sides' boards never share a square. */
  lemma ConsistentDisjoint(b: Board, c: Color)
    requires Consistent(b.men)
    ensures forall s: Sq :: !(ColorBoard(b, c)[s] && ColorBoard(b, Opposite(c))[s])
  {
    forall s: Sq ensures !(ColorBoard(b, c)[s] && ColorBoard(b, Opposite(c))[s]) {
      if ColorBoard(b, c)[s] {
        ConsistentExact(b, c, s);
      }
    }
  }

  /** A generated move other than a castle is well shaped. */
  lemma GeneratedIsWellShaped(o: Magic, b: Board, g: G.GenMove)
    requires Consistent(b.men)
    requires forall s: Sq :: b.ep[s] ==> !ColorBoard(b, b.turn)[s]
    requires g in G.PseudoLegal(o, b, b.turn) && !G.IsCastle(g)
    ensures WellShaped(b, G.Core(g), ColorBoard(b, Opposite(b.turn)))
  {
    var c := b.turn;
    GeneratedFromOwn(o, b, c, g);
    ConsistentDisjoint(b, c);
    G.NeverFriendly(o, b, c, g);
    OwnToOtherIsWellShaped(b, G.Core(g));
  }

  /** A normal move or promotion from one of the mover's men to a square the mover does not hold is well shaped. */
  lemma OwnToOtherIsWellShaped(b: Board, m: Move)
    requires Consistent(b.men)
    requires m.Normal? || m.PawnPromotion?
    requires ColorBoard(b, b.turn)[m.from] && !ColorBoard(b, b.turn)[m.to]
    requires m.PawnPromotion? ==> OfType(PiecesOf(b, b.turn), Pawn)[m.from]
    ensures WellShaped(b, m, ColorBoard(b, Opposite(b.turn)))
  {
    if m.PawnPromotion? {
      assert SquareOk(b.men, m.from);
    }
    if ColorBoard(b, Opposite(b.turn))[m.to] {
      ConsistentExact(b, Opposite(b.turn), m.to);
    }
  }

  /**
   * On a consistent placement whose e.p. square is not the mover's, every
   * move the position lists is well shaped.
   */
  lemma ListedIsWellShaped(o: Magic, b: Board, m: Move)
    requires Consistent(b.men)
    requires forall s: Sq :: b.ep[s] ==> !ColorBoard(b, b.turn)[s]
    requires m in PseudoLegalMoves(o, b)
    ensures WellShaped(b, m, ColorBoard(b, Opposite(b.turn)))
  {
    PseudoLegalMovesMeaning(o, b, m);
    var g :| g in G.PseudoLegal(o, b, b.turn) && G.Core(g) == m;
    if IsCastleMove(m) {
      G.CastleListed(o, b, b.turn);
      if m.ShortCastle? {
        assert g == G.ShortCastle;
      } else {
        assert g == G.LongCastle;
      }
      CastleLandsOnEmpty(o, b, m.ShortCastle?);
    } else {
      GeneratedIsWellShaped(o, b, g);
    }
  }

  /**
   * `make_move` with its legality check keeps the key right on a
   * consistent placement whose e.p. square is not the mover's.
   */
  lemma CheckedMoveKeepsKey(o: Magic, b: Board, m: Move)
    requires b.key == ScratchKey(o, b)
    requires Consistent(b.men)
    requires forall s: Sq :: b.ep[s] ==> !ColorBoard(b, b.turn)[s]
    requires MakeMove(o, b, m, true).Ok?
    ensures MakeMove(o, b, m, true).value.key == ScratchKey(o, MakeMove(o, b, m, true).value)
  {
    var legal := LegalMoves(o, b).value;
    LegalMovesMeaning(o, b, m);
    ListedIsWellShaped(o, b, m);
    MakeMoveKeepsKey(o, b, m);
  }
}
