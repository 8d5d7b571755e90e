/**
 * The key over a game: `make_move` with its legality check, played move
 * after move from a sound board, keeps the board sound, so its
 * incremental key equals the key computed from scratch after every move
 * (what `shakmat-core/tests/test_zobrist.rs` checks on sample games).
 *
 * A board is sound when its key is right, its two records of the men
 * agree, and its e.p. square, if any, is an empty square on the third
 * (sixth) rank with the pawn that passed over it right behind it. The
 * move tables are any tables whose pawn entries point one rank ahead, or
 * two from the home rank for a push, as the real ones do; and a castle is
 * played with no enemy man on its king's or rook's home square.
 */
module GameKeys {
  import opened Base
  import opened Colors
  import opened PieceTypes
  import opened BitBoards
  import opened PieceSets
  import Z = Zobrist
  import F = Fen
  import opened Moves
  import opened BoardState
  import G = MoveGen
  import opened ChessBoard
  import opened ChessBoardFacts
  import opened MoveEffects
  import opened BoardKeys
  import Text

  // ---------------------------------------------------------------------
  // A placement's grid under the bit operations of `make_move`.

  /** Recording a kind on a square leaves every side's boards alone. */
  lemma SetKindBoards(pl: F.Placement, g: F.Grid, s: Sq, k: Option<PieceType>)
    requires F.BoardsShow(pl, g)
    ensures F.BoardsShow(SetKind(pl, s, k), g)
  {
    forall c ensures F.Side(SetKind(pl, s, k), c) == F.Side(pl, c) {
    }
  }

  /**
   * Toggling one side's board of one kind on a square whose man is that
   * man takes it off the grid, and on an empty square puts it there.
   */
  lemma FlipBoards(pl: F.Placement, g: F.Grid, c: Color, p: PieceType, s: Sq)
    requires F.BoardsShow(pl, g)
    requires g[s] == Some(F.Man(c, p)) || g[s] == None
    ensures F.BoardsShow(Flip(pl, c, p, s), g[s := if g[s] == None then Some(F.Man(c, p)) else None])
  {
    var r := Flip(pl, c, p, s);
    var g' := g[s := if g[s] == None then Some(F.Man(c, p)) else None];
    forall d, k, t: Sq ensures OfType(F.Side(r, d), k)[t] <==> g'[t] == Some(F.Man(d, k)) {
      assert OfType(F.Side(pl, d), k)[t] <==> g[t] == Some(F.Man(d, k));
      if d != c {
        assert d == Opposite(c);
      }
    }
  }

  /** The grid after the man on `from` moves to `to`, landing as `land`, with the victim's square, if any, emptied. */
  function MovedGrid(g: F.Grid, c: Color, from: Sq, to: Sq, land: PieceType, victim: Option<Sq>): F.Grid
  {
    var g1 := (if victim.Some? then g[victim.value := None] else g)[to := None];
    g1[from := None][to := Some(F.Man(c, land))]
  }

  /** The square of the pawn a move takes en passant, if it takes one. */
  function EpTaken(b: Board, m: Move): Option<Sq>
    requires m.Normal? || m.PawnPromotion?
  {
    if TakesEnPassant(b, m) && EpVictim(b.turn, m.to).Ok? then Some(EpVictim(b.turn, m.to).value) else None
  }

  /**
   * What `move_piece` needs of the grid to keep the records agreeing: a man
   * of the mover on `from` (a pawn for a promotion), no man of the mover on
   * `to`, the enemy's board showing exactly the enemy's man there, and for
   * an e.p. capture an empty target with the enemy's pawn behind it.
   */
  predicate MoveFits(b: Board, m: Move, aux: BitBoard)
    requires m.Normal? || m.PawnPromotion?
  {
    var g := Cells(b.men);
    m.from != m.to
    && g[m.from].Some? && g[m.from].value.color == b.turn
    && (m.PawnPromotion? ==> g[m.from].value.kind == Pawn)
    && (g[m.to].Some? ==> g[m.to].value.color != b.turn)
    && aux[m.to] == g[m.to].Some?
    && (TakesEnPassant(b, m) ==>
          g[m.to] == None && EpVictim(b.turn, m.to).Ok?
          && g[EpVictim(b.turn, m.to).value] == Some(F.Man(Opposite(b.turn), Pawn)))
  }

  /**
   * On a consistent placement, a fitting `move_piece` that does not panic
   * leaves records that agree and show the grid with the man moved and
   * its victim gone.
   */
  lemma MovePieceShows(o: Magic, b: Board, m: Move, aux: BitBoard)
    requires m.Normal? || m.PawnPromotion?
    requires Consistent(b.men) && MoveFits(b, m, aux)
    requires MovePiece(o, b, m, aux).Ok?
    ensures var g := Cells(b.men);
      F.Shows(MovePiece(o, b, m, aux).value.men,
              MovedGrid(g, b.turn, m.from, m.to, Landing(m, g[m.from].value.kind), EpTaken(b, m)))
  {
    MovePieceMen(o, b, m, aux);
    ConsistentShows(b.men);
    HalvesShow(o, b, m, aux, Cells(b.men));
  }

  /** The two halves of `move_piece`, taken one after the other, move the man on the grid. */
  lemma HalvesShow(o: Magic, b: Board, m: Move, aux: BitBoard, g: F.Grid)
    requires m.Normal? || m.PawnPromotion?
    requires g == Cells(b.men) && F.Shows(b.men, g) && MoveFits(b, m, aux)
    requires b.men.pieceOn[m.from].Some? && RemoveVictim(o, b, m, b.men.pieceOn[m.from].value, aux).Ok?
    ensures var piece := b.men.pieceOn[m.from].value;
      var cap := RemoveVictim(o, b, m, piece, aux).value;
      piece == g[m.from].value.kind
      && F.Shows(PlaceMover(o, cap.men, cap.key, b.turn, m, piece).0,
                 MovedGrid(g, b.turn, m.from, m.to, Landing(m, piece), EpTaken(b, m)))
  {
    var c := b.turn;
    var piece := b.men.pieceOn[m.from].value;
    var cap := RemoveVictim(o, b, m, piece, aux).value;
    var victim := EpTaken(b, m);
    var g1 := (if victim.Some? then g[victim.value := None] else g)[m.to := None];
    VictimRemoved(o, b, m, aux, g);
    PlaceShows(o, cap.men, cap.key, g1, c, m, piece);
    KindsMoved(b.men, g, c, m.from, m.to, Landing(m, piece), victim);
  }

  /** The kind records follow the grid through a move. */
  lemma KindsMoved(pl: F.Placement, g: F.Grid, c: Color, from: Sq, to: Sq, land: PieceType, victim: Option<Sq>)
    requires F.KindsShow(pl, g)
    ensures var on := (if victim.Some? then pl.pieceOn[victim.value := None] else pl.pieceOn)[from := None][to := Some(land)];
      forall t: Sq :: on[t] == F.KindOf(MovedGrid(g, c, from, to, land, victim)[t])
  {
    forall t: Sq ensures pl.pieceOn[t] == F.KindOf(g[t]) {
    }
  }

  /** The men after `move_piece` are those its two halves leave. */
  lemma MovePieceMen(o: Magic, b: Board, m: Move, aux: BitBoard)
    requires m.Normal? || m.PawnPromotion?
    requires MovePiece(o, b, m, aux).Ok?
    ensures var piece := b.men.pieceOn[m.from].value;
      var cap := RemoveVictim(o, b, m, piece, aux);
      cap.Ok? && MovePiece(o, b, m, aux).value.men == PlaceMover(o, cap.value.men, cap.value.key, b.turn, m, piece).0
  {
  }

  /** The moving half of `move_piece` takes the man off `from` and puts its landing kind on `to`. */
  lemma PlaceShows(o: Magic, men0: F.Placement, key: Z.Key, g1: F.Grid, c: Color, m: Move, piece: PieceType)
    requires m.Normal? || m.PawnPromotion?
    requires m.from != m.to && (m.PawnPromotion? ==> piece == Pawn)
    requires F.BoardsShow(men0, g1) && g1[m.from] == Some(F.Man(c, piece)) && g1[m.to] == None
    ensures var men := PlaceMover(o, men0, key, c, m, piece).0;
      F.BoardsShow(men, g1[m.from := None][m.to := Some(F.Man(c, Landing(m, piece)))])
      && men.pieceOn == men0.pieceOn[m.from := None][m.to := Some(Landing(m, piece))]
  {
    var men1 := SetKind(men0, m.from, None);
    SetKindBoards(men0, g1, m.from, None);
    var land := Landing(m, piece);
    FlipBoards(men1, g1, c, piece, m.from);
    FlipBoards(Flip(men1, c, piece, m.from), g1[m.from := None], c, land, m.to);
    if m.Normal? {
      MoveBitsIsFlips(men1, c, piece, m.from, m.to);
    }
    SetKindBoards(Flip(Flip(men1, c, piece, m.from), c, land, m.to), g1[m.from := None][m.to := Some(F.Man(c, land))],
                  m.to, Some(land));
  }

  /** The capture half of `move_piece` takes exactly the victim off the grid. */
  lemma VictimRemoved(o: Magic, b: Board, m: Move, aux: BitBoard, g: F.Grid)
    requires m.Normal? || m.PawnPromotion?
    requires g == Cells(b.men) && F.Shows(b.men, g) && MoveFits(b, m, aux)
    requires RemoveVictim(o, b, m, b.men.pieceOn[m.from].value, aux).Ok?
    ensures var cap := RemoveVictim(o, b, m, b.men.pieceOn[m.from].value, aux).value;
      var victim := EpTaken(b, m);
      var g1 := (if victim.Some? then g[victim.value := None] else g)[m.to := None];
      F.BoardsShow(cap.men, g1)
      && cap.men.pieceOn == (if victim.Some? then b.men.pieceOn[victim.value := None] else b.men.pieceOn)
      && g1[m.from] == g[m.from] && g1[m.to] == None
      && b.men.pieceOn[m.from].value == g[m.from].value.kind
  {
    var e := Opposite(b.turn);
    var piece := b.men.pieceOn[m.from].value;
    assert b.men.pieceOn[m.from] == F.KindOf(g[m.from]);
    if piece == Pawn && FromSquare(m.to) == b.ep {
      assert TakesEnPassant(b, m);
      PawnTaken(b.men, g, e, EpVictim(b.turn, m.to).value);
    } else if aux[m.to] {
      ManTaken(b.men, g, e, m.to);
    } else {
      assert g[m.to := None] == g;
    }
  }

  /** Taking the enemy's pawn off its square, as the e.p. capture does. */
  lemma PawnTaken(pl: F.Placement, g: F.Grid, e: Color, v: Sq)
    requires F.Shows(pl, g) && g[v] == Some(F.Man(e, Pawn))
    ensures var r := SetKind(Flip(pl, e, Pawn, v), v, None);
      F.BoardsShow(r, g[v := None]) && r.pieceOn == pl.pieceOn[v := None]
  {
    FlipBoards(pl, g, e, Pawn, v);
    SetKindBoards(Flip(pl, e, Pawn, v), g[v := None], v, None);
  }

  /** Masking the square of an enemy's man off the enemy's boards. */
  lemma ManTaken(pl: F.Placement, g: F.Grid, e: Color, s: Sq)
    requires F.Shows(pl, g) && g[s].Some? && g[s].value.color == e
    ensures F.BoardsShow(ClearSquare(pl, e, s), g[s := None]) && ClearSquare(pl, e, s).pieceOn == pl.pieceOn
  {
    var q := g[s].value.kind;
    assert pl.pieceOn[s] == F.KindOf(g[s]);
    assert HoldsExactly(pl, e, q, s) by {
      forall k ensures OfType(F.Side(pl, e), k)[s] <==> k == q {
        assert OfType(F.Side(pl, e), k)[s] <==> g[s] == Some(F.Man(e, k));
      }
    }
    ClearIsFlip(pl, e, q, s);
    FlipBoards(pl, g, e, q, s);
  }

  // ---------------------------------------------------------------------
  // Listed moves fit.

  /** On a consistent placement a side's board holds exactly the squares of that side's men. */
  lemma ColorGrid(b: Board, c: Color, s: Sq)
    requires Consistent(b.men)
    ensures ColorBoard(b, c)[s] <==> Cells(b.men)[s].Some? && Cells(b.men)[s].value.color == c
  {
    assert SquareOk(b.men, s);
    if Cells(b.men)[s].Some? && Cells(b.men)[s].value.color == c {
      assert OfType(PiecesOf(b, c), Cells(b.men)[s].value.kind)[s];
    }
  }

  lemma FromSquareInjective(s: Sq, t: Sq)
    requires FromSquare(s) == FromSquare(t)
    ensures s == t
  {
    assert FromSquare(s)[s];
  }

  /**
   * The e.p. square, when there is one, is a single empty square of the
   * third rank with White's pawn that passed over it right ahead (Black
   * to move), or of the sixth rank with Black's pawn (White to move).
   */
  predicate EpBacked(b: Board)
  {
    IsEmpty(b.ep) || (FromSquare(FirstPieceIndex(b.ep)) == b.ep && EpSquareOk(b.turn, Cells(b.men), FirstPieceIndex(b.ep)))
  }

  predicate EpSquareOk(c: Color, g: F.Grid, e: Sq)
  {
    if c == White then 40 <= e < 48 && g[e] == None && g[e - 8] == Some(F.Man(Black, Pawn))
    else 16 <= e < 24 && g[e] == None && g[e + 8] == Some(F.Man(White, Pawn))
  }

  /** A backed e.p. square is never the mover's, as the generator's guard on friendly targets needs. */
  lemma EpNotMovers(b: Board)
    requires Consistent(b.men) && EpBacked(b)
    ensures forall s: Sq :: b.ep[s] ==> !ColorBoard(b, b.turn)[s]
  {
    forall s: Sq | b.ep[s] ensures !ColorBoard(b, b.turn)[s] {
      assert !IsEmpty(b.ep);
      ColorGrid(b, b.turn, s);
    }
  }

  /** A listed move other than a castle fits `move_piece` on a consistent board with a backed e.p. square. */
  lemma ListedFits(o: Magic, b: Board, m: Move)
    requires Consistent(b.men) && EpBacked(b)
    requires m in PseudoLegalMoves(o, b) && !IsCastleMove(m)
    ensures m.Normal? || m.PawnPromotion?
    ensures MoveFits(b, m, ColorBoard(b, Opposite(b.turn)))
  {
    var c := b.turn;
    PseudoLegalMovesMeaning(o, b, m);
    var gm :| gm in G.PseudoLegal(o, b, c) && G.Core(gm) == m;
    assert !G.IsCastle(gm);
    GeneratedFromOwn(o, b, c, gm);
    EpNotMovers(b);
    ConsistentDisjoint(b, c);
    G.NeverFriendly(o, b, c, gm);
    OwnToOtherFits(b, m);
  }

  /** A move from a man of the mover, a promotion from a pawn, to a square the mover does not hold fits `move_piece`. */
  lemma OwnToOtherFits(b: Board, m: Move)
    requires Consistent(b.men) && EpBacked(b)
    requires m.Normal? || m.PawnPromotion?
    requires ColorBoard(b, b.turn)[m.from] && !ColorBoard(b, b.turn)[m.to]
    requires m.PawnPromotion? ==> OfType(PiecesOf(b, b.turn), Pawn)[m.from]
    ensures MoveFits(b, m, ColorBoard(b, Opposite(b.turn)))
  {
    var c := b.turn;
    ColorGrid(b, c, m.from);
    ColorGrid(b, c, m.to);
    ColorGrid(b, Opposite(c), m.to);
    if m.PawnPromotion? {
      assert SquareOk(b.men, m.from);
    }
    if TakesEnPassant(b, m) {
      EpFits(b, m);
    }
  }

  /** An e.p. capture lands on the empty e.p. square with the enemy's pawn behind it. */
  lemma EpFits(b: Board, m: Move)
    requires Consistent(b.men) && EpBacked(b)
    requires (m.Normal? || m.PawnPromotion?) && TakesEnPassant(b, m)
    ensures var g := Cells(b.men);
      g[m.to] == None && EpVictim(b.turn, m.to).Ok?
      && g[EpVictim(b.turn, m.to).value] == Some(F.Man(Opposite(b.turn), Pawn))
  {
    assert b.ep[m.to];
    var e := FirstPieceIndex(b.ep);
    FromSquareInjective(m.to, e);
  }

  // ---------------------------------------------------------------------
  // Castles.

  /** No enemy man stands on the home squares of the castle's king and rook. */
  predicate CastleHome(b: Board, short: bool)
  {
    var sq := CastleLayout(b.turn, short);
    !ColorBoard(b, Opposite(b.turn))[sq.kingFrom] && !ColorBoard(b, Opposite(b.turn))[sq.rookFrom]
  }

  /** A backed e.p. square is never on the first or the last rank. */
  lemma EpOffBackRanks(b: Board, s: Sq)
    requires EpBacked(b) && (s < 8 || s >= 56)
    ensures FromSquare(s) != b.ep
  {
    assert FromSquare(s)[s];
  }

  /** One half of a castle: a man of the mover onto an empty square of the back rank, which the enemy's board misses. */
  lemma CastleHalf(o: Magic, b: Board, from: Sq, to: Sq, aux: BitBoard)
    requires Consistent(b.men) && EpBacked(b)
    requires from != to && (to < 8 || to >= 56) && !aux[to]
    requires !ColorBoard(b, Opposite(b.turn))[from] && !AllBoard(b)[to]
    requires MovePiece(o, b, Normal(from, to), aux).Ok?
    ensures var r := MovePiece(o, b, Normal(from, to), aux).value;
      Consistent(r.men) && r.turn == b.turn && r.ep == b.ep
      && Cells(r.men) == MovedGrid(Cells(b.men), b.turn, from, to, Cells(b.men)[from].value.kind, None)
  {
    var m := Normal(from, to);
    ConsistentShows(b.men);
    MovePieceFails(o, b, m, aux);
    assert b.men.pieceOn[from] == F.KindOf(Cells(b.men)[from]);
    ColorGrid(b, Opposite(b.turn), from);
    ColorGrid(b, White, to);
    ColorGrid(b, Black, to);
    EpOffBackRanks(b, to);
    assert MoveFits(b, m, aux);
    MovePieceShows(o, b, m, aux);
    ShowsConsistent(MovePiece(o, b, m, aux).value.men,
      MovedGrid(Cells(b.men), b.turn, from, to, Cells(b.men)[from].value.kind, None));
  }

  /**
   * A castle whose king and rook land on empty squares (as the generator
   * demands), with no enemy man on their home squares, keeps the records
   * agreeing when it does not panic.
   */
  lemma CastleConsistent(o: Magic, b: Board, short: bool, aux: BitBoard)
    requires Consistent(b.men) && EpBacked(b)
    requires aux == ColorBoard(b, Opposite(b.turn))
    requires CastleHome(b, short)
    requires var sq := CastleLayout(b.turn, short); !AllBoard(b)[sq.kingTo] && !AllBoard(b)[sq.rookTo]
    requires Castle(o, b, short, aux).Ok?
    ensures Consistent(Castle(o, b, short, aux).value.men)
  {
    var sq := CastleLayout(b.turn, short);
    KingStage(o, b, sq, aux);
    var b1 := MovePiece(o, b, Normal(sq.kingFrom, sq.kingTo), aux).value;
    CastleHalf(o, b1, sq.rookFrom, sq.rookTo, aux);
  }

  /** The king's half of a castle leaves the rook's half fitting. */
  lemma KingStage(o: Magic, b: Board, sq: CastleSquares, aux: BitBoard)
    requires Consistent(b.men) && EpBacked(b)
    requires sq == CastleLayout(b.turn, true) || sq == CastleLayout(b.turn, false)
    requires aux == ColorBoard(b, Opposite(b.turn))
    requires !ColorBoard(b, Opposite(b.turn))[sq.kingFrom] && !ColorBoard(b, Opposite(b.turn))[sq.rookFrom]
    requires !AllBoard(b)[sq.kingTo] && !AllBoard(b)[sq.rookTo]
    requires MovePiece(o, b, Normal(sq.kingFrom, sq.kingTo), aux).Ok?
    ensures var b1 := MovePiece(o, b, Normal(sq.kingFrom, sq.kingTo), aux).value;
      Consistent(b1.men) && EpBacked(b1) && b1.turn == b.turn
      && !ColorBoard(b1, Opposite(b.turn))[sq.rookFrom] && !AllBoard(b1)[sq.rookTo] && !aux[sq.rookTo]
  {
    CastleHalf(o, b, sq.kingFrom, sq.kingTo, aux);
    var b1 := MovePiece(o, b, Normal(sq.kingFrom, sq.kingTo), aux).value;
    var land := Cells(b.men)[sq.kingFrom].value.kind;
    EpBackedKept(b, b1, sq.kingFrom, sq.kingTo, land);
    RookSquaresKept(b, b1, sq, land);
  }

  /** The king's half leaves the rook's home square and landing square as they were. */
  lemma RookSquaresKept(b: Board, b1: Board, sq: CastleSquares, land: PieceType)
    requires Consistent(b.men) && Consistent(b1.men) && b1.turn == b.turn
    requires sq == CastleLayout(b.turn, true) || sq == CastleLayout(b.turn, false)
    requires Cells(b1.men) == MovedGrid(Cells(b.men), b.turn, sq.kingFrom, sq.kingTo, land, None)
    requires !ColorBoard(b, Opposite(b.turn))[sq.rookFrom] && !AllBoard(b)[sq.rookTo]
    ensures !ColorBoard(b1, Opposite(b.turn))[sq.rookFrom] && !AllBoard(b1)[sq.rookTo]
  {
    ColorGrid(b, White, sq.rookTo);
    ColorGrid(b, Black, sq.rookTo);
    ColorGrid(b, Opposite(b.turn), sq.rookFrom);
    MovedElsewhere(Cells(b.men), b.turn, sq.kingFrom, sq.kingTo, land, sq.rookFrom);
    MovedElsewhere(Cells(b.men), b.turn, sq.kingFrom, sq.kingTo, land, sq.rookTo);
    ColorGrid(b1, Opposite(b.turn), sq.rookFrom);
    ColorGrid(b1, White, sq.rookTo);
    ColorGrid(b1, Black, sq.rookTo);
  }

  /** Away from its two squares and without a victim, a move leaves the grid as it was. */
  lemma MovedElsewhere(g: F.Grid, c: Color, from: Sq, to: Sq, land: PieceType, t: Sq)
    requires t != from && t != to
    ensures MovedGrid(g, c, from, to, land, None)[t] == g[t]
  {
  }

  /** A move between two back-rank squares keeps a backed e.p. square backed. */
  lemma EpBackedKept(b: Board, b1: Board, from: Sq, to: Sq, land: PieceType)
    requires EpBacked(b) && b1.turn == b.turn && b1.ep == b.ep
    requires (from < 8 || from >= 56) && (to < 8 || to >= 56)
    requires Cells(b1.men) == MovedGrid(Cells(b.men), b.turn, from, to, land, None)
    ensures EpBacked(b1)
  {
    if !IsEmpty(b.ep) {
      var e := FirstPieceIndex(b.ep);
      var g, g1 := Cells(b.men), Cells(b1.men);
      assert g1[e] == g[e];
      if b.turn == White {
        assert g1[e - 8] == g[e - 8];
      } else {
        assert g1[e + 8] == g[e + 8];
      }
    }
  }

  // ---------------------------------------------------------------------
  // The move of `make_move`.

  /** A listed castle has its king's and rook's landing squares empty. */
  lemma ListedCastleLands(o: Magic, b: Board, m: Move)
    requires m in PseudoLegalMoves(o, b) && IsCastleMove(m)
    ensures var sq := CastleLayout(b.turn, m.ShortCastle?);
      !AllBoard(b)[sq.kingTo] && !AllBoard(b)[sq.rookTo]
  {
    PseudoLegalMovesMeaning(o, b, m);
    var g :| g in G.PseudoLegal(o, b, b.turn) && G.Core(g) == m;
    G.CastleListed(o, b, b.turn);
    if m.ShortCastle? {
      assert g == G.ShortCastle;
    } else {
      assert g == G.LongCastle;
    }
    CastleLandsOnEmpty(o, b, m.ShortCastle?);
  }

  /** A listed castle, its home squares free of the enemy, keeps the records agreeing. */
  lemma PlayedCastleConsistent(o: Magic, b: Board, m: Move)
    requires Consistent(b.men) && EpBacked(b)
    requires m in PseudoLegalMoves(o, b) && IsCastleMove(m) && CastleHome(b, m.ShortCastle?)
    requires Played(o, DropEpKey(o, b), m, ColorBoard(b, Opposite(b.turn))).Ok?
    ensures Consistent(Played(o, DropEpKey(o, b), m, ColorBoard(b, Opposite(b.turn))).value.men)
  {
    var b0 := DropEpKey(o, b);
    ListedCastleLands(o, b, m);
    assert b0.men == b.men && b0.turn == b.turn && b0.ep == b.ep;
    CastleConsistent(o, b0, m.ShortCastle?, ColorBoard(b, Opposite(b.turn)));
  }

  /**
   * A listed move other than a castle keeps the records agreeing and
   * moves the man on the grid, its victim gone.
   */
  lemma PlayedMoveShows(o: Magic, b: Board, m: Move)
    requires Consistent(b.men) && EpBacked(b)
    requires m in PseudoLegalMoves(o, b) && !IsCastleMove(m)
    requires Played(o, DropEpKey(o, b), m, ColorBoard(b, Opposite(b.turn))).Ok?
    ensures m.Normal? || m.PawnPromotion?
    ensures var g := Cells(b.men);
      var men := Played(o, DropEpKey(o, b), m, ColorBoard(b, Opposite(b.turn))).value.men;
      g[m.from].Some? && g[m.from].value.color == b.turn && Consistent(men)
      && Cells(men) == MovedGrid(g, b.turn, m.from, m.to, Landing(m, g[m.from].value.kind), EpTaken(b, m))
  {
    var b0 := DropEpKey(o, b);
    var aux := ColorBoard(b, Opposite(b.turn));
    ListedFits(o, b, m);
    PlayedMovesPiece(o, b0, m, aux);
    MovePieceConsistent(o, b, b0.key, m, aux);
  }

  lemma PlayedMovesPiece(o: Magic, b: Board, m: Move, aux: BitBoard)
    requires !IsCastleMove(m)
    ensures (m.Normal? || m.PawnPromotion?) && Played(o, b, m, aux) == MovePiece(o, b, m, aux)
  {
  }

  /** A fitting `move_piece` that does not panic keeps the records agreeing, whatever the key it starts from. */
  lemma MovePieceConsistent(o: Magic, b: Board, k: Z.Key, m: Move, aux: BitBoard)
    requires m.Normal? || m.PawnPromotion?
    requires Consistent(b.men) && MoveFits(b, m, aux)
    requires MovePiece(o, b.(key := k), m, aux).Ok?
    ensures var g := Cells(b.men);
      var men := MovePiece(o, b.(key := k), m, aux).value.men;
      Consistent(men) && Cells(men) == MovedGrid(g, b.turn, m.from, m.to, Landing(m, g[m.from].value.kind), EpTaken(b, m))
  {
    var g := Cells(b.men);
    var b0 := b.(key := k);
    assert MoveFits(b0, m, aux);
    MovePieceShows(o, b0, m, aux);
    ShowsConsistent(MovePiece(o, b0, m, aux).value.men,
      MovedGrid(g, b.turn, m.from, m.to, Landing(m, g[m.from].value.kind), EpTaken(b, m)));
  }

  // ---------------------------------------------------------------------
  // The e.p. square after a move.

  /**
   * Pawn tables that point forward, as the real ones do: a push one rank
   * ahead, or two from the home rank; an attack one rank ahead on a
   * neighbouring file.
   */
  predicate PawnTablesForward(o: Magic)
  {
    (forall s: Sq, t: Sq :: o.pawnPushes(s, White)[t] ==> t == s + 8 || (8 <= s < 16 && t == s + 16))
    && (forall s: Sq, t: Sq :: o.pawnPushes(s, Black)[t] ==> t == s - 8 || (48 <= s < 56 && t == s - 16))
    && (forall s: Sq, t: Sq :: o.pawnAttacks(s, White)[t] ==> t == s + 7 || t == s + 9)
    && (forall s: Sq, t: Sq :: o.pawnAttacks(s, Black)[t] ==> t == s - 7 || t == s - 9)
  }

  /** A listed normal move of a pawn is one of its captures or one of its pushes. */
  lemma ListedPawnMove(o: Magic, b: Board, m: Move)
    requires Consistent(b.men)
    requires m in PseudoLegalMoves(o, b) && m.Normal?
    requires Cells(b.men)[m.from] == Some(F.Man(b.turn, Pawn))
    ensures o.pawnAttacks(m.from, b.turn)[m.to] || G.PawnPushes(o, b, b.turn, m.from)[m.to]
  {
    var c := b.turn;
    var from := m.from;
    PseudoLegalMovesMeaning(o, b, m);
    var g :| g in G.PseudoLegal(o, b, c) && G.Core(g) == m;
    G.PseudoLegalParts(o, b, c, g);
    G.CastleMovesAreCastles(o, b, c, g);
    assert SquareOk(b.men, from);
    if g in G.PawnMoves(o, b, c) {
      G.PawnMovesMeaning(o, b, c, g);
    } else {
      KindFromOwn(o, b, c, g);
      G.PieceTargets(o, b, c, g);
      assert false;
    }
  }

  /** A pawn's double step, under forward tables, starts on its home rank and passes over an empty square. */
  lemma DoubleStep(o: Magic, b: Board, c: Color, from: Sq, to: Sq)
    requires PawnTablesForward(o)
    requires o.pawnAttacks(from, c)[to] || G.PawnPushes(o, b, c, from)[to]
    requires if c == White then to == from + 16 else from == to + 16
    requires Consistent(b.men)
    ensures if c == White then 8 <= from < 16 && Cells(b.men)[from + 8] == None
      else 48 <= from < 56 && Cells(b.men)[from - 8] == None
  {
    G.PawnPushesMeaning(o, b, c, from, to);
    var e := if c == White then from + 8 else from - 8;
    ColorGrid(b, White, e);
    ColorGrid(b, Black, e);
  }

  /** The end of `make_move`: the men stay, the turn passes, and the e.p. square is set only by a pawn's double step. */
  lemma FinishEp(o: Magic, b1: Board, m: Move)
    requires UpdateEnPassant(o, b1, m).Ok? && HandOver(o, UpdateEnPassant(o, b1, m).value).Ok?
    ensures var r := HandOver(o, UpdateEnPassant(o, b1, m).value).value;
      r.men == b1.men && r.turn == Opposite(b1.turn)
      && (r.ep == Empty
          || (m.Normal? && b1.men.pieceOn[m.to] == Some(Pawn)
              && if b1.turn == White then m.to == m.from + 16 && r.ep == FromSquare(m.from + 8)
                 else m.from == m.to + 16 && r.ep == FromSquare(m.from - 8)))
  {
  }

  /** An e.p. capture lands on the sixth (third) rank and takes on the fifth (fourth). */
  lemma EpTakenRank(b: Board, m: Move)
    requires EpBacked(b) && (m.Normal? || m.PawnPromotion?) && EpTaken(b, m).Some?
    ensures if b.turn == White then 40 <= m.to < 48 && 32 <= EpTaken(b, m).value < 40
      else 16 <= m.to < 24 && 24 <= EpTaken(b, m).value < 32
  {
    assert b.ep[m.to] by {
      assert FromSquare(m.to)[m.to];
    }
    FromSquareInjective(m.to, FirstPieceIndex(b.ep));
  }

  /** After a double step the square passed over is empty with the pawn right ahead of it. */
  lemma PassedSquareBacked(g: F.Grid, c: Color, from: Sq, to: Sq, victim: Option<Sq>)
    requires if c == White then 8 <= from < 16 && to == from + 16 && g[from + 8] == None
      else 48 <= from < 56 && from == to + 16 && g[from - 8] == None
    requires victim.Some? ==> (if c == White then victim.value >= 32 else victim.value < 32)
    ensures EpSquareOk(Opposite(c), MovedGrid(g, c, from, to, Pawn, victim), if c == White then from + 8 else from - 8)
  {
  }

  /** A move whose destination then records a pawn moved a pawn. */
  lemma MoverIsPawn(g: F.Grid, men: F.Placement, c: Color, from: Sq, to: Sq, kind: PieceType, victim: Option<Sq>)
    requires Cells(men) == MovedGrid(g, c, from, to, kind, victim)
    requires men.pieceOn[to] == Some(Pawn)
    ensures kind == Pawn
  {
    assert Cells(men)[to] == ManOn(men, to);
  }

  /** A pawn's double step from its home rank over an empty square leaves that square backed for the other side. */
  lemma DoubleStepBacked(b: Board, m: Move, men: F.Placement)
    requires Consistent(b.men) && EpBacked(b) && m.Normal?
    requires Cells(men) == MovedGrid(Cells(b.men), b.turn, m.from, m.to, Pawn, EpTaken(b, m))
    requires if b.turn == White then m.to == m.from + 16 && 8 <= m.from < 16 && Cells(b.men)[m.from + 8] == None
      else m.from == m.to + 16 && 48 <= m.from < 56 && Cells(b.men)[m.from - 8] == None
    ensures EpSquareOk(Opposite(b.turn), Cells(men), if b.turn == White then m.from + 8 else m.from - 8)
  {
    if EpTaken(b, m).Some? {
      EpTakenRank(b, m);
    }
    PassedSquareBacked(Cells(b.men), b.turn, m.from, m.to, EpTaken(b, m));
  }

  /** A listed move that leaves a pawn two ranks ahead of where it started leaves the square it passed over backed. */
  lemma ListedDoubleStep(o: Magic, b: Board, m: Move, men: F.Placement)
    requires PawnTablesForward(o) && Consistent(b.men) && EpBacked(b)
    requires m in PseudoLegalMoves(o, b) && m.Normal?
    requires var g := Cells(b.men);
      g[m.from].Some? && g[m.from].value.color == b.turn
      && Cells(men) == MovedGrid(g, b.turn, m.from, m.to, g[m.from].value.kind, EpTaken(b, m))
    requires men.pieceOn[m.to] == Some(Pawn)
    requires if b.turn == White then m.to == m.from + 16 else m.from == m.to + 16
    ensures EpSquareOk(Opposite(b.turn), Cells(men), if b.turn == White then m.from + 8 else m.from - 8)
  {
    var g := Cells(b.men);
    MoverIsPawn(g, men, b.turn, m.from, m.to, g[m.from].value.kind, EpTaken(b, m));
    ListedPawnMove(o, b, m);
    DoubleStep(o, b, b.turn, m.from, m.to);
    DoubleStepBacked(b, m, men);
  }

  /**
   * `make_move` without its check, playing a listed move (a castle with
   * its home squares free of the enemy) under forward pawn tables, keeps
   * the records agreeing and the e.p. square backed.
   */
  lemma UncheckedKeepsShape(o: Magic, b: Board, m: Move)
    requires PawnTablesForward(o) && Consistent(b.men) && EpBacked(b)
    requires m in PseudoLegalMoves(o, b)
    requires IsCastleMove(m) ==> CastleHome(b, m.ShortCastle?)
    requires MakeMoveUnchecked(o, b, m).Ok?
    ensures Consistent(MakeMoveUnchecked(o, b, m).value.men) && EpBacked(MakeMoveUnchecked(o, b, m).value)
  {
    var aux := ColorBoard(b, Opposite(b.turn));
    var b1 := Played(o, DropEpKey(o, b), m, aux).value;
    FinishEp(o, b1, m);
    var r := MakeMoveUnchecked(o, b, m).value;
    if IsCastleMove(m) {
      PlayedCastleConsistent(o, b, m);
    } else {
      PlayedMoveShows(o, b, m);
      if r.ep != Empty {
        ListedDoubleStep(o, b, m, b1.men);
        FirstOfSquare(if b.turn == White then m.from + 8 else m.from - 8);
      }
    }
  }

  // ---------------------------------------------------------------------
  // A game.

  /** A sound board: its key is the key from scratch, its records agree, and its e.p. square is backed. */
  predicate Sound(o: Magic, b: Board)
  {
    b.key == ScratchKey(o, b) && Consistent(b.men) && EpBacked(b)
  }

  /**
   * `make_move` with its check, from a sound board under forward pawn
   * tables, castling only with its home squares free of the enemy, leaves
   * a sound board.
   */
  lemma CheckedMoveKeepsSound(o: Magic, b: Board, m: Move)
    requires PawnTablesForward(o) && Sound(o, b)
    requires IsCastleMove(m) ==> CastleHome(b, m.ShortCastle?)
    requires MakeMove(o, b, m, true).Ok?
    ensures Sound(o, MakeMove(o, b, m, true).value)
  {
    LegalMovesMeaning(o, b, m);
    EpNotMovers(b);
    CheckedMoveKeepsKey(o, b, m);
    UncheckedKeepsShape(o, b, m);
  }

  /** The moves of a list played one after the other by `make_move` with its check, up to the first refusal or panic. */
  function PlayAll(o: Magic, b: Board, ms: seq<Move>): Result<Board, ChessBoard.MoveError>
    decreases |ms|
  {
    if ms == [] then Ok(b)
    else
      match MakeMove(o, b, ms[0], true)
      case Err(e) => Err(e)
      case Ok(b1) => PlayAll(o, b1, ms[1..])
  }

  /** Each castle of the list, when its turn comes, has no enemy man on its king's or rook's home square. */
  predicate HomeCastles(o: Magic, b: Board, ms: seq<Move>)
    decreases |ms|
  {
    ms == []
    || ((IsCastleMove(ms[0]) ==> CastleHome(b, ms[0].ShortCastle?))
        && (MakeMove(o, b, ms[0], true).Ok? ==> HomeCastles(o, MakeMove(o, b, ms[0], true).value, ms[1..])))
  }

  /** Playing a whole list from a sound board leaves a sound board, its key the key from scratch. */
  lemma {:induction false} GameKeepsSound(o: Magic, b: Board, ms: seq<Move>)
    requires PawnTablesForward(o) && Sound(o, b) && HomeCastles(o, b, ms)
    requires PlayAll(o, b, ms).Ok?
    ensures Sound(o, PlayAll(o, b, ms).value)
    ensures PlayAll(o, b, ms).value.key == ScratchKey(o, PlayAll(o, b, ms).value)
    decreases |ms|
  {
    if ms != [] {
      CheckedMoveKeepsSound(o, b, ms[0]);
      GameKeepsSound(o, MakeMove(o, b, ms[0], true).value, ms[1..]);
    }
  }

  /** A list that plays to its end plays through each of its prefixes, under the same castle condition. */
  lemma {:induction false} PrefixPlays(o: Magic, b: Board, ms: seq<Move>, k: nat)
    requires k <= |ms| && PlayAll(o, b, ms).Ok? && HomeCastles(o, b, ms)
    ensures PlayAll(o, b, ms[..k]).Ok? && HomeCastles(o, b, ms[..k])
    decreases k
  {
    if k > 0 {
      PrefixTail(ms, k);
      PrefixPlays(o, MakeMove(o, b, ms[0], true).value, ms[1..], k - 1);
    }
  }

  lemma PrefixTail(ms: seq<Move>, k: nat)
    requires 0 < k <= |ms|
    ensures ms[..k][0] == ms[0] && ms[..k][1..] == ms[1..][..k - 1]
  {
  }

  /**
   * After every move of a game that plays to its end, the incremental key
   * equals the key computed from scratch.
   */
  lemma EveryPrefixKeepsKey(o: Magic, b: Board, ms: seq<Move>, k: nat)
    requires PawnTablesForward(o) && Sound(o, b) && HomeCastles(o, b, ms)
    requires k <= |ms| && PlayAll(o, b, ms).Ok?
    ensures PlayAll(o, b, ms[..k]).Ok?
    ensures PlayAll(o, b, ms[..k]).value.key == ScratchKey(o, PlayAll(o, b, ms[..k]).value)
  {
    PrefixPlays(o, b, ms, k);
    GameKeepsSound(o, b, ms[..k]);
  }

  /** A board read from a FEN whose e.p. field is "-" is sound. */
  lemma FenStartSound(o: Magic, fen: string)
    requires FromFen(o, fen).Ok?
    requires |Text.SplitWhitespace(fen)| > 3 && Text.SplitWhitespace(fen)[3] == "-"
    ensures Sound(o, FromFen(o, fen).value)
  {
    var words := Text.SplitWhitespace(fen);
    var b := FromFen(o, fen).value;
    FromFenMeaning(o, fen);
    ShowsConsistent(b.men, F.GridOf(Text.Split(words[0], '/')));
    assert b.ep == Empty;
    assert Squares(Empty) == {} by {
      assert forall s: Sq :: !Empty[s];
    }
  }

  /**
   * A game played from such a FEN board, as `test_zobrist.rs` plays its
   * sample games from the starting position, has the key of each position
   * equal to the key computed from scratch.
   */
  lemma FenGameKeepsKey(o: Magic, fen: string, ms: seq<Move>, k: nat)
    requires PawnTablesForward(o) && FromFen(o, fen).Ok?
    requires |Text.SplitWhitespace(fen)| > 3 && Text.SplitWhitespace(fen)[3] == "-"
    requires HomeCastles(o, FromFen(o, fen).value, ms)
    requires k <= |ms| && PlayAll(o, FromFen(o, fen).value, ms).Ok?
    ensures PlayAll(o, FromFen(o, fen).value, ms[..k]).Ok?
    ensures var r := PlayAll(o, FromFen(o, fen).value, ms[..k]).value; r.key == ScratchKey(o, r)
  {
    FenStartSound(o, fen);
    EveryPrefixKeepsKey(o, FromFen(o, fen).value, ms, k);
  }
}
