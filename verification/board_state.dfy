/**
 * The state of a `Board` of `shakmat-core/src/board/chess_board.rs`, the
 * lookups it is built on, the agreement between its per-kind boards and its
 * square-by-square record of kinds, and its Zobrist key computed from
 * scratch (`create_zobrist_key`).
 *
 * The auxiliary boards of the source (`all_whites`, `all_blacks`,
 * `all_pieces`, `white_attacks`, `black_attacks`) are recomputed from the
 * men at the end of every `from_fen` and `make_move`, and are only read
 * while they are up to date, so the model computes them from the men when
 * they are read.
 */
module BoardState {
  import opened Base
  import opened Colors
  import opened PieceTypes
  import opened BitBoards
  import opened PieceSets
  import Castling
  import Z = Zobrist
  import F = Fen

  /**
   * The move tables of `shakmat-core/src/magic` (sliding moves looked up by
   * occupancy, the step moves, pawn attacks and pushes, `EP_ATTACKS`) and
   * the 793 random Zobrist values. They are left abstract: any tables.
   */
  datatype Magic = Magic(
    kingMoves: Sq -> BitBoard,
    knightMoves: Sq -> BitBoard,
    rookMoves: (Sq, BitBoard) -> BitBoard,
    bishopMoves: (Sq, BitBoard) -> BitBoard,
    queenMoves: (Sq, BitBoard) -> BitBoard,
    pawnAttacks: (Sq, Color) -> BitBoard,
    pawnPushes: (Sq, Color) -> BitBoard,
    epAttacks: Sq -> BitBoard,
    keys: Z.Values)

  /** A position: the counters are the source's `u16` fields. */
  datatype Board = Board(
    castling: Castling.Rights,
    turn: Color,
    fifty: nat,
    fullTurns: nat,
    plies: nat,
    ep: BitBoard,
    men: F.Placement,
    key: Z.Key)

  /** `get_pieces`. */
  function PiecesOf(b: Board, c: Color): Pieces
  {
    F.Side(b.men, c)
  }

  /** `get_color_bitboard`: the union of a side's boards. */
  function ColorBoard(b: Board, c: Color): (r: BitBoard)
    ensures forall s: Sq :: r[s] <==> exists p :: OfType(PiecesOf(b, c), p)[s]
  {
    All(PiecesOf(b, c))
  }

  /** `get_all_bitboard`. */
  function AllBoard(b: Board): (r: BitBoard)
    ensures forall s: Sq :: r[s] <==> ColorBoard(b, Black)[s] || ColorBoard(b, White)[s]
  {
    Or(ColorBoard(b, Black), ColorBoard(b, White))
  }

  /** `piece_on`. */
  function PieceOn(b: Board, s: Sq): Option<PieceType>
  {
    b.men.pieceOn[s]
  }

  // ---------------------------------------------------------------------
  // Agreement of the two records of the men.

  /** The man the kind record and the White boards together place on a square. */
  function ManOn(pl: F.Placement, s: Sq): F.Cell
  {
    match pl.pieceOn[s]
    case None => None
    case Some(p) => if OfType(pl.white, p)[s] then Some(F.Man(White, p)) else Some(F.Man(Black, p))
  }

  /**
   * On a square the records agree when a side's board of a kind holds the
   * square exactly when that man stands there: the kind record names the
   * kind, and at most one side holds it.
   */
  predicate SquareOk(pl: F.Placement, s: Sq)
  {
    forall c, p :: OfType(F.Side(pl, c), p)[s] <==> ManOn(pl, s) == Some(F.Man(c, p))
  }

  predicate Consistent(pl: F.Placement)
  {
    forall s: Sq :: SquareOk(pl, s)
  }

  /** The grid of men of a placement. */
  function Cells(pl: F.Placement): (g: F.Grid)
    ensures forall s: Sq :: g[s] == ManOn(pl, s)
  {
    seq(64, i requires 0 <= i < 64 => ManOn(pl, i))
  }

  /** On one square, a placement that shows a grid places the grid's man. */
  lemma ShowsSquare(pl: F.Placement, g: F.Grid, s: Sq)
    requires F.Shows(pl, g)
    ensures ManOn(pl, s) == g[s]
  {
    assert pl.pieceOn[s] == F.KindOf(g[s]);
    if g[s].Some? {
      var m := g[s].value;
      assert pl.pieceOn[s] == Some(m.kind);
      assert F.Side(pl, White) == pl.white;
      assert OfType(F.Side(pl, White), m.kind)[s] <==> g[s] == Some(F.Man(White, m.kind));
      if m.color == White {
        assert ManOn(pl, s) == Some(F.Man(White, m.kind));
      } else {
        assert ManOn(pl, s) == Some(F.Man(Black, m.kind));
      }
    }
  }

  /** A placement that shows a grid is consistent and shows it through its own records. */
  lemma ShowsConsistent(pl: F.Placement, g: F.Grid)
    requires F.Shows(pl, g)
    ensures Consistent(pl)
    ensures Cells(pl) == g
  {
    forall s: Sq ensures SquareOk(pl, s) {
      ShowsSquare(pl, g, s);
    }
    forall s: Sq ensures Cells(pl)[s] == g[s] {
      ShowsSquare(pl, g, s);
    }
  }

  /** A consistent placement shows its own grid. */
  lemma ConsistentShows(pl: F.Placement)
    requires Consistent(pl)
    ensures F.Shows(pl, Cells(pl))
  {
    forall c, p, s: Sq ensures OfType(F.Side(pl, c), p)[s] <==> Cells(pl)[s] == Some(F.Man(c, p)) {
      assert SquareOk(pl, s);
    }
    forall s: Sq ensures pl.pieceOn[s] == F.KindOf(Cells(pl)[s]) {
    }
  }

  // ---------------------------------------------------------------------
  // Toggling one bit, as `^= BitBoard::from_square(s)` does.

  /** One side's boards with the board of one kind toggled on one square. */
  function FlipKind(ps: Pieces, p: PieceType, s: Sq): (r: Pieces)
    ensures forall q :: q != p ==> OfType(r, q) == OfType(ps, q)
    ensures OfType(r, p) == OfType(ps, p)[s := !OfType(ps, p)[s]]
  {
    var b := Xor(OfType(ps, p), FromSquare(s));
    assert b == OfType(ps, p)[s := !OfType(ps, p)[s]];
    WithType(ps, p, b)
  }

  /** The placement with one side's board of one kind toggled on one square. */
  function Flip(pl: F.Placement, c: Color, p: PieceType, s: Sq): (r: F.Placement)
    ensures r.pieceOn == pl.pieceOn
    ensures F.Side(r, c) == FlipKind(F.Side(pl, c), p, s)
    ensures F.Side(r, Opposite(c)) == F.Side(pl, Opposite(c))
  {
    var ps' := FlipKind(F.Side(pl, c), p, s);
    match c
    case White => pl.(white := ps')
    case Black => pl.(black := ps')
  }

  /** The placement with the kind recorded on one square replaced. */
  function SetKind(pl: F.Placement, s: Sq, k: Option<PieceType>): (r: F.Placement)
    ensures r.pieceOn == pl.pieceOn[s := k]
    ensures r.white == pl.white && r.black == pl.black
  {
    pl.(pieceOn := pl.pieceOn[s := k])
  }

  // ---------------------------------------------------------------------
  // The Zobrist key from scratch.

  /** The side of a slot below 768: odd kinds of the layout are White. */
  function SlotColor(j: nat): Color
  {
    if (j / 64) % 2 == 1 then White else Black
  }

  function SlotKind(j: nat): PieceType
    requires j < Z.CastlingBase
  {
    FromIndex(j / 128)
  }

  function SlotSquare(j: nat): Sq
  {
    j % 64
  }

  /** Every piece slot stands for exactly one (kind, side, square). */
  lemma SlotDecodes(j: nat)
    requires j < Z.CastlingBase
    ensures Z.PieceSlot(SlotKind(j), SlotColor(j), SlotSquare(j)) == j
  {
    var p, c, s := SlotKind(j), SlotColor(j), SlotSquare(j);
    assert j == 64 * (j / 64) + s;
    assert j / 64 == 2 * (j / 128) + (j / 64) % 2;
    assert ZobristIndex(p) == 2 * (j / 128);
  }

  function SideOf(white: Pieces, black: Pieces, c: Color): Pieces
  {
    if c == White then white else black
  }

  /** Which of the 768 piece slots the men occupy: slot `j` when its man stands on its square. */
  function Occupancy(white: Pieces, black: Pieces): (occ: seq<bool>)
    ensures |occ| == Z.CastlingBase
    ensures forall j :: 0 <= j < Z.CastlingBase ==>
      occ[j] == OfType(SideOf(white, black, SlotColor(j)), SlotKind(j))[SlotSquare(j)]
  {
    seq(Z.CastlingBase, j requires 0 <= j < Z.CastlingBase =>
      OfType(SideOf(white, black, SlotColor(j)), SlotKind(j))[SlotSquare(j)])
  }

  /** The value of slot `j` when it is in `slots`. */
  function SlotValue(v: Z.Values, slots: seq<bool>, j: nat): Z.Key
    requires j < |slots| <= |v|
  {
    if slots[j] then v[j] else Empty
  }

  /** The xor of the values of the slots from `j` on that are in `slots`. */
  function XorOf(v: Z.Values, slots: seq<bool>, j: nat): Z.Key
    requires j <= |slots| <= |v|
    decreases |slots| - j
  {
    if j == |slots| then Empty else Xor(SlotValue(v, slots, j), XorOf(v, slots, j + 1))
  }

  /**
   * The men's part of `create_zobrist_key`: the value of every man on its
   * square, xor-ed together. The source visits the set bits board by
   * board; xor does not depend on the order, so the model visits the slots.
   */
  function MenKey(v: Z.Values, pl: F.Placement): Z.Key
  {
    XorOf(v, Occupancy(pl.white, pl.black), 0)
  }

  /** `update_ep_zobrist`: an e.p. square is set and a pawn of `capturing` attacks it. */
  predicate EpFlag(o: Magic, b: Board, capturing: Color)
  {
    !IsEmpty(b.ep) && !IsEmpty(And(o.epAttacks(FirstPieceIndex(b.ep)), OfType(PiecesOf(b, capturing), Pawn)))
  }

  /** The e.p. part of the key. */
  function EpKeyOf(o: Magic, b: Board): Z.Key
  {
    if EpFlag(o, b, b.turn) then Z.EpKey(o.keys, FirstPieceIndex(b.ep)) else Empty
  }

  function TurnKey(o: Magic, c: Color): Z.Key
  {
    if c == White then Z.WhiteTurnKey(o.keys) else Empty
  }

  /** `create_zobrist_key`: men, castling rights, the e.p. flag, the side to move. */
  function ScratchKey(o: Magic, b: Board): Z.Key
  {
    Xor(Xor(Xor(MenKey(o.keys, b.men), Z.CastlingKey(o.keys, b.castling)), EpKeyOf(o, b)), TurnKey(o, b.turn))
  }

  /** Toggling a bit of one board toggles that man's slot and leaves every other slot. */
  lemma SlotFlip(pl: F.Placement, c: Color, p: PieceType, s: Sq, j: nat)
    requires j < Z.CastlingBase
    ensures var r := Flip(pl, c, p, s);
      Occupancy(r.white, r.black)[j]
        == if j == Z.PieceSlot(p, c, s) then !Occupancy(pl.white, pl.black)[j] else Occupancy(pl.white, pl.black)[j]
  {
    var r := Flip(pl, c, p, s);
    var d, q, t := SlotColor(j), SlotKind(j), SlotSquare(j);
    SlotDecodes(j);
    Z.PieceSlotInjective(p, c, s, q, d, t);
    var before := OfType(SideOf(pl.white, pl.black, d), q);
    var after := OfType(SideOf(r.white, r.black, d), q);
    assert Occupancy(pl.white, pl.black)[j] == before[t];
    assert Occupancy(r.white, r.black)[j] == after[t];
    if d != c {
      assert d == Opposite(c);
      assert SideOf(r.white, r.black, d) == F.Side(r, d) && SideOf(pl.white, pl.black, d) == F.Side(pl, d);
    } else {
      assert SideOf(r.white, r.black, d) == FlipKind(F.Side(pl, c), p, s);
      assert SideOf(pl.white, pl.black, d) == F.Side(pl, c);
      if q == p {
        assert after == before[s := !before[s]];
      }
    }
  }

  /** Toggling a bit of one board toggles exactly that man's slot. */
  lemma OccupancyFlip(pl: F.Placement, c: Color, p: PieceType, s: Sq)
    ensures var r := Flip(pl, c, p, s);
      var occ := Occupancy(pl.white, pl.black);
      var slot := Z.PieceSlot(p, c, s);
      Occupancy(r.white, r.black) == occ[slot := !occ[slot]]
  {
    var r := Flip(pl, c, p, s);
    var occ := Occupancy(pl.white, pl.black);
    var slot := Z.PieceSlot(p, c, s);
    forall j | 0 <= j < Z.CastlingBase
      ensures Occupancy(r.white, r.black)[j] == occ[slot := !occ[slot]][j]
    {
      SlotFlip(pl, c, p, s, j);
    }
  }

  /** Slot sets that agree from `j` on have the same xor from `j` on. */
  lemma {:induction false} XorOfAgree(v: Z.Values, slots: seq<bool>, slots': seq<bool>, j: nat)
    requires |slots| <= |v| && |slots'| == |slots| && j <= |slots|
    requires forall i | j <= i < |slots| :: slots'[i] == slots[i]
    ensures XorOf(v, slots', j) == XorOf(v, slots, j)
    decreases |slots| - j
  {
    if j < |slots| {
      XorOfAgree(v, slots, slots', j + 1);
      assert SlotValue(v, slots', j) == SlotValue(v, slots, j);
    }
  }

  /** Toggling slot `t` changes the xor of the slots up to `t` by that slot's value. */
  lemma {:induction false} XorOfToggle(v: Z.Values, slots: seq<bool>, t: nat, j: nat)
    requires t < |slots| <= |v| && j <= t
    ensures XorOf(v, slots[t := !slots[t]], j) == Xor(XorOf(v, slots, j), v[t])
    decreases |slots| - j
  {
    var slots' := slots[t := !slots[t]];
    var rest := XorOf(v, slots, j + 1);
    if j == t {
      XorOfAgree(v, slots, slots', j + 1);
      XorCancel(v[t], rest);
      XorCancel(rest, v[t]);
    } else {
      XorOfToggle(v, slots, t, j + 1);
      assert SlotValue(v, slots', j) == SlotValue(v, slots, j);
      XorAssoc(SlotValue(v, slots, j), rest, v[t]);
    }
  }

  /** Toggling one bit of one board changes the men's key by exactly that man's value. */
  lemma FlipKey(v: Z.Values, pl: F.Placement, c: Color, p: PieceType, s: Sq)
    ensures MenKey(v, Flip(pl, c, p, s)) == Xor(MenKey(v, pl), Z.PieceKey(v, p, c, s))
  {
    OccupancyFlip(pl, c, p, s);
    XorOfToggle(v, Occupancy(pl.white, pl.black), Z.PieceSlot(p, c, s), 0);
  }
}
