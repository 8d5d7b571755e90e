/**
 * `Pieces` of `shakmat-core/src/board/chess_board.rs`: one board per kind
 * of man for one side, with access by kind and the masking used when a
 * man is captured.
 */
module PieceSets {
  import opened PieceTypes
  import opened BitBoards

  datatype Pieces = Pieces(
    pawns: BitBoard,
    rooks: BitBoard,
    knights: BitBoard,
    bishops: BitBoard,
    queens: BitBoard,
    king: BitBoard)

  /** `Pieces::default`: no men at all. */
  const NoPieces: Pieces := Pieces(Empty, Empty, Empty, Empty, Empty, Empty)

  /** `get_pieces_of_type`. */
  function OfType(ps: Pieces, p: PieceType): BitBoard
  {
    match p
    case Pawn => ps.pawns
    case Knight => ps.knights
    case Bishop => ps.bishops
    case Rook => ps.rooks
    case Queen => ps.queens
    case King => ps.king
  }

  /** Assignment through `get_pieces_of_type_mut`: one kind replaced, the others kept. */
  function WithType(ps: Pieces, p: PieceType, b: BitBoard): (r: Pieces)
    ensures OfType(r, p) == b
    ensures forall q :: q != p ==> OfType(r, q) == OfType(ps, q)
  {
    match p
    case Pawn => ps.(pawns := b)
    case Knight => ps.(knights := b)
    case Bishop => ps.(bishops := b)
    case Rook => ps.(rooks := b)
    case Queen => ps.(queens := b)
    case King => ps.(king := b)
  }

  /** Two piece sets with the same board for every kind are equal. */
  lemma KindsDetermine(ps: Pieces, qs: Pieces)
    requires forall p :: OfType(ps, p) == OfType(qs, p)
    ensures ps == qs
  {
    assert OfType(ps, Pawn) == OfType(qs, Pawn);
    assert OfType(ps, Knight) == OfType(qs, Knight);
    assert OfType(ps, Bishop) == OfType(qs, Bishop);
    assert OfType(ps, Rook) == OfType(qs, Rook);
    assert OfType(ps, Queen) == OfType(qs, Queen);
    assert OfType(ps, King) == OfType(qs, King);
  }

  /** Every kind of `NoPieces` is empty. */
  lemma NoPiecesEmpty(p: PieceType)
    ensures OfType(NoPieces, p) == Empty
    ensures forall s: Sq :: !OfType(NoPieces, p)[s]
  {
    EmptyAndOnes();
  }

  /** `apply_mask`: every kind's board and-ed with the mask. */
  function ApplyMask(ps: Pieces, mask: BitBoard): (r: Pieces)
    ensures forall p :: OfType(r, p) == And(OfType(ps, p), mask)
  {
    Pieces(And(ps.pawns, mask), And(ps.rooks, mask), And(ps.knights, mask),
           And(ps.bishops, mask), And(ps.queens, mask), And(ps.king, mask))
  }

  /** The union of the six boards (`update_aux_bitboards`). */
  function All(ps: Pieces): (b: BitBoard)
    ensures forall s: Sq :: b[s] <==> exists p :: OfType(ps, p)[s]
  {
    var b := Or(Or(Or(Or(Or(ps.pawns, ps.rooks), ps.knights), ps.bishops), ps.queens), ps.king);
    assert forall s: Sq :: b[s] ==> exists p :: OfType(ps, p)[s] by {
      forall s: Sq | b[s] ensures exists p :: OfType(ps, p)[s] {
        if ps.pawns[s] { assert OfType(ps, Pawn)[s]; }
        else if ps.rooks[s] { assert OfType(ps, Rook)[s]; }
        else if ps.knights[s] { assert OfType(ps, Knight)[s]; }
        else if ps.bishops[s] { assert OfType(ps, Bishop)[s]; }
        else if ps.queens[s] { assert OfType(ps, Queen)[s]; }
        else { assert OfType(ps, King)[s]; }
      }
    }
    b
  }

  /** Masking with the complement of a square takes every man off that square and nothing else. */
  lemma MaskOutSquare(ps: Pieces, s: Sq)
    ensures forall p :: !OfType(ApplyMask(ps, Not(FromSquare(s))), p)[s]
    ensures forall p, t: Sq :: t != s ==> OfType(ApplyMask(ps, Not(FromSquare(s))), p)[t] == OfType(ps, p)[t]
    ensures !All(ApplyMask(ps, Not(FromSquare(s))))[s]
  {
  }
}
