/** The six kinds of chess men, their array and Zobrist indices and their glyphs. */
module PieceTypes {
  import opened Colors

  datatype PieceType = Pawn | Knight | Bishop | Rook | Queen | King

  const AllTypes: seq<PieceType> := [Pawn, Knight, Bishop, Rook, Queen, King]

  /** Array index of a kind: Pawn 0, Knight 1, ..., King 5. */
  function ToIndex(p: PieceType): (i: nat)
    ensures i < 6
    ensures AllTypes[i] == p
  {
    match p
    case Pawn => 0
    case Knight => 1
    case Bishop => 2
    case Rook => 3
    case Queen => 4
    case King => 5
  }

  /** The kind stored at an array index; the inverse of `ToIndex`. */
  function FromIndex(i: nat): (p: PieceType)
    requires i < 6
    ensures ToIndex(p) == i
  {
    AllTypes[i]
  }

  /** Zobrist index of a kind: the even slots 0, 2, ..., 10. */
  function ZobristIndex(p: PieceType): (z: nat)
    ensures z == 2 * ToIndex(p)
  {
    match p
    case Pawn => 0
    case Knight => 2
    case Bishop => 4
    case Rook => 6
    case Queen => 8
    case King => 10
  }

  /**
   * The Unicode chess glyph of a man: the outlined set U+2654..U+2659 for
   * White and the filled set U+265A..U+265F for Black.  The same table is
   * used by every revision of the program.
   */
  function Glyph(c: Color, p: PieceType): (g: char)
    ensures c == White ==> '\U{2654}' <= g <= '\U{2659}'
    ensures c == Black ==> '\U{265A}' <= g <= '\U{265F}'
  {
    match (c, p)
    case (White, Pawn) => '\U{2659}'
    case (White, Knight) => '\U{2658}'
    case (White, Bishop) => '\U{2657}'
    case (White, Rook) => '\U{2656}'
    case (White, Queen) => '\U{2655}'
    case (White, King) => '\U{2654}'
    case (Black, Pawn) => '\U{265F}'
    case (Black, Knight) => '\U{265E}'
    case (Black, Bishop) => '\U{265D}'
    case (Black, Rook) => '\U{265C}'
    case (Black, Queen) => '\U{265B}'
    case (Black, King) => '\U{265A}'
  }

  lemma IndexBijective(p: PieceType, q: PieceType, i: nat)
    ensures ToIndex(p) == ToIndex(q) <==> p == q
    ensures i < 6 ==> ToIndex(FromIndex(i)) == i
    ensures FromIndex(ToIndex(p)) == p
  {
  }

  /** Distinct (side, kind) pairs never share a glyph. */
  lemma GlyphInjective(c: Color, p: PieceType, d: Color, q: PieceType)
    ensures Glyph(c, p) == Glyph(d, q) <==> c == d && p == q
  {
  }

  /** The glyphs of one side are six distinct characters, none used by the other side. */
  lemma GlyphSetsDisjoint(c: Color)
    ensures forall p, q :: Glyph(c, p) == Glyph(c, q) ==> p == q
    ensures forall p, q :: Glyph(c, p) != Glyph(Opposite(c), q)
  {
    forall p, q ensures Glyph(c, p) == Glyph(c, q) ==> p == q {
      GlyphInjective(c, p, c, q);
    }
    forall p, q ensures Glyph(c, p) != Glyph(Opposite(c), q) {
      GlyphInjective(c, p, Opposite(c), q);
    }
  }
}
