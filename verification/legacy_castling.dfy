/**
 * Castling rights of the first revision (`src/game_elements/castling.rs`):
 * four independent flags.  The packed rights of the engine core are proved
 * against this record.
 */
module LegacyCastling {
  import opened Colors

  datatype CastlingRights = CastlingRights(
    whiteKingSide: bool,
    whiteQueenSide: bool,
    blackKingSide: bool,
    blackQueenSide: bool)

  /** `new`: the four flags in the order white king side, white queen side, black king side, black queen side. */
  function New(wk: bool, wq: bool, bk: bool, bq: bool): (r: CastlingRights)
    ensures r.whiteKingSide == wk && r.whiteQueenSide == wq
    ensures r.blackKingSide == bk && r.blackQueenSide == bq
  {
    CastlingRights(wk, wq, bk, bq)
  }

  /** `none`: no side may castle. */
  function NoRights(): (r: CastlingRights)
    ensures !r.whiteKingSide && !r.whiteQueenSide && !r.blackKingSide && !r.blackQueenSide
  {
    New(false, false, false, false)
  }

  /** `default`: both sides may castle both ways. */
  function Default(): (r: CastlingRights)
    ensures r.whiteKingSide && r.whiteQueenSide && r.blackKingSide && r.blackQueenSide
  {
    New(true, true, true, true)
  }

  /** The king-side flag of a colour. */
  function KingSide(r: CastlingRights, c: Color): bool
  {
    match c
    case White => r.whiteKingSide
    case Black => r.blackKingSide
  }

  /** The queen-side flag of a colour. */
  function QueenSide(r: CastlingRights, c: Color): bool
  {
    match c
    case White => r.whiteQueenSide
    case Black => r.blackQueenSide
  }

  /** `update_kingside`: sets the king-side flag of `c` and no other. */
  function UpdateKingside(r: CastlingRights, c: Color, canCastle: bool): (r': CastlingRights)
    ensures KingSide(r', c) == canCastle
    ensures KingSide(r', Opposite(c)) == KingSide(r, Opposite(c))
    ensures forall d :: QueenSide(r', d) == QueenSide(r, d)
  {
    match c
    case White => r.(whiteKingSide := canCastle)
    case Black => r.(blackKingSide := canCastle)
  }

  /** `update_queenside`: sets the queen-side flag of `c` and no other. */
  function UpdateQueenside(r: CastlingRights, c: Color, canCastle: bool): (r': CastlingRights)
    ensures QueenSide(r', c) == canCastle
    ensures QueenSide(r', Opposite(c)) == QueenSide(r, Opposite(c))
    ensures forall d :: KingSide(r', d) == KingSide(r, d)
  {
    match c
    case White => r.(whiteQueenSide := canCastle)
    case Black => r.(blackQueenSide := canCastle)
  }

  /** Two records with the same flags for both colours are the same record. */
  lemma FlagsDetermine(r: CastlingRights, q: CastlingRights)
    requires forall c :: KingSide(r, c) == KingSide(q, c) && QueenSide(r, c) == QueenSide(q, c)
    ensures r == q
  {
    assert KingSide(r, White) == KingSide(q, White) && QueenSide(r, White) == QueenSide(q, White);
    assert KingSide(r, Black) == KingSide(q, Black) && QueenSide(r, Black) == QueenSide(q, Black);
  }

  /** Updates of different flags commute, and repeating an update changes nothing more. */
  lemma UpdatesCommute(r: CastlingRights, c: Color, d: Color, a: bool, b: bool)
    ensures UpdateQueenside(UpdateKingside(r, c, a), d, b) == UpdateKingside(UpdateQueenside(r, d, b), c, a)
    ensures UpdateKingside(UpdateKingside(r, c, a), c, a) == UpdateKingside(r, c, a)
    ensures UpdateQueenside(UpdateQueenside(r, d, b), d, b) == UpdateQueenside(r, d, b)
  {
  }
}
