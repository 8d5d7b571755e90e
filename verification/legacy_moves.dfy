/**
 * Moves of the first revision (`src/chess/game_elements/movement.rs`).
 * They print promotions as "e7e8=Q"; the core's parser reads that text
 * back to the corresponding core move.
 */
module LegacyMoves {
  import opened Base
  import opened BitBoards
  import opened PieceTypes
  import Pos = Positions
  import M = Moves

  datatype Move =
    | NormalMove(from: Sq, to: Sq)
    | ShortCastle
    | LongCastle
    | PawnPromotion(from: Sq, to: Sq, promoteTo: PieceType)

  /** `to()`, unimplemented for castles. */
  function To(m: Move): (s: Sq)
    requires m.NormalMove? || m.PawnPromotion?
    ensures s == m.to
  {
    match m
    case NormalMove(_, to) => to
    case PawnPromotion(_, to, _) => to
  }

  /** `from()`, unimplemented for castles. */
  function From(m: Move): (s: Sq)
    requires m.NormalMove? || m.PawnPromotion?
    ensures s == m.from
  {
    match m
    case NormalMove(from, _) => from
    case PawnPromotion(from, _, _) => from
  }

  /** The upper-case letter a promotion prints. */
  function PromotionLetter(p: PieceType): (c: char)
    requires M.IsPromotionPiece(p)
    ensures M.Lower(c) == M.PromotionLetter(p)
  {
    match p
    case Queen => 'Q'
    case Rook => 'R'
    case Bishop => 'B'
    case Knight => 'N'
  }

  /**
   * `Display`: castles as "O-O" and "O-O-O", a normal move as its two
   * squares, a promotion as its two squares, "=" and an upper-case letter.
   */
  function Notation(m: Move): (text: string)
    requires m.PawnPromotion? ==> M.IsPromotionPiece(m.promoteTo)
    ensures m.ShortCastle? ==> text == "O-O"
    ensures m.LongCastle? ==> text == "O-O-O"
    ensures m.NormalMove? ==> text == Pos.SquareNotation(m.from) + Pos.SquareNotation(m.to)
    ensures m.PawnPromotion? ==> |text| == 6 && text[..4] == Pos.SquareNotation(m.from) + Pos.SquareNotation(m.to)
    ensures m.PawnPromotion? ==> text[4] == '=' && text[5] in "QRBN"
  {
    match m
    case NormalMove(from, to) => Pos.SquareNotation(from) + Pos.SquareNotation(to)
    case ShortCastle => "O-O"
    case LongCastle => "O-O-O"
    case PawnPromotion(from, to, p) =>
      Pos.SquareNotation(from) + Pos.SquareNotation(to) + ['=', PromotionLetter(p)]
  }

  /** The core move with the same meaning. */
  function ToCore(m: Move): (c: M.Move)
  {
    match m
    case NormalMove(from, to) => M.Normal(from, to)
    case ShortCastle => M.ShortCastle
    case LongCastle => M.LongCastle
    case PawnPromotion(from, to, p) => M.PawnPromotion(from, to, p)
  }

  /** The core parser reads what this revision prints as the matching core move. */
  lemma CoreParsesLegacyNotation(m: Move)
    requires m.PawnPromotion? ==> M.IsPromotionPiece(m.promoteTo)
    ensures M.FromNotation(Notation(m)) == Ok(ToCore(m))
  {
    match m
    case ShortCastle =>
    case LongCastle =>
    case NormalMove(from, to) =>
      M.NormalRoundTrip(from, to);
    case PawnPromotion(from, to, p) =>
      PromotionParses(from, to, p);
  }

  lemma PromotionParses(from: Sq, to: Sq, p: PieceType)
    requires M.IsPromotionPiece(p)
    ensures M.FromNotation(Notation(PawnPromotion(from, to, p))) == Ok(M.PawnPromotion(from, to, p))
  {
    var text := Notation(PawnPromotion(from, to, p));
    Pos.SquareNotationRoundTrip(from);
    Pos.SquareNotationRoundTrip(to);
    assert text[0..2] == Pos.SquareNotation(from);
    assert text[2..4] == Pos.SquareNotation(to);
    assert |text| == 6;
    assert text != "O-O" && text != "0-0" && text != "O-O-O" && text != "0-0-0";
    SuffixParses(p);
    assert text[4..] == ['=', PromotionLetter(p)];
  }

  lemma SuffixParses(p: PieceType)
    requires M.IsPromotionPiece(p)
    ensures M.PromotionOfSuffix(['=', PromotionLetter(p)]) == Some(p)
  {
    assert M.LowerString(['=', PromotionLetter(p)]) == ['=', M.PromotionLetter(p)];
  }

  /** The two revisions print everything but promotions identically. */
  lemma SameTextExceptPromotions(m: Move)
    requires !m.PawnPromotion?
    ensures Notation(m) == M.Notation(ToCore(m))
  {
  }
}
