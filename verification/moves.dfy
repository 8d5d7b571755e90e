/**
 * Moves of the engine core (`shakmat-core/src/game_elements/movement.rs`)
 * and their coordinate notation: "e2e4", "e7e8q", "O-O", "O-O-O".
 * Text is a sequence of ASCII characters, one per byte.
 */
module Moves {
  import opened Base
  import opened BitBoards
  import opened PieceTypes
  import Pos = Positions

  datatype Move =
    | Normal(from: Sq, to: Sq)
    | PawnPromotion(from: Sq, to: Sq, promoteTo: PieceType)
    | ShortCastle
    | LongCastle

  datatype MoveError = InvalidMove | BadSquare(err: Pos.SquareError)

  /** `Move::empty`: the placeholder h1-to-h1 move `Normal{0, 0}`. */
  function EmptyMove(): (m: Move)
    ensures m.Normal? && m.from == m.to
  {
    Normal(0, 0)
  }

  /** `to()`, which is unimplemented for castles. */
  function To(m: Move): (s: Sq)
    requires m.Normal? || m.PawnPromotion?
    ensures s == m.to
  {
    match m
    case Normal(_, to) => to
    case PawnPromotion(_, to, _) => to
  }

  /** `from()`, which is unimplemented for castles. */
  function From(m: Move): (s: Sq)
    requires m.Normal? || m.PawnPromotion?
    ensures s == m.from
  {
    match m
    case Normal(from, _) => from
    case PawnPromotion(from, _, _) => from
  }

  /**
   * `is_capture`: the destination is occupied, or, for a normal move, is
   * the en passant square; castles never capture.
   */
  function IsCapture(m: Move, occupied: BitBoard, epSquare: BitBoard): (b: bool)
    ensures (m.ShortCastle? || m.LongCastle?) ==> !b
    ensures m.PawnPromotion? ==> (b <==> occupied[m.to])
    ensures m.Normal? ==> (b <==> occupied[m.to] || epSquare[m.to])
  {
    match m
    case Normal(_, to) =>
      MaskSquare(to, Or(occupied, epSquare));
      IsNotEmpty(And(FromSquare(to), Or(occupied, epSquare)))
    case PawnPromotion(_, to, _) =>
      MaskSquare(to, occupied);
      IsNotEmpty(And(FromSquare(to), occupied))
    case _ => false
  }

  /**
   * `piece_moving`: the piece on the origin of a normal move (unwrapped, so
   * it must be there), a pawn for a promotion and the king for a castle.
   */
  function PieceMoving(m: Move, pieceOn: seq<Option<PieceType>>): (p: PieceType)
    requires |pieceOn| == 64
    requires m.Normal? ==> pieceOn[m.from].Some?
    ensures m.PawnPromotion? ==> p == Pawn
    ensures (m.ShortCastle? || m.LongCastle?) ==> p == King
    ensures m.Normal? ==> Some(p) == pieceOn[m.from]
  {
    match m
    case Normal(from, _) => pieceOn[from].value
    case PawnPromotion(_, _, _) => Pawn
    case _ => King
  }

  /** `piece_captured`: the piece on the destination; None for castles. */
  function PieceCaptured(m: Move, pieceOn: seq<Option<PieceType>>): (p: Option<PieceType>)
    requires |pieceOn| == 64
    ensures (m.ShortCastle? || m.LongCastle?) ==> p.None?
    ensures (m.Normal? || m.PawnPromotion?) ==> p == pieceOn[m.to]
  {
    match m
    case Normal(_, to) => pieceOn[to]
    case PawnPromotion(_, to, _) => pieceOn[to]
    case _ => None
  }

  // ---------------------------------------------------------------------
  // Notation.

  /** The four pieces a pawn may promote to. */
  predicate IsPromotionPiece(p: PieceType)
  {
    p == Queen || p == Rook || p == Bishop || p == Knight
  }

  /** ASCII `to_lowercase`. */
  function Lower(c: char): (d: char)
    ensures 'A' <= c <= 'Z' ==> d as int == c as int + 32
    ensures !('A' <= c <= 'Z') ==> d == c
  {
    if 'A' <= c <= 'Z' then (c as int + 32) as char else c
  }

  function LowerString(s: string): (t: string)
    ensures |t| == |s| && forall i :: 0 <= i < |s| ==> t[i] == Lower(s[i])
  {
    if s == [] then [] else [Lower(s[0])] + LowerString(s[1..])
  }

  /** The promotion suffixes after lower-casing. */
  const PromotionSuffixes: set<string> := {"q", "=q", "r", "=r", "b", "=b", "n", "=n"}

  /** The piece a promotion suffix names, in either case and with or without "=". */
  function PromotionOfSuffix(suffix: string): (p: Option<PieceType>)
    ensures p.Some? <==> LowerString(suffix) in PromotionSuffixes
    ensures p.Some? ==> IsPromotionPiece(p.value)
    ensures p.Some? ==> LowerString(suffix)[|suffix| - 1] == PromotionLetter(p.value)
  {
    var s := LowerString(suffix);
    if s == "q" || s == "=q" then Some(Queen)
    else if s == "r" || s == "=r" then Some(Rook)
    else if s == "b" || s == "=b" then Some(Bishop)
    else if s == "n" || s == "=n" then Some(Knight)
    else None
  }

  /** `Move::from_notation`. */
  function FromNotation(text: string): (r: Result<Move, MoveError>)
    ensures text in {"O-O", "0-0"} ==> r == Ok(ShortCastle)
    ensures text in {"O-O-O", "0-0-0"} ==> r == Ok(LongCastle)
    ensures text !in {"O-O", "0-0", "O-O-O", "0-0-0"} && |text| < 4 ==> r == Err(InvalidMove)
    ensures r.Ok? && r.value.Normal? ==>
      |text| == 4 && Pos.SquareFromNotation(text[0..2]) == Ok(r.value.from) && Pos.SquareFromNotation(text[2..4]) == Ok(r.value.to)
    ensures r.Ok? && r.value.PawnPromotion? ==>
      |text| > 4 && Pos.SquareFromNotation(text[0..2]) == Ok(r.value.from) && Pos.SquareFromNotation(text[2..4]) == Ok(r.value.to)
      && PromotionOfSuffix(text[4..]) == Some(r.value.promoteTo)
    ensures |text| > 4 && text !in {"O-O-O", "0-0-0"} && Pos.SquareFromNotation(text[0..2]).Ok? && Pos.SquareFromNotation(text[2..4]).Ok?
      ==> (r.Ok? <==> PromotionOfSuffix(text[4..]).Some?)
  {
    if text == "O-O" || text == "0-0" then Ok(ShortCastle)
    else if text == "O-O-O" || text == "0-0-0" then Ok(LongCastle)
    else if |text| >= 4 then
      match Pos.SquareFromNotation(text[0..2])
      case Err(e) => Err(BadSquare(e))
      case Ok(from) =>
        match Pos.SquareFromNotation(text[2..4])
        case Err(e) => Err(BadSquare(e))
        case Ok(to) =>
          if |text| == 4 then Ok(Normal(from, to))
          else
            match PromotionOfSuffix(text[4..])
            case None => Err(InvalidMove)
            case Some(p) => Ok(PawnPromotion(from, to, p))
    else Err(InvalidMove)
  }

  /** The lower-case letter a promotion prints. */
  function PromotionLetter(p: PieceType): (c: char)
    requires IsPromotionPiece(p)
    ensures c in "qrbn"
  {
    match p
    case Queen => 'q'
    case Rook => 'r'
    case Bishop => 'b'
    case Knight => 'n'
  }

  /** `Display`: the two squares, then the lower-case promotion letter; castles as "O-O" and "O-O-O". */
  function Notation(m: Move): (text: string)
    requires m.PawnPromotion? ==> IsPromotionPiece(m.promoteTo)
    ensures m.Normal? ==> |text| == 4
    ensures m.PawnPromotion? ==> |text| == 5
    ensures (m.Normal? || m.PawnPromotion?) ==>
      text[0..2] == Pos.SquareNotation(m.from) && text[2..4] == Pos.SquareNotation(m.to)
  {
    match m
    case Normal(from, to) => Pos.SquareNotation(from) + Pos.SquareNotation(to)
    case ShortCastle => "O-O"
    case LongCastle => "O-O-O"
    case PawnPromotion(from, to, p) => Pos.SquareNotation(from) + Pos.SquareNotation(to) + [PromotionLetter(p)]
  }

  /** Printing then parsing a move gives the move back. */
  lemma NotationRoundTrip(m: Move)
    requires m.PawnPromotion? ==> IsPromotionPiece(m.promoteTo)
    ensures FromNotation(Notation(m)) == Ok(m)
  {
    match m
    case ShortCastle =>
    case LongCastle =>
    case Normal(from, to) => NormalRoundTrip(from, to);
    case PawnPromotion(from, to, p) => PromotionRoundTrip(from, to, p);
  }

  lemma NormalRoundTrip(from: Sq, to: Sq)
    ensures FromNotation(Notation(Normal(from, to))) == Ok(Normal(from, to))
  {
    var text := Notation(Normal(from, to));
    Pos.SquareNotationRoundTrip(from);
    Pos.SquareNotationRoundTrip(to);
    assert |text| == 4;
    assert text != "O-O" && text != "0-0" && text != "O-O-O" && text != "0-0-0";
  }

  lemma PromotionRoundTrip(from: Sq, to: Sq, p: PieceType)
    requires IsPromotionPiece(p)
    ensures FromNotation(Notation(PawnPromotion(from, to, p))) == Ok(PawnPromotion(from, to, p))
  {
    var text := Notation(PawnPromotion(from, to, p));
    Pos.SquareNotationRoundTrip(from);
    Pos.SquareNotationRoundTrip(to);
    assert |text| == 5;
    assert text != "O-O" && text != "0-0" && text != "O-O-O" && text != "0-0-0";
    assert text[4..] == [PromotionLetter(p)];
    assert LowerString(text[4..]) == [PromotionLetter(p)];
    assert PromotionOfSuffix(text[4..]) == Some(p);
  }

  /** Distinct moves print differently, so printed moves can key a map. */
  lemma NotationInjective(m: Move, n: Move)
    requires m.PawnPromotion? ==> IsPromotionPiece(m.promoteTo)
    requires n.PawnPromotion? ==> IsPromotionPiece(n.promoteTo)
    requires Notation(m) == Notation(n)
    ensures m == n
  {
    NotationRoundTrip(m);
    NotationRoundTrip(n);
  }

  /** Printed moves contain no upper-case letter, so lower-casing them changes nothing. */
  lemma NotationIsLowerCase(m: Move)
    requires m.PawnPromotion? ==> IsPromotionPiece(m.promoteTo)
    ensures m.Normal? || m.PawnPromotion? ==> LowerString(Notation(m)) == Notation(m)
  {
    if m.Normal? || m.PawnPromotion? {
      var text := Notation(m);
      NotationHasNoCapital(m.from);
      NotationHasNoCapital(m.to);
      assert forall i :: 0 <= i < |text| ==> !IsCapital(text[i]) by {
        assert text[..2] == Pos.SquareNotation(m.from) && text[2..4] == Pos.SquareNotation(m.to);
        assert forall i :: 0 <= i < 2 ==> text[i] == text[..2][i] && text[i + 2] == text[2..4][i];
      }
      LowerStringKeeps(text);
    }
  }

  predicate IsCapital(c: char)
  {
    'A' <= c <= 'Z'
  }

  /** Lower-casing a text without capitals gives it back. */
  lemma LowerStringKeeps(s: string)
    requires forall i :: 0 <= i < |s| ==> !IsCapital(s[i])
    ensures LowerString(s) == s
  {
  }

  /** A square is printed as a small letter and a digit. */
  lemma NotationHasNoCapital(s: Sq)
    ensures forall i :: 0 <= i < 2 ==> !IsCapital(Pos.SquareNotation(s)[i])
  {
    var f := Pos.File(s);
    var r := Pos.Rank(s);
    assert 'a' <= Pos.FileLetters[f] <= 'h' by {
      assert f == 0 || f == 1 || f == 2 || f == 3 || f == 4 || f == 5 || f == 6 || f == 7;
    }
    assert '1' <= Pos.RankDigits[r] <= '8' by {
      assert r == 0 || r == 1 || r == 2 || r == 3 || r == 4 || r == 5 || r == 6 || r == 7;
    }
  }
}
