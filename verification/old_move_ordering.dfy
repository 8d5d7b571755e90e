/**
 * The earlier move ordering (`shakmat-engine/src/move_ordering.rs`): `i16`
 * ratings, captures tested before the last-square tier, and one value for
 * both killer slots. The board view, the MVV-LVA tables and the rated-move
 * record are those of the current ordering.
 */
module OldMoveOrdering {
  import opened Base
  import opened PieceTypes
  import opened Moves
  import opened Sorting
  import MO = MoveOrdering

  const TtMove: int := 10000
  const LastRecapture: int := 1000
  const Killer: int := 50
  const Capture: int := 100

  /** `piece_moving` unwraps the origin of a normal capture that is not the table move. */
  predicate Rateable(mv: Move, pv: Option<Move>, b: MO.BoardView)
    requires MO.WellFormed(b)
  {
    pv == Some(mv) || PieceCaptured(mv, b.pieceOn).None? || !mv.Normal? || b.pieceOn[mv.from].Some?
  }

  /** `rate_move` before the negation. */
  function Rating(mv: Move, pv: Option<Move>, b: MO.BoardView, killers: (Move, Move)): int
    requires MO.WellFormed(b) && Rateable(mv, pv, b)
  {
    if pv == Some(mv) then TtMove
    else match PieceCaptured(mv, b.pieceOn)
      case Some(captured) =>
        Capture + MO.ValueOfCaptureAsWritten(captured) - MO.ValueOfAttacker(PieceMoving(mv, b.pieceOn))
      case None =>
        if MO.IsRecapture(mv, b) then LastRecapture
        else if killers.0 == mv || killers.1 == mv then Killer
        else 0
  }

  /** The tiers in the order `rate_move` tests them. */
  datatype Tier = PvTier | CaptureTier | RecaptureTier | KillerTier | OtherTier

  function TierOf(mv: Move, pv: Option<Move>, b: MO.BoardView, killers: (Move, Move)): Tier
    requires MO.WellFormed(b)
  {
    if pv == Some(mv) then PvTier
    else if PieceCaptured(mv, b.pieceOn).Some? then CaptureTier
    else if MO.IsRecapture(mv, b) then RecaptureTier
    else if killers.0 == mv || killers.1 == mv then KillerTier
    else OtherTier
  }

  /** Rank by rating value: the last-square tier sits above the captures. */
  function Rank(t: Tier): nat
  {
    match t
    case PvTier => 0
    case RecaptureTier => 1
    case CaptureTier => 2
    case KillerTier => 3
    case OtherTier => 4
  }

  /** A capture whose victim is not a king. */
  predicate OrdinaryCapture(mv: Move, b: MO.BoardView)
    requires MO.WellFormed(b)
  {
    PieceCaptured(mv, b.pieceOn).Some? ==> PieceCaptured(mv, b.pieceOn) != Some(King)
  }

  /**
   * The value of each tier: 10000, 1000 for a non-capture onto the last
   * square, `100 + victim - attacker` for a capture, 50 for either killer
   * and 0 otherwise; every rating fits an `i16`.
   */
  lemma RatingByTier(mv: Move, pv: Option<Move>, b: MO.BoardView, killers: (Move, Move))
    requires MO.WellFormed(b) && Rateable(mv, pv, b)
    ensures IsI16(Rating(mv, pv, b, killers))
    ensures TierOf(mv, pv, b, killers) == PvTier <==> Rating(mv, pv, b, killers) == TtMove && pv == Some(mv)
    ensures TierOf(mv, pv, b, killers) == CaptureTier ==>
      101 <= Rating(mv, pv, b, killers) <= 10089
      && Rating(mv, pv, b, killers) == 100 + MO.ValueOfCaptureAsWritten(PieceCaptured(mv, b.pieceOn).value)
           - MO.ValueOfAttacker(PieceMoving(mv, b.pieceOn))
    ensures TierOf(mv, pv, b, killers) == CaptureTier && OrdinaryCapture(mv, b) ==> Rating(mv, pv, b, killers) <= 990
    ensures TierOf(mv, pv, b, killers) == RecaptureTier <==> Rating(mv, pv, b, killers) == LastRecapture
    ensures TierOf(mv, pv, b, killers) == KillerTier <==> Rating(mv, pv, b, killers) == Killer
    ensures TierOf(mv, pv, b, killers) == OtherTier <==> Rating(mv, pv, b, killers) == 0
  {
  }

  /** Apart from captures of a king, a lower rank means a strictly higher rating. */
  lemma TiersOrdered(mv1: Move, mv2: Move, pv: Option<Move>, b: MO.BoardView, killers: (Move, Move))
    requires MO.WellFormed(b) && Rateable(mv1, pv, b) && Rateable(mv2, pv, b)
    requires OrdinaryCapture(mv1, b) && OrdinaryCapture(mv2, b)
    requires Rank(TierOf(mv1, pv, b, killers)) < Rank(TierOf(mv2, pv, b, killers))
    ensures Rating(mv1, pv, b, killers) > Rating(mv2, pv, b, killers)
  {
    RatingByTier(mv1, pv, b, killers);
    RatingByTier(mv2, pv, b, killers);
  }

  /** A capture of a king is rated at least as high as the table move. */
  lemma KingCaptureReachesTableMove(mv: Move, pv: Option<Move>, b: MO.BoardView, killers: (Move, Move))
    requires MO.WellFormed(b) && Rateable(mv, pv, b)
    requires pv != Some(mv) && PieceCaptured(mv, b.pieceOn) == Some(King)
    ensures Rating(mv, pv, b, killers) >= TtMove
  {
  }

  predicate AllRateable(moves: seq<Move>, pv: Option<Move>, b: MO.BoardView)
    requires MO.WellFormed(b)
  {
    forall i :: 0 <= i < |moves| ==> Rateable(moves[i], pv, b)
  }

  function RateAll(moves: seq<Move>, pv: Option<Move>, b: MO.BoardView, killers: (Move, Move)): (r: seq<MO.RatedMove>)
    requires MO.WellFormed(b) && AllRateable(moves, pv, b)
    ensures |r| == |moves|
    ensures forall i :: 0 <= i < |r| ==> r[i] == MO.RatedMove(moves[i], -Rating(moves[i], pv, b, killers))
  {
    seq(|moves|, i requires 0 <= i < |moves| => MO.RatedMove(moves[i], -Rating(moves[i], pv, b, killers)))
  }

  /** `order_moves`: the rated moves sorted by ascending negated rating. */
  function OrderMoves(moves: seq<Move>, pv: Option<Move>, b: MO.BoardView, killers: (Move, Move)): (r: seq<MO.RatedMove>)
    requires MO.WellFormed(b) && AllRateable(moves, pv, b)
    ensures multiset(r) == multiset(RateAll(moves, pv, b, killers))
    ensures SortedBy(r, MO.ScoreOf)
  {
    SortBy(RateAll(moves, pv, b, killers), MO.ScoreOf)
  }

  /** The ordered list holds the input moves with their own ratings, highest first. */
  lemma OrderMovesMeaning(moves: seq<Move>, pv: Option<Move>, b: MO.BoardView, killers: (Move, Move))
    requires MO.WellFormed(b) && AllRateable(moves, pv, b)
    ensures var r := OrderMoves(moves, pv, b, killers);
      |r| == |moves|
      && (forall k :: 0 <= k < |r| ==>
            r[k].mv in moves && Rateable(r[k].mv, pv, b) && r[k].score == -Rating(r[k].mv, pv, b, killers))
      && (forall i, j :: 0 <= i < j < |r| ==> Rating(r[i].mv, pv, b, killers) >= Rating(r[j].mv, pv, b, killers))
  {
    var r := OrderMoves(moves, pv, b, killers);
    var rated := RateAll(moves, pv, b, killers);
    SortByMembers(rated, MO.ScoreOf);
    forall k | 0 <= k < |r|
      ensures r[k].mv in moves && Rateable(r[k].mv, pv, b) && r[k].score == -Rating(r[k].mv, pv, b, killers)
    {
      var i :| 0 <= i < |rated| && rated[i] == r[k];
      assert moves[i] == r[k].mv;
    }
  }
}
