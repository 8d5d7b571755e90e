/**
 * Move ordering of the engine's search
 * (`shakmat-engine/src/search/move_ordering.rs`): every pseudo-legal move
 * gets an `i32` rating from a fixed sequence of tiers, and the list is
 * sorted so that higher ratings come first. The tiers, from the top:
 * the transposition-table move, a move onto the square of the last move,
 * other captures by most valuable victim and least valuable attacker, the
 * two killer moves of the depth, and the history score.
 */
module MoveOrdering {
  import opened Base
  import opened PieceTypes
  import opened Colors
  import opened BitBoards
  import opened Moves
  import opened Sorting
  import H = History

  const TtMove: int := I32_MAX
  const LastRecapture: int := I32_MAX - 1
  const CaptureBaseVal: int := I32_MAX - 1000
  const PrimaryKiller: int := CaptureBaseVal - 1
  const SecondaryKiller: int := PrimaryKiller - 1
  // History.MaxHistoryVal is `SecondaryKiller - 1`.

  /** A move and its score: the negated rating, so ascending order puts the best first. */
  datatype RatedMove = RatedMove(mv: Move, score: int)

  /** What the rating reads from the board: the piece on each square, the last move's destination, the side to move. */
  datatype BoardView = BoardView(pieceOn: seq<Option<PieceType>>, lastMoved: Sq, turn: Color)

  predicate WellFormed(b: BoardView)
  {
    |b.pieceOn| == 64
  }

  /** The one way the as-written rating fails: a checked `i32` operation overflows. */
  datatype Overflow = Overflow

  // ---------------------------------------------------------------------
  // MVV-LVA.

  function ValueOfAttacker(p: PieceType): (v: int)
    ensures 10 <= v <= 99
  {
    match p
    case Pawn => 10
    case Knight => 30
    case Bishop => 30
    case Rook => 50
    case Queen => 90
    case King => 99
  }

  /** `value_of_capture` as written: the king is worth 9999. */
  function ValueOfCaptureAsWritten(p: PieceType): int
  {
    match p
    case Pawn => 100
    case Knight => 300
    case Bishop => 300
    case Rook => 500
    case Queen => 900
    case King => 9999
  }

  /**
   * `value_of_capture` corrected: the king is worth 1000, above the queen
   * and small enough that the capture band is not left.
   */
  function ValueOfCapture(p: PieceType): (v: int)
    ensures 100 <= v <= 1000
    ensures p != King ==> v == ValueOfCaptureAsWritten(p)
  {
    match p
    case Pawn => 100
    case Knight => 300
    case Bishop => 300
    case Rook => 500
    case Queen => 900
    case King => 1000
  }

  /** `CAPTURE_BASE_VAL + value_of_capture(victim) - value_of_attacker(attacker)` with `i32` checks, left to right. */
  function CaptureScoreAsWritten(victim: PieceType, attacker: PieceType): Result<int, Overflow>
  {
    var sum := CaptureBaseVal + ValueOfCaptureAsWritten(victim);
    if !IsI32(sum) then Err(Overflow)
    else
      var diff := sum - ValueOfAttacker(attacker);
      if !IsI32(diff) then Err(Overflow) else Ok(diff)
  }

  /** The capture score with the corrected king value: inside the capture band. */
  function CaptureScore(victim: PieceType, attacker: PieceType): (r: int)
    ensures CaptureBaseVal < r < LastRecapture
  {
    CaptureBaseVal + ValueOfCapture(victim) - ValueOfAttacker(attacker)
  }

  /**
   * As written, capturing a king overflows whatever the attacker; every
   * other capture agrees with the corrected score.
   */
  lemma CaptureScoreAsWrittenOverflows(victim: PieceType, attacker: PieceType)
    ensures CaptureScoreAsWritten(victim, attacker).Err? <==> victim == King
    ensures victim != King ==> CaptureScoreAsWritten(victim, attacker) == Ok(CaptureScore(victim, attacker))
  {
  }

  /** A more valuable victim outranks a less valuable one, whatever the two attackers. */
  lemma MostValuableVictimFirst(v1: PieceType, a1: PieceType, v2: PieceType, a2: PieceType)
    requires ValueOfCapture(v1) > ValueOfCapture(v2)
    ensures CaptureScore(v1, a1) > CaptureScore(v2, a2)
  {
  }

  /** For the same victim, the less valuable attacker comes first. */
  lemma LeastValuableAttackerNext(v: PieceType, a1: PieceType, a2: PieceType)
    ensures ValueOfAttacker(a1) < ValueOfAttacker(a2) <==> CaptureScore(v, a1) > CaptureScore(v, a2)
  {
  }

  // ---------------------------------------------------------------------
  // Rating.

  /** A normal move or promotion onto the square the last move went to. */
  predicate IsRecapture(mv: Move, b: BoardView)
  {
    (mv.Normal? || mv.PawnPromotion?) && mv.to == b.lastMoved
  }

  /**
   * The rating can be computed: `piece_moving` unwraps the piece on the
   * origin of a normal move, and is only reached for a capture that is
   * neither the table move nor a recapture.
   */
  predicate Rateable(mv: Move, pv: Option<Move>, b: BoardView)
    requires WellFormed(b)
  {
    pv == Some(mv) || IsRecapture(mv, b) || PieceCaptured(mv, b.pieceOn).None?
    || !mv.Normal? || b.pieceOn[mv.from].Some?
  }

  /** `rate_move` before the negation, with the corrected capture value. */
  function Rating(mv: Move, pv: Option<Move>, b: BoardView, killers: (Move, Move), history: H.Table): int
    requires WellFormed(b) && Rateable(mv, pv, b)
  {
    if pv == Some(mv) then TtMove
    else if IsRecapture(mv, b) then LastRecapture
    else match PieceCaptured(mv, b.pieceOn)
      case Some(captured) => CaptureScore(captured, PieceMoving(mv, b.pieceOn))
      case None =>
        if killers.0 == mv then PrimaryKiller
        else if killers.1 == mv then SecondaryKiller
        else H.GetValue(history, mv, b.turn)
  }

  /** `rate_move` before the negation, as written. */
  function RatingAsWritten(mv: Move, pv: Option<Move>, b: BoardView, killers: (Move, Move), history: H.Table): Result<int, Overflow>
    requires WellFormed(b) && Rateable(mv, pv, b)
  {
    if pv == Some(mv) then Ok(TtMove)
    else if IsRecapture(mv, b) then Ok(LastRecapture)
    else match PieceCaptured(mv, b.pieceOn)
      case Some(captured) => CaptureScoreAsWritten(captured, PieceMoving(mv, b.pieceOn))
      case None =>
        if killers.0 == mv then Ok(PrimaryKiller)
        else if killers.1 == mv then Ok(SecondaryKiller)
        else Ok(H.GetValue(history, mv, b.turn))
  }

  /** The tiers of the ordering, best first. */
  datatype Tier = PvTier | RecaptureTier | CaptureTier | PrimaryKillerTier | SecondaryKillerTier | HistoryTier

  function Rank(t: Tier): nat
  {
    match t
    case PvTier => 0
    case RecaptureTier => 1
    case CaptureTier => 2
    case PrimaryKillerTier => 3
    case SecondaryKillerTier => 4
    case HistoryTier => 5
  }

  /** The tier a move falls in: the first of the list that applies to it. */
  function TierOf(mv: Move, pv: Option<Move>, b: BoardView, killers: (Move, Move)): Tier
    requires WellFormed(b)
  {
    if pv == Some(mv) then PvTier
    else if IsRecapture(mv, b) then RecaptureTier
    else if PieceCaptured(mv, b.pieceOn).Some? then CaptureTier
    else if killers.0 == mv then PrimaryKillerTier
    else if killers.1 == mv then SecondaryKillerTier
    else HistoryTier
  }

  /**
   * The score range documented for each tier: the table move at the `i32`
   * maximum, the recapture just below it, captures in
   * `[MAX - 1000, MAX - 1)`, the killers at `MAX - 1001` and `MAX - 1002`,
   * and the history below them.
   */
  predicate InBand(t: Tier, score: int)
  {
    match t
    case PvTier => score == I32_MAX
    case RecaptureTier => score == I32_MAX - 1
    case CaptureTier => I32_MAX - 1000 <= score < I32_MAX - 1
    case PrimaryKillerTier => score == I32_MAX - 1001
    case SecondaryKillerTier => score == I32_MAX - 1002
    case HistoryTier => score < I32_MAX - 1002
  }

  /** With history scores bounded by `MAX_HISTORY_VAL`, every rating lies in its tier's band. */
  lemma RatingInBand(mv: Move, pv: Option<Move>, b: BoardView, killers: (Move, Move), history: H.Table)
    requires WellFormed(b) && Rateable(mv, pv, b) && H.Bounded(history)
    ensures InBand(TierOf(mv, pv, b, killers), Rating(mv, pv, b, killers, history))
  {
    if TierOf(mv, pv, b, killers) == HistoryTier {
      var (from, to) := H.FromTo(mv, b.turn);
      assert 0 <= H.Cell(b.turn, from, to) < |history|;
    }
  }

  /** A move of a better tier is rated strictly higher. */
  lemma TiersOrdered(mv1: Move, mv2: Move, pv: Option<Move>, b: BoardView, killers: (Move, Move), history: H.Table)
    requires WellFormed(b) && Rateable(mv1, pv, b) && Rateable(mv2, pv, b) && H.Bounded(history)
    requires Rank(TierOf(mv1, pv, b, killers)) < Rank(TierOf(mv2, pv, b, killers))
    ensures Rating(mv1, pv, b, killers, history) > Rating(mv2, pv, b, killers, history)
  {
    RatingInBand(mv1, pv, b, killers, history);
    RatingInBand(mv2, pv, b, killers, history);
  }

  /** As written, the rating fails exactly on a capture of a king; otherwise it is the corrected rating. */
  lemma RatingAsWrittenMeaning(mv: Move, pv: Option<Move>, b: BoardView, killers: (Move, Move), history: H.Table)
    requires WellFormed(b) && Rateable(mv, pv, b)
    ensures RatingAsWritten(mv, pv, b, killers, history).Err? <==>
      TierOf(mv, pv, b, killers) == CaptureTier && PieceCaptured(mv, b.pieceOn) == Some(King)
    ensures RatingAsWritten(mv, pv, b, killers, history).Ok? ==>
      RatingAsWritten(mv, pv, b, killers, history).value == Rating(mv, pv, b, killers, history)
  {
    if TierOf(mv, pv, b, killers) == CaptureTier {
      CaptureScoreAsWrittenOverflows(PieceCaptured(mv, b.pieceOn).value, PieceMoving(mv, b.pieceOn));
    }
  }

  /** A rook on h1 taking a king on h2, with some other square last moved to, overflows as written. */
  lemma RookTakesKingOverflows()
    ensures var b := BoardView(seq(64, i => if i == 0 then Some(Rook) else if i == 8 then Some(King) else None), 63, White);
      WellFormed(b) && Rateable(Normal(0, 8), None, b)
      && RatingAsWritten(Normal(0, 8), None, b, (EmptyMove(), EmptyMove()), H.New()) == Err(Overflow)
  {
    var b := BoardView(seq(64, i => if i == 0 then Some(Rook) else if i == 8 then Some(King) else None), 63, White);
    assert b.pieceOn[8] == Some(King) && b.pieceOn[0] == Some(Rook);
  }

  // ---------------------------------------------------------------------
  // Ordering.

  /** `rate_move`: the move with its negated rating, which must not be `i32::MIN`. */
  function RateMove(mv: Move, pv: Option<Move>, b: BoardView, killers: (Move, Move), history: H.Table): (r: RatedMove)
    requires WellFormed(b) && Rateable(mv, pv, b) && Rating(mv, pv, b, killers, history) > I32_MIN
    ensures r.mv == mv && IsI32(r.score)
  {
    RatedMove(mv, -Rating(mv, pv, b, killers, history))
  }

  /** The moves can all be rated and negated. */
  predicate AllRateable(moves: seq<Move>, pv: Option<Move>, b: BoardView, killers: (Move, Move), history: H.Table)
    requires WellFormed(b)
  {
    forall i :: 0 <= i < |moves| ==>
      Rateable(moves[i], pv, b) && Rating(moves[i], pv, b, killers, history) > I32_MIN
  }

  /** The moves, each paired with its score, in the input order. */
  function RateAll(moves: seq<Move>, pv: Option<Move>, b: BoardView, killers: (Move, Move), history: H.Table): (r: seq<RatedMove>)
    requires WellFormed(b) && AllRateable(moves, pv, b, killers, history)
    ensures |r| == |moves|
    ensures forall i :: 0 <= i < |r| ==> r[i] == RateMove(moves[i], pv, b, killers, history)
  {
    seq(|moves|, i requires 0 <= i < |moves| => RateMove(moves[i], pv, b, killers, history))
  }

  function ScoreOf(rm: RatedMove): int
  {
    rm.score
  }

  /** `order_moves`: the rated moves sorted by ascending score. */
  function OrderMoves(moves: seq<Move>, pv: Option<Move>, b: BoardView, killers: (Move, Move), history: H.Table): (r: seq<RatedMove>)
    requires WellFormed(b) && AllRateable(moves, pv, b, killers, history)
    ensures multiset(r) == multiset(RateAll(moves, pv, b, killers, history))
    ensures SortedBy(r, ScoreOf)
  {
    SortBy(RateAll(moves, pv, b, killers, history), ScoreOf)
  }

  /**
   * The ordered list holds the input moves, each with its own negated
   * rating, from the highest rating to the lowest.
   */
  lemma OrderMovesMeaning(moves: seq<Move>, pv: Option<Move>, b: BoardView, killers: (Move, Move), history: H.Table)
    requires WellFormed(b) && AllRateable(moves, pv, b, killers, history)
    ensures var r := OrderMoves(moves, pv, b, killers, history);
      |r| == |moves|
      && (forall k :: 0 <= k < |r| ==>
            r[k].mv in moves && Rateable(r[k].mv, pv, b) && r[k].score == -Rating(r[k].mv, pv, b, killers, history))
      && (forall i, j :: 0 <= i < j < |r| ==> r[j].score >= r[i].score)
  {
    var r := OrderMoves(moves, pv, b, killers, history);
    var rated := RateAll(moves, pv, b, killers, history);
    assert |r| == |multiset(r)| == |multiset(rated)| == |rated|;
    forall k | 0 <= k < |r|
      ensures r[k].mv in moves && Rateable(r[k].mv, pv, b)
      ensures r[k].score == -Rating(r[k].mv, pv, b, killers, history)
    {
      assert r[k] in multiset(r);
      assert r[k] in rated;
      var i :| 0 <= i < |rated| && rated[i] == r[k];
      assert moves[i] == r[k].mv;
    }
  }

  /**
   * When the table move is among the moves and the history is bounded, it
   * comes first.
   */
  lemma PvMoveFirst(moves: seq<Move>, pv: Option<Move>, b: BoardView, killers: (Move, Move), history: H.Table)
    requires WellFormed(b) && AllRateable(moves, pv, b, killers, history) && H.Bounded(history)
    requires pv.Some? && pv.value in moves
    ensures OrderMoves(moves, pv, b, killers, history)[0].mv == pv.value
  {
    var r := OrderMoves(moves, pv, b, killers, history);
    var rated := RateAll(moves, pv, b, killers, history);
    OrderMovesMeaning(moves, pv, b, killers, history);
    var i :| 0 <= i < |moves| && moves[i] == pv.value;
    assert rated[i].score == -TtMove;
    assert rated[i] in multiset(r);
    var k :| 0 <= k < |r| && r[k] == rated[i];
    assert r[0].score <= r[k].score;
    TopRatingIsPv(r[0].mv, pv, b, killers, history);
  }

  /** Only the table move is rated at the top of the scale. */
  lemma TopRatingIsPv(mv: Move, pv: Option<Move>, b: BoardView, killers: (Move, Move), history: H.Table)
    requires WellFormed(b) && Rateable(mv, pv, b) && H.Bounded(history)
    requires Rating(mv, pv, b, killers, history) >= TtMove
    ensures pv == Some(mv)
  {
    RatingInBand(mv, pv, b, killers, history);
  }

  // ---------------------------------------------------------------------
  // rate_move and order_moves as a debug build runs them.

  /**
   * `rate_move` with its arithmetic checked: the capture score can leave
   * `i32`, and so can the negation `-score` of a history value at
   * `i32::MIN`.
   */
  function RateMoveChecked(mv: Move, pv: Option<Move>, b: BoardView, killers: (Move, Move), history: H.Table): Result<RatedMove, Overflow>
    requires WellFormed(b) && Rateable(mv, pv, b)
  {
    match RatingAsWritten(mv, pv, b, killers, history)
    case Err(e) => Err(e)
    case Ok(score) => if score == I32_MIN then Err(Overflow) else Ok(RatedMove(mv, -score))
  }

  /**
   * The checked rating panics exactly on a capture of a king or a history
   * value of `i32::MIN`; otherwise it is the rated move of `RateMove`.
   */
  lemma RateMoveCheckedMeaning(mv: Move, pv: Option<Move>, b: BoardView, killers: (Move, Move), history: H.Table)
    requires WellFormed(b) && Rateable(mv, pv, b)
    ensures RateMoveChecked(mv, pv, b, killers, history).Err? <==>
      (TierOf(mv, pv, b, killers) == CaptureTier && PieceCaptured(mv, b.pieceOn) == Some(King))
      || (TierOf(mv, pv, b, killers) == HistoryTier && H.GetValue(history, mv, b.turn) == I32_MIN)
    ensures RateMoveChecked(mv, pv, b, killers, history).Ok? ==>
      Rating(mv, pv, b, killers, history) > I32_MIN
      && RateMoveChecked(mv, pv, b, killers, history).value == RateMove(mv, pv, b, killers, history)
  {
    RatingAsWrittenMeaning(mv, pv, b, killers, history);
  }

  /** The moves rated in turn, the first panic stopping the list. */
  function RateAllChecked(moves: seq<Move>, pv: Option<Move>, b: BoardView, killers: (Move, Move), history: H.Table): Result<seq<RatedMove>, Overflow>
    requires WellFormed(b) && forall i :: 0 <= i < |moves| ==> Rateable(moves[i], pv, b)
    decreases |moves|
  {
    if moves == [] then Ok([])
    else match RateMoveChecked(moves[0], pv, b, killers, history)
      case Err(e) => Err(e)
      case Ok(rm) =>
        match RateAllChecked(moves[1..], pv, b, killers, history)
        case Err(e) => Err(e)
        case Ok(rest) => Ok([rm] + rest)
  }

  /** Rating all moves panics exactly when rating one of them does, and otherwise gives `RateAll`. */
  lemma {:induction false} RateAllCheckedMeaning(moves: seq<Move>, pv: Option<Move>, b: BoardView, killers: (Move, Move), history: H.Table)
    requires WellFormed(b) && forall i :: 0 <= i < |moves| ==> Rateable(moves[i], pv, b)
    ensures RateAllChecked(moves, pv, b, killers, history).Ok? <==>
      forall i :: 0 <= i < |moves| ==> RateMoveChecked(moves[i], pv, b, killers, history).Ok?
    ensures RateAllChecked(moves, pv, b, killers, history).Ok? ==>
      AllRateable(moves, pv, b, killers, history)
      && RateAllChecked(moves, pv, b, killers, history).value == RateAll(moves, pv, b, killers, history)
    decreases |moves|
  {
    if moves != [] {
      RateAllCheckedMeaning(moves[1..], pv, b, killers, history);
      assert forall i :: 1 <= i < |moves| ==> moves[i] == moves[1..][i - 1];
      forall i | 0 <= i < |moves|
        ensures RateMoveChecked(moves[i], pv, b, killers, history).Ok? ==>
          Rating(moves[i], pv, b, killers, history) > I32_MIN
          && RateMoveChecked(moves[i], pv, b, killers, history).value == RateMove(moves[i], pv, b, killers, history)
      {
        RateMoveCheckedMeaning(moves[i], pv, b, killers, history);
      }
      if RateAllChecked(moves, pv, b, killers, history).Ok? {
        var r := RateAllChecked(moves, pv, b, killers, history).value;
        assert forall i :: 0 <= i < |moves| ==> r[i] == RateMove(moves[i], pv, b, killers, history) by {
          forall i | 0 <= i < |moves|
            ensures r[i] == RateMove(moves[i], pv, b, killers, history)
          {
            if i > 0 {
              assert r[i] == RateAllChecked(moves[1..], pv, b, killers, history).value[i - 1];
            }
          }
        }
      }
    }
  }

  /** `order_moves` with every rating checked, then sorted by score. */
  function OrderMovesChecked(moves: seq<Move>, pv: Option<Move>, b: BoardView, killers: (Move, Move), history: H.Table): Result<seq<RatedMove>, Overflow>
    requires WellFormed(b) && forall i :: 0 <= i < |moves| ==> Rateable(moves[i], pv, b)
  {
    match RateAllChecked(moves, pv, b, killers, history)
    case Err(e) => Err(e)
    case Ok(rated) => Ok(SortBy(rated, ScoreOf))
  }

  /**
   * The checked ordering panics exactly when some move is a capture of a
   * king or has a history value of `i32::MIN`, and otherwise is the
   * ordering of `OrderMoves`.
   */
  lemma OrderMovesCheckedMeaning(moves: seq<Move>, pv: Option<Move>, b: BoardView, killers: (Move, Move), history: H.Table)
    requires WellFormed(b) && forall i :: 0 <= i < |moves| ==> Rateable(moves[i], pv, b)
    ensures OrderMovesChecked(moves, pv, b, killers, history).Err? <==>
      exists i :: 0 <= i < |moves| &&
        ((TierOf(moves[i], pv, b, killers) == CaptureTier && PieceCaptured(moves[i], b.pieceOn) == Some(King))
         || (TierOf(moves[i], pv, b, killers) == HistoryTier && H.GetValue(history, moves[i], b.turn) == I32_MIN))
    ensures OrderMovesChecked(moves, pv, b, killers, history).Ok? ==>
      AllRateable(moves, pv, b, killers, history)
      && OrderMovesChecked(moves, pv, b, killers, history).value == OrderMoves(moves, pv, b, killers, history)
  {
    RateAllCheckedMeaning(moves, pv, b, killers, history);
    forall i | 0 <= i < |moves|
      ensures RateMoveChecked(moves[i], pv, b, killers, history).Err? <==>
        (TierOf(moves[i], pv, b, killers) == CaptureTier && PieceCaptured(moves[i], b.pieceOn) == Some(King))
        || (TierOf(moves[i], pv, b, killers) == HistoryTier && H.GetValue(history, moves[i], b.turn) == I32_MIN)
    {
      RateMoveCheckedMeaning(moves[i], pv, b, killers, history);
    }
  }

  /** A quiet move whose history value is `i32::MIN` makes the checked rating panic on the negation. */
  lemma HistoryAtMinPanics(mv: Move, pv: Option<Move>, b: BoardView, killers: (Move, Move), history: H.Table)
    requires WellFormed(b) && Rateable(mv, pv, b)
    requires TierOf(mv, pv, b, killers) == HistoryTier && H.GetValue(history, mv, b.turn) == I32_MIN
    ensures RateMoveChecked(mv, pv, b, killers, history) == Err(Overflow)
  {
  }
}
