/**
 * The earlier search (`shakmat-engine/src/search.rs`): its move rating and
 * ordering, the scores a node returns without expanding (a draw, a mate,
 * a stalemate), and the iterative-deepening loop with an aspiration
 * window of 30 around the previous score. The search of one depth is a
 * parameter; the repetition test is the one of module `Repetition`.
 */
module OldSearch {
  import opened Base
  import opened PieceTypes
  import opened Moves
  import opened Sorting
  import opened Text
  import MO = MoveOrdering
  import OMO = OldMoveOrdering
  import E = Evaluate

  /** `TRASPOSITION_TABLE_SIZE`: 2^22 entries. */
  const TableSize: nat := 0x40_0000

  /** The table move is rated 10000. */
  const PvMove: int := 10000

  // ---------------------------------------------------------------------
  // rate_move and order_moves.

  /** `rate_move`: 10000 for the table move, victim minus attacker for a capture, else 0. */
  function Rating(mv: Move, pv: Option<Move>, b: MO.BoardView): int
    requires MO.WellFormed(b) && OMO.Rateable(mv, pv, b)
  {
    if pv == Some(mv) then PvMove
    else match PieceCaptured(mv, b.pieceOn)
      case Some(captured) => MO.ValueOfCaptureAsWritten(captured) - MO.ValueOfAttacker(PieceMoving(mv, b.pieceOn))
      case None => 0
  }

  /**
   * Every rating fits an `i16`; the table move alone gets 10000; a capture
   * of anything but the king is worth between 1 and 890, of the king
   * between 9900 and 9989; a quiet move gets 0. So the table move comes
   * first, then the captures, then the rest.
   */
  lemma RatingBands(mv: Move, pv: Option<Move>, b: MO.BoardView)
    requires MO.WellFormed(b) && OMO.Rateable(mv, pv, b)
    ensures IsI16(Rating(mv, pv, b))
    ensures Rating(mv, pv, b) == PvMove <==> pv == Some(mv)
    ensures pv != Some(mv) && PieceCaptured(mv, b.pieceOn).Some? ==>
      Rating(mv, pv, b) == MO.ValueOfCaptureAsWritten(PieceCaptured(mv, b.pieceOn).value)
                           - MO.ValueOfAttacker(PieceMoving(mv, b.pieceOn))
      && (PieceCaptured(mv, b.pieceOn) != Some(King) ==> 1 <= Rating(mv, pv, b) <= 890)
      && (PieceCaptured(mv, b.pieceOn) == Some(King) ==> 9900 <= Rating(mv, pv, b) <= 9989)
    ensures pv != Some(mv) ==> (Rating(mv, pv, b) == 0 <==> PieceCaptured(mv, b.pieceOn).None?)
  {
  }

  predicate AllRateable(moves: seq<Move>, pv: Option<Move>, b: MO.BoardView)
    requires MO.WellFormed(b)
  {
    forall i :: 0 <= i < |moves| ==> OMO.Rateable(moves[i], pv, b)
  }

  function RateAll(moves: seq<Move>, pv: Option<Move>, b: MO.BoardView): (r: seq<MO.RatedMove>)
    requires MO.WellFormed(b) && AllRateable(moves, pv, b)
    ensures |r| == |moves|
    ensures forall i :: 0 <= i < |r| ==> r[i] == MO.RatedMove(moves[i], -Rating(moves[i], pv, b))
  {
    seq(|moves|, i requires 0 <= i < |moves| => MO.RatedMove(moves[i], -Rating(moves[i], pv, b)))
  }

  /** `order_moves`: the moves with their negated ratings, sorted ascending on that key. */
  function OrderMoves(moves: seq<Move>, pv: Option<Move>, b: MO.BoardView): (r: seq<MO.RatedMove>)
    requires MO.WellFormed(b) && AllRateable(moves, pv, b)
    ensures multiset(r) == multiset(RateAll(moves, pv, b))
    ensures SortedBy(r, MO.ScoreOf)
  {
    SortBy(RateAll(moves, pv, b), MO.ScoreOf)
  }

  /** The ordered list holds exactly the input moves with their own ratings, highest first. */
  lemma OrderMovesMeaning(moves: seq<Move>, pv: Option<Move>, b: MO.BoardView)
    requires MO.WellFormed(b) && AllRateable(moves, pv, b)
    ensures var r := OrderMoves(moves, pv, b);
      |r| == |moves|
      && (forall k :: 0 <= k < |r| ==>
            r[k].mv in moves && OMO.Rateable(r[k].mv, pv, b) && r[k].score == -Rating(r[k].mv, pv, b))
      && (forall i, j :: 0 <= i < j < |r| ==> Rating(r[i].mv, pv, b) >= Rating(r[j].mv, pv, b))
    ensures forall mv :: mv in moves ==> exists k :: 0 <= k < |OrderMoves(moves, pv, b)| && OrderMoves(moves, pv, b)[k].mv == mv
  {
    var rated := RateAll(moves, pv, b);
    var r := OrderMoves(moves, pv, b);
    assert |r| == |rated| by {
      assert |multiset(r)| == |multiset(rated)|;
    }
    forall k | 0 <= k < |r|
      ensures r[k].mv in moves && OMO.Rateable(r[k].mv, pv, b) && r[k].score == -Rating(r[k].mv, pv, b)
    {
      assert r[k] in multiset(rated);
      var i :| 0 <= i < |rated| && rated[i] == r[k];
    }
    forall i, j | 0 <= i < j < |r|
      ensures Rating(r[i].mv, pv, b) >= Rating(r[j].mv, pv, b)
    {
      assert MO.ScoreOf(r[i]) <= MO.ScoreOf(r[j]);
    }
    forall mv | mv in moves
      ensures exists k :: 0 <= k < |r| && r[k].mv == mv
    {
      var i :| 0 <= i < |moves| && moves[i] == mv;
      assert rated[i] in multiset(r);
      var k :| 0 <= k < |r| && r[k] == rated[i];
    }
  }

  // ---------------------------------------------------------------------
  // What a node returns without searching its moves.

  /** How `negamax` proceeds at a node once the table lookup has given nothing. */
  datatype Plan = Draw | Quiescence | Expand(depth: nat)

  /**
   * A repetition, a fifty-move counter of 100 or more, or too little
   * material ends the node as a draw; otherwise a side in check gets one
   * more ply, and a node with no depth left goes to the quiescence search.
   * The depth is a `u8`.
   */
  function NodePlan(repetition: bool, fiftyCounter: nat, materialDraw: bool, inCheck: bool, depthRemaining: nat): (p: Plan)
    requires depthRemaining + (if inCheck then 1 else 0) <= 255
    ensures p.Draw? <==> repetition || fiftyCounter >= 100 || materialDraw
    ensures p.Expand? ==> 1 <= p.depth <= 255
  {
    if repetition || fiftyCounter >= 100 || materialDraw then Draw
    else
      var depth := if inCheck then depthRemaining + 1 else depthRemaining;
      if depth == 0 then Quiescence else Expand(depth)
  }

  /**
   * A draw is decided before anything else; a side in check is never
   * handed to the quiescence search, and searches one ply deeper; a side
   * not in check reaches the quiescence search exactly when no depth is left.
   */
  lemma NodePlanMeaning(repetition: bool, fiftyCounter: nat, materialDraw: bool, inCheck: bool, depthRemaining: nat)
    requires depthRemaining + (if inCheck then 1 else 0) <= 255
    requires !(repetition || fiftyCounter >= 100 || materialDraw)
    ensures inCheck ==> NodePlan(repetition, fiftyCounter, materialDraw, inCheck, depthRemaining) == Expand(depthRemaining + 1)
    ensures !inCheck ==>
      (NodePlan(repetition, fiftyCounter, materialDraw, inCheck, depthRemaining) == Quiescence <==> depthRemaining == 0)
    ensures !inCheck && depthRemaining > 0 ==>
      NodePlan(repetition, fiftyCounter, materialDraw, inCheck, depthRemaining) == Expand(depthRemaining)
  {
  }

  /** The score of a draw decided at the node: `CONTEMPT`. */
  const DrawScore: E.Evaluation := E.Evaluation(E.Contempt)

  /**
   * The score of a node where no move was legal: `min_val + current_depth`
   * when in check (mated), else `CONTEMPT` (stalemate). The depth is a `u8`.
   */
  function TerminalScore(inCheck: bool, currentDepth: nat): (r: E.Evaluation)
    requires currentDepth <= 255
    ensures E.Valid(r) && r.score != I16_MIN
  {
    if inCheck then E.Add(E.MinVal, currentDepth) else DrawScore
  }

  /**
   * A mate found `d` plies from the root, `d` at most 100, is a negative
   * mate that prints as "-M{d}"; the side that delivered it, one ply up,
   * sees "M{d}"; a quicker mate is worth strictly more to the mating side;
   * a stalemate and a draw score 0, which is no mate.
   */
  lemma TerminalMeaning(d1: nat, d2: nat)
    requires d1 < d2 <= 100
    ensures E.MateText(TerminalScore(true, d1)) == Some("-M" + Decimal(d1))
    ensures E.MateText(E.Neg(TerminalScore(true, d1))) == Some("M" + Decimal(d1))
    ensures E.Neg(TerminalScore(true, d2)).score < E.Neg(TerminalScore(true, d1)).score
    ensures TerminalScore(false, d1) == DrawScore == E.Evaluation(0)
    ensures !E.IsPositiveMate(DrawScore) && !E.IsNegativeMate(DrawScore)
  {
    E.MateDisplay(d1);
  }

  // ---------------------------------------------------------------------
  // The aspiration window of find_best.

  /** The width added on each side of the previous score. */
  const AspWindow: int := 30

  /** The bounds `(alpha, beta)` one search runs with. */
  datatype Window = Window(alpha: E.Evaluation, beta: E.Evaluation)

  const FullWindow: Window := Window(E.MinVal, E.MaxVal)

  /** Both bounds are scores between `min_val` and `max_val`. */
  predicate WindowOk(w: Window)
  {
    E.MinVal.score <= w.alpha.score <= E.MaxVal.score && E.MinVal.score <= w.beta.score <= E.MaxVal.score
  }

  /** Every score a search returns lies between `min_val` and `max_val`. */
  predicate ScoreOk(s: E.Evaluation)
  {
    E.MinVal.score <= s.score <= E.MaxVal.score
  }

  /** After a search: the same depth again with a new window, or the next depth. */
  datatype Step = Retry(w: Window) | Advance(w: Window)

  datatype LoopFailure = Overflow | OutOfFuel

  /**
   * One turn of the loop as written: a fail low resets alpha to `min_val`,
   * a fail high resets beta to `max_val`, and a score inside the window
   * becomes the centre of the next one, with `i16` arithmetic.
   */
  function StepAsWritten(s: E.Evaluation, w: Window): Result<Step, LoopFailure>
  {
    if s.score <= w.alpha.score then Ok(Retry(Window(E.MinVal, w.beta)))
    else if s.score >= w.beta.score then Ok(Retry(Window(w.alpha, E.MaxVal)))
    else if !IsI16(s.score - AspWindow) || !IsI16(s.score + AspWindow) then Err(Overflow)
    else Ok(Advance(Window(E.Evaluation(s.score - AspWindow), E.Evaluation(s.score + AspWindow))))
  }

  /** A score kept between `min_val` and `max_val`. */
  function Clamp(x: int): (r: E.Evaluation)
    ensures ScoreOk(r)
    ensures ScoreOk(E.Evaluation(x)) ==> r.score == x
  {
    if x < E.MinVal.score then E.MinVal else if x > E.MaxVal.score then E.MaxVal else E.Evaluation(x)
  }

  /**
   * One turn of the loop, corrected: a fail against a bound already at its
   * extreme is final (no wider search can change it), and the next window
   * is clamped to `[min_val, max_val]`.
   */
  function NextStep(s: E.Evaluation, w: Window): Step
  {
    if s.score <= w.alpha.score && w.alpha != E.MinVal then Retry(Window(E.MinVal, w.beta))
    else if s.score >= w.beta.score && w.beta != E.MaxVal then Retry(Window(w.alpha, E.MaxVal))
    else Advance(Window(Clamp(s.score - AspWindow), Clamp(s.score + AspWindow)))
  }

  /**
   * The depth advances only on a score strictly inside the window; a fail
   * low widens alpha to `min_val` and a fail high widens beta to
   * `max_val`, keeping the other bound; the next window holds the score
   * with at most 30 on each side. The corrected step agrees with the one as
   * written wherever that one neither overflows nor fails against an extreme.
   */
  lemma StepMeaning(s: E.Evaluation, w: Window)
    requires ScoreOk(s) && WindowOk(w) && w.alpha.score < w.beta.score
    ensures StepAsWritten(s, w).Ok? && StepAsWritten(s, w).value.Advance? ==> w.alpha.score < s.score < w.beta.score
    ensures s.score <= w.alpha.score ==> StepAsWritten(s, w) == Ok(Retry(Window(E.MinVal, w.beta)))
    ensures w.alpha.score < s.score && s.score >= w.beta.score ==> StepAsWritten(s, w) == Ok(Retry(Window(w.alpha, E.MaxVal)))
    ensures w.alpha.score < s.score < w.beta.score ==>
      NextStep(s, w).Advance?
      && NextStep(s, w).w.alpha.score <= s.score <= NextStep(s, w).w.beta.score
      && s.score - NextStep(s, w).w.alpha.score <= AspWindow
      && NextStep(s, w).w.beta.score - s.score <= AspWindow
    ensures WindowOk(NextStep(s, w).w)
    ensures StepAsWritten(s, w).Ok? && WindowOk(StepAsWritten(s, w).value.w)
      && !(s.score <= w.alpha.score && w.alpha == E.MinVal)
      && !(w.alpha.score < s.score && s.score >= w.beta.score && w.beta == E.MaxVal)
      ==> StepAsWritten(s, w) == Ok(NextStep(s, w))
  {
  }

  /** One search of the loop: its depth, its window and the score it returned. */
  datatype Attempt = Attempt(depth: nat, w: Window, score: E.Evaluation)

  /** The depth and window of the turn after an attempt. */
  function Follow(a: Attempt): (nat, Window)
  {
    match NextStep(a.score, a.w)
    case Retry(w) => (a.depth, w)
    case Advance(w) => (a.depth + 1, w)
  }

  /** How many bounds of the window can still be widened. */
  function Slack(w: Window): nat
  {
    (if w.alpha != E.MinVal then 1 else 0) + (if w.beta != E.MaxVal then 1 else 0)
  }

  /**
   * `find_best`'s loop, corrected, over a search oracle: it starts at depth
   * 1 with the full window, each attempt's depth and window follow from the
   * one before, and it ends after the attempt that accepts the last depth,
   * whose score it returns, having searched each depth at most three times.
   * The depth is a `u8`, so the last one is at most 254.
   */
  method FindBest(maxDepth: nat, search: (nat, Window) -> E.Evaluation) returns (score: E.Evaluation, trace: seq<Attempt>)
    requires maxDepth <= 254
    requires forall d, w :: ScoreOk(search(d, w))
    ensures maxDepth == 0 ==> trace == [] && score == E.MinVal
    ensures maxDepth > 0 ==>
      trace != [] && trace[0].depth == 1 && trace[0].w == FullWindow
      && score == trace[|trace| - 1].score
      && trace[|trace| - 1].depth == maxDepth
      && NextStep(score, trace[|trace| - 1].w).Advance?
    ensures forall i :: 0 <= i < |trace| ==> trace[i].score == search(trace[i].depth, trace[i].w)
    ensures forall i :: 0 <= i < |trace| - 1 ==> Follow(trace[i]) == (trace[i + 1].depth, trace[i + 1].w)
    ensures |trace| <= 3 * maxDepth
  {
    score := E.MinVal;
    trace := [];
    var w := FullWindow;
    var depth := 1;
    ghost var done := 0;
    ghost var atDepth := 0;
    while depth <= maxDepth
      invariant 1 <= depth <= maxDepth + 1 || (maxDepth == 0 && depth == 1)
      invariant WindowOk(w)
      invariant trace == [] <==> (depth == 1 && w == FullWindow && atDepth == 0)
      invariant trace == [] ==> score == E.MinVal
      invariant trace != [] ==> trace[0].depth == 1 && trace[0].w == FullWindow
      invariant trace != [] ==> score == trace[|trace| - 1].score && Follow(trace[|trace| - 1]) == (depth, w)
      invariant forall i :: 0 <= i < |trace| ==> trace[i].score == search(trace[i].depth, trace[i].w)
      invariant forall i :: 0 <= i < |trace| - 1 ==> Follow(trace[i]) == (trace[i + 1].depth, trace[i + 1].w)
      invariant |trace| == done + atDepth && done <= 3 * (depth - 1) && atDepth + Slack(w) <= 2
      invariant atDepth > 0 ==> depth <= maxDepth && NextStep(score, trace[|trace| - 1].w).Retry?
      invariant trace != [] && atDepth == 0 ==> NextStep(score, trace[|trace| - 1].w).Advance?
      decreases maxDepth + 1 - depth, Slack(w)
    {
      var s := search(depth, w);
      var a := Attempt(depth, w, s);
      trace := trace + [a];
      score := s;
      match NextStep(s, w)
      case Retry(w') =>
        atDepth := atDepth + 1;
        w := w';
      case Advance(w') =>
        done := done + atDepth + 1;
        atDepth := 0;
        depth := depth + 1;
        w := w';
    }
  }

  /** The loop as written, run for at most `fuel` searches. */
  function LoopAsWritten(maxDepth: nat, search: (nat, Window) -> E.Evaluation, depth: nat, w: Window,
                         score: E.Evaluation, fuel: nat): Result<E.Evaluation, LoopFailure>
    decreases fuel
  {
    if depth > maxDepth then Ok(score)
    else if fuel == 0 then Err(OutOfFuel)
    else
      var s := search(depth, w);
      match StepAsWritten(s, w)
      case Err(e) => Err(e)
      case Ok(Retry(w')) => LoopAsWritten(maxDepth, search, depth, w', s, fuel - 1)
      case Ok(Advance(w')) => LoopAsWritten(maxDepth, search, depth + 1, w', s, fuel - 1)
  }

  /** The search of a side already mated at the root: `min_val + 0` at every depth. */
  function MatedRoot(d: nat, w: Window): E.Evaluation
  {
    E.MinVal
  }

  lemma {:induction false} MatedRootSpins(maxDepth: nat, beta: E.Evaluation, fuel: nat)
    requires maxDepth >= 1
    ensures LoopAsWritten(maxDepth, MatedRoot, 1, Window(E.MinVal, beta), E.MinVal, fuel) == Err(OutOfFuel)
    decreases fuel
  {
    if fuel > 0 {
      MatedRootSpins(maxDepth, beta, fuel - 1);
    }
  }

  /**
   * As written, when the side to move is already mated every search
   * returns `min_val`, which is never above alpha = `min_val`: the loop
   * retries depth 1 forever, however many searches it is allowed.
   */
  lemma MatedRootNeverEnds(maxDepth: nat, fuel: nat)
    requires maxDepth >= 1
    ensures LoopAsWritten(maxDepth, MatedRoot, 1, FullWindow, E.MinVal, fuel) == Err(OutOfFuel)
  {
    MatedRootSpins(maxDepth, E.MaxVal, fuel);
  }

  /** The search of a position with mate in one: the mating side scores `max_val - 1`. */
  function MateInOne(d: nat, w: Window): E.Evaluation
  {
    E.Evaluation(I16_MAX - 1)
  }

  /**
   * As written, a mate found at depth 1 lies inside the full window, and
   * the next beta, `i16::MAX - 1 + 30`, leaves `i16`.
   */
  lemma MateInOneOverflows(maxDepth: nat, fuel: nat)
    requires maxDepth >= 1 && fuel >= 1
    ensures LoopAsWritten(maxDepth, MateInOne, 1, FullWindow, E.MinVal, fuel) == Err(Overflow)
  {
  }

  /** The corrected loop ends on the same two positions, with the mate scores themselves. */
  method CorrectedLoopEnds(maxDepth: nat) returns (mated: E.Evaluation, mating: E.Evaluation)
    requires 1 <= maxDepth <= 254
    ensures mated == E.MinVal && mating == E.Evaluation(I16_MAX - 1)
  {
    var t1, t2;
    mated, t1 := FindBest(maxDepth, MatedRoot);
    mating, t2 := FindBest(maxDepth, MateInOne);
  }
}
