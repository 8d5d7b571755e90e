/**
 * The first static evaluation (`shakmat-engine/src/evaluation.rs`), scored
 * from White's side in `i32`: material with the weights 100, 300, 300, 500
 * and 900, five points per controlled square, and the extremes of `i32`
 * for a mated side.
 */
module SimpleEval {
  import opened Base
  import opened Colors
  import opened Moves
  import E = Evaluate

  /** What `evaluate_position` reads from a board. */
  datatype Position = Position(
    turn: Color,
    inCheck: bool,
    counts: E.Counts,
    controlWhite: nat,
    controlBlack: nat)

  /** Population counts: every count and both control counts are at most 64. */
  predicate PositionOk(p: Position)
  {
    E.CountsOk(p.counts) && p.controlWhite <= 64 && p.controlBlack <= 64
  }

  /**
   * `piece_score`: the weighted count, summed in `u32` and cast to `i32`;
   * with at most 64 men of a kind neither step wraps.
   */
  function PieceScore(s: E.Side): (r: int)
    requires E.SideOk(s)
    ensures 0 <= r <= 64 * 2100
  {
    var sum := 100 * s.pawns + 300 * s.knights + 300 * s.bishops + 500 * s.rooks + 900 * s.queens;
    if sum <= I32_MAX then sum else sum - 0x1_0000_0000
  }

  /** `control_score`: five points per controlled square. */
  function ControlScore(controlled: nat): int
  {
    controlled * 5
  }

  /** `evaluate_position`. */
  function EvaluatePosition(p: Position, moves: seq<Move>): (r: int)
    requires PositionOk(p)
    ensures IsI32(r)
  {
    if moves == [] then
      if p.inCheck then (if p.turn == White then I32_MIN else I32_MAX) else 0
    else
      PieceScore(p.counts.white) - PieceScore(p.counts.black)
      + ControlScore(p.controlWhite) - ControlScore(p.controlBlack)
  }

  /** The weights are those of the later evaluation's material term. */
  lemma PieceScoreIsWeighted(s: E.Side)
    requires E.SideOk(s)
    ensures PieceScore(s) == E.Weighted(s)
  {
  }

  /**
   * Without moves the score is `i32::MIN` when White is mated, `i32::MAX`
   * when Black is, and 0 for a stalemate.
   */
  lemma TerminalScores(p: Position)
    requires PositionOk(p)
    ensures p.inCheck && p.turn == White ==> EvaluatePosition(p, []) == I32_MIN
    ensures p.inCheck && p.turn == Black ==> EvaluatePosition(p, []) == I32_MAX
    ensures !p.inCheck ==> EvaluatePosition(p, []) == 0
  {
  }

  /**
   * With a move available the score is the material balance plus five
   * times the control balance, whoever is to move and whether or not in
   * check; it lies strictly between the two mate scores.
   */
  lemma StaticScore(p: Position, moves: seq<Move>)
    requires PositionOk(p) && moves != []
    ensures EvaluatePosition(p, moves)
      == E.Weighted(p.counts.white) - E.Weighted(p.counts.black) + 5 * (p.controlWhite - p.controlBlack)
    ensures I32_MIN < EvaluatePosition(p, moves) < I32_MAX
  {
    PieceScoreIsWeighted(p.counts.white);
    PieceScoreIsWeighted(p.counts.black);
  }

  /** The same position with the colours, and so the side to move, exchanged. */
  function Mirror(p: Position): Position
  {
    Position(Opposite(p.turn), p.inCheck, E.Swap(p.counts), p.controlBlack, p.controlWhite)
  }

  /**
   * The score is White's view: exchanging the colours negates a static
   * score and turns a mate of one side into a mate of the other.
   */
  lemma MirrorNegates(p: Position, moves: seq<Move>)
    requires PositionOk(p)
    ensures PositionOk(Mirror(p))
    ensures moves != [] ==> EvaluatePosition(Mirror(p), moves) == -EvaluatePosition(p, moves)
    ensures moves == [] && p.inCheck ==>
      (EvaluatePosition(p, moves) == I32_MIN <==> EvaluatePosition(Mirror(p), moves) == I32_MAX)
    ensures moves == [] && !p.inCheck ==> EvaluatePosition(Mirror(p), moves) == EvaluatePosition(p, moves) == 0
  {
    if moves != [] {
      StaticScore(p, moves);
      StaticScore(Mirror(p), moves);
    }
  }
}
