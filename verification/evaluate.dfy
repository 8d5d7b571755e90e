/**
 * The score of a position (`shakmat-engine/src/evaluation/evaluate.rs`): the
 * `Evaluation` wrapper around an `i16`, its mate bands and their display, and
 * the tapered evaluation that mixes an opening and an endgame score by the
 * game phase. Rust's `i16` and `i32` arithmetic stops the program on
 * overflow; each step that can overflow yields `None` here.
 */
module Evaluate {
  import opened Base
  import opened Colors
  import opened Text

  /** `Evaluation`: an `i16` score, positive when the side to move stands better. */
  datatype Evaluation = Evaluation(score: int)

  predicate Valid(e: Evaluation)
  {
    IsI16(e.score)
  }

  /** `CONTEMPT`: the score of a draw. */
  const Contempt: int := 0

  /** `min_val`: one above `i16::MIN`, so that its negation exists. */
  const MinVal: Evaluation := Evaluation(I16_MIN + 1)

  /** `max_val`. */
  const MaxVal: Evaluation := Evaluation(I16_MAX)

  /** `-e`; `i16::MIN` has no negation. */
  function Neg(e: Evaluation): (r: Evaluation)
    requires Valid(e) && e.score != I16_MIN
    ensures Valid(r) && r.score != I16_MIN
  {
    Evaluation(-e.score)
  }

  /** `e + x` for an `i16` amount; the sum of two scores is `Add(a, b.score)`. */
  function Add(e: Evaluation, x: int): (r: Evaluation)
    requires Valid(e) && IsI16(x) && IsI16(e.score + x)
    ensures Valid(r)
  {
    Evaluation(e.score + x)
  }

  /** `e - x` for an `i16` amount; the difference of two scores is `Sub(a, b.score)`. */
  function Sub(e: Evaluation, x: int): (r: Evaluation)
    requires Valid(e) && IsI16(x) && IsI16(e.score - x)
    ensures Valid(r)
  {
    Evaluation(e.score - x)
  }

  /** The derived order, and the order against a bare `i16`: both compare the score. */
  predicate Below(a: Evaluation, b: Evaluation)
  {
    a.score < b.score
  }

  /** The bounds negate into each other without overflow, and negation is an involution. */
  lemma NegBounds(e: Evaluation)
    requires Valid(e) && e.score != I16_MIN
    ensures Neg(MinVal) == MaxVal && Neg(MaxVal) == MinVal
    ensures Neg(Neg(e)) == e
    ensures !Below(e, MinVal) && !Below(MaxVal, e)
  {
  }

  /** Negation reverses the order, which is what lets negamax use one comparison for both sides. */
  lemma NegReversesOrder(a: Evaluation, b: Evaluation)
    requires Valid(a) && a.score != I16_MIN && Valid(b) && b.score != I16_MIN
    ensures Below(a, b) <==> Below(Neg(b), Neg(a))
    ensures a == b <==> Neg(a) == Neg(b)
  {
  }

  /** Adding an amount and subtracting it again gives back the score. */
  lemma AddSubInverse(e: Evaluation, x: int)
    requires Valid(e) && IsI16(x) && IsI16(e.score + x)
    ensures Sub(Add(e, x), x) == e
    ensures Below(e, Add(e, x)) <==> x > 0
  {
  }

  // ---------------------------------------------------------------------
  // Mate bands.

  /** `is_positive_mate`: within 100 of the maximum. */
  predicate IsPositiveMate(e: Evaluation)
    requires Valid(e)
  {
    !Below(e, Sub(MaxVal, 100))
  }

  /** `is_negative_mate`: within 100 of the minimum. */
  predicate IsNegativeMate(e: Evaluation)
    requires Valid(e)
  {
    !Below(Add(MinVal, 100), e)
  }

  /**
   * The bands are `[i16::MAX - 100, i16::MAX]` and `[i16::MIN, i16::MIN + 101]`;
   * they are disjoint, and a score is a mate for one side exactly when its
   * negation is a mate for the other.
   */
  lemma MateBands(e: Evaluation)
    requires Valid(e)
    ensures IsPositiveMate(e) <==> e.score >= I16_MAX - 100
    ensures IsNegativeMate(e) <==> e.score <= I16_MIN + 101
    ensures !(IsPositiveMate(e) && IsNegativeMate(e))
    ensures e.score != I16_MIN ==> (IsPositiveMate(e) <==> IsNegativeMate(Neg(e)))
    ensures e.score != I16_MIN ==> (IsNegativeMate(e) <==> IsPositiveMate(Neg(e)))
  {
  }

  /** A number in decimal, with a leading '-' when negative. */
  function SignedDecimal(n: int): (s: string)
    ensures n >= 0 ==> s == Decimal(n)
  {
    if n < 0 then "-" + Decimal(-n) else Decimal(n)
  }

  /**
   * `Display` of a mate score: "M" and the plies left to mate for the
   * winner, "-M" and the plies for the loser; any other score prints as a
   * decimal fraction, which is not modelled (`None`).
   */
  function MateText(e: Evaluation): (r: Option<string>)
    requires Valid(e)
    ensures r.Some? <==> IsPositiveMate(e) || IsNegativeMate(e)
  {
    if IsPositiveMate(e) then Some("M" + SignedDecimal(I16_MAX - e.score))
    else if IsNegativeMate(e) then Some("-M" + SignedDecimal(e.score - I16_MIN - 1))
    else None
  }

  /**
   * A mate `d` plies away prints as "M{d}" for the winner and "-M{d}" for the
   * loser (the loser's score being the winner's negated), and the digits
   * read back as `d`.
   */
  lemma MateDisplay(d: nat)
    requires d <= 100
    ensures MateText(Sub(MaxVal, d)) == Some("M" + Decimal(d))
    ensures MateText(Add(MinVal, d)) == Some("-M" + Decimal(d))
    ensures Neg(Sub(MaxVal, d)) == Add(MinVal, d)
    ensures ParseU16(Decimal(d)) == Some(d)
  {
    MateBands(Sub(MaxVal, d));
    MateBands(Add(MinVal, d));
    ParseU16RoundTrip(d);
  }

  // ---------------------------------------------------------------------
  // Material counts and the game phase.

  /** How many men of each kind but the king one side has (`count()` of each board). */
  datatype Side = Side(pawns: nat, knights: nat, bishops: nat, rooks: nat, queens: nat)

  /** The counts of both sides, as `EvalData` holds them. */
  datatype Counts = Counts(white: Side, black: Side)

  /** Each count is a population count, so at most 64. */
  predicate SideOk(s: Side)
  {
    s.pawns <= 64 && s.knights <= 64 && s.bishops <= 64 && s.rooks <= 64 && s.queens <= 64
  }

  predicate CountsOk(c: Counts)
  {
    SideOk(c.white) && SideOk(c.black)
  }

  /** The same position with the colours exchanged. */
  function Swap(c: Counts): Counts
  {
    Counts(c.black, c.white)
  }

  /** The phase before scaling: 24, less 1 per minor piece, 2 per rook and 4 per queen. */
  function PhaseUnits(c: Counts): int
  {
    24 - (c.white.knights + c.black.knights + c.white.bishops + c.black.bishops)
    - 2 * (c.white.rooks + c.black.rooks)
    - 4 * (c.white.queens + c.black.queens)
  }

  /**
   * `update_game_phase`: `(units * 256 + 12) / 24` in `i16`, rounding toward
   * zero; `None` when `units * 256` leaves `i16`, which takes more than 152
   * units of promoted material.
   */
  function GamePhase(c: Counts): (r: Option<int>)
    requires CountsOk(c)
    ensures r.Some? <==> PhaseUnits(c) >= -128
    ensures r.Some? ==> IsI16(r.value)
  {
    var units := PhaseUnits(c);
    if IsI16(units * 256) then
      TruncDivBetween(units * 256 + 12, 24, -1366, 257);
      Some(TruncDiv(units * 256 + 12, 24))
    else None
  }

  /** At most the men a side starts with: eight pawns, two of each minor piece, two rooks, one queen. */
  predicate WithinStartingSet(c: Counts)
  {
    var w := c.white;
    var b := c.black;
    w.pawns <= 8 && w.knights <= 2 && w.bishops <= 2 && w.rooks <= 2 && w.queens <= 1
    && b.pawns <= 8 && b.knights <= 2 && b.bishops <= 2 && b.rooks <= 2 && b.queens <= 1
  }

  const FullSide: Side := Side(8, 2, 2, 2, 1)
  const BareSide: Side := Side(0, 0, 0, 0, 0)

  /**
   * Within the starting set the phase lies in `[0, 256]`, and it depends on
   * the colours only through the totals.
   */
  lemma PhaseRange(c: Counts)
    requires CountsOk(c) && WithinStartingSet(c)
    ensures GamePhase(c).Some? && 0 <= GamePhase(c).value <= 256
    ensures GamePhase(Swap(c)) == GamePhase(c)
  {
    PhaseInRange(c);
  }

  /** The phase is 0 with all the pieces on the board and 256 with none. */
  lemma PhaseEnds()
    ensures GamePhase(Counts(FullSide, FullSide)) == Some(0)
    ensures GamePhase(Counts(BareSide, BareSide)) == Some(256)
  {
    NatDivBetween(12, 24, 0, 0);
    NatDivBetween(24 * 256 + 12, 24, 256, 256);
  }

  // ---------------------------------------------------------------------
  // The score terms.

  /** An opening and an endgame score (`score_opening`/`score_midgame` and `score_endgame`). */
  datatype Tapered = Tapered(opening: int, endgame: int)

  predicate TaperedOk(t: Tapered)
  {
    IsI16(t.opening) && IsI16(t.endgame)
  }

  /** `+=` on both halves, `None` when either leaves `i16`. */
  function AddTerm(acc: Tapered, t: Tapered): (r: Option<Tapered>)
    ensures r.Some? ==> TaperedOk(r.value)
    ensures r.Some? <==> IsI16(acc.opening + t.opening) && IsI16(acc.endgame + t.endgame)
    ensures r.Some? ==> r.value.opening - t.opening == acc.opening && r.value.endgame - t.endgame == acc.endgame
  {
    var r := Tapered(acc.opening + t.opening, acc.endgame + t.endgame);
    if TaperedOk(r) then Some(r) else None
  }

  /** The material balance with the weights 100, 300, 300, 500 and 900. */
  function Weighted(s: Side): nat
  {
    100 * s.pawns + 300 * s.knights + 300 * s.bishops + 500 * s.rooks + 900 * s.queens
  }

  /**
   * `calc_piece_score`: the five weighted differences summed from left to
   * right in `i16`; `None` when a product or a partial sum leaves `i16`.
   * Where it succeeds, it is White's weighted count minus Black's.
   */
  function MaterialTerm(c: Counts): (r: Option<int>)
    requires CountsOk(c)
    ensures r.Some? ==> IsI16(r.value) && r.value == Weighted(c.white) - Weighted(c.black)
  {
    var w := c.white;
    var b := c.black;
    var p := 100 * (w.pawns - b.pawns);
    var n := 300 * (w.knights - b.knights);
    var bi := 300 * (w.bishops - b.bishops);
    var r := 500 * (w.rooks - b.rooks);
    var q := 900 * (w.queens - b.queens);
    if IsI16(n) && IsI16(p + n) && IsI16(p + n + bi) && IsI16(p + n + bi + r) && IsI16(q) && IsI16(p + n + bi + r + q)
    then Some(p + n + bi + r + q)
    else None
  }

  /** `calc_control_score`: the difference in controlled squares, once in the opening and twice in the endgame. */
  function ControlTerm(controlWhite: nat, controlBlack: nat): (t: Tapered)
    requires controlWhite <= 64 && controlBlack <= 64
    ensures TaperedOk(t) && t.endgame == 2 * t.opening
    ensures controlWhite >= controlBlack <==> t.opening >= 0
  {
    Tapered(controlWhite - controlBlack, 2 * (controlWhite - controlBlack))
  }

  function HasPair(s: Side): int
  {
    if s.bishops >= 2 then 1 else 0
  }

  /** `calc_bishop_pair_bonus`: 20 in the opening and 60 in the endgame for each side holding two bishops. */
  function BishopPairTerm(c: Counts): Tapered
  {
    Tapered(20 * HasPair(c.white) - 20 * HasPair(c.black), 60 * HasPair(c.white) - 60 * HasPair(c.black))
  }

  /**
   * The bishop pair is worth +-20 in the opening and +-60 in the endgame to
   * the side that alone has it, nothing when both or neither do, and the
   * term changes sign with the colours.
   */
  lemma BishopPairMeaning(c: Counts)
    ensures var t := BishopPairTerm(c);
      TaperedOk(t) && t.endgame == 3 * t.opening
      && (t.opening == 20 <==> c.white.bishops >= 2 && c.black.bishops < 2)
      && (t.opening == -20 <==> c.white.bishops < 2 && c.black.bishops >= 2)
      && (t.opening == 0 <==> (c.white.bishops >= 2 <==> c.black.bishops >= 2))
    ensures BishopPairTerm(Swap(c)).opening == -BishopPairTerm(c).opening
    ensures BishopPairTerm(Swap(c)).endgame == -BishopPairTerm(c).endgame
  {
  }

  /** `calc_tempo`: 28 for the side to move, in the opening only. */
  const Tempo: Tapered := Tapered(28, 0)

  // ---------------------------------------------------------------------
  // The tapered score.

  /** The interpolation `(opening * (256 - phase) + endgame * phase) / 256`, before any width applies. */
  function Mix(t: Tapered, phase: int): int
  {
    TruncDiv(t.opening * (256 - phase) + t.endgame * phase, 256)
  }

  /**
   * `compute_score`: the interpolation in `i32` (each product fits; the sum
   * is checked), cast to `i16` with wrap-around, and multiplied in `i16` by
   * the sign of the side to move.
   */
  function ComputeScore(t: Tapered, phase: int, turn: Color): (r: Option<Evaluation>)
    requires TaperedOk(t) && IsI16(phase)
    ensures r.Some? ==> Valid(r.value)
  {
    var x := t.opening * (256 - phase) + t.endgame * phase;
    if !IsI32(x) then None
    else
      var v := WrapI16(TruncDiv(x, 256)) * Sign(turn);
      if IsI16(v) then Some(Evaluation(v)) else None
  }

  /**
   * For a phase in `[0, 256]` no cast wraps: the score is the interpolation
   * signed for the side to move, and Black to move gets White's score
   * negated.
   */
  lemma ComputeScoreInterpolates(t: Tapered, phase: int, turn: Color)
    requires TaperedOk(t) && t.opening != I16_MIN && t.endgame != I16_MIN
    requires 0 <= phase <= 256
    ensures ComputeScore(t, phase, turn).Some? && ComputeScore(t, phase, Black).Some? && ComputeScore(t, phase, White).Some?
    ensures ComputeScore(t, phase, turn).value.score == Sign(turn) * Mix(t, phase)
    ensures ComputeScore(t, phase, Black).value == Neg(ComputeScore(t, phase, White).value)
  {
    MixInterpolates(t, phase);
  }

  /**
   * For a phase in `[0, 256]` the interpolation lies between the opening
   * and the endgame score and fits `i32` before the division.
   */
  lemma MixInterpolates(t: Tapered, phase: int)
    requires 0 <= phase <= 256 && TaperedOk(t)
    ensures t.opening <= Mix(t, phase) <= t.endgame || t.endgame <= Mix(t, phase) <= t.opening
    ensures IsI32(t.opening * (256 - phase) + t.endgame * phase)
  {
    var lo := if t.opening <= t.endgame then t.opening else t.endgame;
    var hi := if t.opening <= t.endgame then t.endgame else t.opening;
    var x := t.opening * (256 - phase) + t.endgame * phase;
    MixBetween(t.opening, t.endgame, phase, lo, hi);
    TruncDivBetween(x, 256, lo, hi);
  }

  /** The interpolation is the opening score at phase 0 and the endgame score at phase 256. */
  lemma MixEnds(t: Tapered, phase: int)
    requires phase == 0 || phase == 256
    ensures phase == 0 ==> Mix(t, phase) == t.opening
    ensures phase == 256 ==> Mix(t, phase) == t.endgame
  {
    var x := t.opening * (256 - phase) + t.endgame * phase;
    if phase == 0 {
      assert x == t.opening * 256;
      TruncDivBetween(x, 256, t.opening, t.opening);
    } else {
      assert x == t.endgame * 256;
      TruncDivBetween(x, 256, t.endgame, t.endgame);
    }
  }

  /** The weighted sum lies between 256 times the smaller and 256 times the larger score. */
  lemma MixBetween(a: int, b: int, phase: int, lo: int, hi: int)
    requires 0 <= phase <= 256 && lo <= a <= hi && lo <= b <= hi
    ensures 256 * lo <= a * (256 - phase) + b * phase <= 256 * hi
  {
    MulMonotone(lo, a, 256 - phase);
    MulMonotone(lo, b, phase);
    MulMonotone(a, hi, 256 - phase);
    MulMonotone(b, hi, phase);
    assert lo * (256 - phase) + lo * phase == 256 * lo;
    assert hi * (256 - phase) + hi * phase == 256 * hi;
  }

  // ---------------------------------------------------------------------
  // evaluate_position.

  /** Adds a term when the accumulator exists. */
  function Then(acc: Option<Tapered>, t: Tapered): (r: Option<Tapered>)
    ensures acc.None? ==> r.None?
  {
    if acc.None? then None else AddTerm(acc.value, t)
  }

  /** The opening and endgame scores once every term is in, without width limits. */
  function RawTerms(m: int, positional: Tapered, control: Tapered, pair: Tapered): Tapered
  {
    Tapered(m + positional.opening + control.opening + pair.opening + Tempo.opening,
            m + positional.endgame + control.endgame + pair.endgame + Tempo.endgame)
  }

  /** The five `+=` of `evaluate_position`, in its order: material, positional, control, bishop pair, tempo. */
  function Accumulate(m: int, positional: Tapered, control: Tapered, pair: Tapered): Option<Tapered>
  {
    Then(Then(Then(Then(Then(Some(Tapered(0, 0)), Tapered(m, m)), positional), control), pair), Tempo)
  }

  /** When every partial sum stays well inside `i16`, no `+=` overflows and the result is the plain sum. */
  lemma AccumulateExact(m: int, positional: Tapered, control: Tapered, pair: Tapered)
    requires -13500 <= m <= 13500
    requires -10000 <= positional.opening <= 10000 && -10000 <= positional.endgame <= 10000
    requires -128 <= control.opening <= 128 && -128 <= control.endgame <= 128
    requires -60 <= pair.opening <= 60 && -60 <= pair.endgame <= 60
    ensures Accumulate(m, positional, control, pair) == Some(RawTerms(m, positional, control, pair))
  {
  }

  /**
   * `evaluate_position`: material, the positional term (a parameter: the
   * piece-square tables are not part of this model), control, the bishop
   * pair and the tempo, added in that order, then tapered by the phase.
   */
  function EvaluatePosition(c: Counts, positional: Tapered, controlWhite: nat, controlBlack: nat, turn: Color): Option<Evaluation>
    requires CountsOk(c) && TaperedOk(positional)
    requires controlWhite <= 64 && controlBlack <= 64
  {
    var phase := GamePhase(c);
    var material := MaterialTerm(c);
    if phase.None? || material.None? then None
    else
      var acc := Accumulate(material.value, positional, ControlTerm(controlWhite, controlBlack), BishopPairTerm(c));
      if acc.None? then None else ComputeScore(acc.value, phase.value, turn)
  }

  /** Each side has at most fifteen men besides its king, as in any game from the initial position. */
  predicate Plausible(c: Counts)
  {
    var w := c.white;
    var b := c.black;
    w.pawns + w.knights + w.bishops + w.rooks + w.queens <= 15
    && b.pawns + b.knights + b.bishops + b.rooks + b.queens <= 15
  }

  /** A phase unit count from 0 to 24 gives a phase from 0 to 256. */
  lemma PhaseInRange(c: Counts)
    requires CountsOk(c) && PhaseUnits(c) >= 0
    ensures GamePhase(c).Some? && 0 <= GamePhase(c).value <= 256
  {
    var units := PhaseUnits(c);
    NatDivBetween(units * 256 + 12, 24, 0, 256);
  }

  /**
   * With at most fifteen men a side, a positional term at most 10000 in size
   * and a non-negative phase, no step overflows, and the score is the taper
   * of the sum of the terms, negated for Black.
   */
  lemma EvaluateDefined(c: Counts, positional: Tapered, controlWhite: nat, controlBlack: nat, turn: Color)
    requires CountsOk(c) && Plausible(c) && PhaseUnits(c) >= 0
    requires -10000 <= positional.opening <= 10000 && -10000 <= positional.endgame <= 10000
    requires controlWhite <= 64 && controlBlack <= 64
    ensures EvaluatePosition(c, positional, controlWhite, controlBlack, turn).Some?
    ensures EvaluatePosition(c, positional, controlWhite, controlBlack, turn).value.score
      == Sign(turn) * Mix(RawTerms(Weighted(c.white) - Weighted(c.black), positional,
                                   ControlTerm(controlWhite, controlBlack), BishopPairTerm(c)),
                          GamePhase(c).value)
  {
    var m := Weighted(c.white) - Weighted(c.black);
    var raw := RawTerms(m, positional, ControlTerm(controlWhite, controlBlack), BishopPairTerm(c));
    EvaluateSteps(c, positional, controlWhite, controlBlack);
    EvaluateIsTaper(c, positional, controlWhite, controlBlack, turn, raw);
    ComputeScoreInterpolates(raw, GamePhase(c).value, turn);
  }

  /**
   * Under the bounds of `EvaluateDefined` the phase is in `[0, 256]`, the
   * material term is the weighted difference and the five additions give
   * the plain sum, which stays inside `i16`.
   */
  lemma EvaluateSteps(c: Counts, positional: Tapered, controlWhite: nat, controlBlack: nat)
    requires CountsOk(c) && Plausible(c) && PhaseUnits(c) >= 0
    requires -10000 <= positional.opening <= 10000 && -10000 <= positional.endgame <= 10000
    requires controlWhite <= 64 && controlBlack <= 64
    ensures GamePhase(c).Some? && 0 <= GamePhase(c).value <= 256
    ensures MaterialTerm(c) == Some(Weighted(c.white) - Weighted(c.black))
    ensures var raw := RawTerms(Weighted(c.white) - Weighted(c.black), positional,
                                ControlTerm(controlWhite, controlBlack), BishopPairTerm(c));
      Accumulate(MaterialTerm(c).value, positional, ControlTerm(controlWhite, controlBlack), BishopPairTerm(c)) == Some(raw)
      && TaperedOk(raw) && raw.opening != I16_MIN && raw.endgame != I16_MIN
  {
    PhaseInRange(c);
    MaterialFits(c);
    TermsAccumulate(c, positional, controlWhite, controlBlack);
  }

  /** With at most fifteen men a side the five additions give the plain sum, well inside `i16`. */
  lemma TermsAccumulate(c: Counts, positional: Tapered, controlWhite: nat, controlBlack: nat)
    requires Plausible(c)
    requires -10000 <= positional.opening <= 10000 && -10000 <= positional.endgame <= 10000
    requires controlWhite <= 64 && controlBlack <= 64
    ensures var m := Weighted(c.white) - Weighted(c.black);
      var raw := RawTerms(m, positional, ControlTerm(controlWhite, controlBlack), BishopPairTerm(c));
      Accumulate(m, positional, ControlTerm(controlWhite, controlBlack), BishopPairTerm(c)) == Some(raw)
      && TaperedOk(raw) && raw.opening != I16_MIN && raw.endgame != I16_MIN
  {
    var m := Weighted(c.white) - Weighted(c.black);
    assert -13500 <= m <= 13500 by {
      PlausibleWeights(c.white);
      PlausibleWeights(c.black);
    }
    var control := ControlTerm(controlWhite, controlBlack);
    var pair := BishopPairTerm(c);
    SmallTerms(c, controlWhite, controlBlack);
    AccumulateExact(m, positional, control, pair);
    RawTermsFit(m, positional, control, pair);
  }

  lemma SmallTerms(c: Counts, controlWhite: nat, controlBlack: nat)
    requires controlWhite <= 64 && controlBlack <= 64
    ensures -128 <= ControlTerm(controlWhite, controlBlack).opening <= 128
    ensures -128 <= ControlTerm(controlWhite, controlBlack).endgame <= 128
    ensures -60 <= BishopPairTerm(c).opening <= 60 && -60 <= BishopPairTerm(c).endgame <= 60
  {
  }

  /** Terms of these sizes sum to well inside `i16`. */
  lemma RawTermsFit(m: int, positional: Tapered, control: Tapered, pair: Tapered)
    requires -13500 <= m <= 13500
    requires -10000 <= positional.opening <= 10000 && -10000 <= positional.endgame <= 10000
    requires -128 <= control.opening <= 128 && -128 <= control.endgame <= 128
    requires -60 <= pair.opening <= 60 && -60 <= pair.endgame <= 60
    ensures var raw := RawTerms(m, positional, control, pair);
      TaperedOk(raw) && raw.opening != I16_MIN && raw.endgame != I16_MIN
  {
  }

  /** Once the phase, the material and the sum of the terms are known, the evaluation is their taper. */
  lemma EvaluateIsTaper(c: Counts, positional: Tapered, controlWhite: nat, controlBlack: nat, turn: Color, raw: Tapered)
    requires CountsOk(c) && TaperedOk(positional)
    requires controlWhite <= 64 && controlBlack <= 64
    requires GamePhase(c).Some? && MaterialTerm(c).Some?
    requires Accumulate(MaterialTerm(c).value, positional, ControlTerm(controlWhite, controlBlack), BishopPairTerm(c)) == Some(raw)
    ensures EvaluatePosition(c, positional, controlWhite, controlBlack, turn) == ComputeScore(raw, GamePhase(c).value, turn)
  {
  }

  /** Fifteen men weigh at most 13500. */
  lemma PlausibleWeights(s: Side)
    requires s.pawns + s.knights + s.bishops + s.rooks + s.queens <= 15
    ensures Weighted(s) <= 13500
    ensures 100 * s.pawns + 300 * s.knights <= 13500
    ensures 100 * s.pawns + 300 * s.knights + 300 * s.bishops <= 13500
    ensures 100 * s.pawns + 300 * s.knights + 300 * s.bishops + 500 * s.rooks <= 13500
  {
  }

  /** With at most fifteen men a side, no partial sum of the material term leaves `i16`. */
  lemma MaterialFits(c: Counts)
    requires CountsOk(c) && Plausible(c)
    ensures MaterialTerm(c).Some?
  {
    PlausibleWeights(c.white);
    PlausibleWeights(c.black);
  }
}
