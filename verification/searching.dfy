/**
 * The bookkeeping of the engine's search
 * (`shakmat-engine/src/search/searching.rs`): the search options and the
 * depth clamp, the two killer slots kept per depth, and the history and
 * killer update made when a node finds its best move.
 */
module Searching {
  import opened Base
  import opened Colors
  import opened Moves
  import H = History

  /** `LIMIT_DEPTH`: the deepest the search goes under any options. */
  const LimitDepth: nat := 100

  /** The killer table: two slots for each depth up to `LIMIT_DEPTH + 1`. */
  type Killers = k: seq<(Move, Move)> | |k| == LimitDepth + 2 witness NoKillers()

  /** The initial table: both slots of every depth hold the placeholder move. */
  function NoKillers(): (k: seq<(Move, Move)>)
    ensures |k| == LimitDepth + 2
    ensures forall d :: 0 <= d < |k| ==> k[d] == (EmptyMove(), EmptyMove())
  {
    seq(LimitDepth + 2, _ => (EmptyMove(), EmptyMove()))
  }

  /** `is_killer`: the move is in either slot of the depth. */
  predicate IsKiller(k: Killers, mv: Move, depth: nat)
    requires depth < |k|
  {
    k[depth].0 == mv || k[depth].1 == mv
  }

  /** `SearchOptions`: clock, moves to the next control, time for this move (all in ms), depth. */
  datatype SearchOptions = SearchOptions(
    totalTimeRemaining: Option<nat>,
    movesUntilControl: Option<nat>,
    timeForMove: Option<nat>,
    maxDepth: Option<nat>)

  /** `SearchOptions::default`: depth 7 and no time limits. */
  function DefaultOptions(): (o: SearchOptions)
    ensures o.maxDepth == Some(7)
    ensures o.totalTimeRemaining.None? && o.movesUntilControl.None? && o.timeForMove.None?
  {
    SearchOptions(None, None, None, Some(7))
  }

  /** The `max_depth` chosen by `from_config`: the requested depth, 100 when absent, never above 100. */
  function MaxDepth(o: SearchOptions): (d: nat)
    ensures d <= LimitDepth
    ensures o.maxDepth.None? ==> d == LimitDepth
    ensures o.maxDepth.Some? ==> d <= o.maxDepth.value && (d == o.maxDepth.value || d == LimitDepth)
  {
    var requested := match o.maxDepth case Some(v) => v case None => LimitDepth;
    if requested < LimitDepth then requested else LimitDepth
  }

  /** The default options search to depth 7. */
  lemma DefaultDepth()
    ensures MaxDepth(DefaultOptions()) == 7
  {
  }

  /** The killer slots after a quiet best move: it goes first, and a different old first moves second. */
  function PushKiller(slots: (Move, Move), best: Move): (r: (Move, Move))
    ensures r.0 == best
    ensures slots.0 != best ==> r.1 == slots.0
    ensures slots.0 == best ==> r == slots
  {
    if best != slots.0 then (best, slots.0) else slots
  }

  // ---------------------------------------------------------------------
  // History penalties.

  /** Each penalty in turn keeps its cell within `i32`, as Rust's checked addition demands. */
  predicate MalusesFit(t: H.Table, quiets: seq<Move>, c: Color, bonus: int)
    decreases |quiets|
  {
    quiets == []
    || (IsI32(H.GetValue(t, quiets[0], c) - bonus)
        && MalusesFit(H.AddBonus(t, quiets[0], c, -bonus), quiets[1..], c, bonus))
  }

  /** `add_bonus(mv, color, -bonus)` for each quiet move, in order. */
  function ApplyMaluses(t: H.Table, quiets: seq<Move>, c: Color, bonus: int): H.Table
    requires MalusesFit(t, quiets, c, bonus)
    decreases |quiets|
  {
    if quiets == [] then t
    else ApplyMaluses(H.AddBonus(t, quiets[0], c, -bonus), quiets[1..], c, bonus)
  }

  /** How many of the moves are filed under cell `k`. */
  function CountCell(quiets: seq<Move>, c: Color, k: int): nat
  {
    if quiets == [] then 0
    else (if H.CellOf(quiets[0], c) == k then 1 else 0) + CountCell(quiets[1..], c, k)
  }

  /**
   * From a bounded table, a non-negative penalty never ages it: each cell
   * loses the penalty once per move filed under it, and the table stays bounded.
   */
  lemma {:induction false} ApplyMalusesMeaning(t: H.Table, quiets: seq<Move>, c: Color, bonus: int)
    requires H.Bounded(t) && bonus >= 0 && MalusesFit(t, quiets, c, bonus)
    ensures H.Bounded(ApplyMaluses(t, quiets, c, bonus))
    ensures forall k :: 0 <= k < |t| ==>
      ApplyMaluses(t, quiets, c, bonus)[k] == t[k] - bonus * CountCell(quiets, c, k)
    decreases |quiets|
  {
    if quiets != [] {
      var t1 := H.AddBonus(t, quiets[0], c, -bonus);
      H.MalusNeverAges(t, quiets[0], c, -bonus);
      H.AddBonusPlain(t, quiets[0], c, -bonus);
      ApplyMalusesMeaning(t1, quiets[1..], c, bonus);
      forall k | 0 <= k < |t|
        ensures ApplyMaluses(t, quiets, c, bonus)[k] == t[k] - bonus * CountCell(quiets, c, k)
      {
        var one := if H.CellOf(quiets[0], c) == k then 1 else 0;
        assert CountCell(quiets, c, k) == one + CountCell(quiets[1..], c, k);
        assert bonus * (one + CountCell(quiets[1..], c, k)) == bonus * one + bonus * CountCell(quiets[1..], c, k);
      }
    }
  }

  // ---------------------------------------------------------------------
  // update_histories.

  /** The tables a search updates when a node ends. */
  datatype Tables = Tables(killers: Killers, history: H.Table)

  /** `update_histories` can run: the depth indexes the killer table and every addition fits `i32`. */
  predicate CanUpdate(s: Tables, best: Move, quiets: seq<Move>, isCapture: bool, c: Color, depth: nat)
  {
    depth < LimitDepth + 2
    && (!isCapture ==>
          IsI32(H.GetValue(s.history, best, c) + depth * depth)
          && MalusesFit(H.AddBonus(s.history, best, c, depth * depth), quiets, c, depth * depth))
  }

  /**
   * `update_histories`: for a quiet best move, its history gains the
   * square of the depth, it becomes the first killer of the depth, and
   * every other quiet move searched loses the same amount; a capture
   * changes nothing.
   */
  function UpdateHistories(s: Tables, best: Move, quiets: seq<Move>, isCapture: bool, c: Color, depth: nat): Tables
    requires CanUpdate(s, best, quiets, isCapture, c, depth)
  {
    if isCapture then s
    else
      var bonus := depth * depth;
      var raised := H.AddBonus(s.history, best, c, bonus);
      Tables(s.killers[depth := PushKiller(s.killers[depth], best)], ApplyMaluses(raised, quiets, c, bonus))
  }

  /**
   * A quiet best move becomes the first killer of its depth and the old
   * first killer, if different, the second; no other depth changes; after
   * a capture the tables are unchanged.
   */
  lemma UpdateHistoriesKillers(s: Tables, best: Move, quiets: seq<Move>, isCapture: bool, c: Color, depth: nat)
    requires CanUpdate(s, best, quiets, isCapture, c, depth)
    ensures isCapture ==> UpdateHistories(s, best, quiets, isCapture, c, depth) == s
    ensures !isCapture ==>
      var k := UpdateHistories(s, best, quiets, isCapture, c, depth).killers;
      k[depth].0 == best && IsKiller(k, best, depth)
      && (s.killers[depth].0 != best ==> k[depth].1 == s.killers[depth].0)
      && (s.killers[depth].0 == best ==> k[depth] == s.killers[depth])
      && forall d :: 0 <= d < |k| && d != depth ==> k[d] == s.killers[d]
  {
  }

  /**
   * From a bounded history, when the bonus does not age the table, each
   * cell ends at its old value, plus the square of the depth for the best
   * move's cell, minus that square once per other quiet move filed under it.
   */
  lemma UpdateHistoriesScores(s: Tables, best: Move, quiets: seq<Move>, c: Color, depth: nat)
    requires CanUpdate(s, best, quiets, false, c, depth) && H.Bounded(s.history)
    requires !H.Triggers(s.history, best, c, depth * depth)
    ensures forall k :: 0 <= k < |s.history| ==>
      UpdateHistories(s, best, quiets, false, c, depth).history[k]
        == s.history[k] + (if k == H.CellOf(best, c) then depth * depth else 0) - depth * depth * CountCell(quiets, c, k)
  {
    var bonus := depth * depth;
    var raised := H.AddBonus(s.history, best, c, bonus);
    H.AddBonusPlain(s.history, best, c, bonus);
    BonusBelowBound(depth);
    H.AddBonusKeepsBound(s.history, best, c, bonus);
    ApplyMalusesMeaning(raised, quiets, c, bonus);
    var r := UpdateHistories(s, best, quiets, false, c, depth).history;
    assert r == ApplyMaluses(raised, quiets, c, bonus);
    forall k | 0 <= k < |s.history|
      ensures r[k] == s.history[k] + (if k == H.CellOf(best, c) then bonus else 0) - bonus * CountCell(quiets, c, k)
    {
      assert r[k] == raised[k] - bonus * CountCell(quiets, c, k);
    }
  }

  /** The bonus of any depth the killer table admits is below `MAX_HISTORY_VAL`. */
  lemma BonusBelowBound(depth: nat)
    requires depth < LimitDepth + 2
    ensures depth * depth <= H.MaxHistoryVal
  {
    SquareBelow(depth, 101);
  }

  /** A bounded history stays bounded through any update. */
  lemma UpdateHistoriesKeepsBound(s: Tables, best: Move, quiets: seq<Move>, isCapture: bool, c: Color, depth: nat)
    requires CanUpdate(s, best, quiets, isCapture, c, depth) && H.Bounded(s.history)
    ensures H.Bounded(UpdateHistories(s, best, quiets, isCapture, c, depth).history)
  {
    if !isCapture {
      var bonus := depth * depth;
      BonusBelowBound(depth);
      H.AddBonusKeepsBound(s.history, best, c, bonus);
      ApplyMalusesMeaning(H.AddBonus(s.history, best, c, bonus), quiets, c, bonus);
    }
  }

  lemma SquareBelow(x: nat, b: nat)
    requires x <= b
    ensures x * x <= b * b
  {
  }

  // ---------------------------------------------------------------------
  // update_histories with the additions checked as a debug build does.

  /** `add_bonus(mv, color, -bonus)` for each quiet move, each addition checked. */
  function ApplyMalusesChecked(t: H.Table, quiets: seq<Move>, c: Color, bonus: int): Result<H.Table, H.Overflow>
    decreases |quiets|
  {
    if quiets == [] then Ok(t)
    else match H.AddBonusChecked(t, quiets[0], c, -bonus)
      case Err(e) => Err(e)
      case Ok(t1) => ApplyMalusesChecked(t1, quiets[1..], c, bonus)
  }

  /** The checked penalties panic exactly when some penalty leaves `i32`, and otherwise give the unchecked result. */
  lemma {:induction false} ApplyMalusesCheckedMeaning(t: H.Table, quiets: seq<Move>, c: Color, bonus: int)
    ensures ApplyMalusesChecked(t, quiets, c, bonus).Ok? <==> MalusesFit(t, quiets, c, bonus)
    ensures MalusesFit(t, quiets, c, bonus) ==>
      ApplyMalusesChecked(t, quiets, c, bonus).value == ApplyMaluses(t, quiets, c, bonus)
    decreases |quiets|
  {
    if quiets != [] {
      if IsI32(H.GetValue(t, quiets[0], c) - bonus) {
        ApplyMalusesCheckedMeaning(H.AddBonus(t, quiets[0], c, -bonus), quiets[1..], c, bonus);
      }
    }
  }

  /** `n` copies of one move. */
  function Repeat(m: Move, n: nat): (r: seq<Move>)
    ensures |r| == n && forall i :: 0 <= i < n ==> r[i] == m
  {
    seq(n, _ => m)
  }

  /**
   * Cells have no floor: the same quiet move penalised `n` times from a
   * bounded table loses the penalty each time, and the checked additions
   * panic exactly when `n` penalties take its cell below `i32::MIN`.
   */
  lemma {:induction false} RepeatedMalusOverflows(t: H.Table, m: Move, c: Color, bonus: int, n: nat)
    requires H.Bounded(t) && bonus >= 0
    ensures ApplyMalusesChecked(t, Repeat(m, n), c, bonus).Err? <==> H.GetValue(t, m, c) - n * bonus < I32_MIN
    ensures ApplyMalusesChecked(t, Repeat(m, n), c, bonus).Ok? ==>
      H.GetValue(ApplyMalusesChecked(t, Repeat(m, n), c, bonus).value, m, c) == H.GetValue(t, m, c) - n * bonus
    decreases n
  {
    if n > 0 {
      var v := H.GetValue(t, m, c);
      RepeatUnfold(m, n);
      MulStep(n, bonus);
      if IsI32(v - bonus) {
        var t1 := MalusStep(t, m, c, bonus);
        RepeatedMalusOverflows(t1, m, c, bonus, n - 1);
      }
    }
  }

  /** `n` copies of a move are the move followed by `n - 1` copies. */
  lemma RepeatUnfold(m: Move, n: nat)
    requires n > 0
    ensures Repeat(m, n)[0] == m && Repeat(m, n)[1..] == Repeat(m, n - 1)
  {
  }

  lemma MulStep(n: nat, b: int)
    requires n > 0 && b >= 0
    ensures (n - 1) * b + b == n * b && n * b >= b
  {
  }

  /** One penalty on a bounded table, when it fits, lowers the move's cell by the penalty and keeps the table bounded. */
  lemma MalusStep(t: H.Table, m: Move, c: Color, bonus: int) returns (t1: H.Table)
    requires H.Bounded(t) && bonus >= 0 && IsI32(H.GetValue(t, m, c) - bonus)
    ensures H.AddBonusChecked(t, m, c, -bonus) == Ok(t1)
    ensures H.Bounded(t1) && H.GetValue(t1, m, c) == H.GetValue(t, m, c) - bonus
  {
    t1 := H.AddBonus(t, m, c, -bonus);
    H.MalusNeverAges(t, m, c, -bonus);
    H.AddBonusMeaning(t, m, c, -bonus);
  }

  /** Why a checked `update_histories` panics. */
  datatype UpdateFault = HistoryOverflow | KillerIndex

  /**
   * `update_histories` as a debug build runs it: a capture changes
   * nothing; otherwise the bonus is added, the killer slots of the depth
   * are indexed, and the penalties follow, each step able to panic.
   */
  function UpdateHistoriesChecked(s: Tables, best: Move, quiets: seq<Move>, isCapture: bool, c: Color, depth: nat): Result<Tables, UpdateFault>
  {
    if isCapture then Ok(s)
    else
      var bonus := depth * depth;
      match H.AddBonusChecked(s.history, best, c, bonus)
      case Err(_) => Err(HistoryOverflow)
      case Ok(raised) =>
        if depth >= LimitDepth + 2 then Err(KillerIndex)
        else match ApplyMalusesChecked(raised, quiets, c, bonus)
          case Err(_) => Err(HistoryOverflow)
          case Ok(t) => Ok(Tables(s.killers[depth := PushKiller(s.killers[depth], best)], t))
  }

  /**
   * The checked update succeeds exactly on a capture or when the update
   * can run, and then gives the unchecked update; it panics on the killer
   * index exactly when the bonus fits but the depth is past the table.
   */
  lemma UpdateHistoriesCheckedMeaning(s: Tables, best: Move, quiets: seq<Move>, isCapture: bool, c: Color, depth: nat)
    ensures var r := UpdateHistoriesChecked(s, best, quiets, isCapture, c, depth);
      (isCapture ==> r == Ok(s))
      && (r.Ok? <==> isCapture || CanUpdate(s, best, quiets, false, c, depth))
      && (r.Ok? && !isCapture ==> r.value == UpdateHistories(s, best, quiets, false, c, depth))
      && (r == Err(KillerIndex) <==>
            !isCapture && IsI32(H.GetValue(s.history, best, c) + depth * depth) && depth >= LimitDepth + 2)
  {
    if !isCapture && IsI32(H.GetValue(s.history, best, c) + depth * depth) {
      ApplyMalusesCheckedMeaning(H.AddBonus(s.history, best, c, depth * depth), quiets, c, depth * depth);
    }
  }
}
