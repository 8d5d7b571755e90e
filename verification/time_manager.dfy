/**
 * The search clock of `shakmat-engine/src/time.rs`. Times are `u64`
 * microseconds; a subtraction below zero, a product above `u64::MAX` or a
 * division by zero, each a panic in the source, is an error here. The
 * elapsed time is a parameter, one per reading of the clock.
 */
module TimeManager {
  import opened Base
  import opened Searching

  /** Microseconds taken off every budget. */
  const Offset: nat := 10000

  /** Moves assumed to remain when the control is not given. */
  const DefaultMoves: nat := 40

  datatype Manager = Manager(
    unlimited: bool,
    timeForThisMove: nat,
    totalRemaining: nat,
    finished: bool,
    hardLimit: bool)

  datatype ArithmeticError = Underflow | Overflow | DivisionByZero

  predicate IsU64(x: int)
  {
    0 <= x <= U64_MAX
  }

  /**
   * `TimeManager::new`: a per-move time wins and is a hard limit; no clock
   * at all means unlimited time; otherwise 80% of the clock's share per
   * move until the control (40 moves by default). Every budget loses `OFFSET`.
   */
  function New(o: SearchOptions): Result<Manager, ArithmeticError>
    requires o.timeForMove.Some? ==> IsU64(o.timeForMove.value)
    requires o.totalTimeRemaining.Some? ==> IsU64(o.totalTimeRemaining.value)
    requires o.movesUntilControl.Some? ==> IsU64(o.movesUntilControl.value)
  {
    if o.timeForMove.Some? then
      var micros := o.timeForMove.value * 1000;
      if micros > U64_MAX then Err(Overflow)
      else if micros < Offset then Err(Underflow)
      else Ok(Manager(false, micros - Offset, 0, false, true))
    else if o.totalTimeRemaining.None? then
      Ok(Manager(true, 0, 0, false, false))
    else
      var total := o.totalTimeRemaining.value * 1000;
      var moves := if o.movesUntilControl.Some? then o.movesUntilControl.value else DefaultMoves;
      if total > U64_MAX then Err(Overflow)
      else if moves == 0 then Err(DivisionByZero)
      else if total / moves * 4 > U64_MAX then Err(Overflow)
      else if total / moves * 4 / 5 < Offset then Err(Underflow)
      else Ok(Manager(false, total / moves * 4 / 5 - Offset, total, false, false))
  }

  /**
   * A per-move time of `ms` milliseconds gives the hard budget
   * `ms * 1000 - 10000` exactly when `ms` is at least 10 (and the product
   * fits); without any time the manager is unlimited, never hard, with no
   * budget, as the default options give.
   */
  lemma NewPerMove(ms: nat, total: Option<nat>, moves: Option<nat>, depth: Option<nat>)
    requires IsU64(ms)
    requires total.Some? ==> IsU64(total.value)
    requires moves.Some? ==> IsU64(moves.value)
    ensures var r := New(SearchOptions(total, moves, Some(ms), depth));
      (r.Ok? <==> 10 <= ms && ms * 1000 <= U64_MAX)
      && (r.Ok? ==> r.value == Manager(false, ms * 1000 - Offset, 0, false, true))
      && (ms < 10 ==> r == Err(Underflow))
    ensures New(SearchOptions(None, moves, None, depth)) == Ok(Manager(true, 0, 0, false, false))
    ensures New(DefaultOptions()) == Ok(Manager(true, 0, 0, false, false))
  {
  }

  /**
   * With a clock of `t` milliseconds and `m` moves to go (40 when not
   * given), the budget is `t * 1000 / m * 4 / 5 - 10000`. It fails on
   * `m == 0`, on a share whose fourfold leaves `u64` (only possible for
   * `m` below 4), and exactly otherwise on a share below 12500
   * microseconds; the budget is never more than 80% of the clock.
   */
  lemma NewFromClock(t: nat, moves: Option<nat>, depth: Option<nat>)
    requires IsU64(t * 1000)
    requires moves.Some? ==> IsU64(moves.value)
    ensures var m := if moves.Some? then moves.value else DefaultMoves;
      var r := New(SearchOptions(Some(t), moves, None, depth));
      (m == 0 ==> r == Err(DivisionByZero))
      && (m > 0 && t * 1000 / m * 4 > U64_MAX ==> r == Err(Overflow) && m < 4)
      && (m > 0 && t * 1000 / m * 4 <= U64_MAX ==> (r.Ok? <==> t * 1000 / m * 4 / 5 >= Offset))
      && (r.Ok? ==>
            r.value.timeForThisMove == t * 1000 / m * 4 / 5 - Offset
            && r.value.totalRemaining == t * 1000
            && !r.value.unlimited && !r.value.hardLimit && !r.value.finished
            && 5 * (r.value.timeForThisMove + Offset) <= 4 * r.value.totalRemaining)
  {
    var m := if moves.Some? then moves.value else DefaultMoves;
    if m > 0 {
      ShareBounds(t * 1000, m);
    }
  }

  /** The share of a move: at most the clock, and its fourfold fits `u64` from four moves on. */
  lemma ShareBounds(total: nat, m: nat)
    requires m > 0 && IsU64(total)
    ensures total / m <= total
    ensures m >= 4 ==> total / m * 4 <= total
    ensures 5 * (total / m * 4 / 5) <= 4 * total
  {
    var q := total / m;
    DivRemainder(total, m);
    assert q * m <= total;
    MulMonotone(1, m, q);
    if m >= 4 {
      MulMonotone(4, m, q);
    }
    DivRemainder(q * 4, 5);
  }

  /**
   * `add_panic_time`: with a clock, the budget grows by 30%, to at most
   * 75% of the clock; without one it stays as it is.
   */
  function AddPanicTime(tm: Manager): Result<Manager, ArithmeticError>
  {
    if tm.totalRemaining == 0 then Ok(tm)
    else if tm.timeForThisMove * 13 > U64_MAX || tm.totalRemaining * 75 > U64_MAX then Err(Overflow)
    else Ok(tm.(timeForThisMove := Min(tm.timeForThisMove * 13 / 10, tm.totalRemaining * 75 / 100)))
  }

  function Min(a: nat, b: nat): nat
  {
    if a <= b then a else b
  }

  /**
   * Panic time changes only the budget, which is then at most 75% of the
   * clock and at most 130% of the old one. It grows the budget exactly when
   * the old budget is already within 75% of the clock; a budget above that
   * (one share of a one-move control) shrinks to 75%. A hard limit or
   * unlimited time is left alone.
   */
  lemma AddPanicTimeMeaning(tm: Manager)
    requires AddPanicTime(tm).Ok?
    ensures var r := AddPanicTime(tm).value;
      r.unlimited == tm.unlimited && r.totalRemaining == tm.totalRemaining
      && r.finished == tm.finished && r.hardLimit == tm.hardLimit
      && (tm.totalRemaining == 0 ==> r == tm)
      && (tm.totalRemaining != 0 ==>
            r.timeForThisMove <= tm.totalRemaining * 75 / 100
            && 10 * r.timeForThisMove <= 13 * tm.timeForThisMove
            && (r.timeForThisMove >= tm.timeForThisMove <==> tm.timeForThisMove <= tm.totalRemaining * 75 / 100))
  {
  }

  /** A manager built from a per-move time or from no time at all ignores panic time. */
  lemma PanicIgnoredWithoutClock(o: SearchOptions)
    requires o.timeForMove.Some? ==> IsU64(o.timeForMove.value)
    requires o.totalTimeRemaining.Some? ==> IsU64(o.totalTimeRemaining.value)
    requires o.movesUntilControl.Some? ==> IsU64(o.movesUntilControl.value)
    requires o.timeForMove.Some? || o.totalTimeRemaining.None?
    requires New(o).Ok?
    ensures AddPanicTime(New(o).value) == Ok(New(o).value)
  {
  }

  /** `update`: unless time is unlimited, finished is whether the budget has been spent. */
  function Update(tm: Manager, elapsed: nat): (r: Manager)
    ensures r.timeForThisMove == tm.timeForThisMove && r.unlimited == tm.unlimited
    ensures r.totalRemaining == tm.totalRemaining && r.hardLimit == tm.hardLimit
  {
    if tm.unlimited then tm else tm.(finished := elapsed >= tm.timeForThisMove)
  }

  /** `times_up`. */
  function TimesUp(tm: Manager): bool
  {
    tm.finished
  }

  /**
   * With a budget, time is up after an update exactly when the elapsed
   * time has reached the budget, whatever was recorded before; with
   * unlimited time an update changes nothing, so a fresh unlimited
   * manager is never out of time.
   */
  lemma UpdateMeaning(tm: Manager, elapsed: nat)
    ensures !tm.unlimited ==> (TimesUp(Update(tm, elapsed)) <==> elapsed >= tm.timeForThisMove)
    ensures tm.unlimited ==> Update(tm, elapsed) == tm
    ensures tm.unlimited && !tm.finished ==> !TimesUp(Update(tm, elapsed))
  {
  }

  /** Time, once up, stays up as the clock runs on. */
  lemma UpdateMonotone(tm: Manager, e1: nat, e2: nat)
    requires e1 <= e2
    ensures TimesUp(Update(tm, e1)) ==> TimesUp(Update(Update(tm, e1), e2))
  {
  }

  /**
   * `remaining_micros` as written: the clock is read once inside `update`
   * (`e1`) and again for the subtraction (`e2`, no earlier).
   */
  function RemainingAsWritten(tm: Manager, e1: nat, e2: nat): (r: (Manager, Result<nat, ArithmeticError>))
    requires e1 <= e2
    ensures r.0 == Update(tm, e1)
  {
    var tm' := Update(tm, e1);
    if TimesUp(tm') then (tm', Ok(0))
    else if tm'.unlimited then (tm', Ok(U64_MAX))
    else if e2 > tm'.timeForThisMove then (tm', Err(Underflow))
    else (tm', Ok(tm'.timeForThisMove - e2))
  }

  /**
   * The deadline can pass between the two readings: with a budget of 100
   * microseconds, readings of 99 and then 101 pass the time-up test and
   * then subtract 101 from 100.
   */
  lemma RemainingUnderflows()
    ensures RemainingAsWritten(Manager(false, 100, 1000, false, false), 99, 101).1 == Err(Underflow)
  {
  }

  /** `remaining_micros` with the subtraction saturating at 0. */
  function Remaining(tm: Manager, e1: nat, e2: nat): (r: (Manager, nat))
    requires e1 <= e2
    ensures r.0 == Update(tm, e1)
  {
    var tm' := Update(tm, e1);
    if TimesUp(tm') then (tm', 0)
    else if tm'.unlimited then (tm', U64_MAX)
    else if e2 > tm'.timeForThisMove then (tm', 0)
    else (tm', tm'.timeForThisMove - e2)
  }

  /**
   * The corrected count is 0 once time is up, `u64::MAX` with unlimited
   * time, and otherwise the budget less the elapsed time, never below 0
   * nor above the budget; it agrees with the source whenever the source
   * does not underflow, in particular whenever both readings are the same.
   */
  lemma RemainingMeaning(tm: Manager, e1: nat, e2: nat)
    requires e1 <= e2
    ensures var (tm', left) := Remaining(tm, e1, e2);
      (TimesUp(tm') ==> left == 0)
      && (!TimesUp(tm') && tm.unlimited ==> left == U64_MAX)
      && (!tm.unlimited ==> left <= tm.timeForThisMove && (left > 0 ==> left == tm.timeForThisMove - e2))
      && (!tm.unlimited && e2 < tm.timeForThisMove ==> left == tm.timeForThisMove - e2)
    ensures RemainingAsWritten(tm, e1, e2).1.Ok? ==> RemainingAsWritten(tm, e1, e2).1.value == Remaining(tm, e1, e2).1
    ensures RemainingAsWritten(tm, e1, e1).1.Ok?
  {
  }
}
