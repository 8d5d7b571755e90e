/**
 * The history heuristic table (`shakmat-engine/src/search/history.rs`):
 * one `i32` score per side, origin square and destination square, raised
 * for quiet moves that were best and lowered for the others, and halved as
 * a whole once a score passes `MAX_HISTORY_VAL`.
 */
module History {
  import opened Base
  import opened Colors
  import opened BitBoards
  import opened Moves

  /** `MAX_HISTORY_VAL` of the move ordering: `i32::MAX - 1003`. */
  const MaxHistoryVal: int := I32_MAX - 1003

  /** The `[2][64][64]` array, flattened: side, then origin, then destination. */
  type Table = t: seq<int> | |t| == 2 * 64 * 64 && forall k :: 0 <= k < |t| ==> IsI32(t[k]) witness Zeroes()

  function Zeroes(): (t: seq<int>)
    ensures |t| == 2 * 64 * 64 && forall k :: 0 <= k < |t| ==> t[k] == 0 && IsI32(t[k])
  {
    seq(2 * 64 * 64, _ => 0)
  }

  /** The flat position of `data[color][from][to]`. */
  function Cell(c: Color, from: Sq, to: Sq): (k: nat)
    ensures k < 2 * 64 * 64
  {
    ToIndex(c) * 4096 + from * 64 + to
  }

  /** Different (side, origin, destination) triples have different cells. */
  lemma CellInjective(c: Color, from: Sq, to: Sq, d: Color, from': Sq, to': Sq)
    ensures Cell(c, from, to) == Cell(d, from', to') <==> c == d && from == from' && to == to'
  {
    if Cell(c, from, to) == Cell(d, from', to') {
      assert ToIndex(c) == Cell(c, from, to) / 4096 == ToIndex(d);
      IndexDistinguishes(c, d);
      assert from == (Cell(c, from, to) % 4096) / 64 == from';
    }
  }

  /** `new`: every score is zero. */
  function New(): (t: Table)
    ensures forall c, from: Sq, to: Sq :: t[Cell(c, from, to)] == 0
  {
    Zeroes()
  }

  /**
   * `get_from_to`: castles are filed under the king's two-square move, from
   * e1 (square 3) or e8 (square 59); other moves under their own squares.
   */
  function FromTo(m: Move, c: Color): (r: (Sq, Sq))
    ensures m.ShortCastle? ==> r == (KingHome(c), KingHome(c) - 2)
    ensures m.LongCastle? ==> r == (KingHome(c), KingHome(c) + 2)
    ensures m.Normal? || m.PawnPromotion? ==> r == (m.from, m.to)
  {
    match (m, c)
    case (ShortCastle, White) => (3, 1)
    case (LongCastle, White) => (3, 5)
    case (ShortCastle, Black) => (59, 57)
    case (LongCastle, Black) => (59, 61)
    case _ => (From(m), To(m))
  }

  /** The king's starting square: e1 for White, e8 for Black. */
  function KingHome(c: Color): Sq
  {
    if c == White then 3 else 59
  }

  /** The cell a move is filed under for a side. */
  function CellOf(m: Move, c: Color): (k: nat)
    ensures k < 2 * 64 * 64
  {
    var (from, to) := FromTo(m, c);
    Cell(c, from, to)
  }

  /** `get_value`: the score of the move's cell for the side. */
  function GetValue(t: Table, m: Move, c: Color): int
  {
    t[CellOf(m, c)]
  }

  /** `age`: every score halved, rounding toward zero as Rust's `/=` does. */
  function Age(t: Table): (r: Table)
    ensures forall k :: 0 <= k < |t| ==> r[k] == TruncDiv(t[k], 2)
  {
    seq(|t|, k requires 0 <= k < |t| => TruncDiv(t[k], 2))
  }

  /**
   * `add_bonus`: the cell gains the bonus, and if it then exceeds
   * `MAX_HISTORY_VAL` the whole table is aged. The sum must fit an `i32`,
   * since Rust checks the addition.
   */
  function AddBonus(t: Table, m: Move, c: Color, bonus: int): (r: Table)
    requires IsI32(GetValue(t, m, c) + bonus)
  {
    var (from, to) := FromTo(m, c);
    var k := Cell(c, from, to);
    var newval := t[k] + bonus;
    var t' := t[k := newval];
    if newval > MaxHistoryVal then Age(t') else t'
  }

  /** Whether adding the bonus to the move's cell ages the table. */
  predicate Triggers(t: Table, m: Move, c: Color, bonus: int)
  {
    GetValue(t, m, c) + bonus > MaxHistoryVal
  }

  /**
   * Without ageing, only the move's cell changes and it reads the old value
   * plus the bonus; with ageing, every cell is half of its value after the
   * addition.
   */
  lemma AddBonusMeaning(t: Table, m: Move, c: Color, bonus: int)
    requires IsI32(GetValue(t, m, c) + bonus)
    ensures !Triggers(t, m, c, bonus) ==>
      GetValue(AddBonus(t, m, c, bonus), m, c) == GetValue(t, m, c) + bonus
      && forall d, from: Sq, to: Sq :: (from, to) != FromTo(m, c) || d != c ==>
           AddBonus(t, m, c, bonus)[Cell(d, from, to)] == t[Cell(d, from, to)]
    ensures Triggers(t, m, c, bonus) ==>
      GetValue(AddBonus(t, m, c, bonus), m, c) == TruncDiv(GetValue(t, m, c) + bonus, 2)
      && forall d, from: Sq, to: Sq :: (from, to) != FromTo(m, c) || d != c ==>
           AddBonus(t, m, c, bonus)[Cell(d, from, to)] == TruncDiv(t[Cell(d, from, to)], 2)
  {
    var (from0, to0) := FromTo(m, c);
    forall d, from: Sq, to: Sq | (from, to) != (from0, to0) || d != c
      ensures Cell(d, from, to) != Cell(c, from0, to0)
    {
      CellInjective(d, from, to, c, from0, to0);
    }
  }

  /** Every score is at most `MAX_HISTORY_VAL`. */
  predicate Bounded(t: Table)
  {
    forall k :: 0 <= k < |t| ==> t[k] <= MaxHistoryVal
  }

  /** A non-positive bonus never ages a bounded table, and the table stays bounded. */
  lemma MalusNeverAges(t: Table, m: Move, c: Color, bonus: int)
    requires Bounded(t) && bonus <= 0 && IsI32(GetValue(t, m, c) + bonus)
    ensures !Triggers(t, m, c, bonus)
    ensures Bounded(AddBonus(t, m, c, bonus))
  {
  }

  /**
   * Any bonus up to `MAX_HISTORY_VAL` keeps a bounded table bounded: an
   * overflowing cell is at most twice the bound, and is halved.
   */
  lemma AddBonusKeepsBound(t: Table, m: Move, c: Color, bonus: int)
    requires Bounded(t) && bonus <= MaxHistoryVal && IsI32(GetValue(t, m, c) + bonus)
    ensures Bounded(AddBonus(t, m, c, bonus))
  {
    var (from, to) := FromTo(m, c);
    var k := Cell(c, from, to);
    var t' := t[k := t[k] + bonus];
    if t[k] + bonus > MaxHistoryVal {
      forall j | 0 <= j < |t'|
        ensures TruncDiv(t'[j], 2) <= MaxHistoryVal
      {
        HalfBelow(t'[j], 2 * MaxHistoryVal);
      }
    }
  }

  /** Halving a value at most twice a bound gives at most the bound. */
  lemma HalfBelow(x: int, b: nat)
    requires x <= b
    ensures TruncDiv(x, 2) <= b / 2
  {
  }

  /** Without ageing, the move's cell gains the bonus and every other cell keeps its value. */
  lemma AddBonusPlain(t: Table, m: Move, c: Color, bonus: int)
    requires IsI32(GetValue(t, m, c) + bonus) && !Triggers(t, m, c, bonus)
    ensures forall k :: 0 <= k < |t| ==>
      AddBonus(t, m, c, bonus)[k] == t[k] + (if k == CellOf(m, c) then bonus else 0)
  {
  }

  // ---------------------------------------------------------------------
  // The addition as Rust checks it.

  /** The panic of `+ bonus` at `add_bonus` leaving `i32`. */
  datatype Overflow = Overflow

  /**
   * `add_bonus` with the addition checked as a debug build does: a sum
   * outside `i32` panics; otherwise the cell takes the sum and the table
   * is aged when the sum passes `MAX_HISTORY_VAL`.
   */
  function AddBonusChecked(t: Table, m: Move, c: Color, bonus: int): (r: Result<Table, Overflow>)
    ensures r.Err? <==> !IsI32(GetValue(t, m, c) + bonus)
    ensures r.Ok? ==> r.value == AddBonus(t, m, c, bonus)
  {
    var k := CellOf(m, c);
    var newval := t[k] + bonus;
    if !IsI32(newval) then Err(Overflow)
    else
      var t': Table := t[k := newval];
      var aged: Table := if newval > MaxHistoryVal then Age(t') else t';
      Ok(aged)
  }

  /**
   * The bound keeps cells from above only: a bounded table whose cell sits
   * at `i32::MIN + 1` stays bounded and panics on a malus of 2.
   */
  lemma BoundedCellOverflowsDown(m: Move, c: Color)
    ensures IsI32(I32_MIN + 1)
    ensures var t: Table := New()[CellOf(m, c) := I32_MIN + 1];
      Bounded(t) && AddBonusChecked(t, m, c, -2) == Err(Overflow)
  {
    var t: Table := New()[CellOf(m, c) := I32_MIN + 1];
    assert GetValue(t, m, c) == I32_MIN + 1;
  }
}
