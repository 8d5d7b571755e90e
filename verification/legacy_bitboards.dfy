/**
 * The bit board of the first revision (`src/chess/board/bitboard.rs`): the
 * same 64-bit word, with in-place set and reset helpers and an iterator
 * that shifts the word down past each set bit instead of clearing it.
 */
module LegacyBitBoards {
  import opened Base
  import opened BitBoards

  /** `set_one`: `bb |= pos`. */
  function SetOne(b: BitBoard, pos: BitBoard): (r: BitBoard)
    ensures forall s: Sq :: r[s] <==> b[s] || pos[s]
  {
    Or(b, pos)
  }

  /** `set_zero`: `bb &= !pos`, clearing exactly the squares of `pos`. */
  function SetZero(b: BitBoard, pos: BitBoard): (r: BitBoard)
    ensures forall s: Sq :: r[s] <==> b[s] && !pos[s]
  {
    And(b, Not(pos))
  }

  /** `reset` and `Default`: the empty board. */
  function Reset(b: BitBoard): (r: BitBoard)
    ensures IsEmpty(r)
    ensures forall s: Sq :: !r[s]
  {
    Empty
  }

  /** Setting and then clearing the same squares removes them and keeps everything else. */
  lemma SetThenClear(b: BitBoard, pos: BitBoard)
    ensures SetZero(SetOne(b, pos), pos) == SetZero(b, pos)
    ensures Squares(SetOne(b, pos)) == Squares(b) + Squares(pos)
    ensures Squares(SetZero(b, pos)) == Squares(b) - Squares(pos)
  {
    OperatorsAreSetOperators(b, pos);
  }

  // ---------------------------------------------------------------------
  // The shifting iterator.

  /**
   * The iterator state: the word still to scan, and how far it has been
   * shifted down so far (`cur_index`).
   */
  datatype Iter = Iter(bb: BitBoard, cur: nat)

  /** Every bit shifted in from the top is zero: no bit at or above `64 - cur`. */
  predicate Valid(it: Iter)
  {
    it.cur <= 64 && forall s: Sq :: s + it.cur >= 64 ==> !it.bb[s]
  }

  datatype IterError = ShiftOverflow

  /**
   * The shift by `n` for `n <= 64`, with 64 clearing the word.  This is the
   * shift the iterator needs; a Rust `u64` shift by 64 is out of range.
   */
  function ShrUpTo(a: BitBoard, n: nat): (r: BitBoard)
    requires n <= 64
    ensures forall s: Sq :: r[s] <==> s + n < 64 && a[s + n]
  {
    seq(64, i requires 0 <= i < 64 => i + n < 64 && a[i + n])
  }

  /**
   * `PieceIndexIter::next` as written: on a non-zero word it shifts by
   * `trailing_zeros + 1`, which is 64 when only the top bit is left; that
   * shift overflows (a panic in a debug build).
   */
  function NextAsWritten(it: Iter): (r: Result<Option<(Sq, Iter)>, IterError>)
    requires Valid(it)
    ensures r.Err? <==> !IsEmpty(it.bb) && TrailingZeros(it.bb) == 63
    ensures r.Ok? && r.value.Some? ==> NextFixed(it) == r.value
  {
    if IsEmpty(it.bb) then Ok(None)
    else
      var i := TrailingZeros(it.bb) + 1;
      if i == 64 then Err(ShiftOverflow)
      else Ok(Some((it.cur + i - 1, Iter(Shr(it.bb, i), it.cur + i))))
  }

  /**
   * The iterator step with the shift written so that 64 clears the word
   * (`(bb >> tz) >> 1`): the same yield and the same new index.
   */
  function NextFixed(it: Iter): (r: Option<(Sq, Iter)>)
    requires Valid(it)
    ensures r.None? <==> IsEmpty(it.bb)
    ensures r.Some? ==> Valid(r.value.1) && r.value.1.cur > it.cur
    ensures r.Some? ==> r.value.0 == it.cur + TrailingZeros(it.bb) && r.value.1.cur == r.value.0 + 1
  {
    if IsEmpty(it.bb) then None
    else
      var t := TrailingZeros(it.bb);
      assert t + it.cur < 64;
      var i := t + 1;
      Some((it.cur + i - 1, Iter(ShrUpTo(it.bb, i), it.cur + i)))
  }

  /** `piece_indices` with the corrected step: everything yielded until None. */
  function IndicesFixed(it: Iter): (r: seq<Sq>)
    requires Valid(it)
    decreases 64 - it.cur
  {
    match NextFixed(it)
    case None => []
    case Some((s, next)) => [s] + IndicesFixed(next)
  }

  /** `piece_indices` as written, which can fail on its shift. */
  function IndicesAsWritten(it: Iter): (r: Result<seq<Sq>, IterError>)
    requires Valid(it)
    decreases 64 - it.cur
  {
    match NextAsWritten(it)
    case Err(e) => Err(e)
    case Ok(None) => Ok([])
    case Ok(Some((s, next))) =>
      match IndicesAsWritten(next)
      case Err(e) => Err(e)
      case Ok(rest) => Ok([s] + rest)
  }

  function Start(b: BitBoard): (it: Iter)
    ensures Valid(it)
  {
    Iter(b, 0)
  }

  /**
   * The state after `cur` shifts tracks the board `x` of squares not yet
   * yielded: the word is `x` shifted down by `cur`, and `x` has nothing
   * below `cur`.
   */
  predicate Tracks(it: Iter, x: BitBoard)
  {
    it.cur <= 64
    && (forall s: Sq :: s < it.cur ==> !x[s])
    && (forall s: Sq :: it.bb[s] <==> s + it.cur < 64 && x[s + it.cur])
  }

  lemma TracksValid(it: Iter, x: BitBoard)
    requires Tracks(it, x)
    ensures Valid(it)
  {
  }

  /** One corrected step yields the lowest square of `x` and tracks `x` without it. */
  lemma StepTracks(it: Iter, x: BitBoard)
    requires Tracks(it, x)
    ensures Valid(it)
    ensures NextFixed(it).None? <==> Next(x).None?
    ensures NextFixed(it).Some? ==>
      NextFixed(it).value.0 == Next(x).value.0 && Tracks(NextFixed(it).value.1, Next(x).value.1)
  {
    if !IsEmpty(it.bb) {
      var t := TrailingZeros(it.bb);
      assert x[t + it.cur];
      assert TrailingZeros(x) == t + it.cur by {
        forall s: Sq | s < t + it.cur ensures !x[s] {
          if s >= it.cur {
            assert !it.bb[s - it.cur];
          }
        }
      }
    } else {
      forall s: Sq ensures !x[s] {
        if s >= it.cur {
          assert !it.bb[s - it.cur];
        }
      }
      assert IsEmpty(x);
    }
  }

  /** From any tracked state the corrected iterator lists exactly `piece_indices` of `x`. */
  lemma {:induction false} FixedListsIndices(it: Iter, x: BitBoard)
    requires Tracks(it, x)
    ensures Valid(it)
    ensures IndicesFixed(it) == PieceIndices(x)
    decreases 64 - it.cur
  {
    StepTracks(it, x);
    match NextFixed(it)
    case None =>
    case Some((s, next)) =>
      var rest := Next(x).value.1;
      FixedListsIndices(next, rest);
  }

  /**
   * The corrected iterator agrees with the core board's iterator, so it
   * yields each set square once, in ascending order.
   */
  lemma FixedIsPieceIndices(b: BitBoard)
    ensures IndicesFixed(Start(b)) == PieceIndices(b)
  {
    FixedListsIndices(Start(b), b);
  }

  /**
   * As written, the iterator fails exactly on the board whose only set
   * square is 63, and otherwise agrees with the corrected one.
   */
  lemma {:induction false} AsWrittenFailsOnlyOnTopSquare(b: BitBoard)
    ensures IndicesAsWritten(Start(b)).Err? <==> b == FromSquare(63)
    ensures IndicesAsWritten(Start(b)).Ok? ==> IndicesAsWritten(Start(b)).value == PieceIndices(b)
  {
    if b == FromSquare(63) {
      TopSquareOverflows();
    } else {
      TopSquareOnly(b);
      AsWrittenAgrees(Start(b));
      FixedIsPieceIndices(b);
    }
  }

  /** The only board whose lowest set square is 63 is the board of square 63. */
  lemma TopSquareOnly(b: BitBoard)
    ensures !IsEmpty(b) && TrailingZeros(b) == 63 ==> b == FromSquare(63)
  {
    if !IsEmpty(b) && TrailingZeros(b) == 63 {
      assert forall s: Sq :: b[s] == FromSquare(63)[s];
    }
  }

  /** After the first step no state can hold only its top bit, so the shift stays in range. */
  lemma {:induction false} AsWrittenAgrees(it: Iter)
    requires Valid(it)
    requires IsEmpty(it.bb) || TrailingZeros(it.bb) < 63
    ensures IndicesAsWritten(it) == Ok(IndicesFixed(it))
    decreases 64 - it.cur
  {
    match NextFixed(it)
    case None =>
    case Some((s, next)) =>
      var t := TrailingZeros(it.bb);
      assert ShrUpTo(it.bb, t + 1) == Shr(it.bb, t + 1);
      if !IsEmpty(next.bb) {
        var u := TrailingZeros(next.bb);
        assert u + next.cur < 64;
      }
      AsWrittenAgrees(next);
  }

  /** The board holding only square 63 makes the first shift overflow. */
  lemma TopSquareOverflows()
    ensures NextAsWritten(Start(FromSquare(63))) == Err(ShiftOverflow)
  {
    var b := FromSquare(63);
    assert b[63] && !Empty[63];
    assert TrailingZeros(b) == 63;
  }
}
