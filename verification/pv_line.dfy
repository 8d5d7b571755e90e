/**
 * The principal variation line of a search
 * (`shakmat-engine/src/search/pv_line.rs`): the moves the search expects
 * both sides to play from the current node on.
 */
module PvLine {
  import opened Base
  import opened Moves

  datatype PVLine = PVLine(moves: seq<Move>)

  /** Why writing into a vector can fail: the index is not below its length. */
  datatype Panic = IndexOutOfBounds(index: nat, len: nat)

  /** `new`: the empty line. */
  function New(): (l: PVLine)
    ensures l.moves == []
    ensures First(l).None?
  {
    PVLine([])
  }

  /** `clear`: the line is emptied. */
  function Clear(l: PVLine): (r: PVLine)
    ensures r.moves == []
    ensures First(r).None?
  {
    PVLine([])
  }

  /** `first`: the head of the line, None for an empty one. */
  function First(l: PVLine): (r: Option<Move>)
    ensures r.None? <==> l.moves == []
    ensures r.Some? ==> r.value == l.moves[0]
  {
    if l.moves == [] then None else Some(l.moves[0])
  }

  /**
   * `Vec::append`: the child's moves are moved to the end of the line, in
   * order, and the child is left empty.
   */
  function Append(l: PVLine, child: PVLine): (r: (PVLine, PVLine))
    ensures |r.0.moves| == |l.moves| + |child.moves|
    ensures r.0.moves[..|l.moves|] == l.moves && r.0.moves[|l.moves|..] == child.moves
    ensures r.1.moves == []
  {
    (PVLine(l.moves + child.moves), PVLine([]))
  }

  /** Indexed assignment into a vector, which panics past its end. */
  function WriteAt(s: seq<Move>, i: nat, m: Move): (r: Result<seq<Move>, Panic>)
    ensures r.Ok? <==> i < |s|
    ensures r.Ok? ==> r.value == s[i := m]
    ensures r.Err? ==> r.error == IndexOutOfBounds(i, |s|)
  {
    if i < |s| then Ok(s[i := m]) else Err(IndexOutOfBounds(i, |s|))
  }

  /**
   * `update_line` as written: clear the line, write the move at index 0 of
   * the now empty vector, then append the child line.
   */
  function UpdateLineAsWritten(l: PVLine, m: Move, child: PVLine): Result<(PVLine, PVLine), Panic>
  {
    var cleared := Clear(l);
    match WriteAt(cleared.moves, 0, m)
    case Err(p) => Err(p)
    case Ok(moves) => Ok(Append(PVLine(moves), child))
  }

  /** Whatever the line, the move and the child, the write at index 0 panics. */
  lemma UpdateLineAsWrittenPanics(l: PVLine, m: Move, child: PVLine)
    ensures UpdateLineAsWritten(l, m, child) == Err(IndexOutOfBounds(0, 0))
  {
  }

  /**
   * `update_line` as evidently intended: the line becomes the move followed
   * by the child's line, and the child is emptied.
   */
  function UpdateLine(l: PVLine, m: Move, child: PVLine): (r: (PVLine, PVLine))
    ensures r.0.moves == [m] + child.moves
    ensures r.1.moves == []
  {
    Append(PVLine([m]), child)
  }

  /**
   * The corrected update starts the line with the move, keeps the child's
   * moves after it in order, and does not depend on the old line.
   */
  lemma UpdateLineMeaning(l: PVLine, l': PVLine, m: Move, child: PVLine)
    ensures First(UpdateLine(l, m, child).0) == Some(m)
    ensures |UpdateLine(l, m, child).0.moves| == |child.moves| + 1
    ensures forall i :: 0 <= i < |child.moves| ==> UpdateLine(l, m, child).0.moves[i + 1] == child.moves[i]
    ensures UpdateLine(l, m, child) == UpdateLine(l', m, child)
  {
  }
}
