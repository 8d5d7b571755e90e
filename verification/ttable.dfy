/**
 * The transposition table of `shakmat-engine/src/trasposition/table.rs`:
 * a fixed number of slots, each holding an entry or nothing, the slot of a
 * key being the key modulo the size. A slot never written holds nothing
 * here; in the source it is uninitialised memory.
 */
module TTable {
  import opened Base
  import opened Moves
  import E = Evaluate

  datatype NodeType = Exact | AlphaCutoff | BetaCutoff

  /** What the search stores for a position. */
  datatype Data = Data(depth: nat, score: E.Evaluation, nodeType: NodeType, bestMove: Option<Move>)

  datatype Entry = Entry(zobrist: nat, data: Data)

  /** The slots; there is at least one. */
  type Table = t: seq<Option<Entry>> | |t| > 0 witness [None]

  /** `TTable::new`: `size` empty slots. */
  function New(size: nat): (t: Table)
    requires size > 0
    ensures |t| == size && forall i :: 0 <= i < size ==> t[i].None?
  {
    seq(size, _ => None)
  }

  /** `key as usize % self.size`. */
  function Slot(t: Table, key: nat): (i: nat)
    ensures i < |t|
  {
    key % |t|
  }

  /** `write_entry`: the entry replaces whatever its slot held. */
  function WriteEntry(t: Table, key: nat, e: Entry): (r: Table)
    ensures |r| == |t|
  {
    t[Slot(t, key) := Some(e)]
  }

  /**
   * Writing changes only the key's slot, which then holds the entry; the
   * table keeps its size. A later write to any key of the same slot
   * replaces it.
   */
  lemma WriteEntryMeaning(t: Table, key: nat, e: Entry, i: nat)
    requires i < |t|
    ensures WriteEntry(t, key, e)[i] == (if i == Slot(t, key) then Some(e) else t[i])
  {
  }

  /**
   * `get_entry`: on a slot whose entry has the key, the stored best move
   * replaces `ttMove` and the function returns at once with no score;
   * on any other slot `ttMove` is kept. The bound checks written after that
   * return are never reached.
   */
  function GetEntry(t: Table, key: nat, depth: nat, alpha: E.Evaluation, beta: E.Evaluation, ttMove: Option<Move>)
    : (r: (Option<E.Evaluation>, Option<Move>))
  {
    match t[Slot(t, key)]
    case Some(entry) =>
      if entry.zobrist == key then (None, entry.data.bestMove) else (None, ttMove)
    case None => (None, ttMove)
  }

  /**
   * The lookup never gives a score. It gives the stored move exactly when
   * the key's slot holds an entry with that key, and otherwise leaves the
   * move it was handed.
   */
  lemma GetEntryMeaning(t: Table, key: nat, depth: nat, alpha: E.Evaluation, beta: E.Evaluation, ttMove: Option<Move>)
    ensures GetEntry(t, key, depth, alpha, beta, ttMove).0.None?
    ensures var s := t[Slot(t, key)];
      (s.Some? && s.value.zobrist == key ==> GetEntry(t, key, depth, alpha, beta, ttMove).1 == s.value.data.bestMove)
      && (!(s.Some? && s.value.zobrist == key) ==> GetEntry(t, key, depth, alpha, beta, ttMove).1 == ttMove)
  {
  }

  /** A position just stored gives back its best move, whatever the move handed in. */
  lemma WriteThenGet(t: Table, key: nat, d: Data, depth: nat, alpha: E.Evaluation, beta: E.Evaluation, ttMove: Option<Move>)
    ensures GetEntry(WriteEntry(t, key, Entry(key, d)), key, depth, alpha, beta, ttMove) == (None, d.bestMove)
  {
  }

  /**
   * Two keys whose slots coincide evict each other: after storing the
   * second, the first finds nothing and keeps the move it was handed.
   */
  lemma CollisionEvicts(t: Table, k1: nat, k2: nat, d1: Data, d2: Data, ttMove: Option<Move>)
    requires k1 != k2 && Slot(t, k1) == Slot(t, k2)
    ensures var t' := WriteEntry(WriteEntry(t, k1, Entry(k1, d1)), k2, Entry(k2, d2));
      GetEntry(t', k1, 0, E.MinVal, E.MaxVal, ttMove) == (None, ttMove)
      && GetEntry(t', k2, 0, E.MinVal, E.MaxVal, ttMove) == (None, d2.bestMove)
  {
  }

  /** Storing under one slot leaves the lookup of a key of another slot as it was. */
  lemma WriteKeepsOthers(t: Table, key: nat, e: Entry, other: nat, ttMove: Option<Move>)
    requires Slot(t, other) != Slot(t, key)
    ensures GetEntry(WriteEntry(t, key, e), other, 0, E.MinVal, E.MaxVal, ttMove)
      == GetEntry(t, other, 0, E.MinVal, E.MaxVal, ttMove)
  {
  }

  /** A fresh table finds nothing. */
  lemma NewFindsNothing(size: nat, key: nat, ttMove: Option<Move>)
    requires size > 0
    ensures GetEntry(New(size), key, 0, E.MinVal, E.MaxVal, ttMove) == (None, ttMove)
  {
  }
}
