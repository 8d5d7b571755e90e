/**
 * Zobrist key slots (`shakmat-core/src/zobrist/zobrist_utils.rs`).  The 793
 * random values are laid out as 768 piece slots (64 per coloured piece
 * kind), 16 castling slots, 8 en passant file slots and one white-to-move
 * slot.  The random values themselves are a parameter of the model.
 */
module Zobrist {
  import opened Colors
  import opened PieceTypes
  import opened BitBoards
  import Castling

  const SlotCount: nat := 793
  const CastlingBase: nat := 768
  const EpBase: nat := 784
  const WhiteTurnSlot: nat := 792

  /**
   * A 64-bit key, as its bits, like a board: the `u64` is its `Value`, and
   * `^` on keys is `Xor` bit by bit.
   */
  type Key = BitBoard

  /** A table of random values of the right size. */
  type Values = v: seq<Key> | |v| == SlotCount witness Filled(SlotCount)

  function Filled(n: nat): (v: seq<Key>)
    ensures |v| == n
  {
    seq(n, _ => Empty)
  }

  /**
   * The piece slot as `get_key_for_piece` writes it:
   * `64 * (piece.to_index() + color.to_index()) + square`.
   */
  function PieceSlotAsWritten(p: PieceType, c: Color, s: Sq): (slot: nat)
    ensures slot < 448
  {
    64 * (PieceTypes.ToIndex(p) + Colors.ToIndex(c)) + s
  }

  /** A white pawn and a black knight on the same square read the same slot. */
  lemma PieceSlotCollision(s: Sq)
    ensures PieceSlotAsWritten(Pawn, White, s) == PieceSlotAsWritten(Knight, Black, s)
    ensures (Pawn, White) != (Knight, Black)
  {
  }

  /**
   * The piece slot of the layout: kind `2 * type + colour` (black pawn 0,
   * white pawn 1, black knight 2, ...), that is `to_zobrist_index` plus the
   * colour index, times 64, plus the square.
   */
  function PieceSlot(p: PieceType, c: Color, s: Sq): (slot: nat)
    ensures slot < CastlingBase
    ensures slot % 64 == s
    ensures slot / 64 == 2 * PieceTypes.ToIndex(p) + Colors.ToIndex(c)
  {
    64 * (ZobristIndex(p) + Colors.ToIndex(c)) + s
  }

  /** Distinct (piece, colour, square) triples read distinct slots. */
  lemma PieceSlotInjective(p: PieceType, c: Color, s: Sq, q: PieceType, d: Color, t: Sq)
    ensures PieceSlot(p, c, s) == PieceSlot(q, d, t) <==> p == q && c == d && s == t
  {
    if PieceSlot(p, c, s) == PieceSlot(q, d, t) {
      assert 2 * PieceTypes.ToIndex(p) + Colors.ToIndex(c) == 2 * PieceTypes.ToIndex(q) + Colors.ToIndex(d);
      assert Colors.ToIndex(c) == Colors.ToIndex(d);
      Colors.IndexDistinguishes(c, d);
      PieceTypes.IndexBijective(p, q, PieceTypes.ToIndex(p));
    }
  }

  /** Every piece slot is used: each slot below 768 belongs to some triple. */
  lemma PieceSlotOnto(slot: nat)
    requires slot < CastlingBase
    ensures exists p, c, s: Sq :: PieceSlot(p, c, s) == slot
  {
    var k := slot / 64;
    var p := FromIndex(k / 2);
    var c := if k % 2 == 1 then White else Black;
    var s: Sq := slot % 64;
    assert PieceSlot(p, c, s) == slot;
  }

  /** `get_key_castling`: `768 + rights.index()`. */
  function CastlingSlot(r: Castling.Rights): (slot: nat)
    ensures CastlingBase <= slot < EpBase
  {
    CastlingBase + Castling.Index(r)
  }

  /** `get_key_ep_square`: `784 + square % 8`, one slot per file. */
  function EpSlot(s: Sq): (slot: nat)
    ensures EpBase <= slot < WhiteTurnSlot
  {
    EpBase + s % 8
  }

  /** The en passant slot depends on the square's file and on nothing else. */
  lemma EpSlotByFile(s: Sq, t: Sq)
    ensures EpSlot(s) == EpSlot(t) <==> s % 8 == t % 8
  {
  }

  /** Different castling rights read different slots. */
  lemma CastlingSlotInjective(r: Castling.Rights, q: Castling.Rights)
    ensures CastlingSlot(r) == CastlingSlot(q) <==> r == q
  {
  }

  /** The four groups of slots do not overlap and together fit the 793 values. */
  lemma SlotGroupsDisjoint(p: PieceType, c: Color, s: Sq, r: Castling.Rights, e: Sq)
    ensures PieceSlot(p, c, s) < CastlingSlot(r) < EpSlot(e) < WhiteTurnSlot
    ensures WhiteTurnSlot == SlotCount - 1
  {
  }

  function PieceKey(v: Values, p: PieceType, c: Color, s: Sq): (k: Key)
    ensures k == v[PieceSlot(p, c, s)]
  {
    v[PieceSlot(p, c, s)]
  }

  function CastlingKey(v: Values, r: Castling.Rights): (k: Key)
    ensures k == v[CastlingSlot(r)]
  {
    v[CastlingSlot(r)]
  }

  function EpKey(v: Values, s: Sq): (k: Key)
    ensures k == v[EpSlot(s)]
  {
    v[EpSlot(s)]
  }

  function WhiteTurnKey(v: Values): (k: Key)
    ensures k == v[SlotCount - 1]
  {
    v[WhiteTurnSlot]
  }
}
