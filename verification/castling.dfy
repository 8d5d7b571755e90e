/**
 * Castling rights of the engine core (`shakmat-core`): the four flags packed
 * into the low four bits of a `u8`, white king side in bit 3, white queen
 * side in bit 2, black king side in bit 1 and black queen side in bit 0.
 * The packed value is also the index of the castling Zobrist key.
 */
module Castling {
  import opened Colors
  import L = LegacyCastling

  /** The packed byte; only the low four bits are ever set. */
  type Rights = r: bv8 | r < 16

  function Bit(b: bool): bv8
  {
    if b then 1 else 0
  }

  /** `new`: `wk << 3 | wq << 2 | bk << 1 | bq`. */
  function New(wk: bool, wq: bool, bk: bool, bq: bool): (r: Rights)
    ensures CanCastleKingside(r, White) == wk && CanCastleQueenside(r, White) == wq
    ensures CanCastleKingside(r, Black) == bk && CanCastleQueenside(r, Black) == bq
  {
    (Bit(wk) << 3) | (Bit(wq) << 2) | (Bit(bk) << 1) | Bit(bq)
  }

  /** `none`. */
  function NoRights(): (r: Rights)
    ensures HasNoRights(r)
    ensures forall c :: !CanCastleKingside(r, c) && !CanCastleQueenside(r, c)
  {
    New(false, false, false, false)
  }

  /** `default`: `0x0F`, every right held. */
  function Default(): (r: Rights)
    ensures forall c :: CanCastleKingside(r, c) && CanCastleQueenside(r, c)
    ensures r == New(true, true, true, true)
  {
    0x0F
  }

  /** `index`: the packed byte as a table index. */
  function Index(r: Rights): (i: nat)
    ensures i < 16
    ensures i == 8 * (if CanCastleKingside(r, White) then 1 else 0) + 4 * (if CanCastleQueenside(r, White) then 1 else 0)
                 + 2 * (if CanCastleKingside(r, Black) then 1 else 0) + (if CanCastleQueenside(r, Black) then 1 else 0)
  {
    r as nat
  }

  /** `update_kingside`: clear the colour's king-side bit, then or in the new flag. */
  function UpdateKingside(r: Rights, c: Color, canCastle: bool): (r': Rights)
    ensures CanCastleKingside(r', c) == canCastle
    ensures CanCastleKingside(r', Opposite(c)) == CanCastleKingside(r, Opposite(c))
    ensures forall d :: CanCastleQueenside(r', d) == CanCastleQueenside(r, d)
  {
    var b := Bit(canCastle);
    match c
    case White => (r & !(1 << 3)) | (b << 3)
    case Black => (r & !(1 << 1)) | (b << 1)
  }

  /** `update_queenside`. */
  function UpdateQueenside(r: Rights, c: Color, canCastle: bool): (r': Rights)
    ensures CanCastleQueenside(r', c) == canCastle
    ensures CanCastleQueenside(r', Opposite(c)) == CanCastleQueenside(r, Opposite(c))
    ensures forall d :: CanCastleKingside(r', d) == CanCastleKingside(r, d)
  {
    var b := Bit(canCastle);
    match c
    case White => (r & !(1 << 2)) | (b << 2)
    case Black => (r & !1) | b
  }

  /** `disable_all`: keep only the other colour's two bits. */
  function DisableAll(r: Rights, c: Color): (r': Rights)
    ensures !CanCastleKingside(r', c) && !CanCastleQueenside(r', c)
    ensures HasLostRights(r', c)
    ensures CanCastleKingside(r', Opposite(c)) == CanCastleKingside(r, Opposite(c))
    ensures CanCastleQueenside(r', Opposite(c)) == CanCastleQueenside(r, Opposite(c))
  {
    match c
    case White => r & 0x03
    case Black => r & 0x0C
  }

  /** `has_no_rights`: the byte is zero. */
  predicate HasNoRights(r: Rights)
  {
    r == 0
  }

  predicate CanCastleKingside(r: Rights, c: Color)
  {
    match c
    case White => r & 0x08 != 0
    case Black => r & 0x02 != 0
  }

  predicate CanCastleQueenside(r: Rights, c: Color)
  {
    match c
    case White => r & 0x04 != 0
    case Black => r & 0x01 != 0
  }

  /** `has_lost_rights`: both of the colour's bits are clear. */
  function HasLostRights(r: Rights, c: Color): (b: bool)
    ensures b <==> !CanCastleKingside(r, c) && !CanCastleQueenside(r, c)
  {
    match c
    case White => r & 0x0C == 0
    case Black => r & 0x03 == 0
  }

  /** `has_no_rights` holds exactly when no side can castle either way. */
  lemma NoRightsMeansNone(r: Rights)
    ensures HasNoRights(r) <==> forall c :: !CanCastleKingside(r, c) && !CanCastleQueenside(r, c)
  {
    if forall c :: !CanCastleKingside(r, c) && !CanCastleQueenside(r, c) {
      assert !CanCastleKingside(r, White) && !CanCastleQueenside(r, White);
      assert !CanCastleKingside(r, Black) && !CanCastleQueenside(r, Black);
    }
  }

  // ---------------------------------------------------------------------
  // The packed byte against the four-flag record of the first revision.

  /** The flags a packed byte stands for. */
  function Flags(r: Rights): (f: L.CastlingRights)
    ensures forall c :: L.KingSide(f, c) == CanCastleKingside(r, c)
    ensures forall c :: L.QueenSide(f, c) == CanCastleQueenside(r, c)
  {
    L.New(CanCastleKingside(r, White), CanCastleQueenside(r, White),
          CanCastleKingside(r, Black), CanCastleQueenside(r, Black))
  }

  /** The packing is a bijection between the sixteen bytes and the sixteen records. */
  lemma PackingRoundTrip(r: Rights, f: L.CastlingRights)
    ensures New(Flags(r).whiteKingSide, Flags(r).whiteQueenSide, Flags(r).blackKingSide, Flags(r).blackQueenSide) == r
    ensures Flags(New(f.whiteKingSide, f.whiteQueenSide, f.blackKingSide, f.blackQueenSide)) == f
  {
  }

  /** Every packed operation does what the same operation does on the record. */
  lemma OperationsMatchRecord(r: Rights, c: Color, b: bool)
    ensures Flags(NoRights()) == L.NoRights()
    ensures Flags(Default()) == L.Default()
    ensures Flags(UpdateKingside(r, c, b)) == L.UpdateKingside(Flags(r), c, b)
    ensures Flags(UpdateQueenside(r, c, b)) == L.UpdateQueenside(Flags(r), c, b)
    ensures Flags(DisableAll(r, c)) == L.UpdateQueenside(L.UpdateKingside(Flags(r), c, false), c, false)
  {
    KingsideMatchesRecord(r, c, b);
    QueensideMatchesRecord(r, c, b);
    DisableAllMatchesRecord(r, c);
  }

  lemma KingsideMatchesRecord(r: Rights, c: Color, b: bool)
    ensures Flags(UpdateKingside(r, c, b)) == L.UpdateKingside(Flags(r), c, b)
  {
    L.FlagsDetermine(Flags(UpdateKingside(r, c, b)), L.UpdateKingside(Flags(r), c, b));
  }

  lemma QueensideMatchesRecord(r: Rights, c: Color, b: bool)
    ensures Flags(UpdateQueenside(r, c, b)) == L.UpdateQueenside(Flags(r), c, b)
  {
    L.FlagsDetermine(Flags(UpdateQueenside(r, c, b)), L.UpdateQueenside(Flags(r), c, b));
  }

  lemma DisableAllMatchesRecord(r: Rights, c: Color)
    ensures Flags(DisableAll(r, c)) == L.UpdateQueenside(L.UpdateKingside(Flags(r), c, false), c, false)
  {
    L.FlagsDetermine(Flags(DisableAll(r, c)), L.UpdateQueenside(L.UpdateKingside(Flags(r), c, false), c, false));
  }
}
