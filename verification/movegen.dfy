/**
 * The pseudo-legal move generator and the controlled squares of
 * `shakmat-core/src/board/movegen.rs`. The move tables are those of
 * `BoardState.Magic`, left abstract. This file builds its moves with the
 * four-field `Normal { from, to, piece, ep }`; `Core` forgets the two extra
 * fields, giving the moves `chess_board.rs` plays.
 */
module MoveGen {
  import opened Base
  import opened Colors
  import opened PieceTypes
  import opened BitBoards
  import opened PieceSets
  import Castling
  import Moves
  import opened BoardState

  datatype GenMove =
    | Normal(from: Sq, to: Sq, piece: PieceType, ep: bool)
    | PawnPromotion(from: Sq, to: Sq, promoteTo: PieceType)
    | ShortCastle
    | LongCastle

  /** The move as `chess_board.rs` knows it. */
  function Core(m: GenMove): (r: Moves.Move)
    ensures m.Normal? <==> r.Normal?
    ensures m.PawnPromotion? <==> r.PawnPromotion?
    ensures m.ShortCastle? <==> r.ShortCastle?
    ensures (m.Normal? || m.PawnPromotion?) ==> r.from == m.from && r.to == m.to
    ensures m.PawnPromotion? ==> r.promoteTo == m.promoteTo
  {
    match m
    case Normal(from, to, _, _) => Moves.Normal(from, to)
    case PawnPromotion(from, to, p) => Moves.PawnPromotion(from, to, p)
    case ShortCastle => Moves.ShortCastle
    case LongCastle => Moves.LongCastle
  }

  predicate IsCastle(m: GenMove)
  {
    m.ShortCastle? || m.LongCastle?
  }

  // ---------------------------------------------------------------------
  // The constant masks.

  /** The squares from `lo` up to, not including, `hi`. */
  function Range(lo: nat, hi: nat): (b: BitBoard)
    requires lo <= hi <= 64
    ensures forall s: Sq :: b[s] <==> lo <= s < hi
  {
    seq(64, s requires 0 <= s < 64 => lo <= s < hi)
  }

  lemma RangeSplit(lo: nat, hi: nat)
    requires lo <= hi <= 64
    ensures Range(lo, hi) == Zeros(lo) + (Fill(hi - lo) + Zeros(64 - hi))
  {
    var r := Zeros(lo) + (Fill(hi - lo) + Zeros(64 - hi));
    forall s | 0 <= s < 64 ensures r[s] == Range(lo, hi)[s] {
      if s >= lo {
        assert r[s] == (Fill(hi - lo) + Zeros(64 - hi))[s - lo];
      }
    }
  }

  lemma MulZero(x: int)
    ensures x * 0 == 0
  {
  }

  lemma MulSubOne(x: int, y: int)
    ensures x * (y - 1) == x * y - x
  {
  }

  lemma ShiftedRun(lo: nat, hi: nat)
    requires lo <= hi
    ensures Pow2(lo) * (Pow2(hi - lo) - 1) == Pow2(hi) - Pow2(lo)
  {
    Pow2Add(lo, hi - lo);
    assert lo + (hi - lo) == hi;
    MulSubOne(Pow2(lo), Pow2(hi - lo));
  }

  lemma RunBits(lo: nat, n: nat, rest: nat)
    ensures Bits(Zeros(lo) + (Fill(n) + Zeros(rest))) == Pow2(lo) * (Pow2(n) - 1)
  {
    var a, f, z := Zeros(lo), Fill(n), Zeros(rest);
    BitsZero(a);
    BitsZero(z);
    FillBits(n);
    BitsConcat(f, z);
    assert Bits(f + z) == Pow2(n) - 1 by {
      MulZero(Pow2(|f|));
    }
    BitsConcat(a, f + z);
  }

  lemma RangeBits(lo: nat, hi: nat)
    requires lo <= hi <= 64
    ensures Bits(Range(lo, hi)) == Pow2(hi) - Pow2(lo)
  {
    RangeSplit(lo, hi);
    RunBits(lo, hi - lo, 64 - hi);
    assert Bits(Zeros(lo) + (Fill(hi - lo) + Zeros(64 - hi))) == Pow2(lo) * (Pow2(hi - lo) - 1);
    ShiftedRun(lo, hi);
  }

  /** A run of squares is the word with bits `lo` to `hi - 1` set. */
  lemma RangeValue(lo: nat, hi: nat)
    requires lo <= hi <= 64
    ensures Value(Range(lo, hi)) == Pow2(hi) - Pow2(lo)
  {
    RangeBits(lo, hi);
  }

  /** `THIRD_RANK_MASK` and `SIXTH_RANK_MASK`. */
  function ThirdRank(): BitBoard { Range(16, 24) }
  function SixthRank(): BitBoard { Range(40, 48) }

  /** The squares between king and rook that must be empty to castle. */
  function CastlePath(c: Color, short: bool): BitBoard
  {
    match (c, short)
    case (White, true) => Range(1, 3)
    case (White, false) => Range(4, 7)
    case (Black, true) => Range(57, 59)
    case (Black, false) => Range(60, 63)
  }

  /** The squares the king stands on or crosses, which must not be attacked. */
  function CastleChecks(c: Color, short: bool): BitBoard
  {
    match (c, short)
    case (White, true) => Range(1, 4)
    case (White, false) => Range(3, 6)
    case (Black, true) => Range(57, 60)
    case (Black, false) => Range(59, 62)
  }

  lemma Pow2Values()
    ensures Pow2(1) == 2 && Pow2(3) == 8 && Pow2(4) == 16 && Pow2(7) == 128
    ensures Pow2(16) == 0x1_0000 && Pow2(24) == 0x100_0000
    ensures Pow2(40) == 0x100_0000_0000 && Pow2(48) == 0x1_0000_0000_0000
    ensures Pow2(57) == 0x200_0000_0000_0000 && Pow2(59) == 0x800_0000_0000_0000
    ensures Pow2(60) == 0x1000_0000_0000_0000 && Pow2(62) == 0x4000_0000_0000_0000
    ensures Pow2(63) == 0x8000_0000_0000_0000
  {
    assert Pow2(8) == 0x100;
    Pow2Add(8, 8);
    Pow2Add(16, 8);
    Pow2Add(16, 16);
    Pow2Add(32, 8);
    Pow2Add(32, 16);
    Pow2Add(48, 8);
    assert Pow2(56) == 0x100_0000_0000_0000;
    Pow2Add(56, 1);
    Pow2Add(56, 3);
    Pow2Add(56, 4);
    Pow2Add(56, 6);
    Pow2Add(56, 7);
  }

  /** The masks are the ten constants written at the top of the source file. */
  lemma MasksAreTheConstants()
    ensures Value(CastlePath(White, true)) == 6 && Value(CastlePath(White, false)) == 112
    ensures Value(CastlePath(Black, true)) == 0x0600000000000000
    ensures Value(CastlePath(Black, false)) == 0x7000000000000000
    ensures Value(CastleChecks(White, true)) == 14 && Value(CastleChecks(White, false)) == 56
    ensures Value(CastleChecks(Black, true)) == 0x0E00000000000000
    ensures Value(CastleChecks(Black, false)) == 0x3800000000000000
    ensures Value(ThirdRank()) == 0x0000000000FF0000 && Value(SixthRank()) == 0x0000FF0000000000
  {
    Pow2Values();
    RangeValue(1, 3);
    RangeValue(4, 7);
    RangeValue(57, 59);
    RangeValue(60, 63);
    RangeValue(1, 4);
    RangeValue(3, 6);
    RangeValue(57, 60);
    RangeValue(59, 62);
    RangeValue(16, 24);
    RangeValue(40, 48);
  }

  // ---------------------------------------------------------------------
  // Attacks and controlled squares.

  /** The table a piece of kind `p` and side `c` on `from` attacks, given the occupancy. */
  function Attacks(o: Magic, p: PieceType, c: Color, from: Sq, all: BitBoard): BitBoard
  {
    match p
    case King => o.kingMoves(from)
    case Knight => o.knightMoves(from)
    case Queen => o.queenMoves(from, all)
    case Bishop => o.bishopMoves(from, all)
    case Rook => o.rookMoves(from, all)
    case Pawn => o.pawnAttacks(from, c)
  }

  /** The union of the attacks from the listed squares (`reduce(|a, b| a | b)`, empty when none). */
  function UnionFrom(o: Magic, p: PieceType, c: Color, froms: seq<Sq>, all: BitBoard): (r: BitBoard)
    ensures forall s: Sq :: r[s] <==> exists i :: 0 <= i < |froms| && Attacks(o, p, c, froms[i], all)[s]
  {
    if froms == [] then Empty
    else
      var rest := UnionFrom(o, p, c, froms[1..], all);
      assert forall i :: 1 <= i < |froms| ==> froms[i] == froms[1..][i - 1];
      assert forall i :: 0 <= i < |froms[1..]| ==> froms[1..][i] == froms[i + 1];
      Or(Attacks(o, p, c, froms[0], all), rest)
  }

  /** The squares attacked by the side's men of one kind. */
  function KindControl(o: Magic, b: Board, c: Color, p: PieceType): BitBoard
  {
    UnionFrom(o, p, c, PieceIndices(OfType(PiecesOf(b, c), p)), AllBoard(b))
  }

  /** `get_controlled_squares`: king, knights, queens, bishops, rooks, then pawns. */
  function Controlled(o: Magic, b: Board, c: Color): BitBoard
  {
    Or(Or(Or(Or(Or(KindControl(o, b, c, King), KindControl(o, b, c, Knight)),
      KindControl(o, b, c, Queen)), KindControl(o, b, c, Bishop)),
      KindControl(o, b, c, Rook)), KindControl(o, b, c, Pawn))
  }

  /** A kind's men attack a square exactly when one of them, from its square, does. */
  lemma KindControlMeaning(o: Magic, b: Board, c: Color, p: PieceType, s: Sq)
    ensures KindControl(o, b, c, p)[s]
      <==> exists from: Sq :: OfType(PiecesOf(b, c), p)[from] && Attacks(o, p, c, from, AllBoard(b))[s]
  {
    var board := OfType(PiecesOf(b, c), p);
    var froms := PieceIndices(board);
    PieceIndicesSpec(board);
    if KindControl(o, b, c, p)[s] {
      var i :| 0 <= i < |froms| && Attacks(o, p, c, froms[i], AllBoard(b))[s];
      assert board[froms[i]];
    } else {
      forall from: Sq | board[from] ensures !Attacks(o, p, c, from, AllBoard(b))[s] {
        var i :| 0 <= i < |froms| && froms[i] == from;
      }
    }
  }

  /**
   * The controlled squares are the union of the attack sets of the side's
   * men of every kind; with `KindControlMeaning`, of all of its men.
   */
  lemma ControlledMeaning(o: Magic, b: Board, c: Color, s: Sq)
    ensures Controlled(o, b, c)[s] <==> exists p :: KindControl(o, b, c, p)[s]
  {
    if exists p :: KindControl(o, b, c, p)[s] {
      var p :| KindControl(o, b, c, p)[s];
      match p
      case King =>
      case Knight =>
      case Queen =>
      case Bishop =>
      case Rook =>
      case Pawn =>
    }
  }

  // ---------------------------------------------------------------------
  // Moves of the pieces other than pawns.

  /** Normal moves of a `p` from `from` to each listed square. */
  function Targets(from: Sq, p: PieceType, tos: seq<Sq>): (r: seq<GenMove>)
    ensures |r| == |tos|
    ensures forall i :: 0 <= i < |tos| ==> r[i] == Normal(from, tos[i], p, false)
  {
    seq(|tos|, i requires 0 <= i < |tos| => Normal(from, tos[i], p, false))
  }

  /** The listed normal moves from a square are those to the squares of the board. */
  lemma TargetsMeaning(from: Sq, p: PieceType, board: BitBoard, m: GenMove)
    ensures m in Targets(from, p, PieceIndices(board)) <==>
      m.Normal? && m.from == from && m.piece == p && !m.ep && board[m.to]
  {
    var tos := PieceIndices(board);
    var t := Targets(from, p, tos);
    PieceIndicesSpec(board);
    if m in t {
      var i :| 0 <= i < |t| && t[i] == m;
    }
    if m.Normal? && m.from == from && m.piece == p && !m.ep && board[m.to] {
      var i :| 0 <= i < |tos| && tos[i] == m.to;
      assert t[i] == m;
    }
  }

  /** The squares a `p` on `from` may move to: its table, less the mover's own men. */
  function StepBoard(o: Magic, b: Board, c: Color, p: PieceType, from: Sq): (r: BitBoard)
    ensures forall s: Sq :: r[s] <==> Attacks(o, p, c, from, AllBoard(b))[s] && !ColorBoard(b, c)[s]
  {
    And(Attacks(o, p, c, from, AllBoard(b)), Not(ColorBoard(b, c)))
  }

  /** The moves of the men of kind `p` standing on the listed squares, square by square. */
  function KindMovesFrom(o: Magic, b: Board, c: Color, p: PieceType, froms: seq<Sq>): seq<GenMove>
  {
    if froms == [] then []
    else Targets(froms[0], p, PieceIndices(StepBoard(o, b, c, p, froms[0]))) + KindMovesFrom(o, b, c, p, froms[1..])
  }

  function KindMoves(o: Magic, b: Board, c: Color, p: PieceType): seq<GenMove>
  {
    KindMovesFrom(o, b, c, p, PieceIndices(OfType(PiecesOf(b, c), p)))
  }

  /** A kind's list holds exactly its men's normal moves to the squares of their step boards. */
  lemma {:induction false} KindMovesFromMeaning(o: Magic, b: Board, c: Color, p: PieceType, froms: seq<Sq>, m: GenMove)
    ensures m in KindMovesFrom(o, b, c, p, froms) <==>
      m.Normal? && m.piece == p && !m.ep && m.from in froms && StepBoard(o, b, c, p, m.from)[m.to]
  {
    if froms != [] {
      KindMovesFromMeaning(o, b, c, p, froms[1..], m);
      TargetsMeaning(froms[0], p, StepBoard(o, b, c, p, froms[0]), m);
    }
  }

  lemma KindMovesMeaning(o: Magic, b: Board, c: Color, p: PieceType, m: GenMove)
    ensures m in KindMoves(o, b, c, p) <==>
      m.Normal? && m.piece == p && !m.ep && OfType(PiecesOf(b, c), p)[m.from] && StepBoard(o, b, c, p, m.from)[m.to]
  {
    var board := OfType(PiecesOf(b, c), p);
    PieceIndicesSpec(board);
    KindMovesFromMeaning(o, b, c, p, PieceIndices(board), m);
    if m.Normal? && m.from in PieceIndices(board) {
      var i :| 0 <= i < |PieceIndices(board)| && PieceIndices(board)[i] == m.from;
    }
  }

  // ---------------------------------------------------------------------
  // Pawns.

  /** `trailing_zeros() as u8` of the e.p. board: its square, or 64 when it is empty. */
  function EpIndex(b: Board): nat
  {
    TrailingZeros(b.ep)
  }

  /** Captures: the pawn's attacks on enemy men or on the e.p. square. */
  function PawnCaptures(o: Magic, b: Board, c: Color, from: Sq): (r: BitBoard)
    ensures forall s: Sq :: r[s] <==> o.pawnAttacks(from, c)[s] && (ColorBoard(b, Opposite(c))[s] || b.ep[s])
  {
    And(o.pawnAttacks(from, c), Or(ColorBoard(b, Opposite(c)), b.ep))
  }

  /**
   * Pushes onto empty squares; from the second (seventh) rank, the double
   * push is dropped when the third (sixth) rank square in front is occupied.
   */
  function PawnPushes(o: Magic, b: Board, c: Color, from: Sq): BitBoard
  {
    var all := AllBoard(b);
    var push := And(o.pawnPushes(from, c), Not(all));
    if c == White && from < 16 then And(push, Not(Shl(And(all, ThirdRank()), 8)))
    else if c == Black && from > 47 then And(push, Not(Shr(And(all, SixthRank()), 8)))
    else push
  }

  /**
   * A push reaches a square its table lists that is empty, and that is not
   * a double push over an occupied square: from White's second rank the
   * squares 24 to 31 need square `s - 8` empty, from Black's seventh the
   * squares 32 to 39 need `s + 8` empty.
   */
  lemma PawnPushesMeaning(o: Magic, b: Board, c: Color, from: Sq, s: Sq)
    ensures PawnPushes(o, b, c, from)[s] <==>
      o.pawnPushes(from, c)[s] && !AllBoard(b)[s]
      && !(c == White && from < 16 && 24 <= s < 32 && AllBoard(b)[s - 8])
      && !(c == Black && from > 47 && 32 <= s < 40 && AllBoard(b)[s + 8])
  {
  }

  /** One pawn's captures, each flagged e.p. exactly when it lands on the e.p. index. */
  function CaptureMoves(o: Magic, b: Board, c: Color, from: Sq): (r: seq<GenMove>)
    ensures var caps := PieceIndices(PawnCaptures(o, b, c, from));
      |r| == |caps| && forall i :: 0 <= i < |caps| ==> r[i] == Normal(from, caps[i], Pawn, caps[i] == EpIndex(b))
  {
    var caps := PieceIndices(PawnCaptures(o, b, c, from));
    seq(|caps|, i requires 0 <= i < |caps| => Normal(from, caps[i], Pawn, caps[i] == EpIndex(b)))
  }

  /** One pawn's moves: its captures, then its pushes. */
  function PawnMovesOf(o: Magic, b: Board, c: Color, from: Sq): seq<GenMove>
  {
    CaptureMoves(o, b, c, from) + Targets(from, Pawn, PieceIndices(PawnPushes(o, b, c, from)))
  }

  /** Pawn moves from the listed squares, pawn by pawn. */
  function PawnMovesFrom(o: Magic, b: Board, c: Color, froms: seq<Sq>): seq<GenMove>
  {
    if froms == [] then [] else PawnMovesOf(o, b, c, froms[0]) + PawnMovesFrom(o, b, c, froms[1..])
  }

  /** A pawn's normal move is a capture (flagged e.p. exactly on the e.p. square) or a push. */
  predicate PawnMoveOk(o: Magic, b: Board, c: Color, m: GenMove)
  {
    m.Normal? && m.piece == Pawn
    && ((PawnCaptures(o, b, c, m.from)[m.to] && m.ep == (m.to == EpIndex(b)))
        || (PawnPushes(o, b, c, m.from)[m.to] && !m.ep))
  }

  lemma CaptureMovesMeaning(o: Magic, b: Board, c: Color, from: Sq, m: GenMove)
    ensures m in CaptureMoves(o, b, c, from) <==>
      m.Normal? && m.from == from && m.piece == Pawn && PawnCaptures(o, b, c, from)[m.to] && m.ep == (m.to == EpIndex(b))
  {
    var capBoard := PawnCaptures(o, b, c, from);
    var caps := PieceIndices(capBoard);
    var capMoves := CaptureMoves(o, b, c, from);
    PieceIndicesSpec(capBoard);
    if m in capMoves {
      var i :| 0 <= i < |capMoves| && capMoves[i] == m;
    }
    if m.Normal? && m.from == from && m.piece == Pawn && capBoard[m.to] && m.ep == (m.to == EpIndex(b)) {
      var i :| 0 <= i < |caps| && caps[i] == m.to;
      assert capMoves[i] == m;
    }
  }

  lemma PawnMovesOfMeaning(o: Magic, b: Board, c: Color, from: Sq, m: GenMove)
    ensures m in PawnMovesOf(o, b, c, from) <==> m.Normal? && m.from == from && PawnMoveOk(o, b, c, m)
  {
    CaptureMovesMeaning(o, b, c, from, m);
    TargetsMeaning(from, Pawn, PawnPushes(o, b, c, from), m);
  }

  lemma {:induction false} PawnMovesFromMeaning(o: Magic, b: Board, c: Color, froms: seq<Sq>, m: GenMove)
    ensures m in PawnMovesFrom(o, b, c, froms) <==> m.Normal? && m.from in froms && PawnMoveOk(o, b, c, m)
  {
    if froms != [] {
      PawnMovesFromMeaning(o, b, c, froms[1..], m);
      PawnMovesOfMeaning(o, b, c, froms[0], m);
    }
  }

  /** `in_promotion_rank`: the first rank for Black, the eighth for White. */
  function InPromotionRank(s: Sq, c: Color): bool
  {
    match c
    case Black => s < 8
    case White => s > 55
  }

  /** The four promotions of a pawn move, queen first. */
  function Promotions(from: Sq, to: Sq): (r: seq<GenMove>)
    ensures |r| == 4
  {
    [PawnPromotion(from, to, Queen), PawnPromotion(from, to, Rook),
     PawnPromotion(from, to, Bishop), PawnPromotion(from, to, Knight)]
  }

  predicate AllNormal(ms: seq<GenMove>)
  {
    forall i :: 0 <= i < |ms| ==> ms[i].Normal?
  }

  /** Pawn moves on the last rank replaced by their four promotions, the others kept. */
  function Promote(c: Color, ms: seq<GenMove>): seq<GenMove>
    requires AllNormal(ms)
  {
    if ms == [] then []
    else
      var m := ms[0];
      (if InPromotionRank(m.to, c) then Promotions(m.from, m.to) else [m]) + Promote(c, ms[1..])
  }

  /**
   * A promoted list holds the four promotions of each move reaching the
   * last rank, each move not reaching it, and nothing else.
   */
  lemma {:induction false} PromoteMeaning(c: Color, ms: seq<GenMove>, m: GenMove)
    requires AllNormal(ms)
    ensures m in Promote(c, ms) <==>
      (m in ms && !InPromotionRank(m.to, c))
      || (m.PawnPromotion? && m.promoteTo in {Queen, Rook, Bishop, Knight} && InPromotionRank(m.to, c)
          && exists n :: n in ms && n.from == m.from && n.to == m.to)
  {
    if ms != [] {
      PromoteMeaning(c, ms[1..], m);
      var n := ms[0];
      if m.PawnPromotion? && m.from == n.from && m.to == n.to {
        assert n in ms;
      }
      if m.PawnPromotion? && exists k :: k in ms && k.from == m.from && k.to == m.to {
        var k :| k in ms && k.from == m.from && k.to == m.to;
        if k != n {
          assert k in ms[1..];
        }
      }
    }
  }

  /** The number of moves reaching the last rank. */
  function PromotingCount(c: Color, ms: seq<GenMove>): nat
    requires AllNormal(ms)
  {
    if ms == [] then 0 else (if InPromotionRank(ms[0].to, c) then 1 else 0) + PromotingCount(c, ms[1..])
  }

  /** Each move reaching the last rank becomes exactly four moves; the others stay one. */
  lemma {:induction false} PromoteLength(c: Color, ms: seq<GenMove>)
    requires AllNormal(ms)
    ensures |Promote(c, ms)| == |ms| + 3 * PromotingCount(c, ms)
  {
    if ms != [] {
      PromoteLength(c, ms[1..]);
    }
  }

  lemma {:induction false} PawnMovesAreNormal(o: Magic, b: Board, c: Color, froms: seq<Sq>)
    ensures AllNormal(PawnMovesFrom(o, b, c, froms))
  {
    if froms != [] {
      PawnMovesAreNormal(o, b, c, froms[1..]);
      var one := PawnMovesOf(o, b, c, froms[0]);
      assert AllNormal(one);
    }
  }

  function PawnMoves(o: Magic, b: Board, c: Color): seq<GenMove>
  {
    var raw := PawnMovesFrom(o, b, c, PieceIndices(OfType(PiecesOf(b, c), Pawn)));
    PawnMovesAreNormal(o, b, c, PieceIndices(OfType(PiecesOf(b, c), Pawn)));
    Promote(c, raw)
  }

  // ---------------------------------------------------------------------
  // Castling and the whole list.

  /** The right is held, the path is empty and no square the king uses is attacked. */
  predicate CastleAllowed(o: Magic, b: Board, c: Color, short: bool)
  {
    (if short then Castling.CanCastleKingside(b.castling, c) else Castling.CanCastleQueenside(b.castling, c))
    && IsEmpty(And(AllBoard(b), CastlePath(c, short)))
    && IsEmpty(And(Controlled(o, b, Opposite(c)), CastleChecks(c, short)))
  }

  function CastleMoves(o: Magic, b: Board, c: Color): seq<GenMove>
  {
    (if CastleAllowed(o, b, c, true) then [ShortCastle] else [])
    + (if CastleAllowed(o, b, c, false) then [LongCastle] else [])
  }

  lemma CastleMovesAreCastles(o: Magic, b: Board, c: Color, m: GenMove)
    ensures m in CastleMoves(o, b, c) ==> IsCastle(m)
  {
  }

  /** `get_pseudolegal_moves`: pawns, rooks, bishops, queens, knights, king, castles. */
  function PseudoLegal(o: Magic, b: Board, c: Color): seq<GenMove>
  {
    PawnMoves(o, b, c) + KindMoves(o, b, c, Rook) + KindMoves(o, b, c, Bishop) + KindMoves(o, b, c, Queen)
    + KindMoves(o, b, c, Knight) + KindMoves(o, b, c, King) + CastleMoves(o, b, c)
  }

  /** Membership in the list, part by part. */
  lemma PseudoLegalParts(o: Magic, b: Board, c: Color, m: GenMove)
    ensures m in PseudoLegal(o, b, c) <==>
      m in PawnMoves(o, b, c) || m in CastleMoves(o, b, c)
      || m in KindMoves(o, b, c, Rook) || m in KindMoves(o, b, c, Bishop) || m in KindMoves(o, b, c, Queen)
      || m in KindMoves(o, b, c, Knight) || m in KindMoves(o, b, c, King)
  {
  }

  /** The pawn part holds exactly the pawns' moves, promoted on the last rank. */
  lemma PawnMovesMeaning(o: Magic, b: Board, c: Color, m: GenMove)
    ensures m in PawnMoves(o, b, c) <==>
      (m.Normal? && OfType(PiecesOf(b, c), Pawn)[m.from] && PawnMoveOk(o, b, c, m) && !InPromotionRank(m.to, c))
      || (m.PawnPromotion? && m.promoteTo in {Queen, Rook, Bishop, Knight} && InPromotionRank(m.to, c)
          && OfType(PiecesOf(b, c), Pawn)[m.from]
          && (PawnCaptures(o, b, c, m.from)[m.to] || PawnPushes(o, b, c, m.from)[m.to]))
  {
    var board := OfType(PiecesOf(b, c), Pawn);
    var froms := PieceIndices(board);
    var raw := PawnMovesFrom(o, b, c, froms);
    PawnMovesAreNormal(o, b, c, froms);
    PieceIndicesSpec(board);
    PromoteMeaning(c, raw, m);
    PawnMovesFromMeaning(o, b, c, froms, m);
    if m.PawnPromotion? && exists n :: n in raw && n.from == m.from && n.to == m.to {
      var n :| n in raw && n.from == m.from && n.to == m.to;
      PawnMovesFromMeaning(o, b, c, froms, n);
    }
    if m.PawnPromotion? && board[m.from] && (PawnCaptures(o, b, c, m.from)[m.to] || PawnPushes(o, b, c, m.from)[m.to]) {
      var n := if PawnCaptures(o, b, c, m.from)[m.to] then Normal(m.from, m.to, Pawn, m.to == EpIndex(b))
        else Normal(m.from, m.to, Pawn, false);
      PawnMovesFromMeaning(o, b, c, froms, n);
    }
  }

  /** Castles come only from the castling part of the list. */
  lemma CastlesOnlyFromCastling(o: Magic, b: Board, c: Color, m: GenMove)
    requires IsCastle(m)
    ensures m in PseudoLegal(o, b, c) <==> m in CastleMoves(o, b, c)
  {
    PseudoLegalParts(o, b, c, m);
    var froms := PieceIndices(OfType(PiecesOf(b, c), Pawn));
    PawnMovesAreNormal(o, b, c, froms);
    PromoteMeaning(c, PawnMovesFrom(o, b, c, froms), m);
    if m in PawnMovesFrom(o, b, c, froms) {
      PawnMovesFromMeaning(o, b, c, froms, m);
    }
    KindMovesMeaning(o, b, c, Rook, m);
    KindMovesMeaning(o, b, c, Bishop, m);
    KindMovesMeaning(o, b, c, Queen, m);
    KindMovesMeaning(o, b, c, Knight, m);
    KindMovesMeaning(o, b, c, King, m);
  }

  /** A castle is listed exactly when it is allowed. */
  lemma CastleListed(o: Magic, b: Board, c: Color)
    ensures ShortCastle in PseudoLegal(o, b, c) <==> CastleAllowed(o, b, c, true)
    ensures LongCastle in PseudoLegal(o, b, c) <==> CastleAllowed(o, b, c, false)
  {
    CastlesOnlyFromCastling(o, b, c, ShortCastle);
    CastlesOnlyFromCastling(o, b, c, LongCastle);
  }

  /** Moves of the pieces other than pawns never land on a friendly man and carry no e.p. flag. */
  lemma PieceTargets(o: Magic, b: Board, c: Color, m: GenMove)
    requires m in KindMoves(o, b, c, Rook) || m in KindMoves(o, b, c, Bishop) || m in KindMoves(o, b, c, Queen)
      || m in KindMoves(o, b, c, Knight) || m in KindMoves(o, b, c, King)
    ensures m.Normal? && !m.ep && m.piece != Pawn && !ColorBoard(b, c)[m.to]
  {
    KindMovesMeaning(o, b, c, Rook, m);
    KindMovesMeaning(o, b, c, Bishop, m);
    KindMovesMeaning(o, b, c, Queen, m);
    KindMovesMeaning(o, b, c, Knight, m);
    KindMovesMeaning(o, b, c, King, m);
  }

  /** Pawn moves land on an empty square, an enemy man or the e.p. square. */
  lemma PawnTargets(o: Magic, b: Board, c: Color, m: GenMove)
    requires m in PawnMoves(o, b, c) && !IsCastle(m)
    ensures !AllBoard(b)[m.to] || ColorBoard(b, Opposite(c))[m.to] || b.ep[m.to]
    ensures m.Normal? && m.ep ==> m.piece == Pawn && m.to == EpIndex(b) && b.ep[m.to]
  {
    PawnMovesMeaning(o, b, c, m);
    PawnPushesMeaning(o, b, c, m.from, m.to);
  }

  /** The pawn part of `TargetsNotFriendly`, stated with the two sides' boards. */
  lemma PawnTargetsSide(o: Magic, b: Board, c: Color, m: GenMove)
    requires m in PawnMoves(o, b, c) && !IsCastle(m)
    ensures !ColorBoard(b, c)[m.to] || ColorBoard(b, Opposite(c))[m.to] || b.ep[m.to]
    ensures m.Normal? && m.ep ==> m.piece == Pawn && m.to == EpIndex(b) && b.ep[m.to]
    ensures (m.Normal? && m.piece == Pawn) || m.PawnPromotion?
  {
    PawnTargets(o, b, c, m);
    PawnMovesMeaning(o, b, c, m);
    assert AllBoard(b)[m.to] <==> ColorBoard(b, Black)[m.to] || ColorBoard(b, White)[m.to];
  }

  /**
   * Every move lands on a square without a friendly man, on an enemy man
   * or on the e.p. square; only a pawn capture can do the last two with a
   * friendly man there. A move carries the e.p. flag only as a pawn move
   * onto the e.p. square.
   */
  lemma TargetsNotFriendly(o: Magic, b: Board, c: Color, m: GenMove)
    requires m in PseudoLegal(o, b, c) && !IsCastle(m)
    ensures !ColorBoard(b, c)[m.to] || ColorBoard(b, Opposite(c))[m.to] || b.ep[m.to]
    ensures !ColorBoard(b, c)[m.to] || (m.Normal? && m.piece == Pawn) || m.PawnPromotion?
    ensures m.Normal? && m.ep ==> m.piece == Pawn && m.to == EpIndex(b) && b.ep[m.to]
  {
    PseudoLegalParts(o, b, c, m);
    CastleMovesAreCastles(o, b, c, m);
    if m in PawnMoves(o, b, c) {
      PawnTargetsSide(o, b, c, m);
    } else {
      PieceTargets(o, b, c, m);
    }
  }

  /**
   * When no square holds men of both sides and the e.p. square holds none
   * of the mover's, no generated move lands on a friendly square.
   */
  lemma NeverFriendly(o: Magic, b: Board, c: Color, m: GenMove)
    requires m in PseudoLegal(o, b, c) && !IsCastle(m)
    requires forall s: Sq :: !(ColorBoard(b, c)[s] && ColorBoard(b, Opposite(c))[s])
    requires forall s: Sq :: b.ep[s] ==> !ColorBoard(b, c)[s]
    ensures !ColorBoard(b, c)[m.to]
  {
    TargetsNotFriendly(o, b, c, m);
  }
}
