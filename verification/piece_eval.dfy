/**
 * The rook term of `shakmat-engine/src/evaluation/pieces.rs`: 500 for each
 * rook, and 20 more when no pawn of either colour stands on its file. The
 * file masks are the eight `u64` constants of the source.
 */
module PieceEval {
  import opened Base
  import opened BitBoards
  import EvalMasks

  /** The squares whose index leaves remainder `f` modulo 8: one file. */
  function Files(f: nat): (b: BitBoard)
    requires f < 8
    ensures forall s: Sq :: b[s] <==> s % 8 == f
  {
    seq(64, s requires 0 <= s < 64 => s % 8 == f)
  }

  /** The constants of `FILES`, as written in the source. */
  const FileWords: seq<nat> := [
    0x0101010101010101, 0x0202020202020202, 0x0404040404040404, 0x0808080808080808,
    0x1010101010101010, 0x2020202020202020, 0x4040404040404040, 0x8080808080808080]

  /** `b` repeated `n` times. */
  function Repeat(b: seq<bool>, n: nat): (r: seq<bool>)
    ensures |r| == n * |b|
  {
    if n == 0 then [] else b + Repeat(b, n - 1)
  }

  lemma {:induction false} RepeatIndex(b: seq<bool>, n: nat, i: nat)
    requires |b| == 8 && i < 8 * n
    ensures Repeat(b, n)[i] == b[i % 8]
  {
    if i >= 8 {
      RepeatIndex(b, n - 1, i - 8);
    }
  }

  /** `1 + 256 + ... + 256^(n-1)`. */
  function ByteOnes(n: nat): nat
  {
    if n == 0 then 0 else 1 + 256 * ByteOnes(n - 1)
  }

  lemma {:induction false} RepeatBits(b: seq<bool>, n: nat)
    requires |b| == 8
    ensures Bits(Repeat(b, n)) == Bits(b) * ByteOnes(n)
  {
    if n > 0 {
      var rest := Repeat(b, n - 1);
      BitsConcat(b, rest);
      RepeatBits(b, n - 1);
      assert Pow2(8) == 256;
      ByteStep(Bits(b), ByteOnes(n - 1));
    }
  }

  lemma ByteStep(x: int, y: int)
    ensures x * (1 + 256 * y) == x + 256 * (x * y)
  {
  }

  /** The eight bytes of a file mask are alike. */
  lemma FilesAsRepeat(f: nat)
    requires f < 8
    ensures Files(f) == Repeat(seq(8, i requires 0 <= i < 8 => i == f), 8)
  {
    var byte := seq(8, i requires 0 <= i < 8 => i == f);
    forall i | 0 <= i < 64
      ensures Repeat(byte, 8)[i] == Files(f)[i]
    {
      RepeatIndex(byte, 8, i);
    }
  }

  lemma ByteOnesEight()
    ensures ByteOnes(8) == 0x0101010101010101
  {
    assert ByteOnes(2) == 0x0101;
    assert ByteOnes(4) == 0x0101_0101;
    assert ByteOnes(6) == 0x0101_0101_0101;
  }

  /** The constants are `0x0101010101010101 << f`. */
  lemma FileWordsShifted(f: nat)
    requires f < 8
    ensures FileWords[f] == 0x0101010101010101 * Pow2(f)
  {
    assert Pow2(1) == 2 && Pow2(2) == 4 && Pow2(3) == 8 && Pow2(4) == 16;
    assert Pow2(5) == 32 && Pow2(6) == 64 && Pow2(7) == 128;
  }

  /** Each mask is the matching constant of `FILES`: the word `0x0101010101010101 << f`. */
  lemma FilesMatchConstants(f: nat)
    requires f < 8
    ensures Value(Files(f)) == FileWords[f] == 0x0101010101010101 * Pow2(f)
    ensures Files(f) == FromWord(FileWords[f])
  {
    var byte := seq(8, i requires 0 <= i < 8 => i == f);
    FilesAsRepeat(f);
    SingleBitValue(byte, f);
    RepeatBits(byte, 8);
    ByteOnesEight();
    FileWordsShifted(f);
    WordRoundTrip(Files(f));
  }

  /** `FILES[s % 8]` is the file mask `init_evaluation` builds for `s`. */
  lemma FilesAgreeWithMasks(s: Sq)
    ensures Files(s % 8) == EvalMasks.Mask(EvalMasks.FileMask, s)
  {
  }

  /** One rook: 500, and 20 more when its file holds none of the pawns. */
  function RookScore(s: Sq, pawns: BitBoard): int
  {
    500 + (if IsEmpty(And(Files(s % 8), pawns)) then 20 else 0)
  }

  /** The rook bonus is paid exactly when no pawn shares the rook's file. */
  lemma RookScoreMeaning(s: Sq, pawns: BitBoard)
    ensures RookScore(s, pawns) == 520 <==> forall t: Sq :: t % 8 == s % 8 ==> !pawns[t]
    ensures RookScore(s, pawns) == 500 || RookScore(s, pawns) == 520
  {
    var both := And(Files(s % 8), pawns);
    if IsEmpty(both) {
      forall t: Sq | t % 8 == s % 8
        ensures !pawns[t]
      {
        assert t !in Squares(both);
      }
    } else {
      var t: Sq :| t in Squares(both);
      assert t % 8 == s % 8 && pawns[t];
    }
  }

  function SumRooks(rooks: seq<Sq>, pawns: BitBoard): int
  {
    if rooks == [] then 0 else RookScore(rooks[0], pawns) + SumRooks(rooks[1..], pawns)
  }

  /** `eval_rooks`: the rook scores summed over the board's squares, pawns of both colours counted. */
  function EvalRooks(rooks: BitBoard, whitePawns: BitBoard, blackPawns: BitBoard): int
  {
    SumRooks(PieceIndices(rooks), Or(whitePawns, blackPawns))
  }

  lemma {:induction false} SumRooksBounds(rooks: seq<Sq>, pawns: BitBoard)
    ensures 500 * |rooks| <= SumRooks(rooks, pawns) <= 520 * |rooks|
  {
    if rooks != [] {
      SumRooksBounds(rooks[1..], pawns);
      RookScoreMeaning(rooks[0], pawns);
    }
  }

  /**
   * For `n` rooks the term lies in `[500n, 520n]`, with no rooks it is 0,
   * and with no pawns on the board every rook earns its bonus.
   */
  lemma EvalRooksBounds(rooks: BitBoard, whitePawns: BitBoard, blackPawns: BitBoard)
    ensures 500 * Count(rooks) <= EvalRooks(rooks, whitePawns, blackPawns) <= 520 * Count(rooks)
    ensures IsEmpty(rooks) ==> EvalRooks(rooks, whitePawns, blackPawns) == 0
  {
    CountIsIndexCount(rooks);
    SumRooksBounds(PieceIndices(rooks), Or(whitePawns, blackPawns));
    if IsEmpty(rooks) {
      CountZero(rooks);
    }
  }

  lemma {:induction false} SumRooksOpen(rooks: seq<Sq>, pawns: BitBoard)
    requires forall t: Sq :: !pawns[t]
    ensures SumRooks(rooks, pawns) == 520 * |rooks|
  {
    if rooks != [] {
      SumRooksOpen(rooks[1..], pawns);
      RookScoreMeaning(rooks[0], pawns);
    }
  }

  /** On a board without pawns every rook stands on an open file. */
  lemma NoPawnsAllOpen(rooks: BitBoard, whitePawns: BitBoard, blackPawns: BitBoard)
    requires IsEmpty(whitePawns) && IsEmpty(blackPawns)
    ensures EvalRooks(rooks, whitePawns, blackPawns) == 520 * Count(rooks)
  {
    CountIsIndexCount(rooks);
    NoSquares(whitePawns);
    NoSquares(blackPawns);
    SumRooksOpen(PieceIndices(rooks), Or(whitePawns, blackPawns));
  }
}
