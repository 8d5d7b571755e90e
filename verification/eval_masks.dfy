/**
 * The evaluation masks built once at start-up
 * (`shakmat-engine/src/evaluation/init.rs`): for every square, the squares
 * on its file and on its rank, the king rings at distance one and two, and
 * the squares in front of a pawn on its own and the neighbouring files.
 */
module EvalMasks {
  import opened Base
  import opened BitBoards
  import opened Positions

  datatype MaskKind = FileMask | RankMask | InnerRing | OuterRing | WhitePassedPawn | BlackPassedPawn

  /** How many files apart two squares are. */
  function FileDistance(p: Sq, q: Sq): nat
  {
    Abs(File(p) - File(q))
  }

  /** How many ranks apart two squares are. */
  function RankDistance(p: Sq, q: Sq): nat
  {
    Abs(Rank(p) - Rank(q))
  }

  /** The test `init_evaluation` applies to the pair (`pos`, `other`) for each mask. */
  predicate Related(kind: MaskKind, p: Sq, q: Sq)
  {
    match kind
    case FileMask => File(q) == File(p)
    case RankMask => Rank(q) == Rank(p)
    case InnerRing => FileDistance(p, q) <= 1 && RankDistance(p, q) <= 1
    case OuterRing => FileDistance(p, q) <= 2 && RankDistance(p, q) <= 2
    case WhitePassedPawn => FileDistance(p, q) <= 1 && Rank(q) > Rank(p)
    case BlackPassedPawn => FileDistance(p, q) <= 1 && Rank(q) < Rank(p)
  }

  /** The mask of one square: every square related to it. */
  function Mask(kind: MaskKind, p: Sq): (b: BitBoard)
  {
    seq(64, q requires 0 <= q < 64 => Related(kind, p, q))
  }

  /**
   * One table of `init_evaluation`: starting from empty boards, for each
   * square `pos` and each square `other`, `other`'s bit is or-ed into entry
   * `pos` when the two are related. Each table is built independently of
   * the others, so building them one at a time gives the same tables as
   * the single pass of the source.
   */
  method BuildTable(kind: MaskKind) returns (table: seq<BitBoard>)
    ensures |table| == 64
    ensures forall p :: 0 <= p < 64 ==> table[p] == Mask(kind, p)
  {
    table := seq(64, _ => Empty);
    for pos := 0 to 64
      invariant |table| == 64
      invariant forall p :: 0 <= p < pos ==> table[p] == Mask(kind, p)
      invariant forall p :: pos <= p < 64 ==> table[p] == Empty
    {
      for other := 0 to 64
        invariant |table| == 64
        invariant forall p :: 0 <= p < pos ==> table[p] == Mask(kind, p)
        invariant forall p :: pos < p < 64 ==> table[p] == Empty
        invariant forall q :: 0 <= q < 64 ==> table[pos][q] == (q < other && Related(kind, pos, q))
      {
        if Related(kind, pos, other) {
          table := table[pos := Or(table[pos], FromSquare(other))];
        }
      }
      assert table[pos] == Mask(kind, pos);
    }
  }

  /** The six tables. */
  datatype Masks = Masks(
    files: seq<BitBoard>,
    ranks: seq<BitBoard>,
    whitePassedPawn: seq<BitBoard>,
    blackPassedPawn: seq<BitBoard>,
    kingInnerRing: seq<BitBoard>,
    kingOuterRing: seq<BitBoard>)

  /** `init_evaluation`. */
  method InitEvaluation() returns (m: Masks)
    ensures |m.files| == 64 && |m.ranks| == 64 && |m.kingInnerRing| == 64 && |m.kingOuterRing| == 64
    ensures |m.whitePassedPawn| == 64 && |m.blackPassedPawn| == 64
    ensures forall p :: 0 <= p < 64 ==>
      m.files[p] == Mask(FileMask, p) && m.ranks[p] == Mask(RankMask, p)
      && m.kingInnerRing[p] == Mask(InnerRing, p) && m.kingOuterRing[p] == Mask(OuterRing, p)
      && m.whitePassedPawn[p] == Mask(WhitePassedPawn, p) && m.blackPassedPawn[p] == Mask(BlackPassedPawn, p)
  {
    var files := BuildTable(FileMask);
    var ranks := BuildTable(RankMask);
    var white := BuildTable(WhitePassedPawn);
    var black := BuildTable(BlackPassedPawn);
    var inner := BuildTable(InnerRing);
    var outer := BuildTable(OuterRing);
    m := Masks(files, ranks, white, black, inner, outer);
  }

  /**
   * The file and rank masks hold exactly the squares sharing the square's
   * file or rank; the square itself is in its file, rank and both rings,
   * the inner ring lies inside the outer one, and ring membership is
   * symmetric.
   */
  lemma MaskShapes(p: Sq, q: Sq)
    ensures Mask(FileMask, p)[q] <==> File(q) == File(p)
    ensures Mask(RankMask, p)[q] <==> Rank(q) == Rank(p)
    ensures Mask(FileMask, p)[p] && Mask(RankMask, p)[p] && Mask(InnerRing, p)[p] && Mask(OuterRing, p)[p]
    ensures Mask(InnerRing, p)[q] ==> Mask(OuterRing, p)[q]
    ensures Mask(InnerRing, p)[q] <==> Mask(InnerRing, q)[p]
    ensures Mask(OuterRing, p)[q] <==> Mask(OuterRing, q)[p]
  {
  }

  /**
   * A passed-pawn mask holds only squares on the same or a neighbouring
   * file, ahead of the pawn for White and behind it for Black; the two
   * masks are disjoint and neither holds the square itself.
   */
  lemma PassedPawnShapes(p: Sq, q: Sq)
    ensures Mask(WhitePassedPawn, p)[q] ==> Rank(q) > Rank(p) && FileDistance(p, q) <= 1
    ensures Mask(BlackPassedPawn, p)[q] ==> Rank(q) < Rank(p) && FileDistance(p, q) <= 1
    ensures !(Mask(WhitePassedPawn, p)[q] && Mask(BlackPassedPawn, p)[q])
    ensures !Mask(WhitePassedPawn, p)[p] && !Mask(BlackPassedPawn, p)[p]
    ensures Mask(WhitePassedPawn, p)[q] <==> Mask(BlackPassedPawn, q)[p]
  {
  }
}
