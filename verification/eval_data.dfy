/**
 * `EvalData` of `shakmat-engine/src/evaluation/eval_data.rs`: the values one
 * evaluation shares between its terms. Every pair of arrays is indexed by
 * the colour's index, Black first; the king rings are read from the
 * start-up masks at each king's lowest square.
 */
module EvalData {
  import opened Base
  import opened Colors
  import opened BitBoards
  import opened PieceSets
  import EvalMasks
  import E = Evaluate

  datatype Data = Data(
    gamePhase: int,
    scoreMidgame: int,
    scoreEndgame: int,
    whitePieces: Pieces,
    blackPieces: Pieces,
    turn: Color,
    kingInnerRings: seq<BitBoard>,
    kingOuterRings: seq<BitBoard>,
    attackersCount: seq<int>,
    attacksWeight: seq<int>,
    safeMobilityArea: seq<BitBoard>)

  /** The material counts of one side's boards. */
  function SideOf(ps: Pieces): (side: E.Side)
    ensures E.SideOk(side)
  {
    E.Side(Count(ps.pawns), Count(ps.knights), Count(ps.bishops), Count(ps.rooks), Count(ps.queens))
  }

  function CountsOf(white: Pieces, black: Pieces): (c: E.Counts)
    ensures E.CountsOk(c)
  {
    E.Counts(SideOf(white), SideOf(black))
  }

  /**
   * `EvalData::new`. Both masks are read at `first_piece_index` of each
   * king board, which is 64 on an empty board and indexes past the mask
   * tables; that, and a phase whose scaling leaves `i16`, give `None`.
   */
  function New(white: Pieces, black: Pieces, turn: Color): (r: Option<Data>)
    ensures r.Some? <==> !IsEmpty(white.king) && !IsEmpty(black.king) && E.PhaseUnits(CountsOf(white, black)) >= -128
  {
    if IsEmpty(black.king) || IsEmpty(white.king) || E.GamePhase(CountsOf(white, black)).None? then None
    else
      Some(Data(
        E.GamePhase(CountsOf(white, black)).value, 0, 0, white, black, turn,
        Rings(EvalMasks.InnerRing, FirstPieceIndex(black.king), FirstPieceIndex(white.king)),
        Rings(EvalMasks.OuterRing, FirstPieceIndex(black.king), FirstPieceIndex(white.king)),
        [0, 0], [0, 0], [Ones, Ones]))
  }

  /** One mask per side, Black's first. */
  function Rings(kind: EvalMasks.MaskKind, blackKing: Sq, whiteKing: Sq): seq<BitBoard>
  {
    [EvalMasks.Mask(kind, blackKing), EvalMasks.Mask(kind, whiteKing)]
  }

  /** `get_pieces`: the side's own boards. */
  function GetPieces(d: Data, c: Color): Pieces
  {
    match c
    case Black => d.blackPieces
    case White => d.whitePieces
  }

  /** `compute_score`: the tapered mix of the two running scores, from the mover's view. */
  function ComputeScore(d: Data): Option<E.Evaluation>
    requires E.TaperedOk(E.Tapered(d.scoreMidgame, d.scoreEndgame)) && IsI16(d.gamePhase)
  {
    E.ComputeScore(E.Tapered(d.scoreMidgame, d.scoreEndgame), d.gamePhase, d.turn)
  }

  /** The square the rings of side `c` are centred on. */
  function KingSquare(d: Data, c: Color): nat
  {
    FirstPieceIndex(GetPieces(d, c).king)
  }

  /**
   * A fresh record: no attackers and no weight, the whole board as the
   * safe area of both sides, both running scores zero, the phase of the
   * material, and for each side (at its colour's index) rings around the
   * lowest square of its king that hold that square, every square a king
   * step away in the inner ring and every square two steps away in the
   * outer one.
   */
  lemma NewMeaning(white: Pieces, black: Pieces, turn: Color, c: Color, q: Sq)
    requires New(white, black, turn).Some?
    ensures var d := New(white, black, turn).value;
      d.attackersCount == [0, 0] && d.attacksWeight == [0, 0]
      && d.safeMobilityArea == [Ones, Ones]
      && d.scoreMidgame == 0 && d.scoreEndgame == 0 && d.turn == turn
      && Some(d.gamePhase) == E.GamePhase(CountsOf(white, black))
      && |d.kingInnerRings| == 2 && |d.kingOuterRings| == 2
      && KingSquare(d, c) < 64
      && GetPieces(d, c).king[KingSquare(d, c)]
      && d.kingInnerRings[ToIndex(c)][KingSquare(d, c)]
      && d.kingOuterRings[ToIndex(c)][KingSquare(d, c)]
      && (d.kingInnerRings[ToIndex(c)][q]
          <==> EvalMasks.FileDistance(KingSquare(d, c), q) <= 1 && EvalMasks.RankDistance(KingSquare(d, c), q) <= 1)
      && (d.kingOuterRings[ToIndex(c)][q]
          <==> EvalMasks.FileDistance(KingSquare(d, c), q) <= 2 && EvalMasks.RankDistance(KingSquare(d, c), q) <= 2)
  {
    var d := New(white, black, turn).value;
    EvalMasks.MaskShapes(KingSquare(d, c), q);
  }

  /** `get_pieces` returns each side's own boards, as given to `new`. */
  lemma GetPiecesMeaning(white: Pieces, black: Pieces, turn: Color)
    requires New(white, black, turn).Some?
    ensures GetPieces(New(white, black, turn).value, White) == white
    ensures GetPieces(New(white, black, turn).value, Black) == black
  {
  }

  /** Nothing has been scored yet, so a fresh record scores 0 from either side. */
  lemma FreshScoreIsZero(white: Pieces, black: Pieces, turn: Color)
    requires New(white, black, turn).Some?
    ensures E.TaperedOk(E.Tapered(0, 0)) && IsI16(New(white, black, turn).value.gamePhase)
    ensures ComputeScore(New(white, black, turn).value) == Some(E.Evaluation(0))
  {
    TruncDivMeaning(0, 256);
  }

  /**
   * With the phase in `[0, 256]`, `compute_score` lies between the two
   * running scores, gives the midgame score at phase 0 and the endgame
   * score at phase 256, and negates with the side to move.
   */
  lemma ComputeScoreMeaning(d: Data)
    requires 0 <= d.gamePhase <= 256
    requires IsI16(d.scoreMidgame) && IsI16(d.scoreEndgame)
    requires d.scoreMidgame != I16_MIN && d.scoreEndgame != I16_MIN
    ensures ComputeScore(d).Some?
    ensures var mix := E.Mix(E.Tapered(d.scoreMidgame, d.scoreEndgame), d.gamePhase);
      ComputeScore(d).value.score == Sign(d.turn) * mix
      && (d.scoreMidgame <= mix <= d.scoreEndgame || d.scoreEndgame <= mix <= d.scoreMidgame)
    ensures d.gamePhase == 0 ==> ComputeScore(d).value.score == Sign(d.turn) * d.scoreMidgame
    ensures d.gamePhase == 256 ==> ComputeScore(d).value.score == Sign(d.turn) * d.scoreEndgame
  {
    E.ComputeScoreInterpolates(E.Tapered(d.scoreMidgame, d.scoreEndgame), d.gamePhase, d.turn);
    E.MixInterpolates(E.Tapered(d.scoreMidgame, d.scoreEndgame), d.gamePhase);
    if d.gamePhase == 0 || d.gamePhase == 256 {
      E.MixEnds(E.Tapered(d.scoreMidgame, d.scoreEndgame), d.gamePhase);
    }
  }

  /** Within the starting set the phase of a fresh record lies in `[0, 256]`. */
  lemma NewPhaseRange(white: Pieces, black: Pieces, turn: Color)
    requires !IsEmpty(white.king) && !IsEmpty(black.king)
    requires E.WithinStartingSet(CountsOf(white, black))
    ensures New(white, black, turn).Some?
    ensures 0 <= New(white, black, turn).value.gamePhase <= 256
  {
    E.PhaseRange(CountsOf(white, black));
  }
}
