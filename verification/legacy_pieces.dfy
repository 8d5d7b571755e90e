/**
 * The per-man move generators of the first revision
 * (`src/chess/board/piece.rs`) and the board's legal-move list and checked
 * `make_move` (`src/chess/board/board.rs`).
 *
 * The `Position` helpers they call (`king_moves`, `knight_jumps`,
 * `trace_ray`, `is_attacked_by`) are not part of this model; they are the
 * fields of a `Geometry` record.  Directions are (file, rank) steps, "up"
 * being toward rank 8 and "left" toward the a-file.
 */
module LegacyPieces {
  import opened Base
  import opened Colors
  import opened PieceTypes
  import opened BitBoards
  import Pos = Positions
  import LC = LegacyCastling
  import LM = LegacyMoves
  import opened LegacyBoard

  datatype Geometry = Geometry(
    kingMoves: Pos.Position -> seq<Coord>,
    knightJumps: Pos.Position -> seq<Coord>,
    /** The squares a slider of colour c reaches from a square along a direction, a capture included. */
    traceRay: (Board, Pos.Position, Coord, Color) -> seq<Coord>,
    /** Whether a square is attacked by men of a colour. */
    attacked: (Board, Coord, Color) -> bool)

  const UpLeft := Coord(-1, 1)
  const UpRight := Coord(1, 1)
  const DownLeft := Coord(-1, -1)
  const DownRight := Coord(1, -1)
  const Up := Coord(0, 1)
  const Down := Coord(0, -1)
  const Left := Coord(-1, 0)
  const Right := Coord(1, 0)

  /** `add_delta`. */
  function Plus(c: Coord, d: Coord): Coord
  {
    Coord(c.file + d.file, c.rank + d.rank)
  }

  /** `get_pos` at a coordinate: off the array it indexes out of bounds. */
  function GetAt(b: Board, c: Coord): (r: Result<Option<Piece>, BoardError>)
    requires Shaped(b)
    ensures r.Ok? ==> PosOfCoord(c).Some?
  {
    match PosOfCoord(c)
    case None => Err(OffBoard)
    case Some(p) => GetPos(b, p)
  }

  /** Empty, as far as `get_pos` can tell. */
  predicate EmptyAt(b: Board, c: Coord)
    requires Shaped(b)
  {
    GetAt(b, c) == Ok(None)
  }

  /** Holding a man of the other colour. */
  predicate EnemyAt(b: Board, c: Coord, color: Color)
    requires Shaped(b)
  {
    GetAt(b, c).Ok? && GetAt(b, c).value.Some? && GetAt(b, c).value.value.color != color
  }

  /** The square index of a position inside the array. */
  function SqOf(p: Pos.Position): (s: Sq)
    requires InGrid(p)
    ensures PosOf(s) == p
  {
    Pos.IndexFileRank(p.file, p.rank);
    Pos.Index(p.file, p.rank)
  }

  /**
   * The filter of the king and knight generators: targets that are empty
   * or hold an enemy, in order; the first target `get_pos` cannot read
   * is a panic.
   */
  function StepTargets(b: Board, color: Color, ts: seq<Coord>): (r: Result<seq<Pos.Position>, BoardError>)
    requires Shaped(b)
    ensures r.Ok? ==> forall i :: 0 <= i < |ts| ==> GetAt(b, ts[i]).Ok?
    ensures r.Ok? ==> forall t :: t in r.value ==> InGrid(t) && (EmptyAt(b, CoordOf(t)) || EnemyAt(b, CoordOf(t), color))
    ensures r.Ok? ==> forall i :: 0 <= i < |ts| && (EmptyAt(b, ts[i]) || EnemyAt(b, ts[i], color)) ==>
      PosOfCoord(ts[i]).value in r.value
    decreases |ts|
  {
    if ts == [] then Ok([])
    else
      match GetAt(b, ts[0])
      case Err(e) => Err(e)
      case Ok(o) =>
        match StepTargets(b, color, ts[1..])
        case Err(e) => Err(e)
        case Ok(rest) =>
          var p := PosOfCoord(ts[0]).value;
          assert CoordOf(p) == ts[0];
          Ok((if o.None? || o.value.color != color then [p] else []) + rest)
  }

  /** Normal moves from one square to each target. */
  function Normals(from: Pos.Position, ts: seq<Pos.Position>): (ms: seq<LM.Move>)
    requires InGrid(from) && forall t :: t in ts ==> InGrid(t)
    ensures |ms| == |ts|
    ensures forall i :: 0 <= i < |ts| ==> ms[i] == LM.NormalMove(SqOf(from), SqOf(ts[i]))
  {
    seq(|ts|, i requires 0 <= i < |ts| => LM.NormalMove(SqOf(from), SqOf(ts[i])))
  }

  /**
   * The castling test over a list of file steps from the king: each
   * square must be empty (the king's own excepted) and unattacked (on the
   * long side, the b-file square may be attacked); the first failure
   * stops the test.
   */
  function CastleClear(b: Board, geo: Geometry, king: Pos.Position, color: Color, steps: seq<int>, long: bool): Result<bool, BoardError>
    requires Shaped(b)
    decreases |steps|
  {
    if steps == [] then Ok(true)
    else
      var d := steps[0];
      var c := Plus(CoordOf(king), Coord(d, 0));
      var empty := if d == 0 then Ok(true) else (match GetAt(b, c) case Err(e) => Err(e) case Ok(o) => Ok(o.None?));
      match empty
      case Err(e) => Err(e)
      case Ok(isEmpty) =>
        var underAttack := (!long || d > -3) && geo.attacked(b, c, Opposite(color));
        if isEmpty && !underAttack then CastleClear(b, geo, king, color, steps[1..], long) else Ok(false)
  }

  const ShortSteps: seq<int> := [0, 1, 2]
  const LongSteps: seq<int> := [0, -1, -2, -3]

  function FileStep(king: Pos.Position, d: int): Coord
  {
    Plus(CoordOf(king), Coord(d, 0))
  }

  /**
   * The short castle passes exactly when the king's square and the two to
   * its right are unattacked and those two are empty.
   */
  lemma ShortClearMeaning(b: Board, geo: Geometry, king: Pos.Position, color: Color)
    requires Shaped(b) && CastleClear(b, geo, king, color, ShortSteps, false).Ok?
    ensures var op := Opposite(color);
      CastleClear(b, geo, king, color, ShortSteps, false).value <==>
        (!geo.attacked(b, FileStep(king, 0), op)
        && EmptyAt(b, FileStep(king, 1)) && !geo.attacked(b, FileStep(king, 1), op)
        && EmptyAt(b, FileStep(king, 2)) && !geo.attacked(b, FileStep(king, 2), op))
  {
    assert ShortSteps[1..] == [1, 2] && ShortSteps[1..][1..] == [2] && ShortSteps[1..][1..][1..] == [];
  }

  /**
   * The long castle passes exactly when the king's square and the two to
   * its left are unattacked and the three to its left are empty; the
   * third may be attacked.
   */
  lemma LongClearMeaning(b: Board, geo: Geometry, king: Pos.Position, color: Color)
    requires Shaped(b) && CastleClear(b, geo, king, color, LongSteps, true).Ok?
    ensures var op := Opposite(color);
      CastleClear(b, geo, king, color, LongSteps, true).value <==>
        (!geo.attacked(b, FileStep(king, 0), op)
        && EmptyAt(b, FileStep(king, -1)) && !geo.attacked(b, FileStep(king, -1), op)
        && EmptyAt(b, FileStep(king, -2)) && !geo.attacked(b, FileStep(king, -2), op)
        && EmptyAt(b, FileStep(king, -3)))
  {
    assert LongSteps[1..] == [-1, -2, -3] && LongSteps[1..][1..] == [-2, -3];
    assert LongSteps[1..][1..][1..] == [-3] && LongSteps[1..][1..][1..][1..] == [];
  }

  /**
   * `get_moves_king`: steps to empty or enemy squares, then a short and a
   * long castle when the colour of the man on the king's square has the
   * right and the squares pass the test.
   */
  function KingMoves(b: Board, p: Piece, geo: Geometry): Result<seq<LM.Move>, BoardError>
    requires Shaped(b) && InGrid(p.pos)
  {
    match StepTargets(b, p.color, geo.kingMoves(p.pos))
    case Err(e) => Err(e)
    case Ok(ts) =>
      match GetPos(b, p.pos)
      case Err(e) => Err(e)
      case Ok(None) => Err(NoPieceThere)
      case Ok(Some(k)) =>
        var color := k.color;
        var short := if LC.KingSide(b.castling, color) then CastleClear(b, geo, p.pos, color, ShortSteps, false) else Ok(false);
        if short.Err? then Err(short.error)
        else
          var long := if LC.QueenSide(b.castling, color) then CastleClear(b, geo, p.pos, color, LongSteps, true) else Ok(false);
          if long.Err? then Err(long.error)
          else
            Ok(Normals(p.pos, ts) + (if short.value then [LM.ShortCastle] else []) + (if long.value then [LM.LongCastle] else []))
  }

  /**
   * The steps of a king or knight: every move goes from its square to an
   * empty or enemy square among the candidates, and every such candidate
   * is a move.
   */
  lemma StepNormals(b: Board, color: Color, from: Pos.Position, cs: seq<Coord>)
    requires Shaped(b) && InGrid(from) && StepTargets(b, color, cs).Ok?
    ensures var ms := Normals(from, StepTargets(b, color, cs).value);
      (forall m :: m in ms ==>
        m.NormalMove? && m.from == SqOf(from) && (EmptyAt(b, CoordOf(PosOf(m.to))) || EnemyAt(b, CoordOf(PosOf(m.to)), color)))
      && (forall i :: 0 <= i < |cs| && (EmptyAt(b, cs[i]) || EnemyAt(b, cs[i], color)) ==>
        LM.NormalMove(SqOf(from), SqOf(PosOfCoord(cs[i]).value)) in ms)
  {
    var ts := StepTargets(b, color, cs).value;
    var ms := Normals(from, ts);
    forall m | m in ms
      ensures m.NormalMove? && m.from == SqOf(from) && (EmptyAt(b, CoordOf(PosOf(m.to))) || EnemyAt(b, CoordOf(PosOf(m.to)), color))
    {
      var i :| 0 <= i < |ms| && ms[i] == m;
      assert ts[i] in ts;
    }
    forall i | 0 <= i < |cs| && (EmptyAt(b, cs[i]) || EnemyAt(b, cs[i], color))
      ensures LM.NormalMove(SqOf(from), SqOf(PosOfCoord(cs[i]).value)) in ms
    {
      var t := PosOfCoord(cs[i]).value;
      var k :| 0 <= k < |ts| && ts[k] == t;
      assert ms[k] == LM.NormalMove(SqOf(from), SqOf(t));
    }
  }

  /**
   * A king steps exactly onto the empty or enemy squares among its
   * candidate squares, and castles short exactly when the side holds the
   * kingside right and the short test passes, long likewise.
   */
  lemma KingMovesMeaning(b: Board, p: Piece, geo: Geometry)
    requires Shaped(b) && InGrid(p.pos) && KingMoves(b, p, geo).Ok?
    ensures var ms := KingMoves(b, p, geo).value;
      var color := GetPos(b, p.pos).value.value.color;
      (forall m :: m in ms && m.NormalMove? ==>
        m.from == SqOf(p.pos) && (EmptyAt(b, CoordOf(PosOf(m.to))) || EnemyAt(b, CoordOf(PosOf(m.to)), p.color)))
      && (forall i :: 0 <= i < |geo.kingMoves(p.pos)| && (EmptyAt(b, geo.kingMoves(p.pos)[i]) || EnemyAt(b, geo.kingMoves(p.pos)[i], p.color)) ==>
        LM.NormalMove(SqOf(p.pos), SqOf(PosOfCoord(geo.kingMoves(p.pos)[i]).value)) in ms)
      && (LM.ShortCastle in ms <==> LC.KingSide(b.castling, color) && CastleClear(b, geo, p.pos, color, ShortSteps, false) == Ok(true))
      && (LM.LongCastle in ms <==> LC.QueenSide(b.castling, color) && CastleClear(b, geo, p.pos, color, LongSteps, true) == Ok(true))
  {
    StepNormals(b, p.color, p.pos, geo.kingMoves(p.pos));
    var ns := Normals(p.pos, StepTargets(b, p.color, geo.kingMoves(p.pos)).value);
    assert LM.ShortCastle !in ns && LM.LongCastle !in ns;
  }

  /** `get_moves_knight`: jumps to empty or enemy squares. */
  function KnightMoves(b: Board, p: Piece, geo: Geometry): Result<seq<LM.Move>, BoardError>
    requires Shaped(b) && InGrid(p.pos)
  {
    match StepTargets(b, p.color, geo.knightJumps(p.pos))
    case Err(e) => Err(e)
    case Ok(ts) => Ok(Normals(p.pos, ts))
  }

  /** A knight jumps exactly onto the empty or enemy squares among its candidate squares. */
  lemma KnightMovesMeaning(b: Board, p: Piece, geo: Geometry)
    requires Shaped(b) && InGrid(p.pos) && KnightMoves(b, p, geo).Ok?
    ensures var ms := KnightMoves(b, p, geo).value;
      (forall m :: m in ms ==>
        m.NormalMove? && m.from == SqOf(p.pos) && (EmptyAt(b, CoordOf(PosOf(m.to))) || EnemyAt(b, CoordOf(PosOf(m.to)), p.color)))
      && (forall i :: 0 <= i < |geo.knightJumps(p.pos)| && (EmptyAt(b, geo.knightJumps(p.pos)[i]) || EnemyAt(b, geo.knightJumps(p.pos)[i], p.color)) ==>
        LM.NormalMove(SqOf(p.pos), SqOf(PosOfCoord(geo.knightJumps(p.pos)[i]).value)) in ms)
  {
    StepNormals(b, p.color, p.pos, geo.knightJumps(p.pos));
  }

  /** The squares of several rays, each read as a target inside the array. */
  function RayTargets(b: Board, p: Piece, geo: Geometry, dirs: seq<Coord>): Result<seq<Pos.Position>, BoardError>
    requires Shaped(b)
    decreases |dirs|
  {
    if dirs == [] then Ok([])
    else
      match InArray(geo.traceRay(b, p.pos, dirs[0], p.color))
      case Err(e) => Err(e)
      case Ok(here) =>
        match RayTargets(b, p, geo, dirs[1..])
        case Err(e) => Err(e)
        case Ok(rest) => Ok(here + rest)
  }

  /** Ray squares as positions; a square off the array cannot be one. */
  function InArray(cs: seq<Coord>): (r: Result<seq<Pos.Position>, BoardError>)
    ensures r.Ok? ==> |r.value| == |cs| && forall i :: 0 <= i < |cs| ==> InGrid(r.value[i]) && CoordOf(r.value[i]) == cs[i]
    decreases |cs|
  {
    if cs == [] then Ok([])
    else
      match PosOfCoord(cs[0])
      case None => Err(OffBoard)
      case Some(p) =>
        match InArray(cs[1..])
        case Err(e) => Err(e)
        case Ok(rest) => Ok([p] + rest)
  }

  lemma {:induction false} RayTargetsInGrid(b: Board, p: Piece, geo: Geometry, dirs: seq<Coord>)
    requires Shaped(b) && RayTargets(b, p, geo, dirs).Ok?
    ensures forall t :: t in RayTargets(b, p, geo, dirs).value ==> InGrid(t)
    decreases |dirs|
  {
    if dirs != [] {
      RayTargetsInGrid(b, p, geo, dirs[1..]);
      var here := InArray(geo.traceRay(b, p.pos, dirs[0], p.color)).value;
      assert forall t :: t in here ==> InGrid(t) by {
        forall t | t in here ensures InGrid(t) {
          var i :| 0 <= i < |here| && here[i] == t;
        }
      }
    }
  }

  function SliderMoves(b: Board, p: Piece, geo: Geometry, dirs: seq<Coord>): Result<seq<LM.Move>, BoardError>
    requires Shaped(b) && InGrid(p.pos)
  {
    match RayTargets(b, p, geo, dirs)
    case Err(e) => Err(e)
    case Ok(ts) =>
      RayTargetsInGrid(b, p, geo, dirs);
      Ok(Normals(p.pos, ts))
  }

  const BishopDirs: seq<Coord> := [UpLeft, UpRight, DownLeft, DownRight]
  const RookDirs: seq<Coord> := [Up, Down, Left, Right]

  /** `get_moves_bishop`: the four diagonal rays. */
  function BishopMoves(b: Board, p: Piece, geo: Geometry): Result<seq<LM.Move>, BoardError>
    requires Shaped(b) && InGrid(p.pos)
  {
    SliderMoves(b, p, geo, BishopDirs)
  }

  /** `get_moves_rook`: the four orthogonal rays. */
  function RookMoves(b: Board, p: Piece, geo: Geometry): Result<seq<LM.Move>, BoardError>
    requires Shaped(b) && InGrid(p.pos)
  {
    SliderMoves(b, p, geo, RookDirs)
  }

  /** `get_moves_queen`: the bishop's moves, then the rook's. */
  function QueenMoves(b: Board, p: Piece, geo: Geometry): Result<seq<LM.Move>, BoardError>
    requires Shaped(b) && InGrid(p.pos)
  {
    match BishopMoves(b, p, geo)
    case Err(e) => Err(e)
    case Ok(diagonal) =>
      match RookMoves(b, p, geo)
      case Err(e) => Err(e)
      case Ok(straight) => Ok(diagonal + straight)
  }

  /**
   * Rays concatenate: the slider moves along two groups of directions are
   * those of the first group followed by those of the second, so a queen
   * moves as a bishop and then as a rook along all eight directions.
   */
  lemma {:induction false} SliderDirsConcat(b: Board, p: Piece, geo: Geometry, ds: seq<Coord>, es: seq<Coord>)
    requires Shaped(b) && InGrid(p.pos)
    ensures RayTargets(b, p, geo, ds + es).Ok? <==> RayTargets(b, p, geo, ds).Ok? && RayTargets(b, p, geo, es).Ok?
    ensures RayTargets(b, p, geo, ds + es).Ok? ==>
      RayTargets(b, p, geo, ds + es).value == RayTargets(b, p, geo, ds).value + RayTargets(b, p, geo, es).value
    decreases |ds|
  {
    if ds == [] {
      assert ds + es == es;
    } else {
      assert (ds + es)[0] == ds[0] && (ds + es)[1..] == ds[1..] + es;
      SliderDirsConcat(b, p, geo, ds[1..], es);
    }
  }

  /** Queen moves are the bishop's moves followed by the rook's, which are the slider moves along all eight directions. */
  lemma QueenIsBishopAndRook(b: Board, p: Piece, geo: Geometry)
    requires Shaped(b) && InGrid(p.pos)
    ensures QueenMoves(b, p, geo).Ok? <==> SliderMoves(b, p, geo, BishopDirs + RookDirs).Ok?
    ensures QueenMoves(b, p, geo).Ok? ==> QueenMoves(b, p, geo).value == SliderMoves(b, p, geo, BishopDirs + RookDirs).value
  {
    SliderDirsConcat(b, p, geo, BishopDirs, RookDirs);
    if QueenMoves(b, p, geo).Ok? {
      RayTargetsInGrid(b, p, geo, BishopDirs);
      RayTargetsInGrid(b, p, geo, RookDirs);
      NormalsConcat(p.pos, RayTargets(b, p, geo, BishopDirs).value, RayTargets(b, p, geo, RookDirs).value);
    }
  }

  lemma NormalsConcat(from: Pos.Position, ds: seq<Pos.Position>, es: seq<Pos.Position>)
    requires InGrid(from) && (forall t :: t in ds ==> InGrid(t)) && (forall t :: t in es ==> InGrid(t))
    ensures Normals(from, ds + es) == Normals(from, ds) + Normals(from, es)
  {
    assert forall t :: t in ds + es ==> t in ds || t in es;
  }

  // ---------------------------------------------------------------------
  // Pawns

  function Forward(c: Color): Coord
  {
    match c
    case White => Up
    case Black => Down
  }

  function StartRank(c: Color): nat
  {
    match c
    case White => 1
    case Black => 6
  }

  function PromotionRank(c: Color): nat
  {
    match c
    case White => 7
    case Black => 0
  }

  function CaptureDirs(c: Color): seq<Coord>
  {
    match c
    case White => [UpLeft, UpRight]
    case Black => [DownLeft, DownRight]
  }

  /** The pushes of a pawn: one step if empty, and two from the start rank when the first was generated and the second square is empty. */
  function PawnPushes(b: Board, p: Piece): (r: Result<seq<Pos.Position>, BoardError>)
    requires Shaped(b)
    ensures r.Ok? ==> forall t :: t in r.value ==> InGrid(t)
  {
    var one := Plus(CoordOf(p.pos), Forward(p.color));
    match GetAt(b, one)
    case Err(e) => Err(e)
    case Ok(o1) =>
      var first := if o1.None? then [PosOfCoord(one).value] else [];
      if p.pos.rank != StartRank(p.color) || first == [] then Ok(first)
      else
        var two := Plus(one, Forward(p.color));
        match GetAt(b, two)
        case Err(e) => Err(e)
        case Ok(o2) => Ok(first + (if o2.None? then [PosOfCoord(two).value] else []))
  }

  /** A pawn may capture onto a square inside the board that is the e.p. target or holds an enemy. */
  function PawnCaptures(b: Board, p: Piece, dirs: seq<Coord>): (r: Result<seq<Pos.Position>, BoardError>)
    requires Shaped(b)
    ensures r.Ok? ==> forall t :: t in r.value ==> InGrid(t)
    decreases |dirs|
  {
    if dirs == [] then Ok([])
    else
      var c := Plus(CoordOf(p.pos), dirs[0]);
      var here: Result<seq<Pos.Position>, BoardError> :=
        if PosOfCoord(c).None? then Ok([])
        else if b.ep == Some(c) then Ok([PosOfCoord(c).value])
        else
          match GetAt(b, c)
          case Err(e) => Err(e)
          case Ok(o) => Ok(if o.Some? && o.value.color != p.color then [PosOfCoord(c).value] else []);
      match here
      case Err(e) => Err(e)
      case Ok(h) =>
        match PawnCaptures(b, p, dirs[1..])
        case Err(e) => Err(e)
        case Ok(rest) => Ok(h + rest)
  }

  const PromotionTypes: seq<PieceType> := [Queen, Rook, Bishop, Knight]

  /** A target on the promotion rank becomes the four promotions, in the order Q, R, B, N; any other a normal move. */
  function Expand(from: Pos.Position, to: Pos.Position, promo: nat): (ms: seq<LM.Move>)
    requires InGrid(from) && InGrid(to)
    ensures to.rank == promo ==> |ms| == 4 && forall k :: 0 <= k < 4 ==> ms[k] == LM.PawnPromotion(SqOf(from), SqOf(to), PromotionTypes[k])
    ensures to.rank != promo ==> ms == [LM.NormalMove(SqOf(from), SqOf(to))]
  {
    if to.rank == promo then seq(4, k requires 0 <= k < 4 => LM.PawnPromotion(SqOf(from), SqOf(to), PromotionTypes[k]))
    else [LM.NormalMove(SqOf(from), SqOf(to))]
  }

  function ExpandAll(from: Pos.Position, ts: seq<Pos.Position>, promo: nat): seq<LM.Move>
    requires InGrid(from) && forall t :: t in ts ==> InGrid(t)
    decreases |ts|
  {
    if ts == [] then [] else Expand(from, ts[0], promo) + ExpandAll(from, ts[1..], promo)
  }

  /** `get_moves_pawn`: pushes, then captures, each expanded into promotions on the last rank. */
  function PawnMoves(b: Board, p: Piece): Result<seq<LM.Move>, BoardError>
    requires Shaped(b) && InGrid(p.pos)
  {
    match PawnPushes(b, p)
    case Err(e) => Err(e)
    case Ok(pushes) =>
      match PawnCaptures(b, p, CaptureDirs(p.color))
      case Err(e) => Err(e)
      case Ok(captures) =>
        Ok(ExpandAll(p.pos, pushes + captures, PromotionRank(p.color)))
  }

  /**
   * A pawn pushes one square forward when it is empty, and two squares
   * from its start rank when both are empty; nothing else is a push.
   */
  lemma PushesMeaning(b: Board, p: Piece)
    requires Shaped(b) && PawnPushes(b, p).Ok?
    ensures var one := Plus(CoordOf(p.pos), Forward(p.color));
      var two := Plus(one, Forward(p.color));
      forall t :: t in PawnPushes(b, p).value <==>
        (CoordOf(t) == one && EmptyAt(b, one))
        || (CoordOf(t) == two && p.pos.rank == StartRank(p.color) && EmptyAt(b, one) && EmptyAt(b, two))
  {
  }

  /** A pawn may capture onto a square inside the board that is the e.p. target or holds an enemy. */
  predicate Capturable(b: Board, p: Piece, c: Coord)
    requires Shaped(b)
  {
    PosOfCoord(c).Some? && (b.ep == Some(c) || EnemyAt(b, c, p.color))
  }

  /**
   * The capture targets are exactly the capturable squares one diagonal
   * step away, inside the board.
   */
  lemma {:induction false} CapturesMeaning(b: Board, p: Piece, dirs: seq<Coord>)
    requires Shaped(b)
    ensures PawnCaptures(b, p, dirs).Ok? ==> forall t :: t in PawnCaptures(b, p, dirs).value <==>
      exists i :: 0 <= i < |dirs| && CoordOf(t) == Plus(CoordOf(p.pos), dirs[i]) && Capturable(b, p, CoordOf(t))
    decreases |dirs|
  {
    if dirs != [] && PawnCaptures(b, p, dirs).Ok? {
      CapturesMeaning(b, p, dirs[1..]);
      var c := Plus(CoordOf(p.pos), dirs[0]);
      var caps := PawnCaptures(b, p, dirs).value;
      var rest := PawnCaptures(b, p, dirs[1..]).value;
      assert caps == (if Capturable(b, p, c) then [PosOfCoord(c).value] else []) + rest;
      forall t
        ensures t in caps <==> exists i :: 0 <= i < |dirs| && CoordOf(t) == Plus(CoordOf(p.pos), dirs[i]) && Capturable(b, p, CoordOf(t))
      {
        if t in rest {
          var i :| 0 <= i < |dirs[1..]| && CoordOf(t) == Plus(CoordOf(p.pos), dirs[1..][i]) && Capturable(b, p, CoordOf(t));
          assert dirs[1..][i] == dirs[i + 1];
        }
        if exists i :: 0 <= i < |dirs| && CoordOf(t) == Plus(CoordOf(p.pos), dirs[i]) && Capturable(b, p, CoordOf(t)) {
          var i :| 0 <= i < |dirs| && CoordOf(t) == Plus(CoordOf(p.pos), dirs[i]) && Capturable(b, p, CoordOf(t));
          if i > 0 {
            assert dirs[1..][i - 1] == dirs[i];
          }
        }
      }
    }
  }

  /**
   * Every pawn move starts on the pawn's square and goes to a push or a
   * capture target, and it is a promotion exactly when it reaches the
   * promotion rank; every target off that rank is a plain move and every
   * target on it is all four promotions.
   */
  lemma PawnMovesMeaning(b: Board, p: Piece)
    requires Shaped(b) && InGrid(p.pos) && PawnMoves(b, p).Ok?
    ensures var ts := PawnPushes(b, p).value + PawnCaptures(b, p, CaptureDirs(p.color)).value;
      var ms := PawnMoves(b, p).value;
      (forall m :: m in ms ==>
        (m.NormalMove? || m.PawnPromotion?) && m.from == SqOf(p.pos) && PosOf(m.to) in ts
        && (m.PawnPromotion? <==> Pos.Rank(m.to) == PromotionRank(p.color)))
      && (forall t, k :: t in ts && t.rank == PromotionRank(p.color) && 0 <= k < 4 ==>
        LM.PawnPromotion(SqOf(p.pos), SqOf(t), PromotionTypes[k]) in ms)
      && (forall t :: t in ts && t.rank != PromotionRank(p.color) ==> LM.NormalMove(SqOf(p.pos), SqOf(t)) in ms)
  {
    var ts := PawnPushes(b, p).value + PawnCaptures(b, p, CaptureDirs(p.color)).value;
    ExpandAllSound(p.pos, ts, PromotionRank(p.color));
    ExpandAllComplete(p.pos, ts, PromotionRank(p.color));
  }

  /**
   * Every expanded move starts on the pawn's square and goes to one of
   * the targets, and it is a promotion exactly when that target is on the
   * promotion rank: no plain pawn move reaches it.
   */
  lemma {:induction false} ExpandAllSound(from: Pos.Position, ts: seq<Pos.Position>, promo: nat)
    requires InGrid(from) && forall t :: t in ts ==> InGrid(t)
    ensures forall m :: m in ExpandAll(from, ts, promo) ==>
      (m.NormalMove? || m.PawnPromotion?) && m.from == SqOf(from) && PosOf(m.to) in ts
      && (m.PawnPromotion? <==> PosOf(m.to).rank == promo)
    decreases |ts|
  {
    if ts != [] {
      ExpandAllSound(from, ts[1..], promo);
      var here := Expand(from, ts[0], promo);
      var rest := ExpandAll(from, ts[1..], promo);
      assert ExpandAll(from, ts, promo) == here + rest;
      forall m: LM.Move | m in here + rest
        ensures (m.NormalMove? || m.PawnPromotion?) && m.from == SqOf(from) && PosOf(m.to) in ts
          && (m.PawnPromotion? <==> PosOf(m.to).rank == promo)
      {
        if m in here {
          if ts[0].rank == promo {
            var k :| 0 <= k < 4 && here[k] == m;
          }
          assert PosOf(m.to) == ts[0];
        } else {
          assert PosOf(m.to) in ts[1..];
        }
      }
    }
  }

  /**
   * Each target on the promotion rank yields the four promotions Q, R, B
   * and N, and any other target yields the plain move.
   */
  lemma {:induction false} ExpandAllComplete(from: Pos.Position, ts: seq<Pos.Position>, promo: nat)
    requires InGrid(from) && forall t :: t in ts ==> InGrid(t)
    ensures forall t, k :: t in ts && t.rank == promo && 0 <= k < 4 ==>
      LM.PawnPromotion(SqOf(from), SqOf(t), PromotionTypes[k]) in ExpandAll(from, ts, promo)
    ensures forall t :: t in ts && t.rank != promo ==> LM.NormalMove(SqOf(from), SqOf(t)) in ExpandAll(from, ts, promo)
    decreases |ts|
  {
    if ts != [] {
      ExpandAllComplete(from, ts[1..], promo);
      var here := Expand(from, ts[0], promo);
      var rest := ExpandAll(from, ts[1..], promo);
      assert ExpandAll(from, ts, promo) == here + rest;
      forall t | t in ts
        ensures t.rank == promo ==> forall k :: 0 <= k < 4 ==> LM.PawnPromotion(SqOf(from), SqOf(t), PromotionTypes[k]) in here + rest
        ensures t.rank != promo ==> LM.NormalMove(SqOf(from), SqOf(t)) in here + rest
      {
        if t == ts[0] {
          if t.rank == promo {
            assert forall k :: 0 <= k < 4 ==> here[k] in here;
          } else {
            assert here[0] in here;
          }
        } else {
          assert t in ts[1..];
        }
      }
    }
  }

  // ---------------------------------------------------------------------
  // Legal moves

  /** `get_pseudolegal_moves`: the generator of the man's kind. */
  function PseudoMoves(b: Board, p: Piece, geo: Geometry): Result<seq<LM.Move>, BoardError>
    requires Shaped(b) && InGrid(p.pos)
  {
    match p.kind
    case King => KingMoves(b, p, geo)
    case Knight => KnightMoves(b, p, geo)
    case Pawn => PawnMoves(b, p)
    case Bishop => BishopMoves(b, p, geo)
    case Rook => RookMoves(b, p, geo)
    case Queen => QueenMoves(b, p, geo)
  }

  /**
   * `is_in_check`: the king, which the first slot holds, is attacked by
   * the other colour; an empty first slot is a panic.
   */
  function InCheck(b: Board, color: Color, geo: Geometry): Result<bool, BoardError>
    requires Shaped(b)
  {
    var king := Pieces(b, color)[0];
    if king.None? then Err(NoPieceThere)
    else Ok(geo.attacked(b, CoordOf(king.value.pos), Opposite(color)))
  }

  /** A move the legal filter keeps: a castle, or one after which the colour is not in check. */
  predicate Keeps(b: Board, color: Color, geo: Geometry, m: LM.Move)
    requires Shaped(b)
  {
    m.ShortCastle? || m.LongCastle?
    || (MakeMoveUnchecked(b, m).Ok? && InCheck(MakeMoveUnchecked(b, m).value, color, geo) == Ok(false))
  }

  /**
   * The filter of `get_legal_moves`, in order; a move whose board cannot be
   * made or whose king slot is empty is a panic.
   */
  function KeepLegal(b: Board, color: Color, geo: Geometry, ms: seq<LM.Move>): (r: Result<seq<LM.Move>, BoardError>)
    requires Shaped(b)
    decreases |ms|
  {
    if ms == [] then Ok([])
    else
      var m := ms[0];
      var keep: Result<bool, BoardError> :=
        if m.ShortCastle? || m.LongCastle? then Ok(true)
        else
          match MakeMoveUnchecked(b, m)
          case Err(e) => Err(e)
          case Ok(b') =>
            match InCheck(b', color, geo)
            case Err(e) => Err(e)
            case Ok(check) => Ok(!check);
      match keep
      case Err(e) => Err(e)
      case Ok(k) =>
        match KeepLegal(b, color, geo, ms[1..])
        case Err(e) => Err(e)
        case Ok(rest) => Ok(if k then [m] + rest else rest)
  }

  /** The filter keeps exactly the castles and the moves after which the colour is not in check. */
  lemma {:induction false} KeepLegalMeaning(b: Board, color: Color, geo: Geometry, ms: seq<LM.Move>)
    requires Shaped(b) && KeepLegal(b, color, geo, ms).Ok?
    ensures forall m :: m in KeepLegal(b, color, geo, ms).value <==> m in ms && Keeps(b, color, geo, m)
    decreases |ms|
  {
    if ms != [] {
      KeepLegalMeaning(b, color, geo, ms[1..]);
      assert forall m :: m in ms <==> m == ms[0] || m in ms[1..];
    }
  }

  /** `get_legal_moves`: the man's pseudo-legal moves that pass the filter for its colour. */
  function LegalMoves(b: Board, p: Piece, geo: Geometry): Result<seq<LM.Move>, BoardError>
    requires Shaped(b) && InGrid(p.pos)
  {
    match PseudoMoves(b, p, geo)
    case Err(e) => Err(e)
    case Ok(ms) => KeepLegal(b, p.color, geo, ms)
  }

  /** The moves of the men in the slots from `i` on, slot by slot, in order; an empty slot adds none. */
  function Collect(a: seq<Option<Piece>>, i: nat, gen: Piece -> Result<seq<LM.Move>, BoardError>): Result<seq<LM.Move>, BoardError>
    decreases |a| - i
  {
    if i >= |a| then Ok([])
    else
      var here := if a[i].None? then Ok([]) else gen(a[i].value);
      match here
      case Err(e) => Err(e)
      case Ok(ms) =>
        match Collect(a, i + 1, gen)
        case Err(e) => Err(e)
        case Ok(rest) => Ok(ms + rest)
  }

  /**
   * A move is collected exactly when the generator lists it for some man
   * in a slot from `i` on.
   */
  lemma {:induction false} CollectMeaning(a: seq<Option<Piece>>, i: nat, gen: Piece -> Result<seq<LM.Move>, BoardError>)
    requires Collect(a, i, gen).Ok?
    ensures forall j :: i <= j < |a| && a[j].Some? ==> gen(a[j].value).Ok?
    ensures forall m :: m in Collect(a, i, gen).value <==>
      exists j :: i <= j < |a| && a[j].Some? && m in gen(a[j].value).value
    decreases |a| - i
  {
    if i < |a| {
      CollectMeaning(a, i + 1, gen);
      var here := if a[i].None? then [] else gen(a[i].value).value;
      var rest := Collect(a, i + 1, gen).value;
      assert Collect(a, i, gen).value == here + rest;
      forall m
        ensures m in here + rest <==> exists j :: i <= j < |a| && a[j].Some? && m in gen(a[j].value).value
      {
        if m in rest {
          var j :| i + 1 <= j < |a| && a[j].Some? && m in gen(a[j].value).value;
          assert i <= j < |a|;
        }
      }
    }
  }

  /**
   * `get_legal_moves` of a man of the board; a man outside the array
   * cannot be on the board, whose men all stand inside it.
   */
  function ManMoves(b: Board, geo: Geometry): Piece -> Result<seq<LM.Move>, BoardError>
  {
    (p: Piece) => if Shaped(b) && InGrid(p.pos) then LegalMoves(b, p, geo) else Err(OffBoard)
  }

  /** `get_current_turn_moves`: the legal moves of the side to move, slot by slot. */
  function CurrentTurnMoves(b: Board, geo: Geometry): Result<seq<LM.Move>, BoardError>
    requires Placed(b)
  {
    Collect(Pieces(b, b.turn), 0, ManMoves(b, geo))
  }

  /**
   * Every move of the side to move is legal for it: a castle, or one
   * that the side's own colour survives without check.
   */
  lemma CurrentTurnMovesLegal(b: Board, geo: Geometry)
    requires Placed(b) && CurrentTurnMoves(b, geo).Ok?
    ensures forall m :: m in CurrentTurnMoves(b, geo).value ==>
      exists j :: 0 <= j < Slots && Pieces(b, b.turn)[j].Some? && Keeps(b, Pieces(b, b.turn)[j].value.color, geo, m)
  {
    var a := Pieces(b, b.turn);
    CollectMeaning(a, 0, ManMoves(b, geo));
    forall m | m in CurrentTurnMoves(b, geo).value
      ensures exists j :: 0 <= j < Slots && a[j].Some? && Keeps(b, a[j].value.color, geo, m)
    {
      var j :| 0 <= j < |a| && a[j].Some? && m in ManMoves(b, geo)(a[j].value).value;
      var p := a[j].value;
      assert InGrid(p.pos);
      KeepLegalMeaning(b, p.color, geo, PseudoMoves(b, p, geo).value);
    }
  }

  /**
   * `make_move`: with the check on, a move outside the side's list is
   * refused; then the move is made unchecked.
   */
  function MakeMove(b: Board, m: LM.Move, check: bool, geo: Geometry): Result<Board, BoardError>
    requires Placed(b)
  {
    if check then
      match CurrentTurnMoves(b, geo)
      case Err(e) => Err(e)
      case Ok(ms) => if m !in ms then Err(IllegalMove) else MakeMoveUnchecked(b, m)
    else MakeMoveUnchecked(b, m)
  }

  /**
   * With the check on, the move is refused as illegal exactly when it is
   * not in the side's list, and otherwise made as without the check.
   */
  lemma MakeMoveMeaning(b: Board, m: LM.Move, geo: Geometry)
    requires Placed(b) && CurrentTurnMoves(b, geo).Ok?
    ensures MakeMove(b, m, true, geo) == Err(IllegalMove) <==> m !in CurrentTurnMoves(b, geo).value
    ensures m in CurrentTurnMoves(b, geo).value ==> MakeMove(b, m, true, geo) == MakeMove(b, m, false, geo)
  {
    MakeMoveNeverIllegal(b, m);
  }
}
