/**
 * Perft, the count of the leaves of the move tree to a given depth
 * (`shakmat-core/src/board/perft.rs`), run sequentially. `Count` is the
 * older count without a cache (`_perft` of `chess_board.rs`); `Perft`
 * threads the cache of `perft.rs`, keyed by the Zobrist key and the depth.
 *
 * A panic anywhere in the tree (an `unwrap` in `make_move`, or `depth - 1`
 * on a `usize` 0 when a move survives the filter) ends the count with that
 * fault.
 */
module Perft {
  import opened Base
  import opened Colors
  import Z = Zobrist
  import opened Moves
  import opened BoardState
  import opened ChessBoard
  import opened ChessBoardFacts

  type Cache = map<(Z.Key, nat), nat>

  /**
   * The four operations of the board perft calls: `pseudolegal_moves`,
   * `make_move`, `legal_moves` and `is_check`.
   */
  datatype Rules = Rules(
    moves: Board -> seq<Move>,
    play: (Board, Move) -> Result<Board, Fault>,
    legal: Board -> Result<seq<Move>, Fault>,
    check: (Board, Color) -> bool)

  /** The operations of `chess_board.rs`. */
  function Chess(o: Magic): (g: Rules)
    ensures forall b :: g.moves(b) == PseudoLegalMoves(o, b) && g.legal(b) == LegalMoves(o, b)
    ensures forall b, m :: g.play(b, m) == MakeMoveUnchecked(o, b, m)
    ensures forall b, c :: g.check(b, c) == IsCheck(o, b, c)
  {
    Rules(b => PseudoLegalMoves(o, b), (b, m) => MakeMoveUnchecked(o, b, m), b => LegalMoves(o, b),
          (b, c) => IsCheck(o, b, c))
  }

  /** A pseudo-legal move the count descends into: a castle, or a move that leaves the mover out of check. */
  predicate Kept(g: Rules, b: Board, m: Move)
  {
    g.play(b, m).Ok?
    && (IsCastleMove(m) || !g.check(g.play(b, m).value, b.turn))
  }

  // ---------------------------------------------------------------------
  // Without a cache.

  /** `_perft` of `chess_board.rs`: the number of legal moves at depth 1, otherwise the sum over the kept moves. */
  function Count(g: Rules, b: Board, depth: nat): Result<nat, Fault>
    decreases depth, 1, 0
  {
    if depth == 1 then
      match g.legal(b)
      case Err(f) => Err(f)
      case Ok(legal) => Ok(|legal|)
    else CountMoves(g, b, g.moves(b), depth)
  }

  /** The sum over the moves `ms` of the counts one level down, in order, the first panic winning. */
  function CountMoves(g: Rules, b: Board, ms: seq<Move>, depth: nat): Result<nat, Fault>
    decreases depth, 0, |ms|
  {
    if ms == [] then Ok(0)
    else
      match g.play(b, ms[0])
      case Err(f) => Err(f)
      case Ok(nb) =>
        if IsCastleMove(ms[0]) || !g.check(nb, b.turn) then
          if depth == 0 then Err(Underflow)
          else
            match Count(g, nb, depth - 1)
            case Err(f) => Err(f)
            case Ok(v) =>
              match CountMoves(g, b, ms[1..], depth)
              case Err(f) => Err(f)
              case Ok(w) => Ok(v + w)
        else CountMoves(g, b, ms[1..], depth)
  }

  // ---------------------------------------------------------------------
  // With the cache.

  /**
   * `_perft` of `perft.rs`, sequential: a cached value for the key and
   * depth is returned at once; depth 1 counts the legal moves; otherwise
   * the sum over the kept moves is stored under the key and depth.
   */
  function Perft(g: Rules, b: Board, depth: nat, cache: Cache): (Result<nat, Fault>, Cache)
    decreases depth, 1, 0
  {
    if (b.key, depth) in cache then (Ok(cache[(b.key, depth)]), cache)
    else if depth == 1 then
      match g.legal(b)
      case Err(f) => (Err(f), cache)
      case Ok(legal) => (Ok(|legal|), cache)
    else
      var (r, c) := PerftMoves(g, b, g.moves(b), depth, cache);
      match r
      case Err(f) => (Err(f), c)
      case Ok(v) => (Ok(v), c[(b.key, depth) := v])
  }

  function PerftMoves(g: Rules, b: Board, ms: seq<Move>, depth: nat, cache: Cache): (Result<nat, Fault>, Cache)
    decreases depth, 0, |ms|
  {
    if ms == [] then (Ok(0), cache)
    else
      match g.play(b, ms[0])
      case Err(f) => (Err(f), cache)
      case Ok(nb) =>
        if IsCastleMove(ms[0]) || !g.check(nb, b.turn) then
          if depth == 0 then (Err(Underflow), cache)
          else
            var (r1, c1) := Perft(g, nb, depth - 1, cache);
            match r1
            case Err(f) => (Err(f), c1)
            case Ok(v) =>
              var (r2, c2) := PerftMoves(g, b, ms[1..], depth, c1);
              match r2
              case Err(f) => (Err(f), c2)
              case Ok(w) => (Ok(v + w), c2)
        else PerftMoves(g, b, ms[1..], depth, cache)
  }

  // ---------------------------------------------------------------------
  // The count over the legal moves.

  /** The sum over the moves `ls`, each played, of the counts one level down. */
  function SumPlayed(g: Rules, b: Board, ls: seq<Move>, depth: nat): Result<nat, Fault>
    decreases |ls|
  {
    if ls == [] then Ok(0)
    else
      match g.play(b, ls[0])
      case Err(f) => Err(f)
      case Ok(nb) =>
        if depth == 0 then Err(Underflow)
        else
          match Count(g, nb, depth - 1)
          case Err(f) => Err(f)
          case Ok(v) =>
            match SumPlayed(g, b, ls[1..], depth)
            case Err(f) => Err(f)
            case Ok(w) => Ok(v + w)
  }

  /** The filter of `legal_moves` on one move, over the rules. */
  function Keeps(g: Rules, b: Board, m: Move): Result<bool, Fault>
  {
    if IsCastleMove(m) then Ok(true)
    else
      match g.play(b, m)
      case Err(f) => Err(f)
      case Ok(nb) => Ok(!g.check(nb, b.turn))
  }

  /** The filter of `legal_moves` over a list, over the rules. */
  function Filter(g: Rules, b: Board, ms: seq<Move>): Result<seq<Move>, Fault>
  {
    if |ms| == 0 then Ok([])
    else
      match Keeps(g, b, ms[0])
      case Err(f) => Err(f)
      case Ok(keep) =>
        match Filter(g, b, ms[1..])
        case Err(f) => Err(f)
        case Ok(rest) => Ok(if keep then [ms[0]] + rest else rest)
  }

  lemma {:induction false} FilterIsFilterLegal(o: Magic, b: Board, ms: seq<Move>)
    ensures Filter(Chess(o), b, ms) == FilterLegal(o, b, ms)
    decreases |ms|
  {
    if ms != [] {
      FilterIsFilterLegal(o, b, ms[1..]);
      assert Keeps(Chess(o), b, ms[0]) == ChessBoard.Keeps(o, b, ms[0]);
    }
  }

  lemma {:induction false} CountMovesOverFilter(g: Rules, b: Board, ms: seq<Move>, depth: nat)
    requires Filter(g, b, ms).Ok?
    ensures CountMoves(g, b, ms, depth) == SumPlayed(g, b, Filter(g, b, ms).value, depth)
    decreases |ms|
  {
    if ms != [] {
      CountMovesOverFilter(g, b, ms[1..], depth);
      var rest := Filter(g, b, ms[1..]).value;
      if Keeps(g, b, ms[0]) == Ok(true) {
        assert Filter(g, b, ms).value == [ms[0]] + rest;
        assert ([ms[0]] + rest)[1..] == rest;
      }
    }
  }

  /**
   * Perft at depth 1 is the number of legal moves; at any other depth it
   * is the sum, over the legal moves, of the count of the position each
   * leads to one level down.
   */
  lemma CountOverLegal(o: Magic, b: Board, depth: nat)
    requires LegalMoves(o, b).Ok?
    ensures depth == 1 ==> Count(Chess(o), b, depth) == Ok(|LegalMoves(o, b).value|)
    ensures depth != 1 ==> Count(Chess(o), b, depth) == SumPlayed(Chess(o), b, LegalMoves(o, b).value, depth)
  {
    FilterIsFilterLegal(o, b, PseudoLegalMoves(o, b));
    if depth != 1 {
      CountMovesOverFilter(Chess(o), b, PseudoLegalMoves(o, b), depth);
    }
  }

  // ---------------------------------------------------------------------
  // The cache is transparent unless two positions of the tree collide.

  /** `(x, e)` is met while counting `root` to depth `d`: the root, or a node of a kept move's subtree. */
  ghost predicate InTree(g: Rules, root: Board, d: nat, x: Board, e: nat)
    decreases d
  {
    (x == root && e == d)
    || (d >= 2 && exists m :: m in g.moves(root) && Kept(g, root, m)
                              && InTree(g, g.play(root, m).value, d - 1, x, e))
  }

  /** Every entry the tree can ask for holds the count of each node that asks. */
  ghost predicate SoundOn(g: Rules, cache: Cache, root: Board, d: nat)
  {
    forall x, e: nat :: InTree(g, root, d, x, e) && (x.key, e) in cache ==> Count(g, x, e) == Ok(cache[(x.key, e)])
  }

  /** No two nodes of the tree with the same key and depth have different counts. */
  ghost predicate KeyDecides(g: Rules, root: Board, d: nat)
  {
    forall x, y, e: nat :: InTree(g, root, d, x, e) && InTree(g, root, d, y, e) && x.key == y.key
      ==> Count(g, x, e) == Count(g, y, e)
  }

  /** `c1` keeps every entry of `c0`, and each entry it adds is the count of a node of the tree. */
  ghost predicate Grows(g: Rules, c0: Cache, c1: Cache, root: Board, d: nat)
  {
    (forall kd :: kd in c0 ==> kd in c1 && c1[kd] == c0[kd])
    && (forall k, e: nat :: (k, e) in c1 && (k, e) !in c0 ==>
          exists x :: InTree(g, root, d, x, e) && x.key == k && Count(g, x, e) == Ok(c1[(k, e)]))
  }

  lemma {:induction false} SubTree(g: Rules, root: Board, d: nat, b: Board, e: nat, x: Board, f: nat)
    requires InTree(g, root, d, b, e) && InTree(g, b, e, x, f)
    ensures InTree(g, root, d, x, f)
    decreases d
  {
    if !(b == root && e == d) {
      var m :| m in g.moves(root) && Kept(g, root, m)
               && InTree(g, g.play(root, m).value, d - 1, b, e);
      SubTree(g, g.play(root, m).value, d - 1, b, e, x, f);
    }
  }

  lemma ChildInTree(g: Rules, b: Board, d: nat, m: Move)
    requires d >= 2 && m in g.moves(b) && Kept(g, b, m)
    ensures InTree(g, b, d, g.play(b, m).value, d - 1)
  {
    assert InTree(g, g.play(b, m).value, d - 1, g.play(b, m).value, d - 1);
  }

  lemma GrowsTrans(g: Rules, c0: Cache, c1: Cache, c2: Cache, root: Board, d: nat)
    requires Grows(g, c0, c1, root, d) && Grows(g, c1, c2, root, d)
    ensures Grows(g, c0, c2, root, d)
  {
  }

  /** What the count adds keeps a sound cache sound, when keys decide the counts. */
  lemma SoundAfter(g: Rules, root: Board, d: nat, c0: Cache, c1: Cache)
    requires SoundOn(g, c0, root, d) && KeyDecides(g, root, d) && Grows(g, c0, c1, root, d)
    ensures SoundOn(g, c1, root, d)
  {
  }

  /**
   * With a cache whose entries are right for the tree and keys that decide
   * the counts, the cached count is the count, and the cache only gains
   * entries that are counts of the tree's nodes.
   */
  lemma {:induction false} PerftAgrees(g: Rules, root: Board, rd: nat, b: Board, d: nat, cache: Cache)
    requires InTree(g, root, rd, b, d)
    requires SoundOn(g, cache, root, rd) && KeyDecides(g, root, rd)
    ensures Perft(g, b, d, cache).0 == Count(g, b, d)
    ensures Grows(g, cache, Perft(g, b, d, cache).1, root, rd)
    decreases d, 1, 0, 0
  {
    if (b.key, d) in cache {
    } else if d == 1 {
    } else {
      var ms := g.moves(b);
      PerftMovesAgrees(g, root, rd, b, ms, d, cache);
      var (r, c) := PerftMoves(g, b, ms, d, cache);
      if r.Ok? {
        var c' := c[(b.key, d) := r.value];
        forall k, e | (k, e) in c' && (k, e) !in cache
          ensures exists x :: InTree(g, root, rd, x, e) && x.key == k && Count(g, x, e) == Ok(c'[(k, e)])
        {
          if (k, e) != (b.key, d) {
            assert (k, e) in c;
          }
        }
      }
    }
  }

  lemma {:induction false} PerftMovesAgrees(g: Rules, root: Board, rd: nat, b: Board, ms: seq<Move>, d: nat, cache: Cache)
    requires d != 1
    requires InTree(g, root, rd, b, d)
    requires forall m :: m in ms ==> m in g.moves(b)
    requires SoundOn(g, cache, root, rd) && KeyDecides(g, root, rd)
    ensures PerftMoves(g, b, ms, d, cache).0 == CountMoves(g, b, ms, d)
    ensures Grows(g, cache, PerftMoves(g, b, ms, d, cache).1, root, rd)
    decreases d, 0, |ms|, 1
  {
    if ms != [] {
      var m := ms[0];
      assert forall n :: n in ms[1..] ==> n in ms;
      if Kept(g, b, m) && d != 0 {
        KeptAgrees(g, root, rd, b, ms, d, cache);
      } else if g.play(b, m).Ok? && !Kept(g, b, m) {
        PerftMovesAgrees(g, root, rd, b, ms[1..], d, cache);
      }
    }
  }

  /** The sum of two counts, the first panic winning. */
  function Add(r1: Result<nat, Fault>, r2: Result<nat, Fault>): Result<nat, Fault>
  {
    match r1
    case Err(f) => Err(f)
    case Ok(v) =>
      match r2
      case Err(f) => Err(f)
      case Ok(w) => Ok(v + w)
  }

  /** A kept first move, with and without the cache: its subtree's count, then the rest of the list. */
  lemma KeptUnfolds(g: Rules, b: Board, ms: seq<Move>, d: nat, cache: Cache)
    requires d >= 1 && ms != [] && Kept(g, b, ms[0])
    ensures var nb := g.play(b, ms[0]).value;
      var p1 := Perft(g, nb, d - 1, cache);
      var p2 := PerftMoves(g, b, ms[1..], d, p1.1);
      PerftMoves(g, b, ms, d, cache)
        == (if p1.0.Err? then p1 else (Add(p1.0, p2.0), p2.1))
      && CountMoves(g, b, ms, d)
        == (if Count(g, nb, d - 1).Err? then Count(g, nb, d - 1)
            else Add(Count(g, nb, d - 1), CountMoves(g, b, ms[1..], d)))
  {
  }

  /** The kept first move's subtree and the rest of the list, each agreeing, make the list agree. */
  lemma KeptCombines(g: Rules, root: Board, rd: nat, b: Board, ms: seq<Move>, d: nat, cache: Cache)
    requires d >= 2 && ms != [] && Kept(g, b, ms[0])
    requires var p1 := Perft(g, g.play(b, ms[0]).value, d - 1, cache);
      p1.0 == Count(g, g.play(b, ms[0]).value, d - 1) && Grows(g, cache, p1.1, root, rd)
      && (p1.0.Ok? ==>
            PerftMoves(g, b, ms[1..], d, p1.1).0 == CountMoves(g, b, ms[1..], d)
            && Grows(g, p1.1, PerftMoves(g, b, ms[1..], d, p1.1).1, root, rd))
    ensures PerftMoves(g, b, ms, d, cache).0 == CountMoves(g, b, ms, d)
    ensures Grows(g, cache, PerftMoves(g, b, ms, d, cache).1, root, rd)
  {
    KeptUnfolds(g, b, ms, d, cache);
    var p1 := Perft(g, g.play(b, ms[0]).value, d - 1, cache);
    if p1.0.Ok? {
      GrowsTrans(g, cache, p1.1, PerftMoves(g, b, ms[1..], d, p1.1).1, root, rd);
    }
  }

  /** The subtree of a kept move agrees, and what it adds keeps the cache sound. */
  lemma {:induction false} ChildAgrees(g: Rules, root: Board, rd: nat, b: Board, d: nat, m: Move, cache: Cache)
    requires d >= 2 && m in g.moves(b) && Kept(g, b, m)
    requires InTree(g, root, rd, b, d)
    requires SoundOn(g, cache, root, rd) && KeyDecides(g, root, rd)
    ensures var p1 := Perft(g, g.play(b, m).value, d - 1, cache);
      p1.0 == Count(g, g.play(b, m).value, d - 1) && Grows(g, cache, p1.1, root, rd)
      && (p1.0.Ok? ==> SoundOn(g, p1.1, root, rd))
    decreases d, 0, 0, 0
  {
    var nb := g.play(b, m).value;
    ChildInTree(g, b, d, m);
    SubTree(g, root, rd, b, d, nb, d - 1);
    PerftAgrees(g, root, rd, nb, d - 1, cache);
    SoundAfter(g, root, rd, cache, Perft(g, nb, d - 1, cache).1);
  }

  /** The step of `PerftMovesAgrees` on a kept first move. */
  lemma {:induction false} KeptAgrees(g: Rules, root: Board, rd: nat, b: Board, ms: seq<Move>, d: nat, cache: Cache)
    requires d >= 2 && ms != [] && Kept(g, b, ms[0])
    requires InTree(g, root, rd, b, d)
    requires forall m :: m in ms ==> m in g.moves(b)
    requires SoundOn(g, cache, root, rd) && KeyDecides(g, root, rd)
    ensures PerftMoves(g, b, ms, d, cache).0 == CountMoves(g, b, ms, d)
    ensures Grows(g, cache, PerftMoves(g, b, ms, d, cache).1, root, rd)
    decreases d, 0, |ms|, 0
  {
    assert forall n :: n in ms[1..] ==> n in ms;
    ChildAgrees(g, root, rd, b, d, ms[0], cache);
    var p1 := Perft(g, g.play(b, ms[0]).value, d - 1, cache);
    if p1.0.Ok? {
      PerftMovesAgrees(g, root, rd, b, ms[1..], d, p1.1);
    }
    KeptCombines(g, root, rd, b, ms, d, cache);
  }

  /**
   * `perft` starts from an empty cache: its count is the count without a
   * cache whenever keys decide the counts in the tree.
   */
  lemma PerftFresh(g: Rules, b: Board, d: nat)
    requires KeyDecides(g, b, d)
    ensures Perft(g, b, d, map[]).0 == Count(g, b, d)
  {
    assert InTree(g, b, d, b, d);
    PerftAgrees(g, b, d, b, d, map[]);
  }

  /** A cached key and depth answer at once, the cache unchanged. */
  lemma PerftHit(g: Rules, b: Board, d: nat, cache: Cache)
    requires (b.key, d) in cache
    ensures Perft(g, b, d, cache) == (Ok(cache[(b.key, d)]), cache)
  {
  }

  /**
   * A count computed at a depth other than 1 is stored under the key and
   * depth, and no entry already present is changed.
   */
  lemma PerftStores(g: Rules, b: Board, d: nat, cache: Cache)
    requires d != 1 && (b.key, d) !in cache
    requires Perft(g, b, d, cache).0.Ok?
    ensures var (r, c) := Perft(g, b, d, cache);
      (b.key, d) in c && c[(b.key, d)] == r.value
      && forall kd :: kd in cache ==> kd in c && c[kd] == cache[kd]
  {
    PerftKeeps(g, b, d, cache);
  }

  lemma {:induction false} PerftKeeps(g: Rules, b: Board, d: nat, cache: Cache)
    ensures forall kd :: kd in cache ==> kd in Perft(g, b, d, cache).1 && Perft(g, b, d, cache).1[kd] == cache[kd]
    decreases d, 1, 0
  {
    if (b.key, d) !in cache && d != 1 {
      PerftMovesKeeps(g, b, g.moves(b), d, cache);
    }
  }

  lemma {:induction false} PerftMovesKeeps(g: Rules, b: Board, ms: seq<Move>, d: nat, cache: Cache)
    ensures forall kd :: kd in cache ==> kd in PerftMoves(g, b, ms, d, cache).1 && PerftMoves(g, b, ms, d, cache).1[kd] == cache[kd]
    decreases d, 0, |ms|
  {
    if ms != [] {
      var m := ms[0];
      if Kept(g, b, m) && d != 0 {
        var nb := g.play(b, m).value;
        PerftKeeps(g, nb, d - 1, cache);
        var (r1, c1) := Perft(g, nb, d - 1, cache);
        if r1.Ok? {
          PerftMovesKeeps(g, b, ms[1..], d, c1);
        }
      } else if g.play(b, m).Ok? {
        PerftMovesKeeps(g, b, ms[1..], d, cache);
      }
    }
  }
}
