/**
 * The game registry of the HTTP server (`shakmat-server/src/state.rs`):
 * games live under random keys, each with its board, the map from the
 * lower-cased printed legal moves to the moves, and the keys of the
 * positions played so far.
 *
 * A panic inside an operation (an `unwrap`, a fault of the board, a
 * promotion to a piece that cannot be printed) is a `Crashed` reply, and
 * the registry it returns is the one the operation had written up to the
 * panic. `Locked` puts the registry behind the handlers' `Mutex`, which a
 * panic poisons for every later request.
 */
module Server {
  import opened Base
  import Z = Zobrist
  import F = Fen
  import opened PieceTypes
  import opened Moves
  import opened BoardState
  import G = MoveGen
  import CB = ChessBoard
  import opened ChessBoardFacts

  /**
   * The three operations of the board the registry calls: `from_fen`,
   * `legal_moves` and `make_move`.
   */
  datatype Engine = Engine(
    fromFen: string -> Result<Board, CB.FenBoardError>,
    legal: Board -> Result<seq<Move>, CB.Fault>,
    play: (Board, Move) -> Result<Board, CB.MoveError>)

  /** The board of `chess_board.rs`; the server plays trusted moves, so `make_move(&movement, false)`. */
  function Chess(o: Magic): (e: Engine)
    ensures forall fen :: e.fromFen(fen) == CB.FromFen(o, fen)
    ensures forall b :: e.legal(b) == CB.LegalMoves(o, b)
    ensures forall b, m :: e.play(b, m) == CB.MakeMove(o, b, m, false)
  {
    Engine(fen => CB.FromFen(o, fen), b => CB.LegalMoves(o, b), (b, m) => CB.MakeMove(o, b, m, false))
  }

  /** `KEY_LENGTH`. */
  const KeyLength: nat := 15

  /** The characters `random_string` draws from: "A" to "Z", "a" to "z", "0" to "9", in that order. */
  const Charset: string := Span('A', 26) + Span('a', 26) + Span('0', 10)

  /** An ASCII letter or digit. */
  predicate IsAlphanumeric(c: char)
  {
    ('A' <= c <= 'Z') || ('a' <= c <= 'z') || ('0' <= c <= '9')
  }

  datatype GameData = GameData(board: Board, moves: map<string, Move>, history: seq<Z.Key>)

  datatype ServerState = ServerState(games: map<string, GameData>)

  datatype Crash =
    | Faulted(fault: CB.Fault)  // a panic of the board
    | Unprintable               // `unreachable!()` printing a promotion to a king or a pawn
    | NoSuchGame                // indexing the games with a key that is absent
    | Unwrapped                 // `unwrap` of the starting position's reading
    | PoisonedLock              // `lock().unwrap()` on a mutex a panic has poisoned

  datatype ServerError =
    | Rejected(error: F.FenError)     // `from_fen` returned an error
    | Refused                         // `make_move` returned an error
    | Crashed(crash: Crash)

  // ---------------------------------------------------------------------
  // Keys of the games.

  /**
   * `random_string(length)`: character `i` is `Charset[draws[i]]`, the
   * draws standing for the values of `gen_range(0..charset.len())`.
   */
  function RandomString(length: nat, draws: seq<nat>): (s: string)
    requires |draws| == length && forall i :: 0 <= i < |draws| ==> draws[i] < |Charset|
    ensures |s| == length
    ensures forall i :: 0 <= i < |s| ==> s[i] == Charset[draws[i]]
  {
    seq(length, i requires 0 <= i < length => Charset[draws[i]])
  }

  /** The `n` characters from `first` on. */
  function Span(first: char, n: nat): (r: string)
    requires first as int + n <= 0x80
    ensures |r| == n && forall i :: 0 <= i < n ==> r[i] as int == first as int + i
  {
    seq(n, i requires 0 <= i < n => (first as int + i) as char)
  }

  lemma InSpan(first: char, n: nat, c: char)
    requires first as int + n <= 0x80
    ensures c in Span(first, n) <==> first as int <= c as int < first as int + n
  {
    if first as int <= c as int < first as int + n {
      assert Span(first, n)[c as int - first as int] == c;
    }
  }

  /** The character set holds exactly the ASCII letters and digits. */
  lemma CharsetIsAlphanumeric(c: char)
    ensures c in Charset <==> IsAlphanumeric(c)
  {
    InSpan('A', 26, c);
    InSpan('a', 26, c);
    InSpan('0', 10, c);
  }

  /** A game key has 15 characters, each an ASCII letter or digit. */
  lemma GameKeyShape(draws: seq<nat>)
    requires |draws| == KeyLength && forall i :: 0 <= i < |draws| ==> draws[i] < |Charset|
    ensures var key := RandomString(KeyLength, draws);
      |key| == 15 && forall i :: 0 <= i < |key| ==> IsAlphanumeric(key[i])
  {
    var key := RandomString(KeyLength, draws);
    forall i | 0 <= i < |key|
      ensures IsAlphanumeric(key[i])
    {
      CharsetIsAlphanumeric(key[i]);
    }
  }

  // ---------------------------------------------------------------------
  // The move map.

  /** `Display` prints every move but a promotion to a king or a pawn. */
  predicate Printable(m: Move)
  {
    m.PawnPromotion? ==> IsPromotionPiece(m.promoteTo)
  }

  /** `mv.to_string().to_lowercase()`. */
  function MoveKey(m: Move): string
    requires Printable(m)
  {
    LowerString(Notation(m))
  }

  /**
   * `update_game_moves` collects the pairs (key, move) in list order, a
   * later move replacing an earlier one with the same key. `None` when a
   * move cannot be printed.
   */
  function MoveMap(ms: seq<Move>): Option<map<string, Move>>
  {
    if ms == [] then Some(map[])
    else
      match MoveMap(ms[..|ms| - 1])
      case None => None
      case Some(mp) =>
        var last := ms[|ms| - 1];
        if Printable(last) then Some(mp[MoveKey(last) := last]) else None
  }

  /** The map exists exactly when every move prints. */
  lemma {:induction false} MoveMapSome(ms: seq<Move>)
    ensures MoveMap(ms).Some? <==> forall i :: 0 <= i < |ms| ==> Printable(ms[i])
  {
    if ms != [] {
      var init := ms[..|ms| - 1];
      MoveMapSome(init);
      MoveMapStep(ms);
      PrintablePrefix(ms, init);
    }
  }

  /** Every move of a list prints exactly when every move of its prefix and its last move print. */
  lemma PrintablePrefix(ms: seq<Move>, init: seq<Move>)
    requires ms != [] && init == ms[..|ms| - 1]
    ensures (forall i :: 0 <= i < |ms| ==> Printable(ms[i])) <==>
      (forall i :: 0 <= i < |init| ==> Printable(init[i])) && Printable(ms[|ms| - 1])
  {
    assert forall i :: 0 <= i < |init| ==> init[i] == ms[i];
  }

  /** One entry more: the map of a list exists when that of its prefix does and the last move prints. */
  lemma MoveMapStep(ms: seq<Move>)
    requires ms != []
    ensures MoveMap(ms).Some? <==> MoveMap(ms[..|ms| - 1]).Some? && Printable(ms[|ms| - 1])
  {
  }

  /** Each key of the map maps to a move of the list printed under it. */
  lemma {:induction false} MoveMapValues(ms: seq<Move>)
    requires forall i :: 0 <= i < |ms| ==> Printable(ms[i])
    ensures MoveMap(ms).Some?
    ensures forall k :: k in MoveMap(ms).value ==> MoveMap(ms).value[k] in ms && MoveKey(MoveMap(ms).value[k]) == k
  {
    MoveMapSome(ms);
    if ms != [] {
      var init := ms[..|ms| - 1];
      assert forall i :: 0 <= i < |init| ==> init[i] == ms[i];
      MoveMapValues(init);
      assert forall m :: m in init ==> m in ms;
    }
  }

  /** Every move of the list has its key in the map. */
  lemma {:induction false} MoveMapKeys(ms: seq<Move>)
    requires forall i :: 0 <= i < |ms| ==> Printable(ms[i])
    ensures MoveMap(ms).Some?
    ensures forall m :: m in ms ==> MoveKey(m) in MoveMap(ms).value
  {
    MoveMapSome(ms);
    if ms != [] {
      var init := ms[..|ms| - 1];
      assert forall i :: 0 <= i < |init| ==> init[i] == ms[i];
      MoveMapKeys(init);
      assert forall m :: m in ms ==> m in init || m == ms[|ms| - 1];
    }
  }

  /**
   * The map exists exactly when every move prints; then its keys are
   * exactly the keys of the moves, and each key maps to a move of the
   * list printed under it.
   */
  lemma MoveMapMeaning(ms: seq<Move>)
    ensures MoveMap(ms).Some? <==> forall i :: 0 <= i < |ms| ==> Printable(ms[i])
    ensures MoveMap(ms).Some? ==>
      (forall k :: k in MoveMap(ms).value ==> MoveMap(ms).value[k] in ms && MoveKey(MoveMap(ms).value[k]) == k)
      && (forall m :: m in ms ==> MoveKey(m) in MoveMap(ms).value)
  {
    MoveMapSome(ms);
    if forall i :: 0 <= i < |ms| ==> Printable(ms[i]) {
      MoveMapValues(ms);
      MoveMapKeys(ms);
    }
  }

  /** The key of a castle is its notation lower-cased. */
  lemma CastleKeys()
    ensures MoveKey(ShortCastle) == "o-o" && MoveKey(LongCastle) == "o-o-o"
  {
    assert LowerString("O-O") == "o-o";
    assert LowerString("O-O-O") == "o-o-o";
  }

  /** Different printable moves have different keys. */
  lemma MoveKeyInjective(m: Move, n: Move)
    requires Printable(m) && Printable(n)
    requires MoveKey(m) == MoveKey(n)
    ensures m == n
  {
    CastleKeys();
    NotationIsLowerCase(m);
    NotationIsLowerCase(n);
    if (m.Normal? || m.PawnPromotion?) && (n.Normal? || n.PawnPromotion?) {
      NotationInjective(m, n);
    }
  }

  /** In the map of a list of printable moves, each move is found under its key. */
  lemma MoveMapFinds(ms: seq<Move>, m: Move)
    requires forall i :: 0 <= i < |ms| ==> Printable(ms[i])
    requires m in ms
    ensures MoveMap(ms).Some? && MoveKey(m) in MoveMap(ms).value
    ensures MoveMap(ms).value[MoveKey(m)] == m
  {
    MoveMapMeaning(ms);
    var mp := MoveMap(ms).value;
    var n := mp[MoveKey(m)];
    var i :| 0 <= i < |ms| && ms[i] == m;
    var j :| 0 <= j < |ms| && ms[j] == n;
    MoveKeyInjective(m, n);
  }

  /** Every legal move the engine lists can be printed. */
  ghost predicate PrintsLegal(e: Engine)
  {
    forall b, m :: e.legal(b).Ok? && m in e.legal(b).value ==> Printable(m)
  }

  /** The generator promotes only to a queen, rook, bishop or knight, so every legal move prints. */
  lemma ChessPrintsLegal(o: Magic)
    ensures PrintsLegal(Chess(o))
  {
    forall b, m | Chess(o).legal(b).Ok? && m in Chess(o).legal(b).value
      ensures Printable(m)
    {
      LegalMovesPrintable(o, b, m);
    }
  }

  lemma LegalMovesPrintable(o: Magic, b: Board, m: Move)
    requires CB.LegalMoves(o, b).Ok? && m in CB.LegalMoves(o, b).value
    ensures Printable(m)
  {
    LegalMovesMeaning(o, b, m);
    PseudoLegalMovesMeaning(o, b, m);
    var g :| g in G.PseudoLegal(o, b, b.turn) && G.Core(g) == m;
    if m.PawnPromotion? {
      GeneratedPromotion(o, b, g);
    }
  }

  lemma GeneratedPromotion(o: Magic, b: Board, g: G.GenMove)
    requires g in G.PseudoLegal(o, b, b.turn) && g.PawnPromotion?
    ensures g.promoteTo in {Queen, Rook, Bishop, Knight}
  {
    var c := b.turn;
    G.PseudoLegalParts(o, b, c, g);
    G.CastleMovesAreCastles(o, b, c, g);
    G.KindMovesMeaning(o, b, c, Rook, g);
    G.KindMovesMeaning(o, b, c, Bishop, g);
    G.KindMovesMeaning(o, b, c, Queen, g);
    G.KindMovesMeaning(o, b, c, Knight, g);
    G.KindMovesMeaning(o, b, c, King, g);
    G.PawnMovesMeaning(o, b, c, g);
  }

  // ---------------------------------------------------------------------
  // The registry.

  /** `update_game_moves`: the game's map rebuilt from its board's legal moves. */
  function UpdateGameMoves(e: Engine, s: ServerState, key: string): Result<ServerState, ServerError>
  {
    if key !in s.games then Err(Crashed(NoSuchGame))
    else
      var gd := s.games[key];
      match e.legal(gd.board)
      case Err(f) => Err(Crashed(Faulted(f)))
      case Ok(legal) =>
        match MoveMap(legal)
        case None => Err(Crashed(Unprintable))
        case Some(mp) => Ok(ServerState(s.games[key := gd.(moves := mp)]))
  }

  /** `GameData::from_fen`: the board, an empty map, and the history holding the board's key. */
  function GameFromFen(e: Engine, fen: string): Result<GameData, CB.FenBoardError>
  {
    match e.fromFen(fen)
    case Err(err) => Err(err)
    case Ok(b) => Ok(GameData(b, map[], [b.key]))
  }

  /**
   * `create_game_from_fen`: a FEN the reader rejects is returned as an
   * error, the registry as it was; otherwise the game is inserted under
   * the drawn key and its map filled. A panic while filling the map leaves
   * the game inserted with an empty map.
   */
  function CreateGameFromFen(e: Engine, s: ServerState, draws: seq<nat>, fen: string): (ServerState, Result<string, ServerError>)
    requires |draws| == KeyLength && forall i :: 0 <= i < |draws| ==> draws[i] < |Charset|
  {
    var key := RandomString(KeyLength, draws);
    match GameFromFen(e, fen)
    case Err(BadFen(err)) => (s, Err(Rejected(err)))
    case Err(FenPanic(f)) => (s, Err(Crashed(Faulted(f))))
    case Ok(gd) =>
      var s1 := ServerState(s.games[key := gd]);
      match UpdateGameMoves(e, s1, key)
      case Err(err) => (s1, Err(err))
      case Ok(s') => (s', Ok(key))
  }

  /** `create_game_default`: the starting position, whose reading is unwrapped. */
  function CreateGameDefault(e: Engine, s: ServerState, draws: seq<nat>): (ServerState, Result<string, ServerError>)
    requires |draws| == KeyLength && forall i :: 0 <= i < |draws| ==> draws[i] < |Charset|
  {
    match CreateGameFromFen(e, s, draws, F.DefaultFen)
    case (_, Err(Rejected(_))) => (s, Err(Crashed(Unwrapped)))
    case r => r
  }

  /**
   * `make_move`: the board is replaced by its successor, the successor's
   * key appended to the history, and the map rebuilt. A panic while
   * rebuilding the map leaves the new board and history with the old map.
   */
  function MakeMove(e: Engine, s: ServerState, key: string, m: Move): (ServerState, Result<(), ServerError>)
  {
    if key !in s.games then (s, Err(Crashed(NoSuchGame)))
    else
      var gd := s.games[key];
      match e.play(gd.board, m)
      case Err(Illegal) => (s, Err(Refused))
      case Err(Panic(f)) => (s, Err(Crashed(Faulted(f))))
      case Ok(nb) =>
        var s1 := ServerState(s.games[key := GameData(nb, gd.moves, gd.history + [nb.key])]);
        match UpdateGameMoves(e, s1, key)
        case Err(err) => (s1, Err(err))
        case Ok(s') => (s', Ok(()))
  }

  function GetBoard(s: ServerState, key: string): (r: Option<Board>)
    ensures r.Some? <==> key in s.games
    ensures r.Some? ==> r.value == s.games[key].board
  {
    if key in s.games then Some(s.games[key].board) else None
  }

  function GetGameMoves(s: ServerState, key: string): (r: Option<map<string, Move>>)
    ensures r.Some? <==> key in s.games
    ensures r.Some? ==> r.value == s.games[key].moves
  {
    if key in s.games then Some(s.games[key].moves) else None
  }

  function GetHistory(s: ServerState, key: string): (r: Option<seq<Z.Key>>)
    ensures r.Some? <==> key in s.games
    ensures r.Some? ==> r.value == s.games[key].history
  {
    if key in s.games then Some(s.games[key].history) else None
  }

  /** `get_turn_info`: the board and history `TurnInfo::from_board` is built from. */
  function GetTurnInfo(s: ServerState, key: string): (r: Option<(Board, seq<Z.Key>)>)
    ensures r.Some? <==> key in s.games
    ensures r.Some? ==> r.value == (s.games[key].board, s.games[key].history)
  {
    if key in s.games then Some((s.games[key].board, s.games[key].history)) else None
  }

  // ---------------------------------------------------------------------
  // What the registry keeps.

  /** The map finds each legal move under its key and holds nothing else. */
  predicate MapOk(legal: seq<Move>, moves: map<string, Move>)
  {
    (forall m :: m in legal ==> Printable(m) && MoveKey(m) in moves && moves[MoveKey(m)] == m)
    && (forall k :: k in moves ==> moves[k] in legal)
  }

  /** A game as the server keeps it: the history ends with the key of the board, and the map is right. */
  predicate GameOk(e: Engine, gd: GameData)
  {
    |gd.history| >= 1 && gd.history[|gd.history| - 1] == gd.board.key
    && e.legal(gd.board).Ok? && MapOk(e.legal(gd.board).value, gd.moves)
  }

  /** The map of a list of printable moves is right for it. */
  lemma MoveMapOk(legal: seq<Move>)
    requires forall i :: 0 <= i < |legal| ==> Printable(legal[i])
    ensures MoveMap(legal).Some? && MapOk(legal, MoveMap(legal).value)
  {
    MoveMapMeaning(legal);
    forall m | m in legal
      ensures MoveMap(legal).value[MoveKey(m)] == m
    {
      MoveMapFinds(legal, m);
    }
  }

  /**
   * `update_game_moves` succeeds exactly when the game exists and its
   * legal moves can be listed and printed; it then changes only the
   * game's map, which it makes right.
   */
  lemma UpdateGameMovesMeaning(e: Engine, s: ServerState, key: string)
    ensures UpdateGameMoves(e, s, key).Ok? <==>
      key in s.games && e.legal(s.games[key].board).Ok?
      && forall i :: 0 <= i < |e.legal(s.games[key].board).value| ==> Printable(e.legal(s.games[key].board).value[i])
    ensures UpdateGameMoves(e, s, key).Ok? ==>
      var s' := UpdateGameMoves(e, s, key).value;
      s'.games.Keys == s.games.Keys
      && s'.games[key].board == s.games[key].board && s'.games[key].history == s.games[key].history
      && MapOk(e.legal(s.games[key].board).value, s'.games[key].moves)
      && (forall k :: k in s.games && k != key ==> s'.games[k] == s.games[k])
  {
    if key in s.games && e.legal(s.games[key].board).Ok? {
      var legal := e.legal(s.games[key].board).value;
      MoveMapMeaning(legal);
      if forall i :: 0 <= i < |legal| ==> Printable(legal[i]) {
        MoveMapOk(legal);
      }
    }
  }

  /**
   * Creating a game from a FEN: a rejected FEN is returned as an error and
   * nothing is inserted; an accepted one, when its moves can be listed and
   * printed, is inserted under the drawn key with the board read from the
   * FEN, a history of exactly its key and a right map, every other game
   * as it was. When its moves cannot be listed, the game stays inserted
   * with an empty map and the reply is a crash.
   */
  lemma CreateGameMeaning(e: Engine, s: ServerState, draws: seq<nat>, fen: string)
    requires |draws| == KeyLength && forall i :: 0 <= i < |draws| ==> draws[i] < |Charset|
    requires PrintsLegal(e)
    ensures var (s', r) := CreateGameFromFen(e, s, draws, fen);
      (e.fromFen(fen).Err? && e.fromFen(fen).error.BadFen? ==>
         s' == s && r == Err(Rejected(e.fromFen(fen).error.error)))
      && (e.fromFen(fen).Err? ==> s' == s && r.Err?)
      && (r.Ok? <==> e.fromFen(fen).Ok? && e.legal(e.fromFen(fen).value).Ok?)
      && (e.fromFen(fen).Ok? && r.Err? ==>
            var b := e.fromFen(fen).value;
            r.error.Crashed?
            && s'.games == s.games[RandomString(KeyLength, draws) := GameData(b, map[], [b.key])])
      && (r.Ok? ==>
            var key := RandomString(KeyLength, draws);
            var b := e.fromFen(fen).value;
            r.value == key && s'.games.Keys == s.games.Keys + {key}
            && s'.games[key].board == b && s'.games[key].history == [b.key]
            && GameOk(e, s'.games[key])
            && forall k :: k in s.games && k != key ==> s'.games[k] == s.games[k])
  {
    var key := RandomString(KeyLength, draws);
    match GameFromFen(e, fen)
    case Err(_) =>
    case Ok(gd) =>
      UpdateGameMovesMeaning(e, ServerState(s.games[key := gd]), key);
  }

  /**
   * Making a move: on success the game's board is the successor, its
   * history gains exactly the successor's key, its map is right, and every
   * other game is as it was. A missing game or a move the board refuses
   * leaves the registry unchanged; a successor whose moves cannot be
   * listed stays in place, with its key in the history and the old map,
   * and the reply is a crash.
   */
  lemma MakeMoveMeaning(e: Engine, s: ServerState, key: string, m: Move)
    ensures var (s', r) := MakeMove(e, s, key, m);
      (key !in s.games ==> s' == s && r == Err(Crashed(NoSuchGame)))
      && (key in s.games && e.play(s.games[key].board, m).Err? ==> s' == s && r.Err?)
      && (key in s.games && r == Err(Refused) ==> e.play(s.games[key].board, m) == Err(CB.Illegal))
      && (key in s.games && e.play(s.games[key].board, m).Ok? && r.Err? ==>
            var gd := s.games[key];
            var nb := e.play(gd.board, m).value;
            r.error.Crashed?
            && s'.games == s.games[key := GameData(nb, gd.moves, gd.history + [nb.key])])
      && (r.Ok? ==>
            var gd := s.games[key];
            e.play(gd.board, m).Ok?
            && var nb := e.play(gd.board, m).value;
            s'.games.Keys == s.games.Keys
            && s'.games[key].board == nb
            && s'.games[key].history == gd.history + [nb.key]
            && GameOk(e, s'.games[key])
            && forall k :: k in s.games && k != key ==> s'.games[k] == s.games[k])
  {
    if key in s.games {
      var gd := s.games[key];
      match e.play(gd.board, m)
      case Err(_) =>
      case Ok(nb) =>
        var s1 := ServerState(s.games[key := GameData(nb, gd.moves, gd.history + [nb.key])]);
        UpdateGameMovesMeaning(e, s1, key);
    }
  }

  /** A reply that is a panic. */
  predicate IsCrash<R>(r: Result<R, ServerError>)
  {
    r.Err? && r.error.Crashed?
  }

  /**
   * Through any move that does not crash every game stays well kept; the
   * game moved in gains one history entry exactly when the board accepts
   * the move, crash or not, as `make_move` pushes the key before
   * rebuilding the map.
   */
  lemma MakeMoveKeepsGames(e: Engine, s: ServerState, key: string, m: Move)
    requires forall k :: k in s.games ==> GameOk(e, s.games[k])
    ensures var (s', r) := MakeMove(e, s, key, m);
      (!IsCrash(r) ==> forall k :: k in s'.games ==> GameOk(e, s'.games[k]))
      && (IsCrash(r) ==> forall k :: k in s'.games && k != key ==> GameOk(e, s'.games[k]))
      && s'.games.Keys == s.games.Keys
      && (key in s.games ==>
            |s'.games[key].history| == |s.games[key].history| + (if e.play(s.games[key].board, m).Ok? then 1 else 0))
      && (r.Ok? ==> key in s.games && e.play(s.games[key].board, m).Ok?)
  {
    MakeMoveMeaning(e, s, key, m);
  }

  // ---------------------------------------------------------------------
  // The registry behind the handlers' mutex.

  /** The registry and whether a panic has poisoned the `Mutex` around it. */
  datatype Locked = Locked(state: ServerState, poisoned: bool)

  /**
   * A handler's work under `lock().unwrap()`: a poisoned lock panics
   * before any work and changes nothing; otherwise the work runs, and a
   * panic inside it poisons the lock, keeping what it had written.
   */
  function UnderLock<R>(l: Locked, work: ServerState -> (ServerState, Result<R, ServerError>)): (r: (Locked, Result<R, ServerError>))
    ensures l.poisoned ==> r == (l, Err(Crashed(PoisonedLock)))
    ensures !l.poisoned ==> r.0.state == work(l.state).0 && r.1 == work(l.state).1
    ensures r.0.poisoned <==> l.poisoned || IsCrash(work(l.state).1)
  {
    if l.poisoned then (l, Err(Crashed(PoisonedLock)))
    else
      var (s', r) := work(l.state);
      (Locked(s', IsCrash(r)), r)
  }

  /** Every game of a registry still served is well kept. */
  predicate Kept(e: Engine, l: Locked)
  {
    !l.poisoned ==> forall k :: k in l.state.games ==> GameOk(e, l.state.games[k])
  }

  /**
   * A move under the lock keeps the games of a served registry well kept:
   * either it does not crash and every game is kept, or it crashes and no
   * later request is served.
   */
  lemma LockedMoveKept(e: Engine, l: Locked, key: string, m: Move)
    requires Kept(e, l)
    ensures var (l', r) := UnderLock(l, s => MakeMove(e, s, key, m));
      Kept(e, l') && (IsCrash(r) <==> l'.poisoned)
  {
    if !l.poisoned {
      MakeMoveKeepsGames(e, l.state, key, m);
    }
  }

  /** A game created under the lock keeps the games of a served registry well kept. */
  lemma LockedCreateKept(e: Engine, l: Locked, draws: seq<nat>, fen: string)
    requires |draws| == KeyLength && forall i :: 0 <= i < |draws| ==> draws[i] < |Charset|
    requires PrintsLegal(e) && Kept(e, l)
    ensures var (l', r) := UnderLock(l, s => CreateGameFromFen(e, s, draws, fen));
      Kept(e, l') && (IsCrash(r) <==> l'.poisoned)
  {
    if !l.poisoned {
      var s := l.state;
      CreateGameMeaning(e, s, draws, fen);
      var (s', r) := CreateGameFromFen(e, s, draws, fen);
      if !IsCrash(r) && r.Ok? {
        var key := RandomString(KeyLength, draws);
        forall k | k in s'.games
          ensures GameOk(e, s'.games[k])
        {
          if k != key {
            assert k in s.games;
          }
        }
      }
    }
  }

  /**
   * After a move on a served registry crashes, every later request on the
   * registry panics at the lock and leaves it as it is.
   */
  lemma CrashPoisonsLater<R>(e: Engine, l: Locked, key: string, m: Move, work: ServerState -> (ServerState, Result<R, ServerError>))
    requires !l.poisoned && IsCrash(MakeMove(e, l.state, key, m).1)
    ensures var (l', _) := UnderLock(l, s => MakeMove(e, s, key, m));
      l'.poisoned && UnderLock(l', work) == (l', Err(Crashed(PoisonedLock)))
  {
  }
}
