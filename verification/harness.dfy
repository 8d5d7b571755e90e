/**
 * The match harness of `etc/compare_versions.py`: two engine builds play
 * each opening line twice, once with each colour, through their HTTP
 * interface, and each build keeps a score table per colour and the
 * latencies of its own moves per ply.
 *
 * Every HTTP reply and every clock reading is an oracle value: a game is
 * driven by a `Session`, the keys of the two created games, one `Step` per
 * round of the loop and the statuses of the two deletions.
 */
module Harness {
  import opened Base

  /** The colour an engine played: the keys "white" and "black" of its score table. */
  datatype Side = White | Black

  /** The keys "win", "lose" and "draw" of a colour's score table. */
  datatype Outcome = Win | Lose | Draw

  function SideName(c: Side): string
  {
    match c
    case White => "white"
    case Black => "black"
  }

  function OutcomeName(o: Outcome): string
  {
    match o
    case Win => "win"
    case Lose => "lose"
    case Draw => "draw"
  }

  /** The side a key of the score table names, if it names one. */
  function ParseSide(s: string): (r: Option<Side>)
    ensures forall c :: r == Some(c) <==> s == SideName(c)
  {
    if s == "white" then Some(White) else if s == "black" then Some(Black) else None
  }

  /** The outcome a key of a colour's table names, if it names one. */
  function ParseOutcome(s: string): (r: Option<Outcome>)
    ensures forall o :: r == Some(o) <==> s == OutcomeName(o)
  {
    if s == "win" then Some(Win) else if s == "lose" then Some(Lose)
    else if s == "draw" then Some(Draw) else None
  }

  /** What ends the script: a failed `assert`, a missing dictionary key, or the oracle running dry. */
  datatype Crash = AssertionFailed | KeyMissing(key: string) | NoMoreReplies

  datatype Tally = Tally(win: nat, lose: nat, draw: nat)

  /** `ShakmatVer.scores`: one tally per colour the engine played. */
  datatype Scores = Scores(black: Tally, white: Tally)

  /** `tally[result]`. */
  function Get(t: Tally, o: Outcome): nat
  {
    match o
    case Win => t.win
    case Lose => t.lose
    case Draw => t.draw
  }

  /** `scores[color][result]`. */
  function Cell(s: Scores, c: Side, o: Outcome): nat
  {
    match c
    case White => Get(s.white, o)
    case Black => Get(s.black, o)
  }

  /** The number of games an engine has been scored for. */
  function Total(s: Scores): nat
  {
    Cell(s, White, Win) + Cell(s, White, Lose) + Cell(s, White, Draw)
    + Cell(s, Black, Win) + Cell(s, Black, Lose) + Cell(s, Black, Draw)
  }

  function Wins(s: Scores): nat { Cell(s, White, Win) + Cell(s, Black, Win) }
  function Losses(s: Scores): nat { Cell(s, White, Lose) + Cell(s, Black, Lose) }
  function Draws(s: Scores): nat { Cell(s, White, Draw) + Cell(s, Black, Draw) }

  /** The table a new `ShakmatVer` starts with. */
  function NoScores(): (s: Scores)
    ensures forall c, o :: Cell(s, c, o) == 0
  {
    Scores(Tally(0, 0, 0), Tally(0, 0, 0))
  }

  /** One more game under one result of a tally. */
  function Inc(t: Tally, o: Outcome): (r: Tally)
    ensures forall o' :: Get(r, o') == Get(t, o') + (if o' == o then 1 else 0)
  {
    match o
    case Win => t.(win := t.win + 1)
    case Lose => t.(lose := t.lose + 1)
    case Draw => t.(draw := t.draw + 1)
  }

  /** One more game in one cell of the table. */
  function Bump(s: Scores, c: Side, o: Outcome): (r: Scores)
    ensures forall c', o' :: Cell(r, c', o') == Cell(s, c', o') + (if c' == c && o' == o then 1 else 0)
    ensures Total(r) == Total(s) + 1
  {
    match c
    case White => s.(white := Inc(s.white, o))
    case Black => s.(black := Inc(s.black, o))
  }

  /**
   * `update_score`: both keys must name a cell, or an assertion fails;
   * then exactly that cell grows by one.
   */
  function UpdateScore(s: Scores, color: string, result: string): (r: Result<Scores, Crash>)
    ensures r.Ok? <==> ParseSide(color).Some? && ParseOutcome(result).Some?
    ensures r.Err? ==> r.error == AssertionFailed
    ensures r.Ok? ==> forall c, o ::
      Cell(r.value, c, o) == Cell(s, c, o) + (if SideName(c) == color && OutcomeName(o) == result then 1 else 0)
  {
    match (ParseSide(color), ParseOutcome(result))
    case (Some(c), Some(o)) => Ok(Bump(s, c, o))
    case _ => Err(AssertionFailed)
  }

  /** `ShakmatVer.move_speeds`: the latencies of the engine's own moves, per ply. */
  type Speeds = map<nat, seq<real>>

  /** `move_speeds.get(ply, [])`. */
  function Latencies(sp: Speeds, ply: nat): seq<real>
  {
    if ply in sp then sp[ply] else []
  }

  /**
   * `update_moving_time`: the latency is appended to the ply's list; every
   * other ply keeps its list.
   */
  function UpdateMovingTime(sp: Speeds, ply: nat, t: real): (r: Speeds)
    ensures Latencies(r, ply) == Latencies(sp, ply) + [t]
    ensures r.Keys == sp.Keys + {ply}
    ensures forall k :: k in sp && k != ply ==> r[k] == sp[k]
  {
    sp[ply := Latencies(sp, ply) + [t]]
  }

  /** `ShakmatVer`: one engine build reached through its port. */
  datatype Ver = Ver(name: string, port: nat, currentGame: Option<string>, moveSpeeds: Speeds, scores: Scores)

  function NewVer(port: nat, name: string): (v: Ver)
    ensures v.name == name && v.port == port
    ensures v.currentGame.None? && v.moveSpeeds == map[]
    ensures forall c, o :: Cell(v.scores, c, o) == 0
  {
    Ver(name, port, None, map[], NoScores())
  }

  /** `create_game`: the key the server returns for the new game becomes the current one. */
  function CreateGame(v: Ver, key: string): (r: Ver)
    ensures r.currentGame == Some(key)
    ensures r.name == v.name && r.port == v.port && r.moveSpeeds == v.moveSpeeds && r.scores == v.scores
  {
    v.(currentGame := Some(key))
  }

  /** `delete_game`: the deletion must answer 204; then no game is current. */
  function DeleteGame(v: Ver, status: int): (r: Result<Ver, Crash>)
    ensures r.Ok? <==> status == 204
    ensures r.Err? ==> r.error == AssertionFailed
    ensures r.Ok? ==> (r.value.currentGame.None?
      && r.value.name == v.name && r.value.port == v.port
      && r.value.moveSpeeds == v.moveSpeeds && r.value.scores == v.scores)
  {
    if status == 204 then Ok(v.(currentGame := None)) else Err(AssertionFailed)
  }

  /** The server's answer to a move: its status and the `turn_info` of the position reached. */
  datatype Reply = Reply(status: int, moves: seq<string>, inCheck: bool)

  /** A `turn_info` dictionary; `inCheck` is None when it has no "in_check" key. */
  datatype TurnInfo = TurnInfo(moves: seq<string>, inCheck: Option<bool>)

  /** `make_move`: the move must be accepted with status 200; its `turn_info` is returned. */
  function MakeMove(reply: Reply): (r: Result<TurnInfo, Crash>)
    ensures r.Ok? <==> reply.status == 200
    ensures r.Err? ==> r.error == AssertionFailed
    ensures r.Ok? ==> r.value.moves == reply.moves && r.value.inCheck == Some(reply.inCheck)
  {
    if reply.status == 200 then Ok(TurnInfo(reply.moves, Some(reply.inCheck))) else Err(AssertionFailed)
  }

  /**
   * The oracle values of one round of the loop: the engine's suggestion
   * and the latency measured around it (used only after the opening line),
   * then the replies of the mover's and the other engine's servers.
   */
  datatype Step = Step(suggestion: Option<string>, latency: real, toMover: Reply, toOther: Reply)

  /** A move Python treats as true: present and not the empty string. */
  predicate Truthy(move: Option<string>)
  {
    move.Some? && move.value != ""
  }

  /** `Match`: two engines, an opening line and the number of plies played. */
  datatype Match = Match(white: Ver, black: Ver, opening: seq<string>, ply: nat)

  /** `Match.__init__`: both engines open a game, with the keys their servers return. */
  function NewMatch(white: Ver, black: Ver, opening: seq<string>, whiteKey: string, blackKey: string): (m: Match)
    ensures m.ply == 0 && m.opening == opening
    ensures m.white.currentGame == Some(whiteKey) && m.black.currentGame == Some(blackKey)
    ensures m.white.scores == white.scores && m.black.scores == black.scores
    ensures m.white.name == white.name && m.black.name == black.name
  {
    Match(CreateGame(white, whiteKey), CreateGame(black, blackKey), opening, 0)
  }

  /** White's engine moves on even plies. */
  predicate WhiteMoves(m: Match)
  {
    m.ply % 2 == 0
  }

  function Mover(m: Match): Ver
  {
    if WhiteMoves(m) then m.white else m.black
  }

  function SetMover(m: Match, v: Ver): Match
  {
    if WhiteMoves(m) then m.(white := v) else m.(black := v)
  }

  /**
   * The move of a round: the opening line's move while the line lasts,
   * otherwise the engine's suggestion, whose latency the mover records.
   */
  function Choose(m: Match, st: Step): (Match, Option<string>)
  {
    if m.ply < |m.opening| then (m, Some(m.opening[m.ply]))
    else
      var mover := Mover(m);
      (SetMover(m, mover.(moveSpeeds := UpdateMovingTime(mover.moveSpeeds, m.ply, st.latency))), st.suggestion)
  }

  /** The string `play` returns: "W", "B" or "D". */
  datatype Verdict = WhiteWon | BlackWon | Drawn

  /** The result white's engine records for a verdict. */
  function WhiteOutcome(v: Verdict): Outcome
  {
    match v
    case WhiteWon => Win
    case BlackWon => Lose
    case Drawn => Draw
  }

  /** The opponent's result. */
  function Mirror(o: Outcome): Outcome
  {
    match o
    case Win => Lose
    case Lose => Win
    case Draw => Draw
  }

  /**
   * The scores after a game with this verdict: white's engine scores it
   * in its white table, black's engine in its black table, and the two
   * outcomes are each other's mirror.
   */
  predicate Scored(w0: Scores, w1: Scores, b0: Scores, b1: Scores, v: Verdict)
  {
    w1 == Bump(w0, White, WhiteOutcome(v)) && b1 == Bump(b0, Black, Mirror(WhiteOutcome(v)))
  }

  /**
   * The end of a game: a check means the side that just moved mated,
   * otherwise the game is drawn; both engines are scored.
   */
  function Settle(m: Match, whiteMoved: bool, info: TurnInfo): Result<(Match, Verdict), Crash>
  {
    match info.inCheck
    case None => Err(KeyMissing("in_check"))
    case Some(check) =>
      if check then
        if whiteMoved then
          Ok((m.(white := m.white.(scores := Bump(m.white.scores, White, Win)),
                 black := m.black.(scores := Bump(m.black.scores, Black, Lose))), WhiteWon))
        else
          Ok((m.(white := m.white.(scores := Bump(m.white.scores, White, Lose)),
                 black := m.black.(scores := Bump(m.black.scores, Black, Win))), BlackWon))
      else
        Ok((m.(white := m.white.(scores := Bump(m.white.scores, White, Draw)),
               black := m.black.(scores := Bump(m.black.scores, Black, Draw))), Drawn))
  }

  /**
   * Settling reads "in_check" and fails without it; with it, the verdict
   * is a win for the side that moved exactly when it gives check, a draw
   * otherwise, and the two engines are scored with mirrored outcomes.
   * Nothing but the scores changes.
   */
  lemma SettleMeaning(m: Match, whiteMoved: bool, info: TurnInfo)
    ensures Settle(m, whiteMoved, info).Err? <==> info.inCheck.None?
    ensures Settle(m, whiteMoved, info).Err? ==> Settle(m, whiteMoved, info).error == KeyMissing("in_check")
    ensures Settle(m, whiteMoved, info).Ok? ==>
      var (n, v) := Settle(m, whiteMoved, info).value;
      (v == Drawn <==> !info.inCheck.value)
      && (v == WhiteWon <==> info.inCheck.value && whiteMoved)
      && (v == BlackWon <==> info.inCheck.value && !whiteMoved)
      && Scored(m.white.scores, n.white.scores, m.black.scores, n.black.scores, v)
      && n == m.(white := m.white.(scores := n.white.scores), black := m.black.(scores := n.black.scores))
  {
  }

  /** One round of the loop: the game goes on, or it ends with a verdict. */
  datatype Round = Continue(next: Match) | Finished(next: Match, verdict: Verdict)

  function Finish(r: Result<(Match, Verdict), Crash>): Result<Round, Crash>
  {
    match r
    case Err(e) => Err(e)
    case Ok((n, v)) => Ok(Finished(n, v))
  }

  /** The `turn_info` the loop substitutes when there is no move to play, as written. */
  const AsWrittenFallback: TurnInfo := TurnInfo([], None)

  /** The substitute `turn_info` as evidently intended: no moves and no check, a draw. */
  const IntendedFallback: TurnInfo := TurnInfo([], Some(false))

  /**
   * One round of `Match.play` whose falsy-move path settles on `fallback`:
   * a truthy move is sent to both servers and advances the ply, and the
   * game ends when the other engine has no reply or no move was played.
   */
  function TurnWith(m: Match, st: Step, fallback: TurnInfo): Result<Round, Crash>
  {
    var whiteMoved := WhiteMoves(m);
    var (m1, move) := Choose(m, st);
    if Truthy(move) then
      match MakeMove(st.toMover)
      case Err(e) => Err(e)
      case Ok(_) =>
        match MakeMove(st.toOther)
        case Err(e) => Err(e)
        case Ok(info) =>
          var m2 := m1.(ply := m1.ply + 1);
          if info.moves == [] then Finish(Settle(m2, whiteMoved, info)) else Ok(Continue(m2))
    else
      Finish(Settle(m1, whiteMoved, fallback))
  }

  function TurnAsWritten(m: Match, st: Step): Result<Round, Crash>
  {
    TurnWith(m, st, AsWrittenFallback)
  }

  /** A round with the falsy-move path scored as a draw. */
  function Turn(m: Match, st: Step): Result<Round, Crash>
  {
    TurnWith(m, st, IntendedFallback)
  }

  /**
   * Inside the opening line the round plays the line's move and records
   * no latency; the engine's suggestion and the clock play no part.
   */
  lemma BookPly(m: Match, st: Step, st': Step)
    requires m.ply < |m.opening|
    requires st'.toMover == st.toMover && st'.toOther == st.toOther
    ensures Choose(m, st) == (m, Some(m.opening[m.ply]))
    ensures forall fb :: TurnWith(m, st, fb) == TurnWith(m, st', fb)
  {
  }

  /**
   * Past the opening line the round plays the engine's suggestion; the
   * mover, white's engine on even plies and black's on odd ones, appends
   * the measured latency to the ply's list and the other engine is left
   * as it was.
   */
  lemma EnginePly(m: Match, st: Step)
    requires m.ply >= |m.opening|
    ensures var (m1, move) := Choose(m, st);
      move == st.suggestion
      && m1.ply == m.ply && m1.opening == m.opening
      && (m.ply % 2 == 0 ==>
            (m1.black == m.black
             && m1.white == m.white.(moveSpeeds := m1.white.moveSpeeds)
             && Latencies(m1.white.moveSpeeds, m.ply) == Latencies(m.white.moveSpeeds, m.ply) + [st.latency]
             && (forall k :: k in m.white.moveSpeeds && k != m.ply ==> m1.white.moveSpeeds[k] == m.white.moveSpeeds[k])))
      && (m.ply % 2 == 1 ==>
            (m1.white == m.white
             && m1.black == m.black.(moveSpeeds := m1.black.moveSpeeds)
             && Latencies(m1.black.moveSpeeds, m.ply) == Latencies(m.black.moveSpeeds, m.ply) + [st.latency]
             && (forall k :: k in m.black.moveSpeeds && k != m.ply ==> m1.black.moveSpeeds[k] == m.black.moveSpeeds[k])))
  {
  }

  /** Choosing a move changes neither the scores nor the names. */
  lemma ChooseKeeps(m: Match, st: Step)
    ensures var m1 := Choose(m, st).0;
      m1.ply == m.ply && m1.opening == m.opening
      && m1.white.scores == m.white.scores && m1.black.scores == m.black.scores
      && m1.white.name == m.white.name && m1.black.name == m.black.name
      && m1.white.currentGame == m.white.currentGame && m1.black.currentGame == m.black.currentGame
  {
  }

  /**
   * The ply advances by one exactly when a truthy move was played; a
   * round that goes on leaves the scores alone, and a round that ends
   * scores both engines once, with mirrored outcomes.
   */
  lemma TurnMeaning(m: Match, st: Step, fb: TurnInfo)
    requires TurnWith(m, st, fb).Ok?
    ensures var n := TurnWith(m, st, fb).value.next;
      n.ply == m.ply + (if Truthy(Choose(m, st).1) then 1 else 0)
      && n.opening == m.opening
      && n.white.name == m.white.name && n.black.name == m.black.name
      && n.white.currentGame == m.white.currentGame && n.black.currentGame == m.black.currentGame
    ensures TurnWith(m, st, fb).value.Continue? ==>
      var n := TurnWith(m, st, fb).value.next;
      n.white.scores == m.white.scores && n.black.scores == m.black.scores
    ensures TurnWith(m, st, fb).value.Finished? ==>
      var t := TurnWith(m, st, fb).value;
      Scored(m.white.scores, t.next.white.scores, m.black.scores, t.next.black.scores, t.verdict)
  {
    var whiteMoved := WhiteMoves(m);
    var (m1, move) := Choose(m, st);
    ChooseKeeps(m, st);
    if Truthy(move) {
      var info := MakeMove(st.toOther).value;
      SettleMeaning(m1.(ply := m1.ply + 1), whiteMoved, info);
    } else {
      SettleMeaning(m1, whiteMoved, fb);
    }
  }

  /**
   * With a truthy move both servers accepted, the game ends exactly when
   * the other engine has no legal reply: a win for the side that moved
   * if it gave check, a draw otherwise.
   */
  lemma TurnVerdict(m: Match, st: Step, fb: TurnInfo)
    requires Truthy(Choose(m, st).1)
    requires st.toMover.status == 200 && st.toOther.status == 200
    ensures TurnWith(m, st, fb).Ok?
    ensures TurnWith(m, st, fb).value.Finished? <==> st.toOther.moves == []
    ensures TurnWith(m, st, fb).value.Finished? ==>
      var v := TurnWith(m, st, fb).value.verdict;
      (v == Drawn <==> !st.toOther.inCheck)
      && (v == WhiteWon <==> st.toOther.inCheck && WhiteMoves(m))
      && (v == BlackWon <==> st.toOther.inCheck && !WhiteMoves(m))
  {
    var m1 := Choose(m, st).0;
    SettleMeaning(m1.(ply := m1.ply + 1), WhiteMoves(m), MakeMove(st.toOther).value);
  }

  /**
   * As written, a round without a truthy move (an engine answering with
   * no move, or an empty entry in the opening line) substitutes a
   * `turn_info` without "in_check" and then reads that key: the script
   * stops with a KeyError instead of scoring the game.
   */
  lemma FalsyMoveCrashes(m: Match, st: Step)
    requires !Truthy(Choose(m, st).1)
    ensures TurnAsWritten(m, st) == Err(KeyMissing("in_check"))
  {
  }

  /** An opening line whose first entry is empty, from a doubled space in the openings file, ends in that KeyError. */
  lemma EmptyBookMoveCrashes(white: Ver, black: Ver, st: Step)
    ensures TurnAsWritten(NewMatch(white, black, ["", "e2e4"], "a", "b"), st) == Err(KeyMissing("in_check"))
  {
    FalsyMoveCrashes(NewMatch(white, black, ["", "e2e4"], "a", "b"), st);
  }

  /**
   * With the intended substitute, a round without a truthy move ends the
   * game as a draw on the ply it was reached, and both engines score it.
   */
  lemma FalsyMoveDraws(m: Match, st: Step)
    requires !Truthy(Choose(m, st).1)
    ensures Turn(m, st).Ok? && Turn(m, st).value.Finished?
    ensures Turn(m, st).value.verdict == Drawn && Turn(m, st).value.next.ply == m.ply
    ensures Scored(m.white.scores, Turn(m, st).value.next.white.scores, m.black.scores, Turn(m, st).value.next.black.scores, Drawn)
  {
    TurnMeaning(m, st, IntendedFallback);
  }

  /** How a game's loop ended: the match, the verdict and the rounds it took. */
  datatype Ending = Ending(final: Match, verdict: Verdict, rounds: nat)

  /**
   * The loop of `Match.play` over the oracle's rounds. The ply count grows
   * by one per round except a final round without a truthy move, and
   * the engines' names and the opening line do not change.
   */
  function PlayWith(m: Match, steps: seq<Step>, fb: TurnInfo): (r: Result<Ending, Crash>)
    ensures r.Ok? ==> 1 <= r.value.rounds <= |steps|
    ensures r.Ok? ==> m.ply + r.value.rounds - 1 <= r.value.final.ply <= m.ply + r.value.rounds
    ensures r.Ok? ==> (r.value.final.opening == m.opening
      && r.value.final.white.name == m.white.name && r.value.final.black.name == m.black.name
      && r.value.final.white.currentGame == m.white.currentGame
      && r.value.final.black.currentGame == m.black.currentGame)
    decreases |steps|
  {
    if |steps| == 0 then Err(NoMoreReplies)
    else
      var t := TurnWith(m, steps[0], fb);
      if t.Ok? then TurnMeaning(m, steps[0], fb); PlayOn(t.value, steps, fb)
      else Err(t.error)
  }

  /** The rest of the loop after a round that did not crash. */
  function PlayOn(t: Round, steps: seq<Step>, fb: TurnInfo): (r: Result<Ending, Crash>)
    requires |steps| > 0
    ensures r.Ok? && t.Finished? ==> r.value == Ending(t.next, t.verdict, 1)
    ensures r.Ok? ==> 1 <= r.value.rounds <= |steps|
    ensures r.Ok? && t.Continue? ==> t.next.ply + r.value.rounds - 2 <= r.value.final.ply <= t.next.ply + r.value.rounds - 1
    ensures r.Ok? ==> (r.value.final.opening == t.next.opening
      && r.value.final.white.name == t.next.white.name && r.value.final.black.name == t.next.black.name
      && r.value.final.white.currentGame == t.next.white.currentGame
      && r.value.final.black.currentGame == t.next.black.currentGame)
    decreases |steps|, 0
  {
    match t
    case Finished(n, v) => Ok(Ending(n, v, 1))
    case Continue(n) =>
      match PlayWith(n, steps[1..], fb)
      case Err(e) => Err(e)
      case Ok(e) => Ok(e.(rounds := e.rounds + 1))
  }

  function PlayAsWritten(m: Match, steps: seq<Step>): Result<Ending, Crash>
  {
    PlayWith(m, steps, AsWrittenFallback)
  }

  /** As written, a loop that ends without a crash played a truthy move in every round. */
  lemma {:induction false} PlayAsWrittenPlies(m: Match, steps: seq<Step>)
    requires PlayAsWritten(m, steps).Ok?
    ensures PlayAsWritten(m, steps).value.final.ply == m.ply + PlayAsWritten(m, steps).value.rounds
    decreases |steps|
  {
    var t := TurnAsWritten(m, steps[0]);
    TurnMeaning(m, steps[0], AsWrittenFallback);
    if !Truthy(Choose(m, steps[0]).1) {
      FalsyMoveCrashes(m, steps[0]);
    }
    assert PlayAsWritten(m, steps) == PlayOn(t.value, steps, AsWrittenFallback);
    if t.value.Continue? {
      assert PlayAsWritten(m, steps) == PlayOn(t.value, steps, AsWrittenFallback);
      PlayAsWrittenPlies(t.value.next, steps[1..]);
    }
  }

  /**
   * A game that ends scores each engine exactly once, in the table of
   * the colour it played, with mirrored outcomes.
   */
  lemma {:induction false} PlayScoresOnce(m: Match, steps: seq<Step>, fb: TurnInfo)
    requires PlayWith(m, steps, fb).Ok?
    ensures var e := PlayWith(m, steps, fb).value;
      Scored(m.white.scores, e.final.white.scores, m.black.scores, e.final.black.scores, e.verdict)
    decreases |steps|
  {
    var t := TurnWith(m, steps[0], fb).value;
    TurnMeaning(m, steps[0], fb);
    if t.Continue? {
      PlayScoresOnce(t.next, steps[1..], fb);
    }
  }

  /** The oracle values of one game: the created games' keys, the rounds, and the deletions' statuses. */
  datatype Session = Session(whiteKey: string, blackKey: string, steps: seq<Step>, whiteDelete: int, blackDelete: int)

  /** A whole `Match(white, black, opening).play()`: create both games, loop, delete both games. */
  function GameWith(white: Ver, black: Ver, opening: seq<string>, s: Session, fb: TurnInfo): (r: Result<(Ver, Ver, Verdict), Crash>)
    ensures r.Ok? ==> s.whiteDelete == 204 && s.blackDelete == 204
    ensures r.Ok? ==> r.value.0.currentGame.None? && r.value.1.currentGame.None?
    ensures r.Ok? ==> r.value.0.name == white.name && r.value.1.name == black.name
  {
    var m := NewMatch(white, black, opening, s.whiteKey, s.blackKey);
    match PlayWith(m, s.steps, fb)
    case Err(e) => Err(e)
    case Ok(e) =>
      match DeleteGame(e.final.white, s.whiteDelete)
      case Err(x) => Err(x)
      case Ok(w) =>
        match DeleteGame(e.final.black, s.blackDelete)
        case Err(x) => Err(x)
        case Ok(b) => Ok((w, b, e.verdict))
  }

  /** A finished game has scored both engines once, with mirrored outcomes. */
  lemma GameScores(white: Ver, black: Ver, opening: seq<string>, s: Session, fb: TurnInfo)
    requires GameWith(white, black, opening, s, fb).Ok?
    ensures var (w, b, v) := GameWith(white, black, opening, s, fb).value;
      Scored(white.scores, w.scores, black.scores, b.scores, v)
  {
    var m := NewMatch(white, black, opening, s.whiteKey, s.blackKey);
    PlayScoresOnce(m, s.steps, fb);
  }

  /** A line of the report: who had white, who had black, and the verdict. */
  datatype Report = Report(white: string, black: string, verdict: Verdict)

  /** The name the driver prints for a verdict: the winner's, or "Draw". */
  function Winner(r: Report): string
  {
    match r.verdict
    case WhiteWon => r.white
    case BlackWon => r.black
    case Drawn => "Draw"
  }

  /**
   * Scoring one game keeps the balance between the two engines: each
   * has one more game, and white's wins and losses grow exactly as
   * black's losses and wins do, as do the two draw counts.
   */
  lemma ScoredBalance(w0: Scores, w1: Scores, b0: Scores, b1: Scores, v: Verdict)
    requires Scored(w0, w1, b0, b1, v)
    ensures Total(w1) == Total(w0) + 1 && Total(b1) == Total(b0) + 1
    ensures Wins(w1) + Losses(b0) == Wins(w0) + Losses(b1)
    ensures Losses(w1) + Wins(b0) == Losses(w0) + Wins(b1)
    ensures Draws(w1) + Draws(b0) == Draws(w0) + Draws(b1)
  {
  }

  /** One opening line: the baseline plays white in the first game, the candidate in the second. */
  function PairWith(baseline: Ver, candidate: Ver, opening: seq<string>, first: Session, second: Session, fb: TurnInfo)
    : (r: Result<(Ver, Ver, Verdict, Verdict), Crash>)
    ensures r.Ok? ==> r.value.0.name == baseline.name && r.value.1.name == candidate.name
  {
    match GameWith(baseline, candidate, opening, first, fb)
    case Err(e) => Err(e)
    case Ok((o1, n1, v1)) =>
      match GameWith(n1, o1, opening, second, fb)
      case Err(e) => Err(e)
      case Ok((n2, o2, v2)) => Ok((o2, n2, v1, v2))
  }

  /** After the two games of a line each engine has two more games, and the balance between them holds. */
  lemma PairScores(baseline: Ver, candidate: Ver, opening: seq<string>, first: Session, second: Session, fb: TurnInfo)
    requires PairWith(baseline, candidate, opening, first, second, fb).Ok?
    ensures var (o, n, _, _) := PairWith(baseline, candidate, opening, first, second, fb).value;
      Total(o.scores) == Total(baseline.scores) + 2
      && Total(n.scores) == Total(candidate.scores) + 2
      && Wins(o.scores) + Losses(candidate.scores) == Wins(baseline.scores) + Losses(n.scores)
      && Losses(o.scores) + Wins(candidate.scores) == Losses(baseline.scores) + Wins(n.scores)
      && Draws(o.scores) + Draws(candidate.scores) == Draws(baseline.scores) + Draws(n.scores)
  {
    var (o1, n1, v1) := GameWith(baseline, candidate, opening, first, fb).value;
    GameScores(baseline, candidate, opening, first, fb);
    ScoredBalance(baseline.scores, o1.scores, candidate.scores, n1.scores, v1);
    var (n2, o2, v2) := GameWith(n1, o1, opening, second, fb).value;
    GameScores(n1, o1, opening, second, fb);
    ScoredBalance(n1.scores, n2.scores, o1.scores, o2.scores, v2);
  }

  /** Even games have `a` as white and `b` as black, odd games the reverse. */
  predicate Alternates(reports: seq<Report>, a: string, b: string)
  {
    forall i :: 0 <= i < |reports| ==>
      reports[i].white == (if i % 2 == 0 then a else b) && reports[i].black == (if i % 2 == 0 then b else a)
  }

  lemma AlternatesCons(a: string, b: string, v1: Verdict, v2: Verdict, rest: seq<Report>)
    requires Alternates(rest, a, b)
    ensures Alternates([Report(a, b, v1), Report(b, a, v2)] + rest, a, b)
  {
    var r := [Report(a, b, v1), Report(b, a, v2)] + rest;
    forall i | 2 <= i < |r|
      ensures r[i].white == (if i % 2 == 0 then a else b) && r[i].black == (if i % 2 == 0 then b else a)
    {
      assert r[i] == rest[i - 2];
      assert (i - 2) % 2 == i % 2;
    }
  }

  /**
   * The driver loop: each opening line is played twice, first with the
   * baseline build as white and then with the candidate, two sessions
   * per line; the report alternates the two pairings.
   */
  function RunWith(baseline: Ver, candidate: Ver, openings: seq<seq<string>>, sessions: seq<Session>, fb: TurnInfo)
    : (r: Result<(Ver, Ver, seq<Report>), Crash>)
    ensures r.Ok? ==> |r.value.2| == 2 * |openings|
    ensures r.Ok? ==> Alternates(r.value.2, baseline.name, candidate.name)
    ensures r.Ok? ==> r.value.0.name == baseline.name && r.value.1.name == candidate.name
    decreases |openings|
  {
    if |openings| == 0 then Ok((baseline, candidate, []))
    else if |sessions| < 2 then Err(NoMoreReplies)
    else
      match PairWith(baseline, candidate, openings[0], sessions[0], sessions[1], fb)
      case Err(e) => Err(e)
      case Ok((o2, n2, v1, v2)) =>
        match RunWith(o2, n2, openings[1..], sessions[2..], fb)
        case Err(e) => Err(e)
        case Ok((o3, n3, rest)) =>
          AlternatesCons(baseline.name, candidate.name, v1, v2, rest);
          Ok((o3, n3, [Report(baseline.name, candidate.name, v1), Report(candidate.name, baseline.name, v2)] + rest))
  }

  /** The script's two builds: the baseline on port 8000 and the candidate on port 9000. */
  function Script(openings: seq<seq<string>>, sessions: seq<Session>): Result<(Ver, Ver, seq<Report>), Crash>
  {
    RunWith(NewVer(8000, "Baseline"), NewVer(9000, "+AW"), openings, sessions, AsWrittenFallback)
  }

  /**
   * Over a run, each engine is scored once per game, so twice per opening
   * line, and one engine's wins are the other's losses.
   */
  lemma {:induction false} RunScoresEveryGame(baseline: Ver, candidate: Ver, openings: seq<seq<string>>, sessions: seq<Session>, fb: TurnInfo)
    requires RunWith(baseline, candidate, openings, sessions, fb).Ok?
    ensures var (o, n, _) := RunWith(baseline, candidate, openings, sessions, fb).value;
      Total(o.scores) == Total(baseline.scores) + 2 * |openings|
      && Total(n.scores) == Total(candidate.scores) + 2 * |openings|
      && Wins(o.scores) + Losses(candidate.scores) == Wins(baseline.scores) + Losses(n.scores)
      && Losses(o.scores) + Wins(candidate.scores) == Losses(baseline.scores) + Wins(n.scores)
      && Draws(o.scores) + Draws(candidate.scores) == Draws(baseline.scores) + Draws(n.scores)
    decreases |openings|
  {
    if |openings| > 0 {
      var (o2, n2, _, _) := PairWith(baseline, candidate, openings[0], sessions[0], sessions[1], fb).value;
      PairScores(baseline, candidate, openings[0], sessions[0], sessions[1], fb);
      RunScoresEveryGame(o2, n2, openings[1..], sessions[2..], fb);
    }
  }
}
