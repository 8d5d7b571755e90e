/**
 * The earlier match loop of `compare_versions.py`: one game from the
 * starting position between builds "v1" and "v2", with the same
 * engine-side bookkeeping as the later harness (`Harness`), but without
 * a guard for a missing move, without deleting the games and without
 * returning a verdict.
 */
module OldHarness {
  import opened Base
  import opened Harness

  /**
   * One round of the earlier `Match.play`: the chosen move, whatever it
   * is, goes to both servers; the game ends when the other engine has no
   * reply, and only a round that does not end it advances the ply.
   */
  function OldTurn(m: Match, st: Step): Result<Round, Crash>
  {
    var whiteMoved := WhiteMoves(m);
    var (m1, _) := Choose(m, st);
    match MakeMove(st.toMover)
    case Err(e) => Err(e)
    case Ok(_) =>
      match MakeMove(st.toOther)
      case Err(e) => Err(e)
      case Ok(info) =>
        if info.moves == [] then Finish(Settle(m1, whiteMoved, info))
        else Ok(Continue(m1.(ply := m1.ply + 1)))
  }

  /**
   * A missing or empty suggestion is submitted like any other move: the
   * round's course depends on the servers' replies alone, never on the
   * move's truth value.
   */
  lemma OldTurnSubmitsAnyMove(m: Match, st: Step, suggestion: Option<string>)
    ensures OldTurn(m, st) == OldTurn(m, st.(suggestion := suggestion))
  {
  }

  /**
   * A round fails only on a status other than 200; otherwise it ends
   * exactly when the other engine has no reply, with a win for the side
   * that moved if it gave check and a draw if not, and the two engines
   * scored with mirrored outcomes. The ply advances on a round that goes
   * on and stays put on the last one.
   */
  lemma OldTurnMeaning(m: Match, st: Step)
    ensures OldTurn(m, st).Ok? <==> st.toMover.status == 200 && st.toOther.status == 200
    ensures OldTurn(m, st).Err? ==> OldTurn(m, st).error == AssertionFailed
    ensures OldTurn(m, st).Ok? ==>
      var t := OldTurn(m, st).value;
      (t.Finished? <==> st.toOther.moves == [])
      && t.next.ply == m.ply + (if t.Continue? then 1 else 0)
      && t.next.opening == m.opening
      && t.next.white.name == m.white.name && t.next.black.name == m.black.name
      && t.next.white.currentGame == m.white.currentGame && t.next.black.currentGame == m.black.currentGame
    ensures OldTurn(m, st).Ok? && OldTurn(m, st).value.Continue? ==>
      var n := OldTurn(m, st).value.next;
      n.white.scores == m.white.scores && n.black.scores == m.black.scores
    ensures OldTurn(m, st).Ok? && OldTurn(m, st).value.Finished? ==>
      var t := OldTurn(m, st).value;
      (t.verdict == Drawn <==> !st.toOther.inCheck)
      && (t.verdict == WhiteWon <==> st.toOther.inCheck && WhiteMoves(m))
      && (t.verdict == BlackWon <==> st.toOther.inCheck && !WhiteMoves(m))
      && Scored(m.white.scores, t.next.white.scores, m.black.scores, t.next.black.scores, t.verdict)
  {
    ChooseKeeps(m, st);
    var m1 := Choose(m, st).0;
    if st.toMover.status == 200 && st.toOther.status == 200 {
      SettleMeaning(m1, WhiteMoves(m), MakeMove(st.toOther).value);
    }
  }

  /**
   * The earlier loop over the oracle's rounds. Every round but the last
   * advances the ply, so the ply count ends one short of the rounds.
   */
  function OldPlay(m: Match, steps: seq<Step>): (r: Result<Ending, Crash>)
    ensures r.Ok? ==> 1 <= r.value.rounds <= |steps|
    ensures r.Ok? ==> r.value.final.ply == m.ply + r.value.rounds - 1
    ensures r.Ok? ==> (r.value.final.opening == m.opening
      && r.value.final.white.name == m.white.name && r.value.final.black.name == m.black.name
      && r.value.final.white.currentGame == m.white.currentGame
      && r.value.final.black.currentGame == m.black.currentGame)
    decreases |steps|
  {
    if |steps| == 0 then Err(NoMoreReplies)
    else
      var t := OldTurn(m, steps[0]);
      if t.Ok? then OldTurnMeaning(m, steps[0]); OldPlayOn(t.value, steps)
      else Err(t.error)
  }

  /** The rest of the earlier loop after a round that did not crash. */
  function OldPlayOn(t: Round, steps: seq<Step>): (r: Result<Ending, Crash>)
    requires |steps| > 0
    ensures r.Ok? && t.Finished? ==> r.value == Ending(t.next, t.verdict, 1)
    ensures r.Ok? ==> 1 <= r.value.rounds <= |steps|
    ensures r.Ok? && t.Continue? ==> r.value.final.ply == t.next.ply + r.value.rounds - 2
    ensures r.Ok? ==> (r.value.final.opening == t.next.opening
      && r.value.final.white.name == t.next.white.name && r.value.final.black.name == t.next.black.name
      && r.value.final.white.currentGame == t.next.white.currentGame
      && r.value.final.black.currentGame == t.next.black.currentGame)
    decreases |steps|, 0
  {
    match t
    case Finished(n, v) => Ok(Ending(n, v, 1))
    case Continue(n) =>
      match OldPlay(n, steps[1..])
      case Err(e) => Err(e)
      case Ok(e) => Ok(e.(rounds := e.rounds + 1))
  }

  /** A game of the earlier loop that ends scores each engine once, with mirrored outcomes. */
  lemma {:induction false} OldPlayScoresOnce(m: Match, steps: seq<Step>)
    requires OldPlay(m, steps).Ok?
    ensures var e := OldPlay(m, steps).value;
      Scored(m.white.scores, e.final.white.scores, m.black.scores, e.final.black.scores, e.verdict)
    decreases |steps|
  {
    var t := OldTurn(m, steps[0]).value;
    OldTurnMeaning(m, steps[0]);
    if t.Continue? {
      OldPlayScoresOnce(t.next, steps[1..]);
    }
  }

  /**
   * The script: build "v1" on port 8000 plays white against "v2" on port
   * 8001 with no opening line; the games are never deleted, so both stay
   * current.
   */
  function OldScript(whiteKey: string, blackKey: string, steps: seq<Step>): (r: Result<Ending, Crash>)
    ensures r.Ok? ==> (r.value.final.white.currentGame == Some(whiteKey)
      && r.value.final.black.currentGame == Some(blackKey))
  {
    var m := NewMatch(NewVer(8000, "v1"), NewVer(8001, "v2"), [], whiteKey, blackKey);
    OldPlay(m, steps)
  }

  /**
   * After the script each build has been scored exactly once, in the
   * table of its colour, with mirrored outcomes.
   */
  lemma OldScriptScoresOnce(whiteKey: string, blackKey: string, steps: seq<Step>)
    requires OldScript(whiteKey, blackKey, steps).Ok?
    ensures var e := OldScript(whiteKey, blackKey, steps).value;
      Total(e.final.white.scores) == 1 && Total(e.final.black.scores) == 1
      && Cell(e.final.white.scores, White, WhiteOutcome(e.verdict)) == 1
      && Cell(e.final.black.scores, Black, Mirror(WhiteOutcome(e.verdict))) == 1
  {
    var m := NewMatch(NewVer(8000, "v1"), NewVer(8001, "v2"), [], whiteKey, blackKey);
    OldPlayScoresOnce(m, steps);
  }
}
