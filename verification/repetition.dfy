/**
 * Draw by repetition during search (`is_draw_by_repetition` of
 * `shakmat-engine/src/search/searching.rs`, and the identical one of
 * `shakmat-engine/src/search.rs`). The history holds the keys of earlier
 * positions, index i being ply i; entries before the last irreversible
 * move are skipped; from the newest backwards every other entry is
 * visited, the first visited one excluded. A first match inside the
 * search, or a second match anywhere, is a draw.
 */
module Repetition {
  import opened Base

  /** The one failure of the as-written code: a `u16` subtraction below zero. */
  datatype Underflow = Underflow

  /**
   * The indices visited from `i` down to `start`, two apart: what
   * `enumerate().skip(start).rev().step_by(2)` yields once its first item is dropped.
   */
  function CandidatesFrom(i: int, start: nat): (r: seq<int>)
    requires i >= -3
    decreases i + 3
  {
    if i < start then [] else [i] + CandidatesFrom(i - 2, start)
  }

  /** The visited indices for a history of `n` keys. */
  function Candidates(n: nat, start: nat): seq<int>
  {
    CandidatesFrom(n - 3, start)
  }

  /** Exactly the indices at or after the window start, at least two below the newest and an even distance from it. */
  lemma {:induction false} CandidatesFromMeaning(i: int, start: nat, j: int)
    requires i >= -3
    ensures j in CandidatesFrom(i, start) <==> start <= j <= i && (i - j) % 2 == 0
    decreases i + 3
  {
    if i >= start {
      CandidatesFromMeaning(i - 2, start, j);
    }
  }

  /** Candidates are strictly decreasing. */
  lemma {:induction false} CandidatesFromDecrease(i: int, start: nat)
    requires i >= -3
    ensures forall a, b :: 0 <= a < b < |CandidatesFrom(i, start)| ==>
      CandidatesFrom(i, start)[a] > CandidatesFrom(i, start)[b]
    decreases i + 3
  {
    if i >= start {
      CandidatesFromDecrease(i - 2, start);
      var rest := CandidatesFrom(i - 2, start);
      if rest != [] {
        CandidatesFromMeaning(i - 2, start, rest[0]);
      }
      forall b | 0 <= b < |rest|
        ensures rest[b] <= i - 2
      {
        assert rest[b] in rest;
        CandidatesFromMeaning(i - 2, start, rest[b]);
      }
    }
  }

  /** The visited indices, newest first, whose key equals the current key. */
  function MatchesFrom(history: seq<int>, key: int, i: int, start: nat): (r: seq<int>)
    requires -3 <= i < |history|
    decreases i + 3
  {
    if i < start then []
    else (if history[i] == key then [i] else []) + MatchesFrom(history, key, i - 2, start)
  }

  /**
   * The verdict in terms of the matches: a draw when the newest match lies
   * after the last ply actually played (its index read as a `u16`), or when
   * there are at least two.
   */
  predicate DrawRule(matches: seq<int>, lastPlayed: int)
  {
    (|matches| >= 1 && matches[0] % 0x1_0000 > lastPlayed) || |matches| >= 2
  }

  /** A match is a visited index whose key equals the current one. */
  lemma {:induction false} MatchesFromMeaning(history: seq<int>, key: int, i: int, start: nat, j: int)
    requires -3 <= i < |history|
    ensures j in MatchesFrom(history, key, i, start) <==>
      j in CandidatesFrom(i, start) && 0 <= j < |history| && history[j] == key
    decreases i + 3
  {
    if i >= start {
      MatchesFromMeaning(history, key, i - 2, start, j);
    }
  }

  /** The window start: the ply of the last irreversible move, with `u16` subtraction. */
  function WindowStartAsWritten(ply: nat, fifty: nat): Result<nat, Underflow>
  {
    if fifty > ply then Err(Underflow) else Ok(ply - fifty)
  }

  /** The window start with the subtraction saturating at zero. */
  function WindowStart(ply: nat, fifty: nat): (r: nat)
    ensures r <= ply
    ensures fifty <= ply ==> WindowStartAsWritten(ply, fifty) == Ok(r)
  {
    if fifty > ply then 0 else ply - fifty
  }

  /**
   * `is_draw_by_repetition`, with the loop of the source and the
   * saturating window start; `lastPlayed` is `ply - curDepth`.
   */
  method IsDrawByRepetition(history: seq<int>, key: int, ply: nat, fifty: nat, curDepth: nat) returns (draw: bool)
    requires curDepth <= ply
    ensures draw == DrawRule(MatchesFrom(history, key, |history| - 3, WindowStart(ply, fifty)), ply - curDepth)
  {
    var start := WindowStart(ply, fifty);
    var lastPlayed := ply - curDepth;
    var all := MatchesFrom(history, key, |history| - 3, start);
    var count := 1;
    var i: int := |history| - 3;
    ghost var seen: seq<int> := [];
    while i >= start
      invariant -3 <= i < |history|
      invariant all == seen + MatchesFrom(history, key, i, start)
      invariant count == 1 + |seen| && |seen| <= 1
      invariant |seen| == 1 ==> seen[0] % 0x1_0000 <= lastPlayed
      decreases i + 3
    {
      MatchesStep(history, key, i, start);
      if history[i] == key {
        count := count + 1;
        seen := seen + [i];
        if (count == 2 && i % 0x1_0000 > lastPlayed) || count == 3 {
          assert all[0] == seen[0] && |all| >= |seen|;
          return true;
        }
      }
      i := i - 2;
    }
    assert all == seen;
    return false;
  }

  /** One step of the scan: the index looked at, then the older ones. */
  lemma MatchesStep(history: seq<int>, key: int, i: int, start: nat)
    requires -3 <= i < |history| && i >= start
    ensures MatchesFrom(history, key, i, start)
      == (if history[i] == key then [i] else []) + MatchesFrom(history, key, i - 2, start)
  {
  }

  /** `is_draw_by_repetition` as written: fails when the fifty-move counter exceeds the ply. */
  function IsDrawByRepetitionAsWritten(history: seq<int>, key: int, ply: nat, fifty: nat, curDepth: nat): Result<bool, Underflow>
    requires curDepth <= ply
  {
    match WindowStartAsWritten(ply, fifty)
    case Err(e) => Err(e)
    case Ok(start) => Ok(DrawRule(MatchesFrom(history, key, |history| - 3, start), ply - curDepth))
  }

  /**
   * As written, a position read from a FEN whose half-move clock exceeds its
   * ply count (here "... w - - 10 1": ply 0, counter 10) fails at once.
   */
  lemma HalfMoveClockAboveUnderflows(history: seq<int>, key: int)
    ensures IsDrawByRepetitionAsWritten(history, key, 0, 10, 0) == Err(Underflow)
  {
  }

  /** Where the as-written code does not fail, the corrected rule agrees with it. */
  lemma AsWrittenAgrees(history: seq<int>, key: int, ply: nat, fifty: nat, curDepth: nat)
    requires curDepth <= ply && fifty <= ply
    ensures IsDrawByRepetitionAsWritten(history, key, ply, fifty, curDepth)
      == Ok(DrawRule(MatchesFrom(history, key, |history| - 3, WindowStart(ply, fifty)), ply - curDepth))
  {
  }

  /**
   * A third occurrence is always a draw: two earlier positions at an even
   * distance of at least two from the newest entry, inside the window, with
   * the current key.
   */
  lemma TwoEarlierOccurrencesDraw(history: seq<int>, key: int, start: nat, lastPlayed: int, j1: int, j2: int)
    requires |history| >= 3
    requires j1 != j2
    requires j1 in CandidatesFrom(|history| - 3, start) && 0 <= j1 < |history| && history[j1] == key
    requires j2 in CandidatesFrom(|history| - 3, start) && 0 <= j2 < |history| && history[j2] == key
    ensures DrawRule(MatchesFrom(history, key, |history| - 3, start), lastPlayed)
  {
    var m := MatchesFrom(history, key, |history| - 3, start);
    MatchesFromMeaning(history, key, |history| - 3, start, j1);
    MatchesFromMeaning(history, key, |history| - 3, start, j2);
    assert j1 in m && j2 in m;
  }

  /** No match in the window means no draw. */
  lemma NoMatchNoDraw(history: seq<int>, key: int, start: nat, lastPlayed: int)
    requires |history| >= 3
    requires forall j :: j in CandidatesFrom(|history| - 3, start) && 0 <= j < |history| ==> history[j] != key
    ensures !DrawRule(MatchesFrom(history, key, |history| - 3, start), lastPlayed)
  {
    var m := MatchesFrom(history, key, |history| - 3, start);
    if m != [] {
      MatchesFromMeaning(history, key, |history| - 3, start, m[0]);
    }
  }
}
