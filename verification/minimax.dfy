/**
 * The first search (`shakmat-engine/src/minimax.rs`): plain minimax over
 * the legal moves, White maximising and Black minimising the static score
 * of the first evaluation. The game tree is given: each node holds what
 * the evaluation reads, its legal moves and the position after each.
 */
module Minimax {
  import opened Base
  import opened Colors
  import opened Moves
  import SE = SimpleEval

  datatype Tree = Tree(pos: SE.Position, moves: seq<Move>, children: seq<Tree>)

  /** Every node has one child per legal move and a readable position. */
  predicate WellFormed(t: Tree)
    decreases t
  {
    SE.PositionOk(t.pos) && |t.moves| == |t.children|
    && forall i :: 0 <= i < |t.children| ==> WellFormed(t.children[i])
  }

  /** `MiniMaxResult`: a move, if any, and its score. */
  datatype MiniMaxResult = MiniMaxResult(mv: Option<Move>, score: int)

  /** `Ord::cmp` of `MiniMaxResult`: -1, 0 or 1 by the scores alone. */
  function Compare(a: MiniMaxResult, b: MiniMaxResult): int
  {
    if a.score < b.score then -1 else if a.score > b.score then 1 else 0
  }

  /** `Iterator::max` from an accumulator: a later element replaces it unless it is strictly smaller. */
  function MaxFrom(acc: MiniMaxResult, rs: seq<MiniMaxResult>): MiniMaxResult
    decreases |rs|
  {
    if rs == [] then acc
    else MaxFrom(if Compare(acc, rs[0]) == 1 then acc else rs[0], rs[1..])
  }

  /** `Iterator::min` from an accumulator: a later element replaces it only when strictly smaller. */
  function MinFrom(acc: MiniMaxResult, rs: seq<MiniMaxResult>): MiniMaxResult
    decreases |rs|
  {
    if rs == [] then acc
    else MinFrom(if Compare(acc, rs[0]) == 1 then rs[0] else acc, rs[1..])
  }

  /** `find_best`. */
  function FindBest(t: Tree, cur: nat, max: nat): MiniMaxResult
    requires WellFormed(t)
    decreases t, 1
  {
    if cur == max || t.moves == [] then MiniMaxResult(None, SE.EvaluatePosition(t.pos, t.moves))
    else
      var rs := ChildResults(t, cur, max);
      if t.pos.turn == White then MaxFrom(rs[0], rs[1..]) else MinFrom(rs[0], rs[1..])
  }

  /** Each legal move with the score `find_best` gives its child one level deeper. */
  function ChildResults(t: Tree, cur: nat, max: nat): (rs: seq<MiniMaxResult>)
    requires WellFormed(t)
    decreases t, 0
  {
    seq(|t.moves|, i requires 0 <= i < |t.moves| =>
      MiniMaxResult(Some(t.moves[i]), FindBest(t.children[i], cur + 1, max).score))
  }

  // ---------------------------------------------------------------------
  // The reference: the minimax value, defined on scores alone.

  function Larger(a: int, b: int): int { if a >= b then a else b }
  function Smaller(a: int, b: int): int { if a <= b then a else b }

  function MaxOf(s: seq<int>): int
    requires s != []
  {
    if |s| == 1 then s[0] else Larger(s[0], MaxOf(s[1..]))
  }

  function MinOf(s: seq<int>): int
    requires s != []
  {
    if |s| == 1 then s[0] else Smaller(s[0], MinOf(s[1..]))
  }

  /**
   * The minimax value of a node: the static score at the depth limit or
   * when no move is left, else the best value of a child for the side to move.
   */
  function Value(t: Tree, cur: nat, max: nat): int
    requires WellFormed(t)
    decreases t
  {
    if cur == max || t.moves == [] then SE.EvaluatePosition(t.pos, t.moves)
    else
      var vs := seq(|t.children|, i requires 0 <= i < |t.children| => Value(t.children[i], cur + 1, max));
      if t.pos.turn == White then MaxOf(vs) else MinOf(vs)
  }

  // ---------------------------------------------------------------------
  // The folds.

  lemma {:induction false} MaxOfMeaning(s: seq<int>)
    requires s != []
    ensures MaxOf(s) in s
    ensures forall i :: 0 <= i < |s| ==> s[i] <= MaxOf(s)
  {
    if |s| > 1 {
      MaxOfMeaning(s[1..]);
      forall i | 1 <= i < |s|
        ensures s[i] <= MaxOf(s)
      {
        assert s[i] == s[1..][i - 1];
      }
    }
  }

  lemma {:induction false} MinOfMeaning(s: seq<int>)
    requires s != []
    ensures MinOf(s) in s
    ensures forall i :: 0 <= i < |s| ==> MinOf(s) <= s[i]
  {
    if |s| > 1 {
      MinOfMeaning(s[1..]);
      forall i | 1 <= i < |s|
        ensures MinOf(s) <= s[i]
      {
        assert s[i] == s[1..][i - 1];
      }
    }
  }

  /**
   * The maximum fold returns the accumulator or an element, at least as
   * large as all of them; an element it returns is the last of its score.
   */
  lemma {:induction false} MaxFromMeaning(acc: MiniMaxResult, rs: seq<MiniMaxResult>)
    ensures var r := MaxFrom(acc, rs);
      acc.score <= r.score && (forall i :: 0 <= i < |rs| ==> rs[i].score <= r.score)
      && ((r == acc && forall i :: 0 <= i < |rs| ==> rs[i].score < r.score)
          || exists k :: 0 <= k < |rs| && r == rs[k] && forall i :: k < i < |rs| ==> rs[i].score < r.score)
    decreases |rs|
  {
    if rs != [] {
      var next := if Compare(acc, rs[0]) == 1 then acc else rs[0];
      MaxFromMeaning(next, rs[1..]);
      var r := MaxFrom(acc, rs);
      assert r == MaxFrom(next, rs[1..]);
      forall i | 1 <= i < |rs|
        ensures rs[i].score <= r.score
      {
        assert rs[i] == rs[1..][i - 1];
      }
      if r == next && forall i :: 0 <= i < |rs[1..]| ==> rs[1..][i].score < r.score {
        forall i | 0 < i < |rs|
          ensures rs[i].score < r.score
        {
          assert rs[i] == rs[1..][i - 1];
        }
      } else {
        var k :| 0 <= k < |rs[1..]| && r == rs[1..][k] && forall i :: k < i < |rs[1..]| ==> rs[1..][i].score < r.score;
        forall i | k + 1 < i < |rs|
          ensures rs[i].score < r.score
        {
          assert rs[i] == rs[1..][i - 1];
        }
        assert r == rs[k + 1];
      }
    }
  }

  /**
   * The minimum fold returns the accumulator or an element, at most as
   * large as all of them; no element before the one it returns has its score.
   */
  lemma {:induction false} MinFromMeaning(acc: MiniMaxResult, rs: seq<MiniMaxResult>)
    ensures var r := MinFrom(acc, rs);
      r.score <= acc.score && (forall i :: 0 <= i < |rs| ==> r.score <= rs[i].score)
      && (r == acc || exists k :: 0 <= k < |rs| && r == rs[k] && r.score < acc.score
                                  && forall i :: 0 <= i < k ==> r.score < rs[i].score)
    decreases |rs|
  {
    if rs != [] {
      var next := if Compare(acc, rs[0]) == 1 then rs[0] else acc;
      MinFromMeaning(next, rs[1..]);
      var r := MinFrom(acc, rs);
      assert r == MinFrom(next, rs[1..]);
      forall i | 1 <= i < |rs|
        ensures r.score <= rs[i].score
      {
        assert rs[i] == rs[1..][i - 1];
      }
      if r == next {
        if next == rs[0] && next != acc {
          assert r == rs[0];
        }
      } else {
        var k :| 0 <= k < |rs[1..]| && r == rs[1..][k] && r.score < next.score
          && forall i :: 0 <= i < k ==> r.score < rs[1..][i].score;
        forall i | 0 <= i < k + 1
          ensures r.score < rs[i].score
        {
          if i > 0 {
            assert rs[i] == rs[1..][i - 1];
          }
        }
        assert r == rs[k + 1];
      }
    }
  }

  // ---------------------------------------------------------------------
  // What find_best returns.

  /**
   * At the depth limit or without legal moves: no move, and the static
   * score of the position.
   */
  lemma FindBestLeaf(t: Tree, cur: nat, max: nat)
    requires WellFormed(t) && (cur == max || t.moves == [])
    ensures FindBest(t, cur, max) == MiniMaxResult(None, SE.EvaluatePosition(t.pos, t.moves))
  {
  }

  /** White's choice: a child of maximal score, the last such child. */
  lemma FindBestWhite(t: Tree, cur: nat, max: nat) returns (k: nat)
    requires WellFormed(t) && cur != max && t.moves != [] && t.pos.turn == White
    ensures k < |t.moves|
    ensures FindBest(t, cur, max) == ChildResults(t, cur, max)[k]
    ensures forall i :: 0 <= i < |t.moves| ==> ChildResults(t, cur, max)[i].score <= FindBest(t, cur, max).score
    ensures forall i :: k < i < |t.moves| ==> ChildResults(t, cur, max)[i].score < FindBest(t, cur, max).score
  {
    var rs := ChildResults(t, cur, max);
    var r := FindBest(t, cur, max);
    assert r == MaxFrom(rs[0], rs[1..]);
    MaxFromMeaning(rs[0], rs[1..]);
    if r == rs[0] && forall i :: 0 <= i < |rs[1..]| ==> rs[1..][i].score < r.score {
      k := 0;
    } else {
      var j :| 0 <= j < |rs[1..]| && r == rs[1..][j] && forall i :: j < i < |rs[1..]| ==> rs[1..][i].score < r.score;
      k := j + 1;
    }
    forall i | 0 < i < |t.moves|
      ensures rs[i].score <= r.score && (k < i ==> rs[i].score < r.score)
    {
      assert rs[i] == rs[1..][i - 1];
    }
  }

  /** Black's choice: a child of minimal score, the first such child. */
  lemma FindBestBlack(t: Tree, cur: nat, max: nat) returns (k: nat)
    requires WellFormed(t) && cur != max && t.moves != [] && t.pos.turn == Black
    ensures k < |t.moves|
    ensures FindBest(t, cur, max) == ChildResults(t, cur, max)[k]
    ensures forall i :: 0 <= i < |t.moves| ==> FindBest(t, cur, max).score <= ChildResults(t, cur, max)[i].score
    ensures forall i :: 0 <= i < k ==> FindBest(t, cur, max).score < ChildResults(t, cur, max)[i].score
  {
    var rs := ChildResults(t, cur, max);
    var r := FindBest(t, cur, max);
    assert r == MinFrom(rs[0], rs[1..]);
    MinFromMeaning(rs[0], rs[1..]);
    if r == rs[0] {
      k := 0;
    } else {
      var j :| 0 <= j < |rs[1..]| && r == rs[1..][j] && r.score < rs[0].score
        && forall i :: 0 <= i < j ==> r.score < rs[1..][i].score;
      k := j + 1;
    }
    forall i | 0 < i < |t.moves|
      ensures r.score <= rs[i].score && (i < k ==> r.score < rs[i].score)
    {
      assert rs[i] == rs[1..][i - 1];
    }
  }

  /**
   * Below the limit with a legal move: one of the moves, scored with its
   * child's own result, at least as good for the side to move as every
   * other child.
   */
  lemma FindBestChoice(t: Tree, cur: nat, max: nat)
    requires WellFormed(t) && cur != max && t.moves != []
    ensures var r := FindBest(t, cur, max);
      r.mv.Some?
      && exists k :: 0 <= k < |t.moves| && r.mv == Some(t.moves[k])
           && r.score == FindBest(t.children[k], cur + 1, max).score
           && (t.pos.turn == White ==>
                 forall i :: 0 <= i < |t.moves| ==> FindBest(t.children[i], cur + 1, max).score <= r.score)
           && (t.pos.turn == Black ==>
                 forall i :: 0 <= i < |t.moves| ==> r.score <= FindBest(t.children[i], cur + 1, max).score)
  {
    var rs := ChildResults(t, cur, max);
    var k: nat;
    if t.pos.turn == White {
      k := FindBestWhite(t, cur, max);
    } else {
      k := FindBestBlack(t, cur, max);
    }
    forall i | 0 <= i < |t.moves|
      ensures rs[i] == MiniMaxResult(Some(t.moves[i]), FindBest(t.children[i], cur + 1, max).score)
    {
    }
    var r := FindBest(t, cur, max);
    assert r.mv == Some(t.moves[k]) && r.score == FindBest(t.children[k], cur + 1, max).score;
  }

  /** `find_best` computes the minimax value of the tree. */
  lemma {:induction false} FindBestIsMinimax(t: Tree, cur: nat, max: nat)
    requires WellFormed(t)
    ensures FindBest(t, cur, max).score == Value(t, cur, max)
    decreases t
  {
    if cur != max && t.moves != [] {
      forall i | 0 <= i < |t.children|
        ensures FindBest(t.children[i], cur + 1, max).score == Value(t.children[i], cur + 1, max)
      {
        FindBestIsMinimax(t.children[i], cur + 1, max);
      }
      var vs := seq(|t.children|, i requires 0 <= i < |t.children| => Value(t.children[i], cur + 1, max));
      FindBestChoice(t, cur, max);
      var r := FindBest(t, cur, max);
      var k :| 0 <= k < |t.moves| && r.score == FindBest(t.children[k], cur + 1, max).score;
      assert vs[k] == r.score;
      if t.pos.turn == White {
        MaxOfMeaning(vs);
        assert Value(t, cur, max) == MaxOf(vs);
        var m :| 0 <= m < |vs| && vs[m] == MaxOf(vs);
        assert vs[m] <= r.score;
      } else {
        MinOfMeaning(vs);
        assert Value(t, cur, max) == MinOf(vs);
        var m :| 0 <= m < |vs| && vs[m] == MinOf(vs);
        assert r.score <= vs[m];
      }
    }
  }

  /** Results are ordered and equal by their scores alone, whatever their moves. */
  lemma CompareByScore(a: MiniMaxResult, b: MiniMaxResult)
    ensures Compare(a, b) == 0 <==> a.score == b.score
    ensures Compare(a, b) == -Compare(b, a)
    ensures Compare(a, b) == -1 <==> a.score < b.score
  {
  }
}
