/** Depth-limited negamax and the alpha-beta search of `src/ai/utils.rs`
    (and its copy in `src/ai/simple.rs`), over any game tree: positions of
    some type `T`, a finished test, the children in the order the search
    enumerates them, and an evaluation from the point of view of the side
    to move. Every statement here holds for every enumeration order. */
module Negamax {
  import opened Basics
  import opened Scores

  datatype Tree<!T(!new)> = Tree(finished: T -> bool, children: T -> seq<T>, eval: T -> int) {

    /** Every position that is not over has a move, as `list_next`
        guarantees for the boards of `src/board.rs`. */
    ghost predicate Proper()
    {
      forall t :: !finished(t) ==> |children(t)| > 0
    }

    /** Every evaluation lies in `[-m, m]`. */
    ghost predicate Bounded(m: int)
    {
      forall t :: -m <= eval(t) <= m
    }
  }

  /** The negamax value of `t` searched `depth` plies deep: the evaluation
      at depth 0 or on a finished position, otherwise the best negated
      value of a child. A position that is not over but has no child is
      worth `i32::MIN`, the "no move" value of the width-cut search. */
  function Value<T(!new)>(g: Tree<T>, t: T, depth: nat): int
    decreases depth, 1
  {
    if depth == 0 || g.finished(t) then g.eval(t)
    else if |g.children(t)| == 0 then I32_MIN
    else Best(g, g.children(t), depth - 1)
  }

  /** The largest negated value among `s`, from the first child on. */
  function Best<T(!new)>(g: Tree<T>, s: seq<T>, depth: nat): int
    requires |s| > 0
    decreases depth + 1, 0, |s|
  {
    if |s| == 1 then -Value(g, s[0], depth)
    else Max(-Value(g, s[0], depth), Best(g, s[1..], depth))
  }

  /** `Best` is the maximum: no child's negated value exceeds it, and some
      child's equals it. */
  lemma {:induction false} BestIsMax<T(!new)>(g: Tree<T>, s: seq<T>, depth: nat)
    requires |s| > 0
    ensures forall i :: 0 <= i < |s| ==> -Value(g, s[i], depth) <= Best(g, s, depth)
    ensures exists i :: 0 <= i < |s| && Best(g, s, depth) == -Value(g, s[i], depth)
    decreases |s|
  {
    if |s| > 1 {
      BestIsMax(g, s[1..], depth);
      assert forall i :: 1 <= i < |s| ==> s[i] == s[1..][i - 1];
      var j :| 0 <= j < |s| - 1 && Best(g, s[1..], depth) == -Value(g, s[1..][j], depth);
      if Best(g, s, depth) != -Value(g, s[0], depth) {
        assert Best(g, s, depth) == -Value(g, s[j + 1], depth);
      }
    }
  }

  /** The best negated value depends only on which children there are, not
      on the order they are listed in. */
  lemma BestOrderFree<T(!new)>(g: Tree<T>, s: seq<T>, u: seq<T>, depth: nat)
    requires |s| > 0 && |u| > 0
    requires forall x :: x in s <==> x in u
    ensures Best(g, s, depth) == Best(g, u, depth)
  {
    BestIsMax(g, s, depth);
    BestIsMax(g, u, depth);
    var i :| 0 <= i < |s| && Best(g, s, depth) == -Value(g, s[i], depth);
    var j :| 0 <= j < |u| && Best(g, u, depth) == -Value(g, u[j], depth);
    assert s[i] in u;
    assert u[j] in s;
  }

  /** With evaluations in `[-m, m]` and a move wherever the game goes on,
      every value stays in `[-m, m]`. */
  lemma {:induction false} ValueBounded<T(!new)>(g: Tree<T>, t: T, depth: nat, m: int)
    requires g.Proper() && g.Bounded(m)
    ensures -m <= Value(g, t, depth) <= m
    decreases depth, 1
  {
    if depth > 0 && !g.finished(t) {
      BestBounded(g, g.children(t), depth - 1, m);
    }
  }

  lemma {:induction false} BestBounded<T(!new)>(g: Tree<T>, s: seq<T>, depth: nat, m: int)
    requires g.Proper() && g.Bounded(m) && |s| > 0
    ensures -m <= Best(g, s, depth) <= m
    decreases depth + 1, 0, |s|
  {
    ValueBounded(g, s[0], depth, m);
    if |s| > 1 {
      BestBounded(g, s[1..], depth, m);
    }
  }

  // ---------------------------------------------------------------------
  // `ab_search`

  /** `ab_search`: the evaluation at depth 0 or on a finished position,
      otherwise the scan of the children with the window `(alpha, beta)`. */
  function AlphaBeta<T(!new)>(g: Tree<T>, t: T, depth: nat, alpha: int, beta: int): int
    decreases depth, 1
  {
    if depth == 0 || g.finished(t) then g.eval(t)
    else Scan(g, g.children(t), depth - 1, alpha, beta)
  }

  /** The loop over the children: each is searched one ply less deep with
      the window `(-beta, -alpha)` as `alpha` has risen so far, its result
      negated; `alpha` takes any larger result, and the loop stops once
      `alpha >= beta`. The result never falls below the `alpha` given. */
  function Scan<T(!new)>(g: Tree<T>, s: seq<T>, depth: nat, alpha: int, beta: int): (r: int)
    ensures r >= alpha
    decreases depth + 1, 0, |s|
  {
    if |s| == 0 then alpha
    else
      var a := -AlphaBeta(g, s[0], depth, -beta, -alpha);
      var raised := if a > alpha then a else alpha;
      if raised >= beta then raised else Scan(g, s[1..], depth, raised, beta)
  }

  /** The window theorem of alpha-beta against negamax: inside the window
      the search is exact, below it the result is at most `alpha`, above it
      at least `beta`. */
  lemma {:induction false} AlphaBetaWindow<T(!new)>(g: Tree<T>, t: T, depth: nat, alpha: int, beta: int)
    requires I32_MIN <= alpha < beta <= -I32_MIN
    ensures var v := Value(g, t, depth);
      var r := AlphaBeta(g, t, depth, alpha, beta);
      && (alpha < v < beta ==> r == v)
      && (v <= alpha ==> r <= alpha)
      && (v >= beta ==> r >= beta)
    decreases depth, 1
  {
    if depth > 0 && !g.finished(t) {
      ScanWindow(g, g.children(t), depth - 1, alpha, beta);
    }
  }

  /** The window theorem for the loop, against the best negated child
      value; here the result below the window is `alpha` exactly. */
  lemma {:induction false} ScanWindow<T(!new)>(g: Tree<T>, s: seq<T>, depth: nat, alpha: int, beta: int)
    requires I32_MIN <= alpha < beta <= -I32_MIN
    ensures var r := Scan(g, s, depth, alpha, beta);
      if |s| == 0 then r == alpha
      else
        var m := Best(g, s, depth);
        && (alpha < m < beta ==> r == m)
        && (m <= alpha ==> r == alpha)
        && (m >= beta ==> r >= beta)
    decreases depth + 1, 0, |s|
  {
    if |s| > 0 {
      AlphaBetaWindow(g, s[0], depth, -beta, -alpha);
      var a := -AlphaBeta(g, s[0], depth, -beta, -alpha);
      var raised := if a > alpha then a else alpha;
      if raised < beta && |s| > 1 {
        ScanWindow(g, s[1..], depth, raised, beta);
      }
    }
  }

  /** On a position that is searched (depth left, not finished) the result
      is at least `alpha`, and is `alpha` exactly when no child's negated
      value exceeds `alpha`. */
  lemma AlphaBetaFailHard<T(!new)>(g: Tree<T>, t: T, depth: nat, alpha: int, beta: int)
    requires I32_MIN <= alpha < beta <= -I32_MIN && depth > 0 && !g.finished(t)
    ensures AlphaBeta(g, t, depth, alpha, beta) >= alpha
    ensures AlphaBeta(g, t, depth, alpha, beta) == alpha <==>
      forall i :: 0 <= i < |g.children(t)| ==> -Value(g, g.children(t)[i], depth - 1) <= alpha
  {
    AlphaBetaWindow(g, t, depth, alpha, beta);
    if |g.children(t)| > 0 {
      BestIsMax(g, g.children(t), depth - 1);
    }
  }

  /** Once the window has closed no later child is looked at: children
      appended after a cut change nothing. */
  lemma {:induction false} ScanCutoff<T(!new)>(g: Tree<T>, s: seq<T>, extra: seq<T>, depth: nat, alpha: int, beta: int)
    requires alpha < beta && Scan(g, s, depth, alpha, beta) >= beta
    ensures Scan(g, s + extra, depth, alpha, beta) == Scan(g, s, depth, alpha, beta)
    decreases |s|
  {
    assert |s| > 0;
    assert (s + extra)[0] == s[0];
    var a := -AlphaBeta(g, s[0], depth, -beta, -alpha);
    var raised := if a > alpha then a else alpha;
    if raised < beta {
      assert (s + extra)[1..] == s[1..] + extra;
      ScanCutoff(g, s[1..], extra, depth, raised, beta);
    }
  }

  /** With evaluations and window inside `[-i32::MAX, i32::MAX]` every
      result stays there, so none of the negations overflows `i32`. */
  lemma {:induction false} AlphaBetaInRange<T(!new)>(g: Tree<T>, t: T, depth: nat, alpha: int, beta: int)
    requires g.Bounded(I32_MAX) && -I32_MAX <= alpha <= I32_MAX && -I32_MAX <= beta <= I32_MAX
    ensures -I32_MAX <= AlphaBeta(g, t, depth, alpha, beta) <= I32_MAX
    decreases depth, 1
  {
    if depth > 0 && !g.finished(t) {
      ScanInRange(g, g.children(t), depth - 1, alpha, beta);
    }
  }

  lemma {:induction false} ScanInRange<T(!new)>(g: Tree<T>, s: seq<T>, depth: nat, alpha: int, beta: int)
    requires g.Bounded(I32_MAX) && -I32_MAX <= alpha <= I32_MAX && -I32_MAX <= beta <= I32_MAX
    ensures -I32_MAX <= Scan(g, s, depth, alpha, beta) <= I32_MAX
    decreases depth + 1, 0, |s|
  {
    if |s| > 0 {
      AlphaBetaInRange(g, s[0], depth, -beta, -alpha);
      var a := -AlphaBeta(g, s[0], depth, -beta, -alpha);
      var raised := if a > alpha then a else alpha;
      if raised < beta {
        ScanInRange(g, s[1..], depth, raised, beta);
      }
    }
  }
}
