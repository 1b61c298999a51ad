/** `CutDepthAI` of `src/ai/cut_dfs.rs`: negamax that looks only at the
    `width` children the evaluator ranks best, the ranking being a stable
    sort by the negated evaluation; the best negated child result starts
    at `i32::MIN`. Evaluations are `i32` and negation wraps as in
    `Neg32`. */
module CutSearch {
  import opened Basics
  import opened Scores
  import opened Negamax
  import opened KeySort
  import opened Pick

  /** Evaluations are `i32` values. */
  ghost predicate Evals32<T(!new)>(g: Tree<T>)
  {
    forall t :: IsI32(g.eval(t))
  }

  /** The sort key: the negated evaluation. */
  function Rank<T(!new)>(g: Tree<T>, t: T): int
    requires Evals32(g)
  {
    Neg32(g.eval(t))
  }

  function RankKey<T(!new)>(g: Tree<T>): T -> int
    requires Evals32(g)
  {
    x => Rank(g, x)
  }

  /** The children in ranked order, the first `width` of them. */
  function Ranked<T(!new)>(g: Tree<T>, t: T, width: nat): seq<T>
    requires Evals32(g)
  {
    var sorted := Sort(g.children(t), RankKey(g));
    if |sorted| <= width then sorted else sorted[..width]
  }

  /** `search`. */
  function Search<T(!new)>(g: Tree<T>, t: T, depth: nat, width: nat): (r: int)
    requires Evals32(g)
    ensures IsI32(r)
    decreases depth, 1
  {
    if depth == 0 || g.finished(t) then g.eval(t)
    else Loop(g, Ranked(g, t, width), depth - 1, width, I32_MIN)
  }

  /** The loop over the ranked children. */
  function Loop<T(!new)>(g: Tree<T>, s: seq<T>, depth: nat, width: nat, best: int): (r: int)
    requires Evals32(g) && IsI32(best)
    ensures IsI32(r) && r >= best
    decreases depth + 1, 0, |s|
  {
    if |s| == 0 then best
    else
      var v := Neg32(Search(g, s[0], depth, width));
      Loop(g, s[1..], depth, width, if v > best then v else best)
  }

  /** The loop is the largest of `best` and every negated child result. */
  lemma {:induction false} LoopIsMax<T(!new)>(g: Tree<T>, s: seq<T>, depth: nat, width: nat, best: int)
    requires Evals32(g) && IsI32(best)
    ensures var r := Loop(g, s, depth, width, best);
      && (forall i :: 0 <= i < |s| ==> Neg32(Search(g, s[i], depth, width)) <= r)
      && (r == best || exists i :: 0 <= i < |s| && r == Neg32(Search(g, s[i], depth, width)))
    decreases |s|
  {
    if |s| > 0 {
      var v := Neg32(Search(g, s[0], depth, width));
      var next := if v > best then v else best;
      LoopIsMax(g, s[1..], depth, width, next);
      assert forall i :: 1 <= i < |s| ==> s[i] == s[1..][i - 1];
    }
  }

  /** Once every child's result is exact and within `+-i32::MAX`, the
      loop from `i32::MIN` is the best negated child value. */
  lemma LoopIsBest<T(!new)>(g: Tree<T>, s: seq<T>, depth: nat, width: nat)
    requires Evals32(g) && |s| > 0
    requires forall i :: 0 <= i < |s| ==>
      Search(g, s[i], depth, width) == Value(g, s[i], depth) && -I32_MAX <= Value(g, s[i], depth) <= I32_MAX
    ensures Loop(g, s, depth, width, I32_MIN) == Best(g, s, depth)
  {
    LoopIsMax(g, s, depth, width, I32_MIN);
    BestIsMax(g, s, depth);
    var r := Loop(g, s, depth, width, I32_MIN);
    var i :| 0 <= i < |s| && Best(g, s, depth) == -Value(g, s[i], depth);
    assert Neg32(Search(g, s[i], depth, width)) == -Value(g, s[i], depth);
    if r != I32_MIN {
      var j :| 0 <= j < |s| && r == Neg32(Search(g, s[j], depth, width));
      assert r == -Value(g, s[j], depth);
    }
  }

  /** With the width covering all children, ranking only reorders them. */
  lemma RankedKeepsChildren<T(!new)>(g: Tree<T>, t: T, width: nat)
    requires Evals32(g) && |g.children(t)| <= width
    ensures forall x :: x in Ranked(g, t, width) <==> x in g.children(t)
  {
    var s := Ranked(g, t, width);
    var kids := g.children(t);
    SortIsStable(kids, RankKey(g));
    assert |multiset(Sort(kids, RankKey(g)))| == |multiset(kids)|;
    assert s == Sort(kids, RankKey(g));
    forall x
      ensures x in s <==> x in kids
    {
      assert x in s <==> x in multiset(s);
      assert x in kids <==> x in multiset(kids);
    }
  }

  /** When every position has a move, evaluations stay within
      `+-i32::MAX`, and the width covers every child list, cutting loses
      nothing: the search is negamax. */
  lemma {:induction false} SearchIsNegamax<T(!new)>(g: Tree<T>, t: T, depth: nat, width: nat)
    requires Evals32(g) && g.Proper() && g.Bounded(I32_MAX)
    requires forall x :: |g.children(x)| <= width
    ensures Search(g, t, depth, width) == Value(g, t, depth)
    decreases depth, 1
  {
    if depth > 0 && !g.finished(t) {
      assert 0 < |g.children(t)| <= width;
      ChildrenExact(g, Ranked(g, t, width), depth - 1, width);
      InnerExact(g, t, depth, width);
    }
  }

  /** One level of the induction: exact children make the node exact. */
  lemma InnerExact<T(!new)>(g: Tree<T>, t: T, depth: nat, width: nat)
    requires Evals32(g) && depth > 0 && !g.finished(t) && 0 < |g.children(t)| <= width
    requires var s := Ranked(g, t, width);
      forall i :: 0 <= i < |s| ==>
        Search(g, s[i], depth - 1, width) == Value(g, s[i], depth - 1) &&
        -I32_MAX <= Value(g, s[i], depth - 1) <= I32_MAX
    ensures Search(g, t, depth, width) == Value(g, t, depth)
  {
    var s := Ranked(g, t, width);
    var kids := g.children(t);
    LoopIsBest(g, s, depth - 1, width);
    RankedKeepsChildren(g, t, width);
    BestOrderFree(g, s, kids, depth - 1);
    assert Search(g, t, depth, width) == Loop(g, s, depth - 1, width, I32_MIN);
    assert Value(g, t, depth) == Best(g, kids, depth - 1);
  }

  lemma {:induction false} ChildrenExact<T(!new)>(g: Tree<T>, s: seq<T>, depth: nat, width: nat)
    requires Evals32(g) && g.Proper() && g.Bounded(I32_MAX)
    requires forall x :: |g.children(x)| <= width
    ensures forall i :: 0 <= i < |s| ==>
      Search(g, s[i], depth, width) == Value(g, s[i], depth) && -I32_MAX <= Value(g, s[i], depth) <= I32_MAX
    decreases depth + 1, 0
  {
    forall i | 0 <= i < |s|
      ensures Search(g, s[i], depth, width) == Value(g, s[i], depth)
      ensures -I32_MAX <= Value(g, s[i], depth) <= I32_MAX
    {
      SearchIsNegamax(g, s[i], depth, width);
      ValueBounded(g, s[i], depth, I32_MAX);
    }
  }

  /** `think`: the only move list when there is one, and otherwise the
      first list with the largest negated search result, starting from
      `i32::MIN` and an empty list. */
  function Think<T(!new)>(g: Tree<T>, cands: seq<(T, seq<nat>)>, depth: nat, width: nat): seq<nat>
    requires Evals32(g)
  {
    if |cands| == 1 then cands[0].1
    else StrictPick(Scored(g, cands, depth, width), I32_MIN, []).1
  }

  function Scored<T(!new)>(g: Tree<T>, cands: seq<(T, seq<nat>)>, depth: nat, width: nat): (r: seq<(int, seq<nat>)>)
    requires Evals32(g)
    ensures |r| == |cands|
    ensures forall i :: 0 <= i < |cands| ==> r[i] == (Neg32(Search(g, cands[i].0, depth, width)), cands[i].1)
  {
    seq(|cands|, i requires 0 <= i < |cands| => (Neg32(Search(g, cands[i].0, depth, width)), cands[i].1))
  }

  /** What `think` returns: nothing without candidates, the only list with
      one, and otherwise the list of the first candidate whose negated
      search result is the largest, provided some result beats
      `i32::MIN`; if none does, the empty list. */
  lemma ThinkChoosesBest<T(!new)>(g: Tree<T>, cands: seq<(T, seq<nat>)>, depth: nat, width: nat)
    requires Evals32(g)
    ensures |cands| == 0 ==> Think(g, cands, depth, width) == []
    ensures |cands| == 1 ==> Think(g, cands, depth, width) == cands[0].1
    ensures |cands| > 1 ==>
      var sc := Scored(g, cands, depth, width);
      || (Think(g, cands, depth, width) == [] && forall j :: 0 <= j < |cands| ==> sc[j].0 == I32_MIN)
      || (exists i :: 0 <= i < |cands| && Think(g, cands, depth, width) == cands[i].1 &&
            (forall j :: 0 <= j < |cands| ==> sc[j].0 <= sc[i].0) &&
            (forall j :: 0 <= j < i ==> sc[j].0 < sc[i].0))
  {
    if |cands| > 1 {
      StrictPickIsFirstMax(Scored(g, cands, depth, width), I32_MIN, []);
    }
  }
}
