/** `DepthSearcher::sow` of `src/ai/depth_search.rs`: every complete turn
    (position reached, move list) is scored by an alpha-beta search of the
    position reached, with the window `(MIN, flip(best))` narrowing as the
    best score rises, and the move list of the best strict improvement is
    kept; a single candidate is returned without a search. */
module DepthSearch {
  import opened Scores
  import opened Negamax
  import opened Pick

  /** The candidate loop, from the best score and list so far. */
  function Choose<T(!new)>(g: Tree<T>, cands: seq<(T, seq<nat>)>, depth: nat, best: int, chosen: seq<nat>): (int, seq<nat>)
    decreases |cands|
  {
    if |cands| == 0 then (best, chosen)
    else
      var s := -AlphaBeta(g, cands[0].0, depth, MIN32, -best);
      if s > best then Choose(g, cands[1..], depth, s, cands[0].1)
      else Choose(g, cands[1..], depth, best, chosen)
  }

  function Sow<T(!new)>(g: Tree<T>, cands: seq<(T, seq<nat>)>, depth: nat): seq<nat>
  {
    if |cands| == 1 then cands[0].1
    else Choose(g, cands, depth, MIN32, []).1
  }

  /** Each candidate with its exact score: the negated negamax value of the
      position it reaches. */
  function Exact<T(!new)>(g: Tree<T>, cands: seq<(T, seq<nat>)>, depth: nat): (r: seq<(int, seq<nat>)>)
    ensures |r| == |cands|
    ensures forall i :: 0 <= i < |cands| ==> r[i] == (-Value(g, cands[i].0, depth), cands[i].1)
  {
    seq(|cands|, i requires 0 <= i < |cands| => (-Value(g, cands[i].0, depth), cands[i].1))
  }

  /** Every value lies strictly above `MIN` and below `i32::MAX`. */
  predicate Searchable<T(!new)>(g: Tree<T>, cands: seq<(T, seq<nat>)>, depth: nat)
  {
    forall i :: 0 <= i < |cands| ==> MIN32 < Value(g, cands[i].0, depth) < I32_MAX
  }

  /** The narrowing windows lose nothing: the loop makes the same choice as
      the strict-improvement choice over exact scores. */
  lemma {:induction false} ChooseIsExact<T(!new)>(g: Tree<T>, cands: seq<(T, seq<nat>)>, depth: nat, best: int, chosen: seq<nat>)
    requires MIN32 <= best < I32_MAX && Searchable(g, cands, depth)
    ensures Choose(g, cands, depth, best, chosen) == StrictPick(Exact(g, cands, depth), best, chosen)
    decreases |cands|
  {
    if |cands| > 0 {
      var v := Value(g, cands[0].0, depth);
      AlphaBetaWindow(g, cands[0].0, depth, MIN32, -best);
      var s := -AlphaBeta(g, cands[0].0, depth, MIN32, -best);
      var e := Exact(g, cands, depth);
      assert Exact(g, cands[1..], depth) == e[1..];
      assert e[0] == (-v, cands[0].1);
      assert s > best <==> -v > best;
      if s > best {
        assert s == -v;
      }
      var next := if s > best then s else best;
      ChooseIsExact(g, cands[1..], depth, next, if s > best then cands[0].1 else chosen);
    }
  }

  /** What `sow` returns: nothing without candidates, the only list when
      there is one, and otherwise the list of the first candidate whose
      exact score is the largest. */
  lemma SowChoosesBest<T(!new)>(g: Tree<T>, cands: seq<(T, seq<nat>)>, depth: nat)
    requires Searchable(g, cands, depth)
    ensures |cands| == 0 ==> Sow(g, cands, depth) == []
    ensures |cands| == 1 ==> Sow(g, cands, depth) == cands[0].1
    ensures |cands| > 1 ==>
      (exists i :: 0 <= i < |cands| && Sow(g, cands, depth) == cands[i].1 &&
        (forall j :: 0 <= j < |cands| ==> -Value(g, cands[j].0, depth) <= -Value(g, cands[i].0, depth)) &&
        (forall j :: 0 <= j < i ==> -Value(g, cands[j].0, depth) < -Value(g, cands[i].0, depth)))
  {
    if |cands| > 1 {
      ChooseIsExact(g, cands, depth, MIN32, []);
      var e := Exact(g, cands, depth);
      StrictPickIsFirstMax(e, MIN32, []);
      assert e[0].0 > MIN32;
    }
  }
}
