/** `get_suggest` of `src/ai/simple.rs`: for each first pit, the best score
    among the complete turns that start with it, each turn scored by the
    negated alpha-beta search (the file's own copy of `ab_search`) with the
    window `(-10000, 10000)`; `None` for a pit no turn starts with. */
module Suggest {
  import opened Basics
  import opened Sowing
  import opened Negamax

  const WINDOW: int := 10000

  /** The score of one candidate turn. */
  function Score<T(!new)>(g: Tree<T>, c: (T, seq<nat>), depth: nat): int
  {
    -AlphaBeta(g, c.0, depth, -WINDOW, WINDOW)
  }

  /** Every candidate names a first pit on the board. */
  predicate Starts<T>(cands: seq<(T, seq<nat>)>)
  {
    forall i :: 0 <= i < |cands| ==> |cands[i].1| > 0 && cands[i].1[0] < PIT
  }

  /** `ret` holds, for every pit, the best score among the first `n`
      candidates starting there. */
  predicate Table<T(!new)>(g: Tree<T>, cands: seq<(T, seq<nat>)>, depth: nat, n: nat, ret: seq<Option<int>>)
    requires Starts(cands) && n <= |cands|
  {
    && |ret| == PIT
    && (forall p :: 0 <= p < PIT ==> (ret[p].None? <==> forall i :: 0 <= i < n ==> cands[i].1[0] != p))
    && (forall p, i :: 0 <= p < PIT && 0 <= i < n && cands[i].1[0] == p && ret[p].Some? ==>
          Score(g, cands[i], depth) <= ret[p].value)
    && (forall p :: 0 <= p < PIT && ret[p].Some? ==>
          exists i :: 0 <= i < n && cands[i].1[0] == p && ret[p].value == Score(g, cands[i], depth))
  }

  /** One candidate recorded: its score replaces the pit's entry when
      there is none or the entry is smaller. */
  function Record(ret: seq<Option<int>>, pos: nat, s: int): seq<Option<int>>
    requires pos < |ret|
  {
    if ret[pos].None? || ret[pos].value < s then ret[pos := Some(s)] else ret
  }

  lemma TableStep<T(!new)>(g: Tree<T>, cands: seq<(T, seq<nat>)>, depth: nat, n: nat, ret: seq<Option<int>>)
    requires Starts(cands) && n < |cands| && Table(g, cands, depth, n, ret)
    ensures Table(g, cands, depth, n + 1, Record(ret, cands[n].1[0], Score(g, cands[n], depth)))
  {
    var pos := cands[n].1[0];
    var s := Score(g, cands[n], depth);
    var r := Record(ret, pos, s);
    forall p | 0 <= p < PIT && r[p].Some?
      ensures exists i :: 0 <= i < n + 1 && cands[i].1[0] == p && r[p].value == Score(g, cands[i], depth)
    {
      if p != pos || r[pos] == ret[pos] {
        var i :| 0 <= i < n && cands[i].1[0] == p && ret[p].value == Score(g, cands[i], depth);
      } else {
        assert cands[n].1[0] == p && r[p].value == Score(g, cands[n], depth);
      }
    }
  }

  method GetSuggest<T(!new)>(g: Tree<T>, cands: seq<(T, seq<nat>)>, depth: nat) returns (ret: seq<Option<int>>)
    requires Starts(cands)
    ensures Table(g, cands, depth, |cands|, ret)
  {
    ret := seq(PIT, _ => None);
    var n := 0;
    while n < |cands|
      invariant n <= |cands| && Table(g, cands, depth, n, ret)
    {
      var s := Score(g, cands[n], depth);
      var pos := cands[n].1[0];
      ghost var old_ret := ret;
      match ret[pos] {
        case None =>
          ret := ret[pos := Some(s)];
        case Some(best) =>
          if best < s {
            ret := ret[pos := Some(s)];
          }
      }
      assert ret == Record(old_ret, pos, s);
      TableStep(g, cands, depth, n, old_ret);
      n := n + 1;
    }
  }

  /** A score inside the window is exact: the negated negamax value. */
  lemma ScoreIsExact<T(!new)>(g: Tree<T>, c: (T, seq<nat>), depth: nat)
    requires -WINDOW < Value(g, c.0, depth) < WINDOW
    ensures Score(g, c, depth) == -Value(g, c.0, depth)
  {
    AlphaBetaWindow(g, c.0, depth, -WINDOW, WINDOW);
  }
}
