/** The move choice shared by the searchers of `src/ai/depth_search.rs` and
    `src/ai/cut_dfs.rs`: walk the candidate move lists in the order the
    position map yields them and keep a list whenever its score is strictly
    larger than the best so far. */
module Pick {

  function StrictPick<L>(c: seq<(int, L)>, best: int, chosen: L): (int, L)
    decreases |c|
  {
    if |c| == 0 then (best, chosen)
    else if c[0].0 > best then StrictPick(c[1..], c[0].0, c[0].1)
    else StrictPick(c[1..], best, chosen)
  }

  /** The result is the largest score (or the starting best if none beats
      it); when some candidate beats the start, the list kept is that of the
      first candidate reaching the largest score, and otherwise the starting
      list. */
  lemma {:induction false} StrictPickIsFirstMax<L>(c: seq<(int, L)>, best: int, chosen: L)
    ensures var r := StrictPick(c, best, chosen);
      && r.0 >= best
      && (forall i :: 0 <= i < |c| ==> c[i].0 <= r.0)
      && (r.0 == best ==> r.1 == chosen)
      && (r.0 > best ==> exists i :: 0 <= i < |c| && c[i].0 == r.0 && r.1 == c[i].1
                                      && forall j :: 0 <= j < i ==> c[j].0 < r.0)
    decreases |c|
  {
    if |c| > 0 {
      var start := if c[0].0 > best then c[0].0 else best;
      var list := if c[0].0 > best then c[0].1 else chosen;
      StrictPickIsFirstMax(c[1..], start, list);
      assert forall i :: 1 <= i < |c| ==> c[i] == c[1..][i - 1];
      var r := StrictPick(c, best, chosen);
      assert r == StrictPick(c[1..], start, list);
      if r.0 > start {
        var i :| 0 <= i < |c| - 1 && c[1..][i].0 == r.0 && r.1 == c[1..][i].1
                 && forall j :: 0 <= j < i ==> c[1..][j].0 < r.0;
        assert c[i + 1].0 == r.0 && r.1 == c[i + 1].1;
        assert forall j :: 0 <= j < i + 1 ==> c[j].0 < r.0;
      } else if r.0 > best {
        assert c[0].0 == r.0 && r.1 == c[0].1;
      }
    }
  }
}
