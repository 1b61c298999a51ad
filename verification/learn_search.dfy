/** `search` of `src/learn/search.rs`: the exhaustive solver that fills the
    learning table. The table maps a position key (`compact_key`) to the
    final-score difference still to come for the side to move, and the
    number of plies to the end along the best line; the banked scores are
    left out of the key and added back on every lookup. The children are
    visited in the order `order` gives (`list_next` in the source); scores
    are unbounded integers here. */
module LearnSearch {
  import opened Basics
  import opened Sowing
  import opened Kalah
  import opened CompactKey

  /** A table entry: the score still to come and the plies to the end. */
  datatype Entry = Entry(score: int, depth: nat)

  /** A table key: a `compact_key` value. Wrapped in a datatype because
      the verifier reasons poorly about maps keyed directly by
      bit-vectors. */
  datatype TableKey = TableKey(bits: bv64)

  type Table = map<TableKey, Entry>

  function KeyOf(b: Board): TableKey
    requires b.Valid()
  {
    TableKey(Key(b))
  }

  /** `raw_scores`: the banked difference for the side to move. */
  function RawScores(b: Board): int
  {
    b.Score()
  }

  /** `seed_scores`: the side to move's row against the opponent's. */
  function SeedScores(b: Board): int
  {
    Sum(b.SelfSeeds()) - Sum(b.OppositeSeeds())
  }

  /** Banked plus unbanked is the final-score difference. */
  lemma RawPlusSeeds(b: Board)
    ensures RawScores(b) + SeedScores(b) == b.LastScore()
  {
    LastScoresShare(b);
  }

  /** Every board the enumeration gives for a well-formed board is
      well-formed. */
  ghost predicate Enumerates(order: Board -> seq<Board>)
  {
    forall c: Board :: c.Valid() ==> AllValid(order(c))
  }

  /** The enumeration lists exactly the boards `list_next` returns. */
  ghost predicate ListsNext(order: Board -> seq<Board>)
  {
    forall c: Board :: c.Valid() ==> forall x :: x in order(c) <==> x in ListNext(c)
  }

  /** Enumerating `list_next` meets the solver's requirement. */
  lemma ListsNextEnumerates(order: Board -> seq<Board>)
    requires ListsNext(order)
    ensures Enumerates(order)
  {
    forall c: Board | c.Valid()
      ensures AllValid(order(c))
    {
      forall i | 0 <= i < |order(c)|
        ensures order(c)[i].Valid()
      {
        assert order(c)[i] in ListNext(c);
        ExpandKeeps(c, order(c)[i]);
      }
    }
  }

  /** The running best of the children loop: a larger negated score
      replaces the best and its depth; an equal one keeps the smaller
      depth. */
  function Fold(rs: seq<Entry>, best: int, bestDepth: nat): (int, nat)
    decreases |rs|
  {
    if |rs| == 0 then (best, bestDepth)
    else
      var s := -rs[0].score;
      var d := rs[0].depth + 1;
      if s > best then Fold(rs[1..], s, d)
      else if s == best && bestDepth > d then Fold(rs[1..], best, d)
      else Fold(rs[1..], best, bestDepth)
  }

  /** `search`: a table hit answers at once; a finished board is recorded
      with its unbanked difference and depth 0; depth 0 gives up; otherwise
      every child is solved one ply less deep (giving up as soon as one
      does) and the best negated result is recorded relative to the banked
      scores. */
  function Search(data: Table, b: Board, depth: nat, order: Board -> seq<Board>): (Option<Entry>, Table)
    requires b.Valid() && Enumerates(order)
    decreases depth, 2
  {
    var key := KeyOf(b);
    if key in data then (Some(Entry(RawScores(b) + data[key].score, data[key].depth)), data)
    else if b.IsFinished() then
      (Some(Entry(RawScores(b) + SeedScores(b), 0)), data[key := Entry(SeedScores(b), 0)])
    else if depth == 0 then (None, data)
    else Solve(data, b, depth, order)
  }

  /** The loop over the children of a board not in the table, and the
      record of its result. */
  function Solve(data: Table, b: Board, depth: nat, order: Board -> seq<Board>): (Option<Entry>, Table)
    requires b.Valid() && Enumerates(order) && depth > 0
    decreases depth, 1
  {
    var c := Collect(data, order(b), depth - 1, order);
    if c.0.None? then (None, c.1)
    else
      var best := Fold(c.0.value, -128, 127);
      (Some(Entry(best.0, best.1)), c.1[KeyOf(b) := Entry(best.0 - RawScores(b), best.1)])
  }

  /** The children's results in order, the table threaded through; `None`
      at the first child that gives up. */
  function Collect(data: Table, s: seq<Board>, depth: nat, order: Board -> seq<Board>): (Option<seq<Entry>>, Table)
    requires AllValid(s) && Enumerates(order)
    decreases depth + 1, 0, |s|
  {
    if |s| == 0 then (Some([]), data)
    else
      var a := Search(data, s[0], depth, order);
      if a.0.None? then (None, a.1)
      else
        var rest := Collect(a.1, s[1..], depth, order);
        if rest.0.None? then (None, rest.1)
        else (Some([a.0.value] + rest.0.value), rest.1)
  }

  /** The fold is the best negated child score (never below the start),
      and its depth is one more than the smallest child depth among the
      children reaching that score, or the start depth if the start score
      is never beaten and that depth is smaller. */
  lemma {:induction false} FoldIsBest(rs: seq<Entry>, best: int, bestDepth: nat)
    ensures var r := Fold(rs, best, bestDepth);
      && r.0 >= best
      && (forall i :: 0 <= i < |rs| ==> -rs[i].score <= r.0)
      && (r.0 == best || exists i :: 0 <= i < |rs| && -rs[i].score == r.0)
      && (forall i :: 0 <= i < |rs| && -rs[i].score == r.0 ==> r.1 <= rs[i].depth + 1)
      && (r.0 == best ==> r.1 <= bestDepth)
      && ((r.0 == best && r.1 == bestDepth) ||
          exists i :: 0 <= i < |rs| && -rs[i].score == r.0 && r.1 == rs[i].depth + 1)
    decreases |rs|
  {
    if |rs| > 0 {
      var s := -rs[0].score;
      var d := rs[0].depth + 1;
      var b1 := if s > best then s else best;
      var d1 := if s > best then d else if s == best && bestDepth > d then d else bestDepth;
      FoldIsBest(rs[1..], b1, d1);
      assert forall i :: 1 <= i < |rs| ==> rs[i] == rs[1..][i - 1];
      var r := Fold(rs, best, bestDepth);
      assert r == Fold(rs[1..], b1, d1);
      if r.0 != b1 || r.1 != d1 {
        var i :| 0 <= i < |rs| - 1 && -rs[1..][i].score == r.0 && r.1 == rs[1..][i].depth + 1;
        assert -rs[i + 1].score == r.0 && r.1 == rs[i + 1].depth + 1;
      }
      if r.0 != best {
        if r.0 == b1 {
          assert -rs[0].score == r.0;
        } else {
          var i :| 0 <= i < |rs| - 1 && -rs[1..][i].score == r.0;
          assert -rs[i + 1].score == r.0;
        }
      }
    }
  }

  /** Solving never forgets: every key in the table before is there after,
      with the same entry. */
  lemma {:induction false} SearchKeepsTable(data: Table, b: Board, depth: nat, order: Board -> seq<Board>)
    requires b.Valid() && Enumerates(order)
    ensures var data' := Search(data, b, depth, order).1;
      data.Keys <= data'.Keys && forall k :: k in data ==> data'[k] == data[k]
    decreases depth, 2
  {
    if KeyOf(b) !in data && !b.IsFinished() && depth > 0 {
      SolveKeepsTable(data, b, depth, order);
    }
  }

  lemma {:induction false} SolveKeepsTable(data: Table, b: Board, depth: nat, order: Board -> seq<Board>)
    requires b.Valid() && Enumerates(order) && depth > 0 && KeyOf(b) !in data
    ensures var data' := Solve(data, b, depth, order).1;
      data.Keys <= data'.Keys && forall k :: k in data ==> data'[k] == data[k]
    decreases depth, 1
  {
    CollectKeepsTable(data, order(b), depth - 1, order);
    var c := Collect(data, order(b), depth - 1, order);
    if c.0.Some? {
      var f := Fold(c.0.value, -128, 127);
      UpdateKeeps(data, c.1, KeyOf(b), Entry(f.0 - RawScores(b), f.1));
    }
  }

  lemma UpdateKeeps(data: Table, data': Table, key: TableKey, e: Entry)
    requires key !in data && data.Keys <= data'.Keys && forall k :: k in data ==> data'[k] == data[k]
    ensures data.Keys <= data'[key := e].Keys && forall k :: k in data ==> data'[key := e][k] == data[k]
  {
  }

  lemma {:induction false} CollectKeepsTable(data: Table, s: seq<Board>, depth: nat, order: Board -> seq<Board>)
    requires AllValid(s) && Enumerates(order)
    ensures var data' := Collect(data, s, depth, order).1;
      data.Keys <= data'.Keys && forall k :: k in data ==> data'[k] == data[k]
    decreases depth + 1, 0, |s|
  {
    if |s| > 0 {
      SearchKeepsTable(data, s[0], depth, order);
      var a := Search(data, s[0], depth, order);
      if a.0.Some? {
        CollectKeepsTable(a.1, s[1..], depth, order);
      }
    }
  }

  /** With every child solved, one result per child. */
  lemma {:induction false} CollectLength(data: Table, s: seq<Board>, depth: nat, order: Board -> seq<Board>)
    requires AllValid(s) && Enumerates(order)
    ensures var rs := Collect(data, s, depth, order).0;
      rs.Some? ==> |rs.value| == |s|
    decreases |s|
  {
    if |s| > 0 {
      var a := Search(data, s[0], depth, order);
      if a.0.Some? {
        CollectLength(a.1, s[1..], depth, order);
      }
    }
  }

  /** A finished board not yet in the table is worth its final-score
      difference, and is recorded with its unbanked part at depth 0. */
  lemma SearchFinished(data: Table, b: Board, depth: nat, order: Board -> seq<Board>)
    requires b.Valid() && Enumerates(order) && b.IsFinished() && KeyOf(b) !in data
    ensures Search(data, b, depth, order) ==
      (Some(Entry(b.LastScore(), 0)), data[KeyOf(b) := Entry(Sum(b.SelfSeeds()) - Sum(b.OppositeSeeds()), 0)])
  {
    RawPlusSeeds(b);
  }

  lemma SearchHit(data: Table, b: Board, depth: nat, order: Board -> seq<Board>)
    requires b.Valid() && Enumerates(order) && KeyOf(b) in data
    ensures Search(data, b, depth, order) == (Some(Entry(RawScores(b) + data[KeyOf(b)].score, data[KeyOf(b)].depth)), data)
  {
  }

  /** A board neither in the table nor finished, with no depth left, gives
      up and leaves the table as it is. */
  lemma SearchOutOfDepth(data: Table, b: Board, order: Board -> seq<Board>)
    requires b.Valid() && Enumerates(order) && KeyOf(b) !in data && !b.IsFinished()
    ensures Search(data, b, 0, order) == (None, data)
  {
  }

  /** A child that gives up stops the loop at once: the later children are
      not searched, and the board gives up with the table as that child's
      search left it, no entry for the board itself added. */
  lemma CollectGivesUp(data: Table, first: Board, rest: seq<Board>, depth: nat, order: Board -> seq<Board>)
    requires first.Valid() && AllValid(rest) && Enumerates(order)
    requires Search(data, first, depth, order).0.None?
    ensures AllValid([first] + rest)
    ensures Collect(data, [first] + rest, depth, order) == (None, Search(data, first, depth, order).1)
  {
    assert ([first] + rest)[0] == first;
  }

  lemma SolveGivesUp(data: Table, b: Board, depth: nat, order: Board -> seq<Board>)
    requires b.Valid() && Enumerates(order) && depth > 0
    requires Collect(data, order(b), depth - 1, order).0.None?
    ensures Solve(data, b, depth, order) == (None, Collect(data, order(b), depth - 1, order).1)
  {
  }

  /** An answer of the children loop is recorded relative to the banked
      scores. */
  lemma SolveRecords(data: Table, b: Board, depth: nat, order: Board -> seq<Board>)
    requires b.Valid() && Enumerates(order) && depth > 0
    requires Solve(data, b, depth, order).0.Some?
    ensures var res := Solve(data, b, depth, order);
      KeyOf(b) in res.1 && res.1[KeyOf(b)] == Entry(res.0.value.score - RawScores(b), res.0.value.depth)
  {
  }

  /** The table remembers every answer: once `search` has answered for a
      board, asking again, at any depth, gives the same answer from the
      table and leaves the table as it is. */
  lemma SearchThenHit(data: Table, b: Board, depth: nat, again: nat, order: Board -> seq<Board>)
    requires b.Valid() && Enumerates(order)
    requires Search(data, b, depth, order).0.Some?
    ensures var res := Search(data, b, depth, order);
      KeyOf(b) in res.1 && Search(res.1, b, again, order) == res
  {
    var res := Search(data, b, depth, order);
    if KeyOf(b) !in data && !b.IsFinished() {
      SolveRecords(data, b, depth, order);
    }
    SearchHit(res.1, b, again, order);
  }
}
