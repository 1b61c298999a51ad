/** `GreedyAI::sow` of `src/ai/greedy.rs` on the boards of `src/board.rs`:
    while some pit holds exactly the seeds that reach the store, sow the
    highest such pit (and stop once the turn passes); then sow the highest
    pit whose seeds run past the store; failing that, a random non-empty
    pit. The random draw is the parameter `draw`, used as
    `draw % (number of non-empty pits)`. */
module Greedy {
  import opened Basics
  import opened Sowing
  import opened Kalah

  /** The highest pit below `n` whose seeds end exactly in the store. */
  function HighestExact(s: seq<nat>, n: nat): (r: Option<nat>)
    requires n <= |s|
    ensures r.Some? ==> r.value < n && s[r.value] == PIT - r.value
    ensures r.Some? ==> forall q :: r.value < q < n ==> s[q] != PIT - q
    ensures r.None? ==> forall q :: 0 <= q < n ==> s[q] != PIT - q
  {
    if n == 0 then None
    else if s[n - 1] == PIT - (n - 1) then Some(n - 1)
    else HighestExact(s, n - 1)
  }

  /** The highest pit below `n` whose seeds run past the store. */
  function HighestSpill(s: seq<nat>, n: nat): (r: Option<nat>)
    requires n <= |s|
    ensures r.Some? ==> r.value < n && PIT - r.value < s[r.value]
    ensures r.Some? ==> forall q :: r.value < q < n ==> PIT - q >= s[q]
    ensures r.None? ==> forall q :: 0 <= q < n ==> PIT - q >= s[q]
  {
    if n == 0 then None
    else if PIT - (n - 1) < s[n - 1] then Some(n - 1)
    else HighestSpill(s, n - 1)
  }

  /** The non-empty pits below `n`, in ascending order. */
  function NonEmpty(s: seq<nat>, n: nat): (r: seq<nat>)
    requires n <= |s|
    ensures forall i :: 0 <= i < |r| ==> r[i] < n && s[r[i]] > 0
    ensures forall i, j :: 0 <= i < j < |r| ==> r[i] < r[j]
    ensures forall q :: 0 <= q < n && s[q] > 0 ==> q in r
  {
    if n == 0 then []
    else NonEmpty(s, n - 1) + (if s[n - 1] > 0 then [n - 1] else [])
  }

  /** The moves `sow` returns. The source draws from an empty range when
      the mover's row is empty, so the board must not be. */
  function Play(b: Board, draw: nat): seq<nat>
    requires b.Valid() && !AllZero(b.SelfSeeds())
    decreases Measure(b)
  {
    var s := b.SelfSeeds();
    match HighestExact(s, PIT)
    case Some(pos) =>
      var c := Sow(b, pos);
      SowKeeps(b, pos);
      SowStores(b, pos);
      if c.side != b.side then [pos]
      else [pos] + Play(c, draw)
    case None =>
      match HighestSpill(s, PIT)
      case Some(pos) => [pos]
      case None =>
        var cond := NonEmpty(s, PIT);
        assert exists q :: 0 <= q < PIT && s[q] > 0;
        [cond[draw % |cond|]]
  }

  /** A move that keeps the turn, followed by any moves, replays as those
      moves from the board it leaves. */
  lemma ReplayCons(b: Board, pos: nat, rest: seq<nat>)
    requires b.Valid() && pos < PIT && b.SelfSeeds()[pos] > 0
    requires Sow(b, pos).side == b.side
    ensures Replay(b, [pos] + rest) == Replay(Sow(b, pos), rest)
  {
    if |rest| > 0 {
      assert ([pos] + rest)[1..] == rest;
    }
  }

  /** The choice of the last move on the board it is played on: the highest
      exact pit when that sowing passes the turn, otherwise (no exact pit)
      the highest pit that runs past the store, otherwise the drawn
      non-empty pit. */
  predicate LastChoice(c: Board, m: nat, draw: nat)
    requires c.Valid()
  {
    var s := c.SelfSeeds();
    match HighestExact(s, PIT)
    case Some(p) => m == p && Sow(c, p).side != c.side
    case None =>
      match HighestSpill(s, PIT)
      case Some(p) => m == p
      case None =>
        var cond := NonEmpty(s, PIT);
        |cond| > 0 && m == cond[draw % |cond|]
  }

  /** The moves form one legal turn: each pit is legal when sown and every
      move but the last keeps the turn; a move followed by others is an
      exact sowing into the store. */
  lemma {:induction false} PlayIsLegal(b: Board, draw: nat)
    requires b.Valid() && !AllZero(b.SelfSeeds())
    ensures var ms := Play(b, draw);
      && |ms| > 0
      && Replay(b, ms).Some?
      && (|ms| > 1 ==> b.SelfSeeds()[ms[0]] == PIT - ms[0] && Sow(b, ms[0]).side == b.side)
    decreases Measure(b)
  {
    var s := b.SelfSeeds();
    var ms := Play(b, draw);
    match HighestExact(s, PIT)
    case Some(pos) =>
      var c := Sow(b, pos);
      SowKeeps(b, pos);
      SowStores(b, pos);
      if c.side == b.side {
        assert !c.IsFinished();
        PlayIsLegal(c, draw);
        var rest := Play(c, draw);
        assert ms == [pos] + rest;
        ReplayCons(b, pos, rest);
      }
    case None =>
  }

  /** Every move is chosen on the board it is played on: each move but the
      last is the highest exact pit of that board and keeps the turn, and
      the last one is the phase choice of `LastChoice`. */
  lemma {:induction false} PlayIsGreedy(b: Board, draw: nat)
    requires b.Valid() && !AllZero(b.SelfSeeds())
    ensures var ms := Play(b, draw);
      && |ms| > 0
      && forall i :: 0 <= i < |ms| ==>
           var r := Replay(b, ms[..i]);
           && r.Some? && r.value.side == b.side
           && (i < |ms| - 1 ==> HighestExact(r.value.SelfSeeds(), PIT) == Some(ms[i]) && Sow(r.value, ms[i]).side == b.side)
           && (i == |ms| - 1 ==> LastChoice(r.value, ms[i], draw))
    decreases Measure(b)
  {
    var s := b.SelfSeeds();
    var ms := Play(b, draw);
    assert ms[..0] == [];
    match HighestExact(s, PIT)
    case Some(pos) =>
      var c := Sow(b, pos);
      SowKeeps(b, pos);
      SowStores(b, pos);
      if c.side == b.side {
        assert !c.IsFinished();
        PlayIsGreedy(c, draw);
        var rest := Play(c, draw);
        assert ms == [pos] + rest;
        forall i | 1 <= i < |ms|
          ensures Replay(b, ms[..i]) == Replay(c, rest[..i - 1])
        {
          assert ms[..i] == [pos] + rest[..i - 1];
          ReplayCons(b, pos, rest[..i - 1]);
        }
      }
    case None =>
  }

  /** The first move: the highest exact pit if there is one, otherwise the
      highest pit that runs past the store if there is one, otherwise a
      non-empty pit. */
  lemma PlayFirstMove(b: Board, draw: nat)
    requires b.Valid() && !AllZero(b.SelfSeeds())
    ensures var s := b.SelfSeeds();
      var m := Play(b, draw)[0];
      && m < PIT && s[m] > 0
      && (s[m] == PIT - m ==> forall q :: m < q < PIT ==> s[q] != PIT - q)
      && ((exists q :: 0 <= q < PIT && s[q] == PIT - q) ==> s[m] == PIT - m)
      && ((forall q :: 0 <= q < PIT ==> s[q] != PIT - q) && (exists q :: 0 <= q < PIT && PIT - q < s[q]) ==>
            PIT - m < s[m] && forall q :: m < q < PIT ==> PIT - q >= s[q])
  {
  }
}
