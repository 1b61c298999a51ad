/** The earlier board of `src/game.rs`: capture always on, a capture banking
    only the mirror pit's seeds, and the mover keeping the turn on every
    store landing, even one that ends the game. Its `list_next` follows the
    same explicit-stack search as the later board, and because of that last
    rule it loses the turns that end the game with a store landing (see
    `LostOutcome`); `fixed` selects the corrected search. */
module Game {
  import opened Basics
  import opened Sowing

  /** Seeds per pit at the start of a game. */
  const STONE: nat := 4

  datatype GameState = InBattle | WinA | WinB | Draw

  /** The two rejections of `check_pos`. */
  datatype PosError = OutOfRange | NoStones

  datatype Board = Board(side: Side, pits: Pits) {

    predicate Valid()
    {
      pits.Valid()
    }

    /** The row of the side to move. */
    function Own(): seq<nat>
    {
      pits.Row(side)
    }

    /** Over once either row sums to zero; then the stores alone decide. */
    function State(): GameState
    {
      if Sum(pits.first) == 0 || Sum(pits.second) == 0 then
        if pits.firstStore > pits.secondStore then WinA
        else if pits.firstStore < pits.secondStore then WinB
        else Draw
      else InBattle
    }
  }

  /** The game goes on exactly while both rows hold seeds, and a finished
      game is won by the larger store, drawn on equal stores. */
  lemma StateIsFinished(b: Board)
    ensures b.State() == InBattle <==> !b.pits.Finished()
    ensures b.State() == WinA <==> b.pits.Finished() && b.pits.firstStore > b.pits.secondStore
    ensures b.State() == WinB <==> b.pits.Finished() && b.pits.firstStore < b.pits.secondStore
    ensures b.State() == Draw <==> b.pits.Finished() && b.pits.firstStore == b.pits.secondStore
  {
    SumZeroIff(b.pits.first);
    SumZeroIff(b.pits.second);
  }

  function New(): (b: Board)
    ensures b.Valid() && b.side == First
    ensures forall i :: 0 <= i < PIT ==> b.pits.first[i] == STONE && b.pits.second[i] == STONE
    ensures b.pits.firstStore == 0 && b.pits.secondStore == 0
    ensures b.State() == InBattle
  {
    var row := seq(PIT, _ => STONE);
    assert row[0] == STONE;
    Board(First, Pits(row, row, 0, 0))
  }

  /** `check_pos`: a position outside the row, then an empty pit, is
      refused. */
  function CheckPos(b: Board, pos: nat): (r: Outcome<PosError>)
    requires b.Valid()
    ensures r.Pass? <==> pos < PIT && b.Own()[pos] > 0
    ensures r == Fail(OutOfRange) <==> pos >= PIT
    ensures r == Fail(NoStones) <==> pos < PIT && b.Own()[pos] == 0
  {
    if pos >= PIT then Fail(OutOfRange)
    else if b.Own()[pos] == 0 then Fail(NoStones)
    else Pass
  }

  /** The pits with pit `pos` of the mover emptied. */
  function Lifted(b: Board, pos: nat): (p: Pits)
    requires b.Valid() && pos < PIT
    ensures p.Valid()
  {
    b.pits.WithRow(b.side, b.Own()[pos := 0])
  }

  /** The distribution of pit `pos` from the next pit on; an empty pit
      distributes nothing and ends on itself. */
  function MoveLanding(b: Board, pos: nat): Landing
    requires b.Valid() && pos < PIT
  {
    var num := b.Own()[pos];
    if num == 0 then Landing(Lifted(b, pos), b.side, pos)
    else MoveSeed(Lifted(b, pos), b.side, b.side, pos + 1, num)
  }

  /** The capture of `src/game.rs`: the mirror of pit `end` is emptied into
      the mover's store; the pit `end` itself keeps its seed. */
  function Steal(p: Pits, s: Side, end: nat): (r: Pits)
    requires p.Valid() && end < PIT
    ensures r.Valid()
    ensures r.Store(s) == p.Store(s) + p.Row(s.Turned())[PIT - 1 - end]
    ensures r.Store(s.Turned()) == p.Store(s.Turned())
    ensures r.Row(s) == p.Row(s)
    ensures r.Row(s.Turned()) == p.Row(s.Turned())[PIT - 1 - end := 0]
  {
    var o := PIT - 1 - end;
    p.WithRow(s.Turned(), p.Row(s.Turned())[o := 0]).WithStore(s, p.Store(s) + p.Row(s.Turned())[o])
  }

  lemma StealTotal(p: Pits, s: Side, end: nat)
    requires p.Valid() && end < PIT
    ensures Steal(p, s, end).Total() == p.Total()
  {
    SumUpdate(p.Row(s.Turned()), PIT - 1 - end, 0);
  }

  /** `move_one`: sow pit `pos`; a last seed in the mover's store keeps the
      turn, a last seed making an own pit hold one captures the mirror pit,
      and otherwise the turn passes. */
  function MoveOne(b: Board, pos: nat): (r: Board)
    requires b.Valid() && pos < PIT
    ensures r.Valid()
    ensures r.side == b.side || r.side == b.side.Turned()
  {
    var l := MoveLanding(b, pos);
    if l.side == b.side && l.end == PIT then Board(b.side, l.pits)
    else if l.side == b.side && l.end < PIT && l.pits.Row(b.side)[l.end] == 1 then
      Board(b.side.Turned(), Steal(l.pits, b.side, l.end))
    else Board(b.side.Turned(), l.pits)
  }

  /** A move loses no seed. */
  lemma MoveOneConserves(b: Board, pos: nat)
    requires b.Valid() && pos < PIT
    ensures MoveOne(b, pos).pits.Total() == b.pits.Total()
  {
    var num := b.Own()[pos];
    SumUpdate(b.Own(), pos, 0);
    var l := MoveLanding(b, pos);
    if num > 0 {
      MoveSeedTotal(Lifted(b, pos), b.side, b.side, pos + 1, num);
    }
    assert l.pits.Total() == b.pits.Total();
    if l.side == b.side && l.end < PIT {
      StealTotal(l.pits, b.side, l.end);
    }
  }

  /** A move never touches the opponent's store and keeps the turn only
      after banking a seed. */
  lemma MoveOneStores(b: Board, pos: nat)
    requires b.Valid() && pos < PIT
    ensures var r := MoveOne(b, pos);
      && r.pits.Store(b.side.Turned()) == b.pits.Store(b.side.Turned())
      && r.pits.Store(b.side) >= b.pits.Store(b.side)
      && (r.side == b.side ==> r.pits.Store(b.side) > b.pits.Store(b.side))
  {
    var num := b.Own()[pos];
    if num > 0 {
      MoveSeedStores(Lifted(b, pos), b.side, b.side, pos + 1, num);
    }
  }

  /** The mover keeps the turn exactly when the last seed falls in its
      store: `pos + num` is the store's slot on the ring of `RING` slots. */
  lemma MoveOneKeepsIff(b: Board, pos: nat)
    requires b.Valid() && pos < PIT
    ensures MoveOne(b, pos).side == b.side <==> b.Own()[pos] > 0 && (pos + b.Own()[pos]) % RING == PIT
  {
    var num := b.Own()[pos];
    if num > 0 {
      var l := MoveLanding(b, pos);
      MoveSeedLanding(Lifted(b, pos), b.side, b.side, pos + 1, num);
      AdvanceIsModulo(pos + 1, num - 1);
      MoveSeedStores(Lifted(b, pos), b.side, b.side, pos + 1, num);
      OtherSide(b.side, l.side);
    }
  }

  /** A store landing keeps the turn even when it empties the mover's row,
      which is what the search below trips over. */
  lemma KeepsTurnOnFinish()
    ensures var b := Board(First, Pits([0, 0, 0, 0, 0, 1], [4, 4, 4, 4, 4, 4], 0, 0));
      var c := MoveOne(b, 5);
      b.State() == InBattle && c.side == First && c.State() == WinA
      && c.pits == Pits([0, 0, 0, 0, 0, 0], [4, 4, 4, 4, 4, 4], 1, 0) && c.State() != InBattle
  {
    var b := Board(First, Pits([0, 0, 0, 0, 0, 1], [4, 4, 4, 4, 4, 4], 0, 0));
    assert Lifted(b, 5) == Pits([0, 0, 0, 0, 0, 0], [4, 4, 4, 4, 4, 4], 0, 0);
    assert IncRange([0, 0, 0, 0, 0, 0], 6, 6) == [0, 0, 0, 0, 0, 0];
    assert MoveSeed(Pits([0, 0, 0, 0, 0, 0], [4, 4, 4, 4, 4, 4], 0, 0), First, First, 6, 1)
           == Landing(Pits([0, 0, 0, 0, 0, 0], [4, 4, 4, 4, 4, 4], 1, 0), First, PIT);
    assert MoveLanding(b, 5) == Landing(Pits([0, 0, 0, 0, 0, 0], [4, 4, 4, 4, 4, 4], 1, 0), First, PIT);
    assert MoveOne(b, 5) == Board(First, Pits([0, 0, 0, 0, 0, 0], [4, 4, 4, 4, 4, 4], 1, 0));
    assert Sum([0, 0, 0, 0, 0, 1]) == 1;
    assert Sum([0, 0, 0, 0, 0, 0]) == 0;
    assert Sum([4, 4, 4, 4, 4, 4]) == 24;
  }

  // ---------------------------------------------------------------------
  // One whole turn. With `fixed`, a turn also ends when a store landing
  // finishes the game; without it (the source as written) the search
  // carries on from the finished board.

  /** Whether the search pushes `c`, reached from `b` by one move, back on
      its stack to move again. */
  predicate Continues(b: Board, c: Board, fixed: bool)
  {
    c.side == b.side && (!fixed || c.State() == InBattle)
  }

  function Measure(b: Board): nat
  {
    b.pits.Total() - b.pits.Store(b.side)
  }

  lemma MoveOneMeasure(b: Board, pos: nat)
    requires b.Valid() && pos < PIT
    ensures MoveOne(b, pos).side == b.side ==> Measure(MoveOne(b, pos)) < Measure(b)
  {
    MoveOneConserves(b, pos);
    MoveOneStores(b, pos);
  }

  /** Boards a turn can end in after moving pit `pos` of `b`. */
  function Step(b: Board, pos: nat, fixed: bool): set<Board>
    requires b.Valid() && pos < PIT
    decreases Measure(b), 0
  {
    if b.Own()[pos] == 0 then {}
    else
      var c := MoveOne(b, pos);
      MoveOneMeasure(b, pos);
      if Continues(b, c, fixed) then Expand(c, fixed) else {c}
  }

  function ExpandFrom(b: Board, pos: nat, fixed: bool): set<Board>
    requires b.Valid() && pos <= PIT
    decreases Measure(b), PIT + 1 - pos
  {
    if pos == PIT then {} else Step(b, pos, fixed) + ExpandFrom(b, pos + 1, fixed)
  }

  function Expand(b: Board, fixed: bool): set<Board>
    requires b.Valid()
    decreases Measure(b), PIT + 2
  {
    ExpandFrom(b, 0, fixed)
  }

  /** The keys of `list_next`: nothing once the game is over. */
  function Outcomes(b: Board, fixed: bool): set<Board>
    requires b.Valid()
  {
    if b.State() != InBattle then {} else Expand(b, fixed)
  }

  /** Playing `ps` from `b`: every move legal, every move but the last
      continuing the turn. */
  function Plays(b: Board, ps: seq<nat>, fixed: bool): (r: Option<Board>)
    requires b.Valid()
    ensures r.Some? ==> r.value.Valid() && r.value.pits.Total() == b.pits.Total()
    decreases |ps|
  {
    if |ps| == 0 then Some(b)
    else if CheckPos(b, ps[0]).Fail? then None
    else
      var c := MoveOne(b, ps[0]);
      MoveOneConserves(b, ps[0]);
      if |ps| == 1 then Some(c)
      else if !Continues(b, c, fixed) then None
      else Plays(c, ps[1..], fixed)
  }

  lemma {:induction false} PlaysAppend(b: Board, ps: seq<nat>, mid: Board, p: nat, fixed: bool)
    requires b.Valid() && Plays(b, ps, fixed) == Some(mid) && mid.side == b.side
    requires |ps| > 0 ==> Continues(b, mid, fixed)
    requires CheckPos(mid, p).Pass?
    ensures Plays(b, ps + [p], fixed) == Some(MoveOne(mid, p))
    decreases |ps|
  {
    if |ps| > 0 {
      var c := MoveOne(b, ps[0]);
      assert (ps + [p])[0] == ps[0];
      if |ps| > 1 {
        assert (ps + [p])[1..] == ps[1..] + [p];
        PlaysAppend(c, ps[1..], mid, p, fixed);
      } else {
        assert (ps + [p])[1..] == [p];
      }
    }
  }

  lemma {:induction false} StepInExpandFrom(b: Board, from: nat, pos: nat, fixed: bool)
    requires b.Valid() && from <= pos < PIT
    ensures Step(b, pos, fixed) <= ExpandFrom(b, from, fixed)
    decreases pos - from
  {
    if from < pos {
      StepInExpandFrom(b, from + 1, pos, fixed);
    }
  }

  lemma {:induction false} ExpandFromHasStep(b: Board, from: nat, t: Board, fixed: bool) returns (pos: nat)
    requires b.Valid() && from <= PIT && t in ExpandFrom(b, from, fixed)
    ensures from <= pos < PIT && t in Step(b, pos, fixed)
    decreases PIT - from
  {
    if t in Step(b, from, fixed) {
      pos := from;
    } else {
      pos := ExpandFromHasStep(b, from + 1, t, fixed);
    }
  }

  /** A turn ends in a valid board holding every seed, and (as written) with
      the turn passed; the corrected search also ends a turn on a store
      landing that finishes the game. */
  lemma {:induction false} ExpandKeeps(b: Board, t: Board, fixed: bool)
    requires b.Valid() && t in Expand(b, fixed)
    ensures t.Valid() && t.pits.Total() == b.pits.Total()
    ensures t.side == b.side.Turned() || (fixed && t.side == b.side && t.State() != InBattle)
    decreases Measure(b)
  {
    var pos := ExpandFromHasStep(b, 0, t, fixed);
    var c := MoveOne(b, pos);
    MoveOneMeasure(b, pos);
    MoveOneConserves(b, pos);
    if Continues(b, c, fixed) {
      ExpandKeeps(c, t, fixed);
    }
  }

  /** A turn is an ending play: one whose last move does not continue. */
  predicate Ends(b: Board, t: Board, fixed: bool)
  {
    !Continues(b, t, fixed)
  }

  lemma {:induction false} PlaysInExpand(b: Board, ps: seq<nat>, t: Board, fixed: bool)
    requires b.Valid() && |ps| > 0 && Plays(b, ps, fixed) == Some(t) && Ends(b, t, fixed)
    ensures t in Expand(b, fixed)
    decreases |ps|
  {
    var c := MoveOne(b, ps[0]);
    StepInExpandFrom(b, 0, ps[0], fixed);
    if |ps| > 1 {
      assert c.side == b.side;
      PlaysInExpand(c, ps[1..], t, fixed);
    }
  }

  lemma {:induction false} ExpandHasPlay(b: Board, t: Board, fixed: bool) returns (ps: seq<nat>)
    requires b.Valid() && t in Expand(b, fixed)
    ensures |ps| > 0 && Plays(b, ps, fixed) == Some(t)
    decreases Measure(b)
  {
    var pos := ExpandFromHasStep(b, 0, t, fixed);
    var c := MoveOne(b, pos);
    MoveOneMeasure(b, pos);
    if Continues(b, c, fixed) {
      var rest := ExpandHasPlay(c, t, fixed);
      ps := [pos] + rest;
      assert ps[1..] == rest;
    } else {
      ps := [pos];
    }
  }

  /** The keys of `list_next` are exactly the ends of complete turns from
      a game in progress. */
  lemma OutcomesAreTurns(b: Board, t: Board, fixed: bool)
    requires b.Valid()
    ensures t in Outcomes(b, fixed) <==>
      b.State() == InBattle && Ends(b, t, fixed) && exists ps :: |ps| > 0 && Plays(b, ps, fixed) == Some(t)
  {
    if t in Outcomes(b, fixed) {
      ExpandKeeps(b, t, fixed);
      var ps := ExpandHasPlay(b, t, fixed);
    }
    if b.State() == InBattle && Ends(b, t, fixed) && exists ps :: |ps| > 0 && Plays(b, ps, fixed) == Some(t) {
      var ps :| |ps| > 0 && Plays(b, ps, fixed) == Some(t);
      PlaysInExpand(b, ps, t, fixed);
    }
  }

  /** As written, a game in progress whose only move banks its last seed
      has no outcome at all: `list_next` returns an empty map. */
  lemma LostOutcome()
    ensures var b := Board(First, Pits([0, 0, 0, 0, 0, 1], [4, 4, 4, 4, 4, 4], 0, 0));
      b.State() == InBattle && Outcomes(b, false) == {}
  {
    var b := Board(First, Pits([0, 0, 0, 0, 0, 1], [4, 4, 4, 4, 4, 4], 0, 0));
    KeepsTurnOnFinish();
    var c := MoveOne(b, 5);
    assert Expand(c, false) == {} by {
      assert forall pos :: 0 <= pos < PIT ==> Step(c, pos, false) == {};
      assert ExpandFrom(c, 6, false) == {};
      assert ExpandFrom(c, 5, false) == {};
      assert ExpandFrom(c, 4, false) == {};
      assert ExpandFrom(c, 3, false) == {};
      assert ExpandFrom(c, 2, false) == {};
      assert ExpandFrom(c, 1, false) == {};
    }
    assert Step(b, 5, false) == {};
    assert forall pos :: 0 <= pos < 5 ==> Step(b, pos, false) == {};
    assert ExpandFrom(b, 6, false) == {};
    assert ExpandFrom(b, 5, false) == {};
    assert ExpandFrom(b, 4, false) == {};
    assert ExpandFrom(b, 3, false) == {};
    assert ExpandFrom(b, 2, false) == {};
    assert ExpandFrom(b, 1, false) == {};
  }

  lemma {:induction false} ExpandNonEmpty(b: Board)
    requires b.Valid() && b.State() == InBattle
    ensures Expand(b, true) != {}
    decreases Measure(b)
  {
    StateIsFinished(b);
    var row := b.Own();
    assert !AllZero(row);
    var pos :| 0 <= pos < |row| && row[pos] != 0;
    StepInExpandFrom(b, 0, pos, true);
    var c := MoveOne(b, pos);
    MoveOneMeasure(b, pos);
    if Continues(b, c, true) {
      ExpandNonEmpty(c);
    } else {
      assert c in Step(b, pos, true);
    }
  }

  /** The corrected search finds an outcome exactly while the game is in
      progress. */
  lemma FixedOutcomesNonEmpty(b: Board)
    requires b.Valid()
    ensures Outcomes(b, true) != {} <==> b.State() == InBattle
  {
    if b.State() == InBattle {
      ExpandNonEmpty(b);
    }
  }

  // ---------------------------------------------------------------------
  // The explicit stack of `list_next`.

  function Size(b: Board, fixed: bool): nat
    requires b.Valid()
    decreases Measure(b), PIT + 2
  {
    1 + SizeFrom(b, 0, fixed)
  }

  function SizeFrom(b: Board, pos: nat, fixed: bool): nat
    requires b.Valid() && pos <= PIT
    decreases Measure(b), PIT + 1 - pos
  {
    if pos == PIT then 0 else StepSize(b, pos, fixed) + SizeFrom(b, pos + 1, fixed)
  }

  function StepSize(b: Board, pos: nat, fixed: bool): nat
    requires b.Valid() && pos < PIT
    decreases Measure(b), 0
  {
    if b.Own()[pos] == 0 then 0
    else
      var c := MoveOne(b, pos);
      MoveOneMeasure(b, pos);
      if Continues(b, c, fixed) then Size(c, fixed) else 0
  }

  /** Boards waiting on the stack: valid, with `side` to move. */
  predicate OnTurn(s: seq<Board>, side: Side)
  {
    AllValid(s) && forall i :: 0 <= i < |s| ==> s[i].side == side
  }

  predicate AllValid(s: seq<Board>)
  {
    forall i :: 0 <= i < |s| ==> s[i].Valid()
  }

  function SumSizes(s: seq<Board>, fixed: bool): nat
    requires AllValid(s)
  {
    if |s| == 0 then 0 else SumSizes(s[..|s| - 1], fixed) + Size(s[|s| - 1], fixed)
  }

  function UnionExpand(s: seq<Board>, fixed: bool): set<Board>
    requires AllValid(s)
  {
    if |s| == 0 then {} else UnionExpand(s[..|s| - 1], fixed) + Expand(s[|s| - 1], fixed)
  }

  lemma StackPop(s: seq<Board>, side: Side, fixed: bool)
    requires OnTurn(s, side) && |s| > 0
    ensures OnTurn(s[..|s| - 1], side) && s[|s| - 1].Valid() && s[|s| - 1].side == side
    ensures UnionExpand(s, fixed) == UnionExpand(s[..|s| - 1], fixed) + Expand(s[|s| - 1], fixed)
    ensures SumSizes(s, fixed) == SumSizes(s[..|s| - 1], fixed) + Size(s[|s| - 1], fixed)
  {
  }

  lemma StackPush(s: seq<Board>, side: Side, c: Board, fixed: bool)
    requires OnTurn(s, side) && c.Valid() && c.side == side
    ensures OnTurn(s + [c], side)
    ensures UnionExpand(s + [c], fixed) == UnionExpand(s, fixed) + Expand(c, fixed)
    ensures SumSizes(s + [c], fixed) == SumSizes(s, fixed) + Size(c, fixed)
  {
    assert (s + [c])[..|s|] == s;
  }

  lemma StepCases(b: Board, pos: nat, fixed: bool)
    requires b.Valid() && pos < PIT
    ensures ExpandFrom(b, pos, fixed) == Step(b, pos, fixed) + ExpandFrom(b, pos + 1, fixed)
    ensures SizeFrom(b, pos, fixed) == StepSize(b, pos, fixed) + SizeFrom(b, pos + 1, fixed)
    ensures b.Own()[pos] == 0 ==> Step(b, pos, fixed) == {} && StepSize(b, pos, fixed) == 0
    ensures b.Own()[pos] > 0 && Continues(b, MoveOne(b, pos), fixed) ==>
              Step(b, pos, fixed) == Expand(MoveOne(b, pos), fixed) && StepSize(b, pos, fixed) == Size(MoveOne(b, pos), fixed)
    ensures b.Own()[pos] > 0 && !Continues(b, MoveOne(b, pos), fixed) ==>
              Step(b, pos, fixed) == {MoveOne(b, pos)} && StepSize(b, pos, fixed) == 0
  {
  }

  /** Boards on the stack, each with moves that reach it from `b` and
      still leave `b`'s side to move. */
  predicate Pending(b: Board, stack: seq<Board>, prefixes: seq<seq<nat>>, fixed: bool)
    requires b.Valid()
  {
    OnTurn(stack, b.side) && |prefixes| == |stack|
    && forall i :: 0 <= i < |stack| ==>
         Plays(b, prefixes[i], fixed) == Some(stack[i]) && (|prefixes[i]| == 0 || Continues(b, stack[i], fixed))
  }

  /** Collected outcomes, each with a turn that reaches it. */
  predicate Found(b: Board, m: map<Board, seq<nat>>, fixed: bool)
    requires b.Valid()
  {
    forall t :: t in m ==> Plays(b, m[t], fixed) == Some(t) && |m[t]| > 0 && Ends(b, t, fixed)
  }

  lemma PendingPush(b: Board, stack: seq<Board>, prefixes: seq<seq<nat>>, c: Board, ps: seq<nat>, fixed: bool)
    requires b.Valid() && Pending(b, stack, prefixes, fixed) && c.Valid() && Continues(b, c, fixed)
    requires Plays(b, ps, fixed) == Some(c)
    ensures Pending(b, stack + [c], prefixes + [ps], fixed)
  {
    StackPush(stack, b.side, c, fixed);
    assert forall i :: 0 <= i < |stack| ==> (prefixes + [ps])[i] == prefixes[i] && (stack + [c])[i] == stack[i];
  }

  lemma PendingPop(b: Board, stack: seq<Board>, prefixes: seq<seq<nat>>, fixed: bool)
    requires b.Valid() && Pending(b, stack, prefixes, fixed) && |stack| > 0
    ensures Pending(b, stack[..|stack| - 1], prefixes[..|prefixes| - 1], fixed)
    ensures var top := stack[|stack| - 1]; var ps := prefixes[|prefixes| - 1];
      top.Valid() && top.side == b.side && Plays(b, ps, fixed) == Some(top)
      && (|ps| > 0 ==> Continues(b, top, fixed))
  {
  }

  lemma FoundInsert(b: Board, m: map<Board, seq<nat>>, t: Board, ps: seq<nat>, fixed: bool)
    requires b.Valid() && Found(b, m, fixed) && Plays(b, ps, fixed) == Some(t) && |ps| > 0 && Ends(b, t, fixed)
    ensures Found(b, m[t := ps], fixed)
  {
  }

  /** One pit of the inner loop of `list_next`: a legal move is played on a
      copy; the copy is pushed while the turn continues and collected
      otherwise, an outcome already collected keeping its first move list. */
  method MovePit(b: Board, board: Board, posList: seq<nat>, pos: nat, fixed: bool,
                 stack: seq<Board>, prefixes: seq<seq<nat>>, m: map<Board, seq<nat>>)
    returns (stack': seq<Board>, prefixes': seq<seq<nat>>, m': map<Board, seq<nat>>)
    requires b.Valid() && board.Valid() && board.side == b.side && Plays(b, posList, fixed) == Some(board)
    requires |posList| > 0 ==> Continues(b, board, fixed)
    requires pos < PIT && Pending(b, stack, prefixes, fixed) && Found(b, m, fixed)
    ensures Pending(b, stack', prefixes', fixed) && Found(b, m', fixed)
    ensures forall t :: t in m ==> t in m' && m'[t] == m[t]
    ensures m'.Keys + UnionExpand(stack', fixed) == m.Keys + UnionExpand(stack, fixed) + Step(board, pos, fixed)
    ensures SumSizes(stack', fixed) == SumSizes(stack, fixed) + StepSize(board, pos, fixed)
  {
    StepCases(board, pos, fixed);
    stack', prefixes', m' := stack, prefixes, m;
    if CheckPos(board, pos).Pass? {
      var copied := MoveOne(board, pos);
      var copiedPos := posList + [pos];
      PlaysAppend(b, posList, board, pos, fixed);
      if Continues(b, copied, fixed) {
        StackPush(stack, b.side, copied, fixed);
        PendingPush(b, stack, prefixes, copied, copiedPos, fixed);
        stack' := stack + [copied];
        prefixes' := prefixes + [copiedPos];
      } else if copied !in m {
        FoundInsert(b, m, copied, copiedPos, fixed);
        m' := m[copied := copiedPos];
      }
    }
  }

  /** The inner loop of `list_next` for one popped board. */
  method MoveEach(b: Board, board: Board, posList: seq<nat>, fixed: bool,
                  stack: seq<Board>, prefixes: seq<seq<nat>>, m: map<Board, seq<nat>>)
    returns (stack': seq<Board>, prefixes': seq<seq<nat>>, m': map<Board, seq<nat>>)
    requires b.Valid() && board.Valid() && board.side == b.side && Plays(b, posList, fixed) == Some(board)
    requires |posList| > 0 ==> Continues(b, board, fixed)
    requires Pending(b, stack, prefixes, fixed) && Found(b, m, fixed)
    ensures Pending(b, stack', prefixes', fixed) && Found(b, m', fixed)
    ensures forall t :: t in m ==> t in m' && m'[t] == m[t]
    ensures m'.Keys + UnionExpand(stack', fixed) == m.Keys + UnionExpand(stack, fixed) + Expand(board, fixed)
    ensures SumSizes(stack', fixed) == SumSizes(stack, fixed) + SizeFrom(board, 0, fixed)
  {
    stack', prefixes', m' := stack, prefixes, m;
    var pos := 0;
    while pos < PIT
      invariant pos <= PIT
      invariant forall t :: t in m ==> t in m' && m'[t] == m[t]
      invariant Pending(b, stack', prefixes', fixed) && Found(b, m', fixed)
      invariant m'.Keys + UnionExpand(stack', fixed) + ExpandFrom(board, pos, fixed)
                == m.Keys + UnionExpand(stack, fixed) + Expand(board, fixed)
      invariant SumSizes(stack', fixed) + SizeFrom(board, pos, fixed) == SumSizes(stack, fixed) + SizeFrom(board, 0, fixed)
    {
      StepCases(board, pos, fixed);
      stack', prefixes', m' := MovePit(b, board, posList, pos, fixed, stack', prefixes', m');
      pos := pos + 1;
    }
  }

  /** `list_next`: from a game in progress, depth-first over an explicit
      stack of boards on which the mover still has the turn, collecting
      every outcome with a move list that reaches it. */
  method ListNext(b: Board, fixed: bool) returns (m: map<Board, seq<nat>>)
    requires b.Valid()
    ensures m.Keys == Outcomes(b, fixed)
    ensures forall t :: t in m ==> |m[t]| > 0 && Plays(b, m[t], fixed) == Some(t) && Ends(b, t, fixed)
  {
    m := map[];
    if b.State() != InBattle {
      return;
    }
    var stack := [b];
    var prefixes: seq<seq<nat>> := [[]];
    assert UnionExpand(stack, fixed) == Expand(b, fixed) by {
      assert stack[..0] == [];
    }
    while |stack| > 0
      invariant Pending(b, stack, prefixes, fixed) && Found(b, m, fixed)
      invariant m.Keys + UnionExpand(stack, fixed) == Expand(b, fixed)
      decreases SumSizes(stack, fixed)
    {
      var board := stack[|stack| - 1];
      var posList := prefixes[|prefixes| - 1];
      var rest := stack[..|stack| - 1];
      StackPop(stack, b.side, fixed);
      PendingPop(b, stack, prefixes, fixed);
      stack, prefixes, m := MoveEach(b, board, posList, fixed, rest, prefixes[..|prefixes| - 1], m);
    }
  }
}
