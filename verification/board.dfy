/** The game board of `src/board.rs`: the side to move, the capture
    ("stealing") flag fixed at construction, both rows and both stores.
    Sowing, the extra-turn and capture rules, scores, and the enumeration of
    the boards a whole turn (a chain of extra turns) can end in. */
module Kalah {
  import opened Basics
  import opened Sowing

  /** Seeds per pit at the start of a game. */
  const SEED: nat := 4

  datatype SowError = InvalidPosition | EmptyPit

  datatype Board = Board(side: Side, stealing: bool, pits: Pits) {

    predicate Valid()
    {
      pits.Valid()
    }

    /** The row of the side to move. */
    function SelfSeeds(): seq<nat>
    {
      pits.Row(side)
    }

    /** The row of the side waiting. */
    function OppositeSeeds(): seq<nat>
    {
      pits.Row(side.Turned())
    }

    predicate IsFinished()
    {
      pits.Finished()
    }

    /** Banked seeds of (First, Second). */
    function Scores(): (nat, nat)
    {
      (pits.firstStore, pits.secondStore)
    }

    /** End-of-game totals of (First, Second): each side's store plus the
        seeds still in its own row. */
    function LastScores(): (nat, nat)
    {
      (pits.firstStore + Sum(pits.first), pits.secondStore + Sum(pits.second))
    }

    /** Banked-score difference from the point of view of the side to move. */
    function Score(): (r: int)
      ensures r == pits.Store(side) - pits.Store(side.Turned())
    {
      var (s0, s1) := Scores();
      if side == First then s0 - s1 else s1 - s0
    }

    /** Final-score difference from the point of view of the side to move. */
    function LastScore(): int
    {
      var totals := LastScores();
      if side == First then totals.0 - totals.1 else totals.1 - totals.0
    }
  }

  /** The end-of-game totals share out every seed on the board, and the
      final-score difference is the mover's store and row against the
      opponent's. */
  lemma LastScoresShare(b: Board)
    ensures b.LastScores().0 + b.LastScores().1 == b.pits.Total()
    ensures b.LastScore() == b.pits.Store(b.side) + Sum(b.SelfSeeds()) - b.pits.Store(b.side.Turned()) - Sum(b.OppositeSeeds())
  {
  }

  /** The relative scores swap sign when the other side is to move. */
  lemma ScoresAreSideRelative(b: Board)
    ensures b.(side := b.side.Turned()).Score() == -b.Score()
    ensures b.(side := b.side.Turned()).LastScore() == -b.LastScore()
  {
  }

  lemma {:induction false} SumConstant(n: nat, v: nat)
    ensures Sum(seq(n, _ => v)) == n * v
  {
    if n > 0 {
      assert seq(n, _ => v)[1..] == seq(n - 1, _ => v);
      SumConstant(n - 1, v);
    }
  }

  function New(stealing: bool): (b: Board)
    ensures b.Valid() && b.side == First && b.stealing == stealing
    ensures forall i :: 0 <= i < PIT ==> b.pits.first[i] == SEED && b.pits.second[i] == SEED
    ensures b.Scores() == (0, 0)
    ensures b.pits.Total() == 2 * PIT * SEED
    ensures !b.IsFinished()
  {
    var row := seq(PIT, _ => SEED);
    SumConstant(PIT, SEED);
    assert row[0] != 0;
    Board(First, stealing, Pits(row, row, 0, 0))
  }

  /** A board with First to move, zero scores, the first `PIT` seeds as
      First's row and the next `PIT` as Second's. */
  function FromSeeds(stealing: bool, seeds: seq<nat>): (b: Board)
    requires |seeds| == 2 * PIT
    ensures b.Valid() && b.side == First && b.stealing == stealing
    ensures b.Scores() == (0, 0)
    ensures b.SelfSeeds() + b.OppositeSeeds() == seeds
  {
    assert seeds[..PIT] + seeds[PIT..] == seeds;
    Board(First, stealing, Pits(seeds[..PIT], seeds[PIT..], 0, 0))
  }

  /** Whether the side to move may sow pit `pos`; a pure check. */
  function CanSow(b: Board, pos: nat): (r: Outcome<SowError>)
    requires b.Valid()
    ensures r.Pass? <==> pos < PIT && b.SelfSeeds()[pos] > 0
    ensures r == Fail(InvalidPosition) <==> pos >= PIT
    ensures r == Fail(EmptyPit) <==> pos < PIT && b.SelfSeeds()[pos] == 0
  {
    if pos >= PIT then Fail(InvalidPosition)
    else if b.SelfSeeds()[pos] == 0 then Fail(EmptyPit)
    else Pass
  }

  /** The pits once the mover has lifted the seeds of pit `pos`. */
  function Lifted(b: Board, pos: nat): (p: Pits)
    requires b.Valid() && pos < PIT
    ensures p.Valid()
  {
    b.pits.WithRow(b.side, b.SelfSeeds()[pos := 0])
  }

  /** Lifting takes exactly the pit's seeds off the board. */
  lemma LiftedTotal(b: Board, pos: nat)
    requires b.Valid() && pos < PIT
    ensures Lifted(b, pos).Total() + b.SelfSeeds()[pos] == b.pits.Total()
  {
    SumUpdate(b.SelfSeeds(), pos, 0);
  }

  /** The distribution of the lifted seeds, from the pit after `pos`. An
      empty pit distributes nothing and "lands" on itself. */
  function SowLanding(b: Board, pos: nat): Landing
    requires b.Valid() && pos < PIT
  {
    if b.SelfSeeds()[pos] == 0 then Landing(b.pits, b.side, pos)
    else MoveSeed(Lifted(b, pos), b.side, b.side, pos + 1, b.SelfSeeds()[pos])
  }

  /** Empty the mover's pit `end` and its mirror pit, banking both. */
  function Capture(p: Pits, s: Side, end: nat): (r: Pits)
    requires p.Valid() && end < PIT && p.Row(s)[end] == 1
    ensures r.Valid()
    ensures r.Store(s) == p.Store(s) + 1 + p.Row(s.Turned())[PIT - 1 - end]
    ensures r.Store(s.Turned()) == p.Store(s.Turned())
    ensures r.Row(s)[end] == 0 && r.Row(s.Turned())[PIT - 1 - end] == 0
  {
    var o := PIT - 1 - end;
    var taken := p.Row(s.Turned())[o];
    p.WithRow(s, p.Row(s)[end := 0])
     .WithRow(s.Turned(), p.Row(s.Turned())[o := 0])
     .WithStore(s, p.Store(s) + 1 + taken)
  }

  /** A capture moves seeds into the store and loses none. */
  lemma CaptureTotal(p: Pits, s: Side, end: nat)
    requires p.Valid() && end < PIT && p.Row(s)[end] == 1
    ensures Capture(p, s, end).Total() == p.Total()
  {
    SumUpdate(p.Row(s), end, 0);
    SumUpdate(p.Row(s.Turned()), PIT - 1 - end, 0);
  }

  /** Sow pit `pos` of the side to move and resolve the turn: an extra turn
      when the last seed reaches the mover's store of an unfinished board, a
      capture when stealing is on and the last seed lands in an empty own
      pit facing a non-empty one, otherwise the turn passes. Callers check
      `CanSow` first; sowing an empty pit only passes the turn. */
  function Sow(b: Board, pos: nat): (r: Board)
    requires b.Valid() && pos < PIT
    ensures r.Valid() && r.stealing == b.stealing
    ensures r.side == b.side || r.side == b.side.Turned()
  {
    var l := SowLanding(b, pos);
    if l.side == b.side && l.end == PIT && !l.pits.Finished() then
      Board(b.side, b.stealing, l.pits)
    else if l.side == b.side && l.end < PIT && b.stealing && l.pits.Row(b.side)[l.end] == 1
            && l.pits.Row(b.side.Turned())[PIT - 1 - l.end] > 0 then
      Board(b.side.Turned(), b.stealing, Capture(l.pits, b.side, l.end))
    else
      Board(b.side.Turned(), b.stealing, l.pits)
  }

  /** Sowing conserves the seeds on the board. */
  lemma SowConserves(b: Board, pos: nat)
    requires b.Valid() && pos < PIT
    ensures Sow(b, pos).pits.Total() == b.pits.Total()
  {
    if b.SelfSeeds()[pos] > 0 {
      LiftedTotal(b, pos);
      MoveSeedTotal(Lifted(b, pos), b.side, b.side, pos + 1, b.SelfSeeds()[pos]);
      var l := SowLanding(b, pos);
      if l.side == b.side && l.end < PIT && l.pits.Row(b.side)[l.end] == 1 {
        CaptureTotal(l.pits, b.side, l.end);
      }
    }
  }

  /** Sowing never lowers the mover's store nor touches the opponent's, and
      an extra turn is earned only by banking a seed on a board that is not
      finished. */
  lemma SowStores(b: Board, pos: nat)
    requires b.Valid() && pos < PIT
    ensures var r := Sow(b, pos);
      && (r.side == b.side ==> r.pits.Store(b.side) > b.pits.Store(b.side) && !r.IsFinished())
      && r.pits.Store(b.side) >= b.pits.Store(b.side)
      && r.pits.Store(b.side.Turned()) == b.pits.Store(b.side.Turned())
  {
    if b.SelfSeeds()[pos] > 0 {
      MoveSeedStores(Lifted(b, pos), b.side, b.side, pos + 1, b.SelfSeeds()[pos]);
    }
  }

  /** The measure of the turn chain: a sowing that keeps the turn lowers
      the seeds not yet banked by the mover. */
  lemma SowKeeps(b: Board, pos: nat)
    requires b.Valid() && pos < PIT
    ensures var r := Sow(b, pos);
      && r.pits.Total() == b.pits.Total()
      && (r.side == b.side ==> r.pits.Total() - r.pits.Store(r.side) < b.pits.Total() - b.pits.Store(b.side))
  {
    SowConserves(b, pos);
    SowStores(b, pos);
  }

  /** Sowing an empty pit changes no seed and passes the turn. */
  lemma SowEmptyPit(b: Board, pos: nat)
    requires b.Valid() && pos < PIT && b.SelfSeeds()[pos] == 0
    ensures Sow(b, pos) == b.(side := b.side.Turned())
  {
  }

  // ---------------------------------------------------------------------
  // Sowing described on the mover's ring of slots.

  /** The mover's ring once the seeds of pit `pos` are lifted, after dropping
      them one by one from the next slot on. */
  function RingSow(b: Board, pos: nat): (r: seq<nat>)
    requires b.Valid() && pos < PIT
    ensures |r| == RING
  {
    DropSeeds(Ring(b.pits, b.side)[pos := 0], pos + 1, b.SelfSeeds()[pos])
  }

  /** The ring slot of the last seed: `PIT` is the mover's store. */
  function LastSlot(b: Board, pos: nat): (k: nat)
    requires b.Valid() && pos < PIT && b.SelfSeeds()[pos] > 0
    ensures k < RING && k == (pos + b.SelfSeeds()[pos]) % RING
  {
    AdvanceIsModulo(pos + 1, b.SelfSeeds()[pos] - 1);
    Advance(pos + 1, b.SelfSeeds()[pos] - 1)
  }

  /** The capture condition, read off the ring: the last seed made an own
      pit hold one seed and the mirror slot `2 * PIT - k` is not empty. */
  predicate Captures(b: Board, pos: nat)
    requires b.Valid() && pos < PIT && b.SelfSeeds()[pos] > 0
  {
    var k := LastSlot(b, pos);
    var ring := RingSow(b, pos);
    b.stealing && k < PIT && ring[k] == 1 && ring[2 * PIT - k] > 0
  }

  /** Slot `k` and its mirror emptied into the mover's store. */
  function RingCapture(ring: seq<nat>, k: nat): (r: seq<nat>)
    requires |ring| == RING && k < PIT
    ensures |r| == RING
  {
    ring[k := 0][2 * PIT - k := 0][PIT := ring[PIT] + ring[k] + ring[2 * PIT - k]]
  }

  /** The whole turn computed on the ring alone. */
  function RingTurn(b: Board, pos: nat): Board
    requires b.Valid() && pos < PIT && b.SelfSeeds()[pos] > 0
  {
    var ring := RingSow(b, pos);
    var other := b.pits.Store(b.side.Turned());
    var after := FromRing(ring, b.side, other);
    if LastSlot(b, pos) == PIT && !after.Finished() then Board(b.side, b.stealing, after)
    else if Captures(b, pos) then
      Board(b.side.Turned(), b.stealing, FromRing(RingCapture(ring, LastSlot(b, pos)), b.side, other))
    else Board(b.side.Turned(), b.stealing, after)
  }

  lemma LiftedRing(b: Board, pos: nat)
    requires b.Valid() && pos < PIT
    ensures Ring(Lifted(b, pos), b.side) == Ring(b.pits, b.side)[pos := 0]
  {
    assert forall i :: 0 <= i < RING ==> Ring(Lifted(b, pos), b.side)[i] == Ring(b.pits, b.side)[pos := 0][i];
  }

  /** The distribution of `Sow` is the ring's, and it ends in `LastSlot`. */
  lemma SowLandingOnRing(b: Board, pos: nat)
    requires b.Valid() && pos < PIT && b.SelfSeeds()[pos] > 0
    ensures var l := SowLanding(b, pos);
      && l.pits == FromRing(RingSow(b, pos), b.side, b.pits.Store(b.side.Turned()))
      && SlotOf(b.side, l.side, l.end) == LastSlot(b, pos)
  {
    var p := Lifted(b, pos);
    LiftedRing(b, pos);
    MoveSeedIsFromRing(p, b.side, b.side, pos + 1, b.SelfSeeds()[pos]);
    MoveSeedLanding(p, b.side, b.side, pos + 1, b.SelfSeeds()[pos]);
  }

  /** Emptying pit `end` and its mirror is `RingCapture` on the ring. */
  lemma CaptureOnRing(ring: seq<nat>, mover: Side, other: nat, k: nat)
    requires |ring| == RING && k < PIT && ring[k] == 1
    ensures var p := FromRing(ring, mover, other);
      p.Row(mover)[k] == 1 && p.Row(mover.Turned())[PIT - 1 - k] == ring[2 * PIT - k]
      && Capture(p, mover, k) == FromRing(RingCapture(ring, k), mover, other)
  {
    var p := FromRing(ring, mover, other);
    var c := RingCapture(ring, k);
    var q := FromRing(c, mover, other);
    assert Capture(p, mover, k).Row(mover) == q.Row(mover);
    assert Capture(p, mover, k).Row(mover.Turned()) == q.Row(mover.Turned());
  }

  /** `Sow` is the turn computed on the ring. */
  lemma SowIsRingTurn(b: Board, pos: nat)
    requires b.Valid() && pos < PIT && b.SelfSeeds()[pos] > 0
    ensures Sow(b, pos) == RingTurn(b, pos)
  {
    var l := SowLanding(b, pos);
    SowLandingOnRing(b, pos);
    MoveSeedStores(Lifted(b, pos), b.side, b.side, pos + 1, b.SelfSeeds()[pos]);
    OtherSide(b.side, l.side);
    var k := LastSlot(b, pos);
    assert l.side == b.side && l.end < PIT <==> k < PIT;
    assert l.side == b.side && l.end == PIT <==> k == PIT;
    if k < PIT && RingSow(b, pos)[k] == 1 {
      CaptureOnRing(RingSow(b, pos), b.side, b.pits.Store(b.side.Turned()), k);
    }
  }

  /** A pit holding exactly `PIT - pos` seeds ends in the mover's store, so
      the mover plays again unless a row is then empty. */
  lemma ExactSowKeepsTurn(b: Board, pos: nat)
    requires b.Valid() && pos < PIT && b.SelfSeeds()[pos] == PIT - pos
    ensures LastSlot(b, pos) == PIT
    ensures Sow(b, pos).side == b.side <==> !Sow(b, pos).IsFinished()
  {
    SowIsRingTurn(b, pos);
  }

  /** Without stealing no capture ever happens: the turn passes with the
      ring's pits unless the last seed reached the store. */
  lemma NoStealingNoCapture(b: Board, pos: nat)
    requires b.Valid() && pos < PIT && b.SelfSeeds()[pos] > 0 && !b.stealing
    ensures Sow(b, pos).pits == FromRing(RingSow(b, pos), b.side, b.pits.Store(b.side.Turned()))
  {
    SowIsRingTurn(b, pos);
  }

  // ---------------------------------------------------------------------
  // One whole turn: chains of sowings while the mover keeps the turn.

  /** Decreases along every extra turn: the mover's store grows while the
      total is conserved. */
  function Measure(b: Board): nat
  {
    b.pits.Total() - b.pits.Store(b.side)
  }

  /** Boards a turn can end in after sowing pit `pos` of `b`. */
  function Step(b: Board, pos: nat): set<Board>
    requires b.Valid() && pos < PIT
    decreases Measure(b), 0
  {
    if b.SelfSeeds()[pos] == 0 then {}
    else
      var c := Sow(b, pos);
      SowKeeps(b, pos);
      if c.side == b.side then Expand(c) else {c}
  }

  /** Boards a turn can end in using first moves `pos..PIT-1`. */
  function ExpandFrom(b: Board, pos: nat): set<Board>
    requires b.Valid() && pos <= PIT
    decreases Measure(b), PIT + 1 - pos
  {
    if pos == PIT then {} else Step(b, pos) + ExpandFrom(b, pos + 1)
  }

  function Expand(b: Board): set<Board>
    requires b.Valid()
    decreases Measure(b), PIT + 2
  {
    ExpandFrom(b, 0)
  }

  /** The boards at the end of every possible turn of the side to move
      (no moves on a finished board). */
  function ListNext(b: Board): set<Board>
    requires b.Valid()
  {
    if b.IsFinished() then {} else Expand(b)
  }

  /** Playing `ps` as one turn from `b`: every move must be legal and every
      move but the last must keep the turn. */
  function Replay(b: Board, ps: seq<nat>): (r: Option<Board>)
    requires b.Valid()
    ensures r.Some? ==> r.value.Valid() && r.value.pits.Total() == b.pits.Total()
    ensures r.Some? && |ps| > 0 ==> ps[0] < PIT
    decreases |ps|
  {
    if |ps| == 0 then Some(b)
    else if CanSow(b, ps[0]).Fail? then None
    else
      var c := Sow(b, ps[0]);
      SowKeeps(b, ps[0]);
      if |ps| == 1 then Some(c)
      else if c.side != b.side then None
      else Replay(c, ps[1..])
  }

  lemma {:induction false} ReplayAppend(b: Board, ps: seq<nat>, mid: Board, p: nat)
    requires b.Valid() && Replay(b, ps) == Some(mid) && mid.side == b.side
    requires CanSow(mid, p).Pass?
    ensures Replay(b, ps + [p]) == Some(Sow(mid, p))
    decreases |ps|
  {
    if |ps| > 0 {
      var c := Sow(b, ps[0]);
      assert (ps + [p])[0] == ps[0];
      if |ps| > 1 {
        assert (ps + [p])[1..] == ps[1..] + [p];
        ReplayAppend(c, ps[1..], mid, p);
      } else {
        assert (ps + [p])[1..] == [p];
      }
    }
  }

  lemma {:induction false} StepInExpandFrom(b: Board, from: nat, pos: nat)
    requires b.Valid() && from <= pos < PIT
    ensures Step(b, pos) <= ExpandFrom(b, from)
    decreases pos - from
  {
    if from < pos {
      StepInExpandFrom(b, from + 1, pos);
    }
  }

  lemma {:induction false} ExpandFromHasStep(b: Board, from: nat, t: Board) returns (pos: nat)
    requires b.Valid() && from <= PIT && t in ExpandFrom(b, from)
    ensures from <= pos < PIT && t in Step(b, pos)
    decreases PIT - from
  {
    if t in Step(b, from) {
      pos := from;
    } else {
      pos := ExpandFromHasStep(b, from + 1, t);
    }
  }

  /** Every board a turn ends in is valid, has passed the turn, keeps the
      stealing rule and holds all the seeds. */
  lemma {:induction false} ExpandKeeps(b: Board, t: Board)
    requires b.Valid() && t in Expand(b)
    ensures t.Valid() && t.side == b.side.Turned() && t.stealing == b.stealing
    ensures t.pits.Total() == b.pits.Total()
    decreases Measure(b)
  {
    var pos := ExpandFromHasStep(b, 0, t);
    var c := Sow(b, pos);
    SowKeeps(b, pos);
    if c.side == b.side {
      ExpandKeeps(c, t);
    }
  }

  /** Every board a complete turn reaches is in `Expand`. */
  lemma {:induction false} ReplayInExpand(b: Board, ps: seq<nat>, t: Board)
    requires b.Valid() && Replay(b, ps) == Some(t) && t.side != b.side
    ensures t in Expand(b)
    decreases |ps|
  {
    var c := Sow(b, ps[0]);
    StepInExpandFrom(b, 0, ps[0]);
    if |ps| > 1 {
      ReplayInExpand(c, ps[1..], t);
    }
  }

  /** Every board in `Expand` is reached by a complete turn. */
  lemma {:induction false} ExpandHasReplay(b: Board, t: Board) returns (ps: seq<nat>)
    requires b.Valid() && t in Expand(b)
    ensures |ps| > 0 && Replay(b, ps) == Some(t)
    decreases Measure(b)
  {
    var pos := ExpandFromHasStep(b, 0, t);
    var c := Sow(b, pos);
    SowKeeps(b, pos);
    if c.side == b.side {
      var rest := ExpandHasReplay(c, t);
      ps := [pos] + rest;
      assert ps[1..] == rest;
    } else {
      ps := [pos];
    }
  }

  lemma {:induction false} ExpandNonEmpty(b: Board)
    requires b.Valid() && !b.IsFinished()
    ensures Expand(b) != {}
    decreases Measure(b)
  {
    var row := b.SelfSeeds();
    assert !AllZero(row);
    var pos :| 0 <= pos < |row| && row[pos] != 0;
    StepInExpandFrom(b, 0, pos);
    var c := Sow(b, pos);
    SowKeeps(b, pos);
    if c.side == b.side {
      ExpandNonEmpty(c);
    } else {
      assert c in Step(b, pos);
    }
  }

  /** `ListNext` is empty exactly on finished boards. */
  lemma ListNextEmptyIff(b: Board)
    requires b.Valid()
    ensures ListNext(b) == {} <==> b.IsFinished()
  {
    if !b.IsFinished() {
      ExpandNonEmpty(b);
    }
  }

  /** `ListNext` is exactly the set of boards that a complete turn of the
      side to move reaches from an unfinished board: legal sowings, every
      one but the last keeping the turn, the last passing it. */
  lemma ListNextIsCompleteTurns(b: Board, t: Board)
    requires b.Valid()
    ensures t in ListNext(b) <==>
      !b.IsFinished() && t.side == b.side.Turned() && exists ps :: Replay(b, ps) == Some(t)
  {
    if t in ListNext(b) {
      ExpandKeeps(b, t);
      var ps := ExpandHasReplay(b, t);
    }
    if !b.IsFinished() && t.side == b.side.Turned() && exists ps :: Replay(b, ps) == Some(t) {
      var ps :| Replay(b, ps) == Some(t);
      ReplayInExpand(b, ps, t);
    }
  }

  // ---------------------------------------------------------------------
  // The explicit-stack enumerations of the source.

  /** Nodes of the turn tree below `b`: decreases as the stack is worked. */
  function Size(b: Board): nat
    requires b.Valid()
    decreases Measure(b), PIT + 2
  {
    1 + SizeFrom(b, 0)
  }

  function SizeFrom(b: Board, pos: nat): nat
    requires b.Valid() && pos <= PIT
    decreases Measure(b), PIT + 1 - pos
  {
    if pos == PIT then 0 else StepSize(b, pos) + SizeFrom(b, pos + 1)
  }

  function StepSize(b: Board, pos: nat): nat
    requires b.Valid() && pos < PIT
    decreases Measure(b), 0
  {
    if b.SelfSeeds()[pos] == 0 then 0
    else
      var c := Sow(b, pos);
      SowKeeps(b, pos);
      if c.side == b.side then Size(c) else 0
  }

  predicate AllValid(s: seq<Board>)
  {
    forall i :: 0 <= i < |s| ==> s[i].Valid()
  }

  function SumSizes(s: seq<Board>): nat
    requires AllValid(s)
  {
    if |s| == 0 then 0 else SumSizes(s[..|s| - 1]) + Size(s[|s| - 1])
  }

  function UnionExpand(s: seq<Board>): set<Board>
    requires AllValid(s)
  {
    if |s| == 0 then {} else UnionExpand(s[..|s| - 1]) + Expand(s[|s| - 1])
  }

  /** Popping the top of the stack removes its turn tree. */
  lemma StackPop(s: seq<Board>)
    requires AllValid(s) && |s| > 0
    ensures AllValid(s[..|s| - 1]) && s[|s| - 1].Valid()
    ensures UnionExpand(s) == UnionExpand(s[..|s| - 1]) + Expand(s[|s| - 1])
    ensures SumSizes(s) == SumSizes(s[..|s| - 1]) + Size(s[|s| - 1])
  {
  }

  /** Pushing onto the stack adds the board's turn tree. */
  lemma StackPush(s: seq<Board>, c: Board)
    requires AllValid(s) && c.Valid()
    ensures AllValid(s + [c])
    ensures UnionExpand(s + [c]) == UnionExpand(s) + Expand(c)
    ensures SumSizes(s + [c]) == SumSizes(s) + Size(c)
  {
    assert (s + [c])[..|s|] == s;
  }

  /** One pit of the inner loop: how sowing it splits the remaining fan. */
  lemma StepCases(b: Board, pos: nat)
    requires b.Valid() && pos < PIT
    ensures ExpandFrom(b, pos) == Step(b, pos) + ExpandFrom(b, pos + 1)
    ensures SizeFrom(b, pos) == StepSize(b, pos) + SizeFrom(b, pos + 1)
    ensures b.SelfSeeds()[pos] == 0 ==> Step(b, pos) == {} && StepSize(b, pos) == 0
    ensures b.SelfSeeds()[pos] > 0 && Sow(b, pos).side == b.side ==>
              Step(b, pos) == Expand(Sow(b, pos)) && StepSize(b, pos) == Size(Sow(b, pos))
    ensures b.SelfSeeds()[pos] > 0 && Sow(b, pos).side != b.side ==>
              Step(b, pos) == {Sow(b, pos)} && StepSize(b, pos) == 0
  {
  }

  /** Boards waiting on the stack: valid, with `side` still to move. */
  predicate OnTurn(s: seq<Board>, side: Side)
  {
    AllValid(s) && forall i :: 0 <= i < |s| ==> s[i].side == side
  }

  lemma OnTurnPush(s: seq<Board>, side: Side, c: Board)
    requires OnTurn(s, side) && c.Valid() && c.side == side
    ensures OnTurn(s + [c], side)
    ensures UnionExpand(s + [c]) == UnionExpand(s) + Expand(c)
    ensures SumSizes(s + [c]) == SumSizes(s) + Size(c)
  {
    StackPush(s, c);
  }

  /** One pit of the inner loop of `Board::list_next`: a non-empty pit is
      sown; the board is pushed when the mover plays again and collected
      otherwise. */
  method SowPit(board: Board, pos: nat, stack: seq<Board>, next: set<Board>) returns (stack': seq<Board>, next': set<Board>)
    requires board.Valid() && pos < PIT && OnTurn(stack, board.side)
    ensures OnTurn(stack', board.side)
    ensures next' + UnionExpand(stack') == next + UnionExpand(stack) + Step(board, pos)
    ensures SumSizes(stack') == SumSizes(stack) + StepSize(board, pos)
  {
    StepCases(board, pos);
    stack', next' := stack, next;
    if board.SelfSeeds()[pos] != 0 {
      var copied := Sow(board, pos);
      if copied.side == board.side {
        OnTurnPush(stack, board.side, copied);
        stack' := stack + [copied];
      } else {
        next' := next + {copied};
      }
    }
  }

  /** The inner loop of `Board::list_next` for one popped `board`. */
  method SowEach(board: Board, stack: seq<Board>, next: set<Board>) returns (stack': seq<Board>, next': set<Board>)
    requires board.Valid() && OnTurn(stack, board.side)
    ensures OnTurn(stack', board.side)
    ensures next' + UnionExpand(stack') == next + UnionExpand(stack) + Expand(board)
    ensures SumSizes(stack') == SumSizes(stack) + SizeFrom(board, 0)
  {
    stack', next' := stack, next;
    var pos := 0;
    while pos < PIT
      invariant pos <= PIT
      invariant OnTurn(stack', board.side)
      invariant next' + UnionExpand(stack') + ExpandFrom(board, pos) == next + UnionExpand(stack) + Expand(board)
      invariant SumSizes(stack') + SizeFrom(board, pos) == SumSizes(stack) + SizeFrom(board, 0)
    {
      StepCases(board, pos);
      ghost var before := next' + UnionExpand(stack');
      stack', next' := SowPit(board, pos, stack', next');
      UnionStep(before, next' + UnionExpand(stack'), Step(board, pos), ExpandFrom(board, pos + 1),
                next + UnionExpand(stack) + Expand(board));
      pos := pos + 1;
    }
    UnionStep(next' + UnionExpand(stack'), next' + UnionExpand(stack'), {}, {}, next + UnionExpand(stack) + Expand(board));
  }

  lemma UnionStep<T>(before: set<T>, after: set<T>, step: set<T>, rest: set<T>, all: set<T>)
    requires after == before + step && before + (step + rest) == all
    ensures after + rest == all
  {
  }

  /** `Board::list_next`: depth-first over an explicit stack of boards on
      which the mover still has the turn, collecting the others. */
  method ListNextStack(b: Board) returns (next: set<Board>)
    requires b.Valid()
    ensures next == ListNext(b)
  {
    next := {};
    if b.IsFinished() {
      return;
    }
    var stack := [b];
    assert UnionExpand(stack) == Expand(b) by {
      assert stack[..0] == [];
    }
    while |stack| > 0
      invariant OnTurn(stack, b.side)
      invariant next + UnionExpand(stack) == Expand(b)
      decreases SumSizes(stack)
    {
      var board := stack[|stack| - 1];
      var rest := stack[..|stack| - 1];
      StackPop(stack);
      stack, next := SowEach(board, rest, next);
    }
  }

  /** Boards waiting on the stack of `Board::list_next_with_pos`, each with
      the moves that reach it from `b`. */
  predicate Pending(b: Board, stack: seq<Board>, prefixes: seq<seq<nat>>)
    requires b.Valid()
  {
    OnTurn(stack, b.side) && |prefixes| == |stack|
    && forall i :: 0 <= i < |stack| ==> Replay(b, prefixes[i]) == Some(stack[i])
  }

  /** Collected end boards with a turn from `b` that reaches each. */
  predicate Found(b: Board, m: map<Board, seq<nat>>)
    requires b.Valid()
  {
    forall t :: t in m ==> Replay(b, m[t]) == Some(t) && |m[t]| > 0 && t.side == b.side.Turned()
  }

  lemma PendingPush(b: Board, stack: seq<Board>, prefixes: seq<seq<nat>>, c: Board, ps: seq<nat>)
    requires b.Valid() && Pending(b, stack, prefixes) && c.Valid() && c.side == b.side
    requires Replay(b, ps) == Some(c)
    ensures Pending(b, stack + [c], prefixes + [ps])
  {
    OnTurnPush(stack, b.side, c);
    assert forall i :: 0 <= i < |stack| ==> (prefixes + [ps])[i] == prefixes[i] && (stack + [c])[i] == stack[i];
  }

  lemma PendingPop(b: Board, stack: seq<Board>, prefixes: seq<seq<nat>>)
    requires b.Valid() && Pending(b, stack, prefixes) && |stack| > 0
    ensures Pending(b, stack[..|stack| - 1], prefixes[..|prefixes| - 1])
    ensures var top := stack[|stack| - 1];
      top.Valid() && top.side == b.side && Replay(b, prefixes[|prefixes| - 1]) == Some(top)
  {
  }

  lemma FoundInsert(b: Board, m: map<Board, seq<nat>>, t: Board, ps: seq<nat>)
    requires b.Valid() && Found(b, m) && Replay(b, ps) == Some(t) && |ps| > 0 && t.side == b.side.Turned()
    ensures Found(b, m[t := ps])
  {
  }

  /** One pit of the inner loop of `Board::list_next_with_pos`: the move
      list grows by `pos`; an end board already collected keeps the list
      found first. */
  method SowPitWithPos(b: Board, board: Board, posList: seq<nat>, pos: nat,
                       stack: seq<Board>, prefixes: seq<seq<nat>>, m: map<Board, seq<nat>>)
    returns (stack': seq<Board>, prefixes': seq<seq<nat>>, m': map<Board, seq<nat>>)
    requires b.Valid() && board.Valid() && board.side == b.side && Replay(b, posList) == Some(board)
    requires pos < PIT && Pending(b, stack, prefixes) && Found(b, m)
    ensures Pending(b, stack', prefixes') && Found(b, m')
    ensures forall t :: t in m ==> t in m' && m'[t] == m[t]
    ensures m'.Keys + UnionExpand(stack') == m.Keys + UnionExpand(stack) + Step(board, pos)
    ensures SumSizes(stack') == SumSizes(stack) + StepSize(board, pos)
  {
    StepCases(board, pos);
    stack', prefixes', m' := stack, prefixes, m;
    if board.SelfSeeds()[pos] != 0 {
      var copied := Sow(board, pos);
      var copiedPos := posList + [pos];
      ReplayAppend(b, posList, board, pos);
      if copied.side == b.side {
        OnTurnPush(stack, b.side, copied);
        PendingPush(b, stack, prefixes, copied, copiedPos);
        stack' := stack + [copied];
        prefixes' := prefixes + [copiedPos];
      } else if copied !in m {
        FoundInsert(b, m, copied, copiedPos);
        m' := m[copied := copiedPos];
      }
    }
  }

  /** The inner loop of `Board::list_next_with_pos` for one popped board. */
  method SowEachWithPos(b: Board, board: Board, posList: seq<nat>,
                        stack: seq<Board>, prefixes: seq<seq<nat>>, m: map<Board, seq<nat>>)
    returns (stack': seq<Board>, prefixes': seq<seq<nat>>, m': map<Board, seq<nat>>)
    requires b.Valid() && board.Valid() && board.side == b.side && Replay(b, posList) == Some(board)
    requires Pending(b, stack, prefixes) && Found(b, m)
    ensures Pending(b, stack', prefixes') && Found(b, m')
    ensures forall t :: t in m ==> t in m' && m'[t] == m[t]
    ensures m'.Keys + UnionExpand(stack') == m.Keys + UnionExpand(stack) + Expand(board)
    ensures SumSizes(stack') == SumSizes(stack) + SizeFrom(board, 0)
  {
    stack', prefixes', m' := stack, prefixes, m;
    var pos := 0;
    while pos < PIT
      invariant pos <= PIT
      invariant forall t :: t in m ==> t in m' && m'[t] == m[t]
      invariant Pending(b, stack', prefixes') && Found(b, m')
      invariant m'.Keys + UnionExpand(stack') + ExpandFrom(board, pos) == m.Keys + UnionExpand(stack) + Expand(board)
      invariant SumSizes(stack') + SizeFrom(board, pos) == SumSizes(stack) + SizeFrom(board, 0)
    {
      StepCases(board, pos);
      stack', prefixes', m' := SowPitWithPos(b, board, posList, pos, stack', prefixes', m');
      pos := pos + 1;
    }
  }

  /** `Board::list_next_with_pos`: the same search, keeping with each end
      board the first move list found for it. */
  method ListNextWithPos(b: Board) returns (m: map<Board, seq<nat>>)
    requires b.Valid()
    ensures m.Keys == ListNext(b)
    ensures forall t :: t in m ==> Replay(b, m[t]) == Some(t) && |m[t]| > 0 && t.side == b.side.Turned()
  {
    m := map[];
    if b.IsFinished() {
      return;
    }
    var stack := [b];
    var prefixes: seq<seq<nat>> := [[]];
    assert UnionExpand(stack) == Expand(b) by {
      assert stack[..0] == [];
    }
    while |stack| > 0
      invariant Pending(b, stack, prefixes) && Found(b, m)
      invariant m.Keys + UnionExpand(stack) == Expand(b)
      decreases SumSizes(stack)
    {
      var board := stack[|stack| - 1];
      var posList := prefixes[|prefixes| - 1];
      var rest := stack[..|stack| - 1];
      StackPop(stack);
      PendingPop(b, stack, prefixes);
      stack, prefixes, m := SowEachWithPos(b, board, posList, rest, prefixes[..|prefixes| - 1], m);
    }
  }
}
