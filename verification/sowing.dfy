/** The seed-distribution core shared by both boards of the game: two rows of
    `PIT` pits, one store per side, and the recursive sowing step that wraps
    from row to row and credits only the mover's store.

    A second, independent description of sowing is given as well: the
    `RING` slots a seed can land in, seen from the mover (its own pits, its
    store, then the opponent's pits; the opponent's store is never a slot),
    filled one seed at a time. `MoveSeedIsRingSowing` shows the two agree. */
module Sowing {
  import opened Basics

  const PIT: nat := 6
  /** Slots a mover's seed can land in: own pits, own store, opponent pits. */
  const RING: nat := 2 * PIT + 1

  datatype Side = First | Second {
    function Turned(): (r: Side)
      ensures r != this
    {
      match this
      case First => Second
      case Second => First
    }
  }

  /** Seeds in the pits of both rows plus both stores. */
  datatype Pits = Pits(first: seq<nat>, second: seq<nat>, firstStore: nat, secondStore: nat) {

    predicate Valid()
    {
      |first| == PIT && |second| == PIT
    }

    function Row(s: Side): seq<nat>
    {
      if s == First then first else second
    }

    function Store(s: Side): nat
    {
      if s == First then firstStore else secondStore
    }

    function WithRow(s: Side, r: seq<nat>): (p: Pits)
      ensures p.Row(s) == r && p.Row(s.Turned()) == Row(s.Turned())
      ensures p.Store(First) == Store(First) && p.Store(Second) == Store(Second)
      ensures Valid() && |r| == PIT ==> p.Valid()
    {
      if s == First then this.(first := r) else this.(second := r)
    }

    function WithStore(s: Side, n: nat): (p: Pits)
      ensures p.Store(s) == n && p.Store(s.Turned()) == Store(s.Turned())
      ensures p.Row(First) == Row(First) && p.Row(Second) == Row(Second)
      ensures p.Valid() == Valid()
    {
      if s == First then this.(firstStore := n) else this.(secondStore := n)
    }

    /** All seeds on the board: the quantity sowing conserves. */
    function Total(): nat
    {
      Sum(first) + Sum(second) + firstStore + secondStore
    }

    /** The game is over once either row is empty. */
    predicate Finished()
    {
      AllZero(first) || AllZero(second)
    }
  }

  /** `turned` is an involution, and the other side is the turned one. */
  lemma OtherSide(a: Side, b: Side)
    ensures a.Turned().Turned() == a
    ensures a != b ==> b == a.Turned()
  {
  }

  lemma TotalWithRow(p: Pits, s: Side, r: seq<nat>)
    ensures p.WithRow(s, r).Total() == p.Total() - Sum(p.Row(s)) + Sum(r)
  {
  }

  /** Where the last seed of a distribution landed: the side whose row it is
      in and the index in that row, `PIT` meaning the mover's store. */
  datatype Landing = Landing(pits: Pits, side: Side, end: nat)

  /** Distribute `num` seeds starting at pit `pos` of `side`'s row while
      `mover` is sowing. The mover's store receives a seed each time the
      mover's own row is passed; the opponent's store is skipped. */
  function MoveSeed(p: Pits, mover: Side, side: Side, pos: nat, num: nat): (l: Landing)
    requires p.Valid() && pos <= PIT && num >= 1
    ensures l.pits.Valid()
    ensures l.end <= PIT
    decreases pos + num
  {
    if pos + num <= PIT then
      var q := p.WithRow(side, IncRange(p.Row(side), pos, pos + num));
      Landing(q, side, pos + num - 1)
    else
      var q := p.WithRow(side, IncRange(p.Row(side), pos, PIT));
      if side == mover then
        var q' := q.WithStore(side, q.Store(side) + 1);
        if pos + num == PIT + 1 then
          Landing(q', side, PIT)
        else
          MoveSeed(q', mover, side.Turned(), 0, pos + num - PIT - 1)
      else
        OtherSide(mover, side);
        MoveSeed(q, mover, side.Turned(), 0, pos + num - PIT)
  }

  /** Sowing adds exactly the `num` seeds to the board. */
  lemma {:induction false} MoveSeedTotal(p: Pits, mover: Side, side: Side, pos: nat, num: nat)
    requires p.Valid() && pos <= PIT && num >= 1
    ensures MoveSeed(p, mover, side, pos, num).pits.Total() == p.Total() + num
    decreases pos + num
  {
    var l := MoveSeed(p, mover, side, pos, num);
    if pos + num <= PIT {
      IncRowTotal(p, side, pos, pos + num);
      assert l.pits == p.WithRow(side, IncRange(p.Row(side), pos, pos + num));
    } else {
      var q := p.WithRow(side, IncRange(p.Row(side), pos, PIT));
      IncRowTotal(p, side, pos, PIT);
      if side == mover {
        var q' := q.WithStore(side, q.Store(side) + 1);
        assert q'.Total() == q.Total() + 1;
        if pos + num == PIT + 1 {
          assert l.pits == q';
        } else {
          assert l == MoveSeed(q', mover, side.Turned(), 0, pos + num - PIT - 1);
          MoveSeedTotal(q', mover, side.Turned(), 0, pos + num - PIT - 1);
        }
      } else {
        OtherSide(mover, side);
        assert l == MoveSeed(q, mover, side.Turned(), 0, pos + num - PIT);
        MoveSeedTotal(q, mover, side.Turned(), 0, pos + num - PIT);
      }
    }
  }

  /** Sowing never touches the opponent's store, and the last seed lands in
      a non-empty pit or, at `end == PIT`, in the mover's store. */
  lemma {:induction false} MoveSeedStores(p: Pits, mover: Side, side: Side, pos: nat, num: nat)
    requires p.Valid() && pos <= PIT && num >= 1
    ensures var l := MoveSeed(p, mover, side, pos, num);
      && l.pits.Store(mover.Turned()) == p.Store(mover.Turned())
      && l.pits.Store(mover) >= p.Store(mover)
      && (l.end == PIT ==> l.side == mover && l.pits.Store(mover) > p.Store(mover))
      && (l.end < PIT ==> l.pits.Row(l.side)[l.end] >= 1)
    decreases pos + num
  {
    var l := MoveSeed(p, mover, side, pos, num);
    if pos + num <= PIT {
      assert l == Landing(p.WithRow(side, IncRange(p.Row(side), pos, pos + num)), side, pos + num - 1);
    } else {
      var q := p.WithRow(side, IncRange(p.Row(side), pos, PIT));
      if side == mover {
        var q' := q.WithStore(side, q.Store(side) + 1);
        if pos + num == PIT + 1 {
          assert l == Landing(q', side, PIT);
        } else {
          assert l == MoveSeed(q', mover, side.Turned(), 0, pos + num - PIT - 1);
          MoveSeedStores(q', mover, side.Turned(), 0, pos + num - PIT - 1);
        }
      } else {
        OtherSide(mover, side);
        assert l == MoveSeed(q, mover, side.Turned(), 0, pos + num - PIT);
        MoveSeedStores(q, mover, side.Turned(), 0, pos + num - PIT);
      }
    }
  }

  /** One more seed in each pit of `[lo, hi)` of a row. */
  lemma IncRowTotal(p: Pits, side: Side, lo: nat, hi: nat)
    requires p.Valid() && lo <= hi <= PIT
    ensures var q := p.WithRow(side, IncRange(p.Row(side), lo, hi));
      && q.Valid() && q.Total() == p.Total() + (hi - lo)
      && q.Store(First) == p.Store(First) && q.Store(Second) == p.Store(Second)
      && (lo < hi ==> q.Row(side)[hi - 1] >= 1)
  {
    SumIncRange(p.Row(side), lo, hi);
  }

  // ---------------------------------------------------------------------
  // Reference: sowing one seed at a time around the mover's ring of slots.

  /** The mover's ring: its pits (slots `0..PIT-1`), its store (slot `PIT`)
      and the opponent's pits (slots `PIT+1..2*PIT`). */
  function Ring(p: Pits, mover: Side): (r: seq<nat>)
    requires p.Valid()
    ensures |r| == RING
  {
    p.Row(mover) + [p.Store(mover)] + p.Row(mover.Turned())
  }

  /** The pits a ring describes, given the opponent's store it leaves out. */
  function FromRing(r: seq<nat>, mover: Side, otherStore: nat): (p: Pits)
    requires |r| == RING
    ensures p.Valid()
  {
    if mover == First then Pits(r[..PIT], r[PIT + 1..], r[PIT], otherStore)
    else Pits(r[PIT + 1..], r[..PIT], otherStore, r[PIT])
  }

  /** A ring and the opponent's store describe the pits exactly. */
  lemma FromRingOfRing(p: Pits, mover: Side)
    requires p.Valid()
    ensures FromRing(Ring(p, mover), mover, p.Store(mover.Turned())) == p
  {
    var r := Ring(p, mover);
    assert r[..PIT] == p.Row(mover);
    assert r[PIT + 1..] == p.Row(mover.Turned());
  }

  lemma RingOfFromRing(r: seq<nat>, mover: Side, otherStore: nat)
    requires |r| == RING
    ensures Ring(FromRing(r, mover, otherStore), mover) == r
    ensures FromRing(r, mover, otherStore).Store(mover.Turned()) == otherStore
  {
    assert r[..PIT] + [r[PIT]] + r[PIT + 1..] == r;
  }

  /** The ring slot of pit `pos` of `side`'s row (pos == PIT: the mover's
      store, or for the opponent's row the slot right after it). */
  function SlotOf(mover: Side, side: Side, pos: nat): (k: nat)
    requires pos <= PIT
    ensures k < RING
  {
    if side == mover then pos else if pos == PIT then 0 else PIT + 1 + pos
  }

  /** The slot after slot `k`, wrapping from the last opponent pit back to
      the mover's first pit. */
  function Next(k: nat): (r: nat)
    requires k < RING
    ensures r < RING
  {
    if k + 1 == RING then 0 else k + 1
  }

  /** The slot `a` steps after slot `k`. */
  function Advance(k: nat, a: nat): (r: nat)
    requires k < RING
    ensures r < RING
    decreases a
  {
    if a == 0 then k else Advance(Next(k), a - 1)
  }

  lemma {:induction false} AdvanceIsModulo(k: nat, a: nat)
    requires k < RING
    ensures Advance(k, a) == (k + a) % RING
    decreases a
  {
    if a > 0 {
      AdvanceIsModulo(Next(k), a - 1);
      RingStep(k, a);
    }
  }

  lemma RingStep(k: nat, a: nat)
    requires k < RING && a > 0
    ensures (Next(k) + (a - 1)) % RING == (k + a) % RING
  {
  }

  lemma {:induction false} AdvanceSplit(k: nat, a: nat, b: nat)
    requires k < RING
    ensures Advance(k, a + b) == Advance(Advance(k, a), b)
    decreases a
  {
    if a > 0 {
      AdvanceSplit(Next(k), a - 1, b);
    }
  }

  /** `n` seeds, one per slot, starting at slot `k` and wrapping around. */
  function DropSeeds(r: seq<nat>, k: nat, n: nat): (d: seq<nat>)
    requires |r| == RING && k < RING
    ensures |d| == RING
    decreases n
  {
    if n == 0 then r else DropSeeds(r[k := r[k] + 1], Next(k), n - 1)
  }

  lemma {:induction false} DropSeedsSplit(r: seq<nat>, k: nat, a: nat, b: nat)
    requires |r| == RING && k < RING
    ensures DropSeeds(r, k, a + b) == DropSeeds(DropSeeds(r, k, a), Advance(k, a), b)
    decreases a
  {
    if a > 0 {
      DropSeedsSplit(r[k := r[k] + 1], Next(k), a - 1, b);
    }
  }

  /** Dropping `n` seeds adds exactly `n` seeds. */
  lemma {:induction false} DropSeedsTotal(r: seq<nat>, k: nat, n: nat)
    requires |r| == RING && k < RING
    ensures Sum(DropSeeds(r, k, n)) == Sum(r) + n
    decreases n
  {
    if n > 0 {
      SumUpdate(r, k, r[k] + 1);
      DropSeedsTotal(r[k := r[k] + 1], Next(k), n - 1);
    }
  }

  /** Seeds that do not pass the end of the ring fill a contiguous run. */
  lemma {:induction false} DropRun(r: seq<nat>, k: nat, n: nat)
    requires |r| == RING && k < RING && k + n <= RING
    ensures DropSeeds(r, k, n) == IncRange(r, k, k + n)
    decreases n
  {
    if n == 0 {
      assert IncRange(r, k, k) == r;
    } else if n == 1 {
      assert IncRange(r, k, k + 1) == r[k := r[k] + 1];
    } else {
      DropRun(r[k := r[k] + 1], k + 1, n - 1);
      IncRangeStep(r, k, k + n);
    }
  }

  lemma {:induction false} AdvanceRun(k: nat, n: nat)
    requires k < RING && k + n <= RING
    ensures Advance(k, n) == if k + n == RING then 0 else k + n
    decreases n
  {
    if n > 0 && k + 1 < RING {
      AdvanceRun(k + 1, n - 1);
    }
  }

  lemma IncRangeStep(row: seq<nat>, lo: nat, hi: nat)
    requires lo < hi <= |row|
    ensures IncRange(row[lo := row[lo] + 1], lo + 1, hi) == IncRange(row, lo, hi)
  {
  }

  // How the rows of `MoveSeed` appear on the ring.

  lemma RingOwnRun(p: Pits, mover: Side, lo: nat, hi: nat)
    requires p.Valid() && lo <= hi <= PIT
    ensures Ring(p.WithRow(mover, IncRange(p.Row(mover), lo, hi)), mover) == IncRange(Ring(p, mover), lo, hi)
  {
    var q := p.WithRow(mover, IncRange(p.Row(mover), lo, hi));
    assert forall i :: 0 <= i < RING ==> Ring(q, mover)[i] == IncRange(Ring(p, mover), lo, hi)[i];
  }

  lemma RingOpponentRun(p: Pits, mover: Side, side: Side, lo: nat, hi: nat)
    requires p.Valid() && lo <= hi <= PIT && side != mover
    ensures Ring(p.WithRow(side, IncRange(p.Row(side), lo, hi)), mover)
            == IncRange(Ring(p, mover), PIT + 1 + lo, PIT + 1 + hi)
  {
    OtherSide(mover, side);
    var q := p.WithRow(side, IncRange(p.Row(side), lo, hi));
    assert forall i :: 0 <= i < RING ==> Ring(q, mover)[i] == IncRange(Ring(p, mover), PIT + 1 + lo, PIT + 1 + hi)[i];
  }

  lemma RingOwnStore(q: Pits, mover: Side)
    requires q.Valid()
    ensures Ring(q.WithStore(mover, q.Store(mover) + 1), mover)
            == Ring(q, mover)[PIT := Ring(q, mover)[PIT] + 1]
  {
    var q' := q.WithStore(mover, q.Store(mover) + 1);
    assert forall i :: 0 <= i < RING ==> Ring(q', mover)[i] == Ring(q, mover)[PIT := Ring(q, mover)[PIT] + 1][i];
  }

  /** A run inside the mover's row. */
  lemma OwnRunRing(p: Pits, mover: Side, pos: nat, num: nat)
    requires p.Valid() && pos + num <= PIT
    ensures Ring(p.WithRow(mover, IncRange(p.Row(mover), pos, pos + num)), mover)
            == DropSeeds(Ring(p, mover), pos, num)
  {
    DropRun(Ring(p, mover), pos, num);
    RingOwnRun(p, mover, pos, pos + num);
  }

  /** A run inside the opponent's row. */
  lemma OpponentRunRing(p: Pits, mover: Side, side: Side, pos: nat, num: nat)
    requires p.Valid() && num >= 1 && pos + num <= PIT && side != mover
    ensures Ring(p.WithRow(side, IncRange(p.Row(side), pos, pos + num)), mover)
            == DropSeeds(Ring(p, mover), PIT + 1 + pos, num)
  {
    DropRun(Ring(p, mover), PIT + 1 + pos, num);
    RingOpponentRun(p, mover, side, pos, pos + num);
  }

  /** A run that stays in one row ends `num - 1` slots after it starts. */
  lemma RunSlot(mover: Side, side: Side, pos: nat, num: nat)
    requires num >= 1 && pos + num <= PIT
    ensures SlotOf(mover, side, pos + num - 1) == Advance(SlotOf(mover, side, pos), num - 1)
  {
    AdvanceRun(SlotOf(mover, side, pos), num - 1);
  }

  /** The mover's row from `pos` and then its store. */
  lemma OwnPrefixRing(p: Pits, mover: Side, pos: nat)
    requires p.Valid() && pos <= PIT
    ensures var q := p.WithRow(mover, IncRange(p.Row(mover), pos, PIT));
      Ring(q.WithStore(mover, q.Store(mover) + 1), mover) == DropSeeds(Ring(p, mover), pos, PIT + 1 - pos)
  {
    var r := Ring(p, mover);
    var q := p.WithRow(mover, IncRange(p.Row(mover), pos, PIT));
    RingOwnRun(p, mover, pos, PIT);
    RingOwnStore(q, mover);
    DropRun(r, pos, PIT + 1 - pos);
    IncRangeLast(r, pos, PIT);
  }

  lemma IncRangeLast(r: seq<nat>, lo: nat, hi: nat)
    requires lo <= hi < |r|
    ensures IncRange(r, lo, hi + 1) == IncRange(r, lo, hi)[hi := IncRange(r, lo, hi)[hi] + 1]
  {
  }

  /** The opponent's row from `pos`, after which the ring wraps to slot 0. */
  lemma OpponentPrefixRing(p: Pits, mover: Side, side: Side, pos: nat)
    requires p.Valid() && pos <= PIT && side != mover
    ensures Ring(p.WithRow(side, IncRange(p.Row(side), pos, PIT)), mover)
            == DropSeeds(Ring(p, mover), SlotOf(mover, side, pos), PIT - pos)
  {
    if pos == PIT {
      assert IncRange(p.Row(side), PIT, PIT) == p.Row(side);
      assert p.WithRow(side, p.Row(side)) == p;
    } else {
      OpponentRunRing(p, mover, side, pos, PIT - pos);
    }
  }

  /** `MoveSeed` is sowing seed by seed around the mover's ring: it yields the
      same ring (and leaves the opponent's store alone, by its contract). */
  lemma {:induction false} MoveSeedIsRingSowing(p: Pits, mover: Side, side: Side, pos: nat, num: nat)
    requires p.Valid() && pos <= PIT && num >= 1
    ensures Ring(MoveSeed(p, mover, side, pos, num).pits, mover)
            == DropSeeds(Ring(p, mover), SlotOf(mover, side, pos), num)
    decreases pos + num, 2
  {
    if pos + num <= PIT {
      assert MoveSeed(p, mover, side, pos, num).pits == p.WithRow(side, IncRange(p.Row(side), pos, pos + num));
      if side == mover {
        OwnRunRing(p, mover, pos, num);
      } else {
        OpponentRunRing(p, mover, side, pos, num);
      }
    } else if side != mover {
      OpponentOverflowRing(p, mover, side, pos, num);
    } else if pos + num == PIT + 1 {
      var q := p.WithRow(mover, IncRange(p.Row(mover), pos, PIT));
      assert MoveSeed(p, mover, mover, pos, num).pits == q.WithStore(mover, q.Store(mover) + 1);
      OwnPrefixRing(p, mover, pos);
    } else {
      OwnOverflowRing(p, mover, pos, num);
    }
  }

  /** The last seed of `MoveSeed` lands `num - 1` slots after the first. */
  lemma {:induction false} MoveSeedLanding(p: Pits, mover: Side, side: Side, pos: nat, num: nat)
    requires p.Valid() && pos <= PIT && num >= 1
    ensures var l := MoveSeed(p, mover, side, pos, num);
      SlotOf(mover, l.side, l.end) == Advance(SlotOf(mover, side, pos), num - 1)
    decreases pos + num
  {
    var l := MoveSeed(p, mover, side, pos, num);
    if pos + num <= PIT {
      assert l.side == side && l.end == pos + num - 1;
      RunSlot(mover, side, pos, num);
    } else if side != mover {
      var rest := pos + num - PIT;
      var q := p.WithRow(side, IncRange(p.Row(side), pos, PIT));
      OtherSide(mover, side);
      assert l == MoveSeed(q, mover, mover, 0, rest);
      MoveSeedLanding(q, mover, mover, 0, rest);
      OpponentPrefixSlot(mover, side, pos);
      ComposeOpponentSlot(SlotOf(mover, side, pos), pos, num, rest);
    } else if pos + num == PIT + 1 {
      assert l.side == mover && l.end == PIT;
      AdvanceRun(pos, PIT - pos);
    } else {
      var rest := pos + num - PIT - 1;
      var q := p.WithRow(mover, IncRange(p.Row(mover), pos, PIT));
      var q' := q.WithStore(mover, q.Store(mover) + 1);
      assert l == MoveSeed(q', mover, mover.Turned(), 0, rest);
      MoveSeedLanding(q', mover, mover.Turned(), 0, rest);
      assert SlotOf(mover, mover.Turned(), 0) == PIT + 1;
      ComposeOwnSlot(pos, num, rest);
    }
  }

  lemma OpponentPrefixSlot(mover: Side, side: Side, pos: nat)
    requires pos <= PIT && side != mover
    ensures Advance(SlotOf(mover, side, pos), PIT - pos) == 0
  {
    if pos < PIT {
      AdvanceRun(PIT + 1 + pos, PIT - pos);
    }
  }

  lemma ComposeOwnSlot(pos: nat, num: nat, rest: nat)
    requires pos <= PIT && rest >= 1 && rest == pos + num - PIT - 1
    ensures Advance(pos, num - 1) == Advance(PIT + 1, rest - 1)
  {
    AdvanceRun(pos, PIT + 1 - pos);
    AdvanceSplit(pos, PIT + 1 - pos, rest - 1);
  }

  lemma ComposeOpponentSlot(k: nat, pos: nat, num: nat, rest: nat)
    requires k < RING && pos <= PIT && rest >= 1 && rest == pos + num - PIT
    requires Advance(k, PIT - pos) == 0
    ensures Advance(k, num - 1) == Advance(0, rest - 1)
  {
    AdvanceSplit(k, PIT - pos, rest - 1);
  }

  /** The same pits as a whole: the ring plus the untouched opposing store. */
  lemma MoveSeedIsFromRing(p: Pits, mover: Side, side: Side, pos: nat, num: nat)
    requires p.Valid() && pos <= PIT && num >= 1
    ensures MoveSeed(p, mover, side, pos, num).pits
            == FromRing(DropSeeds(Ring(p, mover), SlotOf(mover, side, pos), num), mover, p.Store(mover.Turned()))
  {
    var l := MoveSeed(p, mover, side, pos, num);
    MoveSeedIsRingSowing(p, mover, side, pos, num);
    MoveSeedStores(p, mover, side, pos, num);
    FromRingOfRing(l.pits, mover);
  }

  /** Past the mover's store: the rest continues on the opponent's row. */
  lemma {:induction false} OwnOverflowRing(p: Pits, mover: Side, pos: nat, num: nat)
    requires p.Valid() && pos <= PIT && pos + num > PIT + 1
    ensures Ring(MoveSeed(p, mover, mover, pos, num).pits, mover) == DropSeeds(Ring(p, mover), pos, num)
    decreases pos + num, 1
  {
    var rest := pos + num - PIT - 1;
    var q := p.WithRow(mover, IncRange(p.Row(mover), pos, PIT));
    var q' := q.WithStore(mover, q.Store(mover) + 1);
    assert MoveSeed(p, mover, mover, pos, num).pits == MoveSeed(q', mover, mover.Turned(), 0, rest).pits;
    assert SlotOf(mover, mover.Turned(), 0) == PIT + 1;
    MoveSeedIsRingSowing(q', mover, mover.Turned(), 0, rest);
    OwnPrefixRing(p, mover, pos);
    ComposeOwnRing(Ring(p, mover), pos, num, rest);
  }

  lemma ComposeOwnRing(r: seq<nat>, pos: nat, num: nat, rest: nat)
    requires |r| == RING && pos <= PIT && rest == pos + num - PIT - 1
    ensures DropSeeds(r, pos, num) == DropSeeds(DropSeeds(r, pos, PIT + 1 - pos), PIT + 1, rest)
  {
    AdvanceRun(pos, PIT + 1 - pos);
    DropSeedsSplit(r, pos, PIT + 1 - pos, rest);
  }

  lemma {:induction false} OpponentOverflowRing(p: Pits, mover: Side, side: Side, pos: nat, num: nat)
    requires p.Valid() && pos <= PIT && pos + num > PIT && side != mover
    ensures Ring(MoveSeed(p, mover, side, pos, num).pits, mover)
            == DropSeeds(Ring(p, mover), SlotOf(mover, side, pos), num)
    decreases pos + num, 1
  {
    var rest := pos + num - PIT;
    var k := SlotOf(mover, side, pos);
    var q := p.WithRow(side, IncRange(p.Row(side), pos, PIT));
    OtherSide(mover, side);
    assert MoveSeed(p, mover, side, pos, num).pits == MoveSeed(q, mover, mover, 0, rest).pits;
    MoveSeedIsRingSowing(q, mover, mover, 0, rest);
    assert SlotOf(mover, mover, 0) == 0;
    OpponentPrefixRing(p, mover, side, pos);
    OpponentPrefixSlot(mover, side, pos);
    ComposeOpponentRing(Ring(p, mover), k, pos, num, rest);
  }

  lemma ComposeOpponentRing(r: seq<nat>, k: nat, pos: nat, num: nat, rest: nat)
    requires |r| == RING && k < RING && pos <= PIT && rest == pos + num - PIT
    requires Advance(k, PIT - pos) == 0
    ensures DropSeeds(r, k, num) == DropSeeds(DropSeeds(r, k, PIT - pos), 0, rest)
  {
    DropSeedsSplit(r, k, PIT - pos, rest);
  }
}
