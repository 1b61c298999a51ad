/** The score algebra of `src/ai/evaluator.rs`: the integer `Score`
    instances (`i32`, `i8`) with their search bounds and `flip`, the
    score-difference evaluator, and the `WinRateScore` aggregate of playout
    results with its lexicographic order. */
module Scores {
  import opened Basics
  import opened Sowing
  import opened Kalah

  const I32_MIN: int := -0x8000_0000
  const I32_MAX: int := 0x7fff_ffff
  const U32_MAX: int := 0xffff_ffff
  const I8_MIN: int := -0x80
  const I8_MAX: int := 0x7f

  predicate IsI32(x: int)
  {
    I32_MIN <= x <= I32_MAX
  }

  predicate IsI8(x: int)
  {
    I8_MIN <= x <= I8_MAX
  }

  /** `Score::MIN` and `Score::MAX` of `i32`: one inside the type's
      bounds. */
  const MIN32: int := I32_MIN + 1
  const MAX32: int := I32_MAX - 1

  /** `Score::MIN` and `Score::MAX` of `i8`. */
  const MIN8: int := I8_MIN + 1
  const MAX8: int := I8_MAX - 1

  /** `i32` negation (`flip`, and the `-` of the searches) as the wrapping
      negation of a release build: the one value without a negative,
      `i32::MIN`, is its own negation. */
  function Neg32(x: int): (r: int)
    requires IsI32(x)
    ensures IsI32(r) && (r + x) % 0x1_0000_0000 == 0
  {
    if x == I32_MIN then I32_MIN else -x
  }

  /** `i8` negation, wrapping in the same way. */
  function Neg8(x: int): (r: int)
    requires IsI8(x)
    ensures IsI8(r) && (r + x) % 0x100 == 0
  {
    if x == I8_MIN then I8_MIN else -x
  }

  /** Negation is an involution on each type, exact away from the type's
      minimum. */
  lemma NegInvolution(x: int, y: int)
    requires IsI32(x) && IsI8(y)
    ensures Neg32(Neg32(x)) == x && Neg8(Neg8(y)) == y
    ensures x != I32_MIN ==> Neg32(x) == -x
    ensures y != I8_MIN ==> Neg8(y) == -y
  {
  }

  /** The search bounds: neither flips without overflow into the other
      one. `flip(MIN)` is `MAX + 1` (`i32::MAX` itself) and `flip(MAX)` is
      `MIN + 1`; both stay representable. */
  lemma FlipBounds()
    ensures Neg32(MIN32) == MAX32 + 1 && Neg32(MAX32) == MIN32 + 1
    ensures Neg8(MIN8) == MAX8 + 1 && Neg8(MAX8) == MIN8 + 1
    ensures MIN32 < MAX32 && MIN8 < MAX8
  {
  }

  /** `ScoreDiffEvaluator::eval`: the final-score difference for the side
      to move, widened to `i32`; it never exceeds the seeds on the board. */
  function ScoreDiff(b: Board): (r: int)
    ensures r == b.pits.Store(b.side) + Sum(b.SelfSeeds()) - b.pits.Store(b.side.Turned()) - Sum(b.OppositeSeeds())
    ensures -(b.pits.Total() as int) <= r <= b.pits.Total()
  {
    LastScoresShare(b);
    b.LastScore()
  }

  // ---------------------------------------------------------------------
  // WinRateScore

  /** Playout tallies: wins, draws and losses (`u32`), and the summed score
      difference (`i32`). */
  datatype WinRate = WinRate(win: nat, draw: nat, lose: nat, score: int)

  datatype Ordering = Less | Equal | Greater

  /** `WinRateScore::new`: every tally zero. */
  const Zero: WinRate := WinRate(0, 0, 0, 0)

  /** `count`: a positive score is a win, zero a draw, a negative one a
      loss; the score joins the sum. */
  function Count(w: WinRate, s: int): (r: WinRate)
    ensures r.win + r.draw + r.lose == w.win + w.draw + w.lose + 1
    ensures r.win == w.win + (if s > 0 then 1 else 0)
    ensures r.draw == w.draw + (if s == 0 then 1 else 0)
    ensures r.lose == w.lose + (if s < 0 then 1 else 0)
    ensures r.score == w.score + s
  {
    if s > 0 then w.(win := w.win + 1, score := w.score + s)
    else if s == 0 then w.(draw := w.draw + 1, score := w.score + s)
    else w.(lose := w.lose + 1, score := w.score + s)
  }

  /** `Add`: field by field. */
  function Add(a: WinRate, b: WinRate): WinRate
  {
    WinRate(a.win + b.win, a.draw + b.draw, a.lose + b.lose, a.score + b.score)
  }

  /** Counting a score is adding the tally of that single score, and tallies
      add up in any grouping and order. */
  lemma CountIsAdd(w: WinRate, s: int, a: WinRate, b: WinRate, c: WinRate)
    ensures Count(w, s) == Add(w, Count(Zero, s))
    ensures Add(a, b) == Add(b, a) && Add(Add(a, b), c) == Add(a, Add(b, c))
    ensures Add(a, Zero) == a
  {
  }

  /** `flip`: the opponent's view, wins and losses swapped, score negated. */
  function Flip(w: WinRate): WinRate
  {
    WinRate(w.lose, w.draw, w.win, -w.score)
  }

  lemma FlipInvolution(w: WinRate)
    ensures Flip(Flip(w)) == w
    ensures Flip(w).win + Flip(w).draw + Flip(w).lose == w.win + w.draw + w.lose
  {
  }

  /** `eq`: the tallies that matter to the order; `lose` is ignored. */
  predicate Same(a: WinRate, b: WinRate)
  {
    a.win == b.win && a.draw == b.draw && a.score == b.score
  }

  function CompareInt(a: int, b: int): Ordering
  {
    if a < b then Less else if a == b then Equal else Greater
  }

  /** `cmp`: lexicographic on (win, draw, score). */
  function Compare(a: WinRate, b: WinRate): Ordering
  {
    match CompareInt(a.win, b.win)
    case Equal =>
      (match CompareInt(a.draw, b.draw)
       case Equal => CompareInt(a.score, b.score)
       case o => o)
    case o => o
  }

  predicate AtMost(a: WinRate, b: WinRate)
  {
    Compare(a, b) != Greater
  }

  /** The comparison is a total order consistent with `eq`: it answers
      `Equal` exactly on equal tallies, reverses when the arguments swap,
      and chains. */
  lemma CompareIsTotalOrder(a: WinRate, b: WinRate, c: WinRate)
    ensures Compare(a, b) == Equal <==> Same(a, b)
    ensures Compare(a, b) == Less <==> Compare(b, a) == Greater
    ensures AtMost(a, b) || AtMost(b, a)
    ensures AtMost(a, b) && AtMost(b, c) ==> AtMost(a, c)
    ensures Compare(a, b) == Less && Compare(b, c) == Less ==> Compare(a, c) == Less
  {
  }

  /** The order is lexicographic: more wins beats any draws or score, and
      `lose` never matters. */
  lemma CompareIsLexicographic(a: WinRate, b: WinRate)
    ensures a.win < b.win ==> Compare(a, b) == Less
    ensures a.win == b.win && a.draw < b.draw ==> Compare(a, b) == Less
    ensures a.win == b.win && a.draw == b.draw ==> Compare(a, b) == CompareInt(a.score, b.score)
    ensures Compare(a, b) == Compare(a.(lose := b.lose), b)
  {
  }

  /** `flip` is not order-reversing: two tallies can keep their order, and
      two `eq` tallies can stop being `eq`, once both are flipped. */
  lemma FlipKeepsOrder()
    ensures var a := WinRate(0, 0, 0, 0);
      var b := WinRate(1, 0, 1, 0);
      Compare(a, b) == Less && Compare(Flip(a), Flip(b)) == Less
    ensures var a := WinRate(0, 0, 0, 0);
      var b := WinRate(0, 0, 1, 0);
      Same(a, b) && !Same(Flip(a), Flip(b))
  {
  }

  /** `Score::MIN` and `Score::MAX` of `WinRateScore`. */
  const WinRateMin: WinRate := WinRate(0, 0, 0, I32_MIN + 1)
  const WinRateMax: WinRate := WinRate(U32_MAX, U32_MAX, 0, I32_MAX - 1)

  /** `MIN` is below every tally whose score is at least `i32::MIN + 1`, and
      `MAX` above every tally with `u32` counters and a score at most
      `i32::MAX - 1`. */
  lemma WinRateBounds(w: WinRate)
    ensures w.score >= I32_MIN + 1 ==> AtMost(WinRateMin, w)
    ensures w.win <= U32_MAX && w.draw <= U32_MAX && w.score <= I32_MAX - 1 ==> AtMost(w, WinRateMax)
  {
  }
}
