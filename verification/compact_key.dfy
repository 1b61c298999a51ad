/** The 64-bit position key of `src/board.rs`: the twelve pits, seen from
    the side to move, packed five bits each into four 16-bit groups of three
    pits (the top bit of every group unused). Keys are `u64`, pits `u8`; the
    arithmetic is on `bv64`/`bv8`, so shifts drop high bits as in the source
    and additions wrap. */
module CompactKey {
  import opened Sowing
  import opened Kalah

  /** Three pits as one group: `(a << 10) + (b << 5) + c`. */
  function Group(a: bv64, b: bv64, c: bv64): bv64
  {
    (a << 10) + (b << 5) + c
  }

  /** The key of twelve pits (each widened from a byte): own row first, then
      the opponent's. */
  function PackKey(s: seq<bv64>): bv64
    requires |s| == 2 * PIT
  {
    (Group(s[0], s[1], s[2]) << 48) + (Group(s[3], s[4], s[5]) << 32)
    + (Group(s[6], s[7], s[8]) << 16) + Group(s[9], s[10], s[11])
  }

  /** `from_compact_key`: peel five bits per pit from the least significant
      end, skipping the unused bit after every third pit. */
  function UnpackKey(key: bv64): (r: seq<bv64>)
    ensures |r| == 2 * PIT
  {
    var r11 := key & 31; var key := key >> 5;
    var r10 := key & 31; var key := key >> 5;
    var r9 := key & 31; var key := key >> 6;
    var r8 := key & 31; var key := key >> 5;
    var r7 := key & 31; var key := key >> 5;
    var r6 := key & 31; var key := key >> 6;
    var r5 := key & 31; var key := key >> 5;
    var r4 := key & 31; var key := key >> 5;
    var r3 := key & 31; var key := key >> 6;
    var r2 := key & 31; var key := key >> 5;
    var r1 := key & 31; var key := key >> 5;
    var r0 := key & 31;
    [r0, r1, r2, r3, r4, r5, r6, r7, r8, r9, r10, r11]
  }

  /** Pits below 32 fit their five bits, so unpacking restores them. */
  lemma UnpackPack(s: seq<bv64>)
    requires |s| == 2 * PIT && forall i :: 0 <= i < |s| ==> s[i] < 32
    ensures UnpackKey(PackKey(s)) == s
  {
  }

  /** A pit count as the source's `u8` (wrapping past 255, although the
      source's counts never get there). */
  function Byte(x: nat): bv8
  {
    if x == 0 then 0 else Byte(x - 1) + 1
  }

  lemma ByteInc(w: bv8)
    requires w as nat < 255
    ensures (w + 1) as nat == w as nat + 1
  {
  }

  lemma {:induction false} ByteRoundTrip(x: nat)
    requires x < 256
    ensures Byte(x) as nat == x
  {
    if x > 0 {
      ByteRoundTrip(x - 1);
      ByteInc(Byte(x - 1));
    }
  }

  /** Widening a byte to the key's `u64` keeps its value. */
  lemma WidenByte(y: bv8)
    ensures (y as bv64) as nat == y as nat
    ensures (y as bv64) < 32 <==> y < 32
  {
  }

  /** A count as the key's `u64`, by way of its `u8`. */
  function Word(x: nat): bv64
  {
    Byte(x) as bv64
  }

  /** The twelve counts as `u64` words. */
  function AsWords(s: seq<nat>): (v: seq<bv64>)
    ensures |v| == |s|
  {
    seq(|s|, i requires 0 <= i < |s| => Word(s[i]))
  }

  /** The `u8` results of `from_compact_key` as counts. */
  function AsNats(v: seq<bv64>): (s: seq<nat>)
    ensures |s| == |v|
  {
    seq(|v|, i requires 0 <= i < |v| => v[i] as nat)
  }

  /** Widening counts below 256 loses nothing. */
  lemma AsNatsOfAsWords(s: seq<nat>)
    requires Below(s, 256)
    ensures AsNats(AsWords(s)) == s
    ensures forall i :: 0 <= i < |s| ==> (s[i] < 32 <==> AsWords(s)[i] < 32)
  {
    forall i | 0 <= i < |s|
      ensures AsNats(AsWords(s))[i] == s[i] && (s[i] < 32 <==> AsWords(s)[i] < 32)
    {
      ByteRoundTrip(s[i]);
      WidenByte(Byte(s[i]));
    }
  }

  /** Every count of `s` is below `n`. */
  predicate Below(s: seq<nat>, n: nat)
  {
    forall i :: 0 <= i < |s| ==> s[i] < n
  }

  lemma BelowConcat(s: seq<nat>, t: seq<nat>, n: nat)
    ensures Below(s + t, n) <==> Below(s, n) && Below(t, n)
  {
    assert forall i :: 0 <= i < |s| ==> s[i] == (s + t)[i];
    assert forall i :: 0 <= i < |t| ==> t[i] == (s + t)[|s| + i];
  }

  /** Every pit fits five bits. */
  predicate Small(b: Board)
  {
    Below(b.pits.first, 32) && Below(b.pits.second, 32)
  }

  /** The pits seen from the side to move: own row, then the opponent's. */
  function Seeds(b: Board): (s: seq<nat>)
    requires b.Valid()
    ensures |s| == 2 * PIT
    ensures forall i :: 0 <= i < PIT ==> s[i] == b.SelfSeeds()[i] && s[PIT + i] == b.OppositeSeeds()[i]
  {
    b.SelfSeeds() + b.OppositeSeeds()
  }

  /** The key's bounds on the twelve counts are the bounds on both rows. */
  lemma SeedsBounds(b: Board)
    requires b.Valid()
    ensures Small(b) <==> Below(Seeds(b), 32)
  {
    BelowConcat(b.SelfSeeds(), b.OppositeSeeds(), 32);
  }

  /** `compact_key`. */
  function Key(b: Board): bv64
    requires b.Valid()
  {
    PackKey(AsWords(Seeds(b)))
  }

  /** `from_compact_key` as twelve pit counts. */
  function FromKey(key: bv64): (s: seq<nat>)
    ensures |s| == 2 * PIT
  {
    AsNats(UnpackKey(key))
  }

  /** Decoding the key of a board whose pits are below 32 gives its own row
      followed by the opponent's. */
  lemma KeyRoundTrip(b: Board)
    requires b.Valid() && Small(b)
    ensures FromKey(Key(b)) == b.SelfSeeds() + b.OppositeSeeds()
  {
    SeedsBounds(b);
    AsNatsOfAsWords(Seeds(b));
    UnpackPack(AsWords(Seeds(b)));
  }

  /** Boards with pits below 32 share a key exactly when they show the same
      pits to the side to move. */
  lemma KeyInjective(a: Board, b: Board)
    requires a.Valid() && Small(a) && b.Valid() && Small(b)
    ensures Key(a) == Key(b) <==> Seeds(a) == Seeds(b)
  {
    KeyRoundTrip(a);
    KeyRoundTrip(b);
  }

  /** `from_seeds` on a decoded key rebuilds the rows as seen by the side to
      move, now with First to move. */
  lemma FromSeedsOfKey(b: Board, stealing: bool)
    requires b.Valid() && Small(b)
    ensures var c := FromSeeds(stealing, FromKey(Key(b)));
      c.SelfSeeds() == b.SelfSeeds() && c.OppositeSeeds() == b.OppositeSeeds()
  {
    KeyRoundTrip(b);
    var s := FromKey(Key(b));
    var c := FromSeeds(stealing, s);
    assert c.SelfSeeds() == s[..PIT];
    assert c.OppositeSeeds() == s[PIT..];
  }
}
