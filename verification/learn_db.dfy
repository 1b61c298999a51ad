/** The learning table on disk, `db_name`, `save` and `load` of
    `src/learn/utils.rs`, as pure functions on byte sequences: an 8-byte
    little-endian entry count, then per entry the key's 8 little-endian
    bytes, the score's `i8` byte and the depth's `u8` byte. The file itself
    is a parameter: `None` when it cannot be opened, otherwise its bytes. */
module LearnDb {
  import opened Basics
  import opened Sowing
  import opened Kalah
  import opened Scores
  import opened CompactKey
  import opened LearnSearch

  // ---------------------------------------------------------------------
  // `db_name`

  /** The decimal digit `d`. */
  function Digit(d: nat): (c: char)
    requires d < 10
    ensures '0' <= c <= '9'
  {
    ('0' as int + d) as char
  }

  predicate AllDigits(s: string)
  {
    forall i :: 0 <= i < |s| ==> '0' <= s[i] <= '9'
  }

  /** `{}` of an unsigned integer: its decimal digits, most significant
      first, with no leading zero. */
  function Decimal(n: nat): (s: string)
    ensures |s| > 0 && AllDigits(s)
    ensures |s| > 1 ==> s[0] != '0'
    decreases n
  {
    if n < 10 then [Digit(n)] else Decimal(n / 10) + [Digit(n % 10)]
  }

  /** The value of a digit string. */
  function ParseDecimal(s: string): nat
    requires AllDigits(s)
  {
    if |s| == 0 then 0
    else ParseDecimal(s[..|s| - 1]) * 10 + (s[|s| - 1] as int - '0' as int)
  }

  /** Printing a number loses nothing: the digits read back as the number. */
  lemma {:induction false} DecimalRoundTrip(n: nat)
    ensures ParseDecimal(Decimal(n)) == n
    decreases n
  {
    if n >= 10 {
      DecimalRoundTrip(n / 10);
      var s := Decimal(n);
      assert s[..|s| - 1] == Decimal(n / 10);
    }
  }

  /** `{}` of a `bool`. */
  function BoolText(b: bool): string
  {
    if b then "true" else "false"
  }

  /** `db_name`: `p{PIT}s{SEED}_{stealing}.dat`. */
  function DbName(stealing: bool): string
  {
    "p" + Decimal(PIT) + "s" + Decimal(SEED) + "_" + BoolText(stealing) + ".dat"
  }

  /** The two table files of the 6-pit, 4-seed game, one per rule set:
      the names differ exactly when the stealing flags do. */
  lemma DbNames(a: bool, b: bool)
    ensures DbName(true) == "p6s4_true.dat" && DbName(false) == "p6s4_false.dat"
    ensures DbName(a) == DbName(b) <==> a == b
  {
    assert Decimal(PIT) == "6" && Decimal(SEED) == "4";
    assert DbName(true)[6] != DbName(false)[6];
  }

  // ---------------------------------------------------------------------
  // Integers as bytes

  /** `to_le_bytes` of a `u64`, least significant byte first. */
  function Le64(w: bv64): (r: seq<bv8>)
  {
    [(w & 0xff) as bv8, ((w >> 8) & 0xff) as bv8, ((w >> 16) & 0xff) as bv8, ((w >> 24) & 0xff) as bv8,
     ((w >> 32) & 0xff) as bv8, ((w >> 40) & 0xff) as bv8, ((w >> 48) & 0xff) as bv8, ((w >> 56) & 0xff) as bv8]
  }

  /** `u64::from_le_bytes`. */
  function FromLe64(s: seq<bv8>): bv64
    requires |s| == 8
  {
    (s[0] as bv64) | ((s[1] as bv64) << 8) | ((s[2] as bv64) << 16) | ((s[3] as bv64) << 24)
    | ((s[4] as bv64) << 32) | ((s[5] as bv64) << 40) | ((s[6] as bv64) << 48) | ((s[7] as bv64) << 56)
  }

  /** The two byte orders are inverse: eight bytes are a `u64` and back. */
  lemma Le64RoundTrip(w: bv64, s: seq<bv8>)
    ensures |Le64(w)| == 8 && FromLe64(Le64(w)) == w
    ensures |s| == 8 ==> Le64(FromLe64(s)) == s
  {
  }

  /** `256^k`. */
  function Pow256(k: nat): (r: nat)
    ensures r > 0
  {
    if k == 0 then 1 else 256 * Pow256(k - 1)
  }

  const WORDS: nat := Pow256(8)

  /** `to_le_bytes` of an unsigned number `k` bytes wide, least significant
      byte first; a number too wide for the type keeps its low bytes. */
  function LeBytes(n: nat, k: nat): (r: seq<bv8>)
    ensures |r| == k
  {
    if k == 0 then [] else [Byte(n % 256)] + LeBytes(n / 256, k - 1)
  }

  /** `from_le_bytes` of an unsigned number. */
  function FromLeBytes(s: seq<bv8>): nat
  {
    if |s| == 0 then 0 else s[0] as nat + 256 * FromLeBytes(s[1..])
  }

  /** A number that fits `k` bytes survives the trip to bytes and back. */
  lemma {:induction false} LeBytesRoundTrip(n: nat, k: nat)
    requires n < Pow256(k)
    ensures FromLeBytes(LeBytes(n, k)) == n
  {
    if k > 0 {
      assert n / 256 < Pow256(k - 1);
      LeBytesRoundTrip(n / 256, k - 1);
      ByteRoundTrip(n % 256);
      assert LeBytes(n, k)[1..] == LeBytes(n / 256, k - 1);
    }
  }

  /** `value.0 as u8`: the two's-complement byte of an `i8` score. */
  function ScoreByte(v: int): bv8
  {
    Byte(v % 256)
  }

  /** `buf[0] as i8`: a byte read back as a signed score. */
  function Signed(b: bv8): (r: int)
  {
    if b as nat < 128 then b as nat else b as nat - 256
  }

  /** Every byte is a count below 256, so `Byte` gives it back. */
  lemma ByteOfNat(b: bv8)
    ensures Byte(b as nat) == b
  {
    ByteRoundTrip(b as nat);
  }

  /** The score byte and its signed reading are inverse between the `i8`
      scores and the bytes, negative scores included. */
  lemma ScoreByteRoundTrip(v: int)
    requires IsI8(v)
    ensures Signed(ScoreByte(v)) == v
  {
    ByteRoundTrip(v % 256);
  }

  lemma SignedRoundTrip(b: bv8)
    ensures IsI8(Signed(b)) && ScoreByte(Signed(b)) == b
  {
    ByteOfNat(b);
    assert Signed(b) % 256 == b as nat;
  }

  // ---------------------------------------------------------------------
  // Records

  /** An entry fits the table's `(i8, u8)`. */
  predicate Fits(e: Entry)
  {
    IsI8(e.score) && e.depth < 256
  }

  ghost predicate AllFit(data: Table)
  {
    forall k :: k in data ==> Fits(data[k])
  }

  /** The ten bytes of one entry. */
  function RecordBytes(k: TableKey, e: Entry): seq<bv8>
  {
    Le64(k.bits) + [ScoreByte(e.score), Byte(e.depth)]
  }

  /** The entries of `order`, one record each. */
  function Records(data: Table, order: seq<TableKey>): (r: seq<bv8>)
    requires forall i :: 0 <= i < |order| ==> order[i] in data
    ensures |r| == 10 * |order|
  {
    if |order| == 0 then []
    else RecordBytes(order[0], data[order[0]]) + Records(data, order[1..])
  }

  /** `data.iter()`: every key of the table exactly once, in some order. */
  ghost predicate IsIteration(data: Table, order: seq<TableKey>)
  {
    && (forall k :: k in data <==> k in order)
    && (forall i, j :: 0 <= i < j < |order| ==> order[i] != order[j])
  }

  /** `save`: the entry count, then every entry in iteration order. */
  function Save(data: Table, order: seq<TableKey>): (r: seq<bv8>)
    requires IsIteration(data, order)
    ensures |r| == 8 + 10 * |order|
  {
    LeBytes(|data|, 8) + Records(data, order)
  }

  /** The loop of `load`: up to `n` records, each inserted over any earlier
      one of the same key; it stops at the count or at the first record that
      is cut short, whether in its key or in its value, keeping what it has
      read. */
  function ReadRecords(s: seq<bv8>, n: nat, data: Table): (r: Table)
    ensures data.Keys <= r.Keys
    ensures forall k :: k in r ==> (k in data && r[k] == data[k]) || Fits(r[k])
    decreases |s|
  {
    if n == 0 || |s| < 10 then data
    else
      SignedRoundTrip(s[8]);
      ReadRecords(s[10..], n - 1, data[TableKey(FromLe64(s[..8])) := Entry(Signed(s[8]), s[9] as nat)])
  }

  /** `load`: a file that cannot be opened, or one shorter than the count,
      gives the empty table; otherwise the records the count announces. */
  function Load(file: Option<seq<bv8>>): (r: Table)
    ensures AllFit(r)
  {
    if file.None? || |file.value| < 8 then map[]
    else ReadRecords(file.value[8..], FromLeBytes(file.value[..8]), map[])
  }

  // ---------------------------------------------------------------------
  // Properties

  /** The entries of `order` written over `acc`, the later ones winning. */
  function Overlay(acc: Table, data: Table, order: seq<TableKey>): Table
    requires forall i :: 0 <= i < |order| ==> order[i] in data
    decreases |order|
  {
    if |order| == 0 then acc
    else Overlay(acc[order[0] := data[order[0]]], data, order[1..])
  }

  /** The overlay holds the keys of `acc` and of `order`; a key of `order`
      has its entry in `data`, any other its entry in `acc`. */
  lemma {:induction false} OverlayContents(acc: Table, data: Table, order: seq<TableKey>)
    requires forall i :: 0 <= i < |order| ==> order[i] in data
    ensures forall k :: k in Overlay(acc, data, order) <==> k in acc || k in order
    ensures forall k :: k in Overlay(acc, data, order) ==>
      Overlay(acc, data, order)[k] == if k in order then data[k] else acc[k]
    decreases |order|
  {
    if |order| > 0 {
      OverlayContents(acc[order[0] := data[order[0]]], data, order[1..]);
      assert forall k :: k in order <==> k == order[0] || k in order[1..];
    }
  }

  /** A record of an entry that fits reads back as that entry. */
  lemma ReadRecord(k: TableKey, e: Entry, rest: seq<bv8>)
    requires Fits(e)
    ensures var s := RecordBytes(k, e) + rest;
      && |s| >= 10 && FromLe64(s[..8]) == k.bits
      && Entry(Signed(s[8]), s[9] as nat) == e && s[10..] == rest
  {
    Le64RoundTrip(k.bits, []);
    ScoreByteRoundTrip(e.score);
    ByteRoundTrip(e.depth);
    var s := RecordBytes(k, e) + rest;
    assert s[..8] == Le64(k.bits);
    assert TableKey(FromLe64(s[..8])) == k;
  }

  /** Reading the records of entries that fit, with a count no smaller than
      their number, writes them over the accumulator in order. */
  lemma {:induction false} ReadRecordsOfRecords(data: Table, order: seq<TableKey>, n: nat, acc: Table)
    requires forall i :: 0 <= i < |order| ==> order[i] in data && Fits(data[order[i]])
    requires n >= |order|
    ensures ReadRecords(Records(data, order), n, acc) == Overlay(acc, data, order)
    decreases |order|
  {
    if |order| > 0 {
      var k := order[0];
      var rest := Records(data, order[1..]);
      ReadRecord(k, data[k], rest);
      var s := Records(data, order);
      assert s == RecordBytes(k, data[k]) + rest;
      assert TableKey(FromLe64(s[..8])) == k;
      ReadRecordsOfRecords(data, order[1..], n - 1, acc[k := data[k]]);
    }
  }

  /** Reading `j` whole records and then fewer than ten bytes of the next
      one gives the first `j` entries: the cut-short record is dropped. */
  lemma {:induction false} ReadRecordsOfPrefix(data: Table, order: seq<TableKey>, j: nat, r: nat, n: nat, acc: Table)
    requires forall i :: 0 <= i < |order| ==> order[i] in data && Fits(data[order[i]])
    requires j < |order| && r < 10 && n >= j
    ensures ReadRecords(Records(data, order)[..10 * j + r], n, acc) == Overlay(acc, data, order[..j])
    decreases j
  {
    if j > 0 {
      var k := order[0];
      var rest := Records(data, order[1..]);
      var s := Records(data, order);
      assert s == RecordBytes(k, data[k]) + rest;
      var cut := s[..10 * j + r];
      assert cut == RecordBytes(k, data[k]) + rest[..10 * (j - 1) + r];
      ReadRecord(k, data[k], rest[..10 * (j - 1) + r]);
      assert TableKey(FromLe64(cut[..8])) == k;
      ReadRecordsOfPrefix(data, order[1..], j - 1, r, n - 1, acc[k := data[k]]);
      assert order[..j][1..] == order[1..][..j - 1];
    }
  }

  /** The keys of an iteration are as many as the table's. */
  lemma {:induction false} IterationLength(data: Table, order: seq<TableKey>)
    requires IsIteration(data, order)
    ensures |order| == |data|
  {
    DistinctCard(order);
    assert (set k | k in order) == data.Keys;
  }

  lemma {:induction false} DistinctCard(order: seq<TableKey>)
    requires forall i, j :: 0 <= i < j < |order| ==> order[i] != order[j]
    ensures |set k | k in order| == |order|
  {
    if |order| > 0 {
      DistinctCard(order[1..]);
      assert (set k | k in order) == {order[0]} + (set k | k in order[1..]);
      assert order[0] !in order[1..];
    }
  }

  /** Round trip: loading what `save` wrote gives back the table, negative
      scores included, whatever the iteration order. */
  lemma LoadSave(data: Table, order: seq<TableKey>)
    requires IsIteration(data, order) && AllFit(data) && |data| < WORDS
    ensures Load(Some(Save(data, order))) == data
  {
    var file := Save(data, order);
    SaveHeader(data, order, file);
    ReadRecordsOfRecords(data, order, |data|, map[]);
    OverlayFromEmpty(data, order);
    assert (map k | k in order :: data[k]) == data;
  }

  /** A saved file cut short after the count and `j` whole records holds
      exactly those records' entries. */
  lemma LoadTruncated(data: Table, order: seq<TableKey>, j: nat, r: nat)
    requires IsIteration(data, order) && AllFit(data) && |data| < WORDS
    requires j < |order| && r < 10
    ensures Load(Some(Save(data, order)[..8 + 10 * j + r])) == map k | k in order[..j] :: data[k]
  {
    var file := Save(data, order);
    SaveHeader(data, order, file);
    var cut := file[..8 + 10 * j + r];
    assert cut[..8] == file[..8];
    assert cut[8..] == Records(data, order)[..10 * j + r];
    ReadRecordsOfPrefix(data, order, j, r, |data|, map[]);
    OverlayFromEmpty(data, order[..j]);
  }

  /** A file that cannot be opened, or that ends inside the count, loads
      as the empty table; a count of zero ignores whatever follows. */
  lemma LoadEmpty(file: Option<seq<bv8>>, rest: seq<bv8>)
    ensures file.None? || |file.value| < 8 ==> Load(file) == map[]
    ensures Load(Some(LeBytes(0, 8) + rest)) == map[]
  {
    LeBytesRoundTrip(0, 8);
    assert (LeBytes(0, 8) + rest)[..8] == LeBytes(0, 8);
  }

  /** The count a saved file announces is the table's size. */
  lemma SaveHeader(data: Table, order: seq<TableKey>, file: seq<bv8>)
    requires IsIteration(data, order) && |data| < WORDS && file == Save(data, order)
    ensures |order| == |data| && |file| == 8 + 10 * |order|
    ensures FromLeBytes(file[..8]) == |data| && file[8..] == Records(data, order)
  {
    IterationLength(data, order);
    LeBytesRoundTrip(|data|, 8);
    assert file[..8] == LeBytes(|data|, 8);
  }

  /** Overlaying an order on the empty table is the table restricted to
      that order's keys. */
  lemma OverlayFromEmpty(data: Table, order: seq<TableKey>)
    requires forall i :: 0 <= i < |order| ==> order[i] in data
    ensures Overlay(map[], data, order) == map k | k in order :: data[k]
  {
    OverlayContents(map[], data, order);
  }

  /** A key repeated in the file keeps the entry of its later record. */
  lemma ReadRecordsLastWins(k: TableKey, first: Entry, second: Entry, rest: seq<bv8>, n: nat, acc: Table)
    requires Fits(first) && Fits(second)
    ensures ReadRecords(RecordBytes(k, first) + RecordBytes(k, second) + rest, n + 2, acc)
      == ReadRecords(rest, n, acc[k := second])
  {
    var tail := RecordBytes(k, second) + rest;
    var s := RecordBytes(k, first) + tail;
    assert RecordBytes(k, first) + RecordBytes(k, second) + rest == s;
    ReadRecord(k, first, tail);
    ReadRecord(k, second, rest);
    assert acc[k := first][k := second] == acc[k := second];
  }
}
