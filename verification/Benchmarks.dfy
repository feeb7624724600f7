/** The database benchmarks: what they ingest is exactly what their queries find again. */
module Benchmarks {
  import opened Wrappers
  import opened Arithmetic
  import opened Stores

  const TWO32 := 0x1_0000_0000
  const TWO64 := 0x1_0000_0000_0000_0000
  const TWO128 := 0x1_0000_0000_0000_0000_0000_0000_0000_0000

  type U64 = n: nat | n < TWO64
  type U128 = n: nat | n < TWO128

  // ---- keys ----

  /** `((run_id << 32) as u64).wrapping_add(seq)`: the shift drops high bits, the cast keeps 64. */
  function RecordKey(runId: U128, seqNo: U64): U64 {
    (runId * TWO32 % TWO64 + seqNo) % TWO64
  }

  /** `as i64`: the same bits read as a signed number. */
  function AsSigned(n: U64): int {
    if n < TWO64 / 2 then n else n - TWO64
  }

  /** SQLite stores the key as a signed number. */
  function RecordId(runId: U128, seqNo: U64): int {
    AsSigned(RecordKey(runId, seqNo))
  }

  lemma SignedReadsBack(n: U64)
    ensures -0x8000_0000_0000_0000 <= AsSigned(n) <= 0x7FFF_FFFF_FFFF_FFFF && AsSigned(n) % TWO64 == n
  {
  }

  /** Wrapping never makes two records of a run collide. */
  lemma KeysAreDistinct(runId: U128, a: U64, b: U64)
    ensures RecordKey(runId, a) == RecordKey(runId, b) <==> a == b
    ensures RecordId(runId, a) == RecordId(runId, b) <==> a == b
  {
    var base := runId * TWO32 % TWO64;
    WrapsAtMostOnce(base, a);
    WrapsAtMostOnce(base, b);
  }

  lemma ShiftKeepsLowHalf(runId: U128)
    ensures runId * TWO32 % TWO64 == runId % TWO32 * TWO32
  {
    var q, r := DivMod(runId, TWO32);
    assert runId * TWO32 == TWO64 * q + r * TWO32;
    DivUnique(runId * TWO32, TWO64, q, r * TWO32);
  }

  /** The low 32 bits of the run id are in the upper half of the key: below 2^32 records, keys of different
      runs collide exactly when these bits and the sequence numbers agree. */
  lemma KeysOfRunsAreApart(runId: U128, runId': U128, a: U64, b: U64)
    requires a < TWO32 && b < TWO32
    ensures RecordKey(runId, a) == runId % TWO32 * TWO32 + a
    ensures RecordKey(runId, a) == RecordKey(runId', b) <==> runId % TWO32 == runId' % TWO32 && a == b
  {
    ShiftKeepsLowHalf(runId);
    ShiftKeepsLowHalf(runId');
    WrapsAtMostOnce(runId * TWO32 % TWO64, a);
    WrapsAtMostOnce(runId' * TWO32 % TWO64, b);
  }

  lemma WrapsAtMostOnce(base: U64, n: U64)
    ensures (base + n) % TWO64 == if base + n < TWO64 then base + n else base + n - TWO64
  {
  }

  // ---- payloads ----

  /** Digits of `n`, most significant first, as the formatting macros print them. */
  function Digits(n: nat, radix: nat): (ds: seq<nat>)
    requires radix >= 2
    ensures ds != [] && forall i :: 0 <= i < |ds| ==> ds[i] < radix
  {
    if n < radix then [n]
    else
      DivShrinks(n, radix);
      Digits(n / radix, radix) + [n % radix]
  }

  function Power(radix: nat, k: nat): nat {
    if k == 0 then 1 else radix * Power(radix, k - 1)
  }

  /** `{:0width}`: zeros on the left up to the width, never cut. */
  function Padded(ds: seq<nat>, width: nat): seq<nat> {
    if |ds| >= width then ds else seq(width - |ds|, _ => 0) + ds
  }

  function Value(ds: seq<nat>, radix: nat): nat {
    if ds == [] then 0 else radix * Value(ds[..|ds| - 1], radix) + ds[|ds| - 1]
  }

  /** Reading the digits back gives the number. */
  lemma {:induction false} DigitsReadBack(n: nat, radix: nat)
    requires radix >= 2
    ensures Value(Digits(n, radix), radix) == n
  {
    var ds := Digits(n, radix);
    if n < radix {
      assert ds == [n] && ds[..0] == [];
    } else {
      DivShrinks(n, radix);
      var q, r := DivMod(n, radix);
      DigitsReadBack(q, radix);
      assert ds[..|ds| - 1] == Digits(n / radix, radix);
    }
  }

  lemma {:induction false} PaddingKeepsValue(ds: seq<nat>, width: nat, radix: nat)
    ensures Value(Padded(ds, width), radix) == Value(ds, radix)
    decreases |ds|
  {
    var padded := Padded(ds, width);
    if |ds| >= width {
    } else if ds == [] {
      ZerosAreZero(width, radix);
      assert padded == seq(width, _ => 0);
    } else {
      var n := |ds| - 1;
      PaddingKeepsValue(ds[..n], width - 1, radix);
      assert padded[..|padded| - 1] == Padded(ds[..n], width - 1);
    }
  }

  lemma {:induction false} ZerosAreZero(k: nat, radix: nat)
    ensures Value(seq(k, _ => 0), radix) == 0
  {
    if k > 0 {
      ZerosAreZero(k - 1, radix);
      assert seq(k, _ => 0)[..k - 1] == seq(k - 1, _ => 0);
    }
  }

  /** A number has at most `k` digits exactly when it is below radix^k. */
  lemma {:induction false} DigitCount(n: nat, radix: nat, k: nat)
    requires radix >= 2 && k >= 1
    ensures |Digits(n, radix)| <= k <==> n < Power(radix, k)
  {
    var p := Power(radix, k - 1);
    assert Power(radix, k) == radix * p;
    if n < radix {
      PowerGrows(radix, k);
    } else if k == 1 {
      assert p == 1;
    } else {
      DivShrinks(n, radix);
      DigitCount(n / radix, radix, k - 1);
      DivideBelow(n, radix, p);
    }
  }

  lemma {:induction false} PowerGrows(radix: nat, k: nat)
    requires radix >= 2 && k >= 1
    ensures radix <= Power(radix, k)
  {
    if k == 1 {
      assert Power(radix, 1) == radix * Power(radix, 0);
    } else {
      PowerGrows(radix, k - 1);
      assert radix * Power(radix, k - 1) >= radix;
    }
  }

  datatype Symbol = Letter(c: char) | Digit(d: nat)

  function Letters(text: string): seq<Symbol> {
    seq(|text|, i requires 0 <= i < |text| => Letter(text[i]))
  }

  function Numerals(ds: seq<nat>): seq<Symbol> {
    seq(|ds|, i requires 0 <= i < |ds| => Digit(ds[i]))
  }

  /** `run-{run_id:032x}-seq-{seq:012}`, one symbol per byte. */
  function Payload(runId: U128, seqNo: U64): seq<Symbol> {
    Letters("run-") + Numerals(Padded(Digits(runId, 16), 32)) + Letters("-seq-") + Numerals(Padded(Digits(seqNo, 10), 12))
  }

  lemma HexLimit()
    ensures Power(16, 32) == TWO128
  {
    PowerSplit(16, 16, 16);
    PowerSplit(16, 8, 8);
    assert Power(16, 8) == TWO32;
  }

  lemma {:induction false} PowerSplit(radix: nat, a: nat, b: nat)
    ensures Power(radix, a + b) == Power(radix, a) * Power(radix, b)
  {
    if a == 0 {
    } else {
      PowerSplit(radix, a - 1, b);
      assert radix * (Power(radix, a - 1) * Power(radix, b)) == (radix * Power(radix, a - 1)) * Power(radix, b);
    }
  }

  lemma TrillionLimit()
    ensures Power(10, 12) == 1_000_000_000_000
  {
    PowerSplit(10, 6, 6);
    assert Power(10, 6) == 1_000_000;
  }

  /** The payload fills its 53-byte array exactly when the sequence number has at most 12 digits; the
      array copy panics otherwise. */
  lemma PayloadFillsItsArray(runId: U128, seqNo: U64)
    ensures |Payload(runId, seqNo)| == 53 <==> seqNo < 1_000_000_000_000
  {
    HexLimit();
    TrillionLimit();
    DigitCount(runId, 16, 32);
    DigitCount(seqNo, 10, 12);
  }

  lemma PaddedLength(n: nat, radix: nat, width: nat)
    requires radix >= 2 && width >= 1 && n < Power(radix, width)
    ensures |Padded(Digits(n, radix), width)| == width
  {
    DigitCount(n, radix, width);
  }

  lemma PaddedTellsNumber(a: nat, b: nat, radix: nat, width: nat)
    requires radix >= 2 && Padded(Digits(a, radix), width) == Padded(Digits(b, radix), width)
    ensures a == b
  {
    PaddingKeepsValue(Digits(a, radix), width, radix);
    PaddingKeepsValue(Digits(b, radix), width, radix);
    DigitsReadBack(a, radix);
    DigitsReadBack(b, radix);
  }

  lemma NumeralsTellDigits(x: seq<nat>, y: seq<nat>)
    requires Numerals(x) == Numerals(y)
    ensures x == y
  {
    assert |x| == |Numerals(x)| == |y|;
    assert forall i :: 0 <= i < |x| ==> Numerals(x)[i] == Digit(x[i]) && Numerals(y)[i] == Digit(y[i]);
  }

  /** Different records never share a payload, of one run or of two. */
  lemma PayloadsAreDistinct(runId: U128, runId': U128, a: U64, b: U64)
    requires Payload(runId, a) == Payload(runId', b)
    ensures runId == runId' && a == b
  {
    var x, x' := Padded(Digits(runId, 16), 32), Padded(Digits(runId', 16), 32);
    HexLimit();
    PaddedLength(runId, 16, 32);
    PaddedLength(runId', 16, 32);
    assert Payload(runId, a)[4..36] == Numerals(x);
    assert Payload(runId', b)[4..36] == Numerals(x');
    NumeralsTellDigits(x, x');
    PaddedTellsNumber(runId, runId', 16, 32);
    var y, y' := Padded(Digits(a, 10), 12), Padded(Digits(b, 10), 12);
    assert Payload(runId, a)[41..] == Numerals(y);
    assert Payload(runId', b)[41..] == Numerals(y');
    NumeralsTellDigits(y, y');
    PaddedTellsNumber(a, b, 10, 12);
  }

  // ---- ingest, then query ----

  datatype Event = Event(seqNo: int, score: nat, payload: seq<Symbol>)

  function MakeEvent(runId: U128, seqNo: U64): Event {
    Event(AsSigned(seqNo), seqNo % 100_000, Payload(runId, seqNo))
  }

  /** An event tells its record: its signed number and its payload do, each on its own. */
  lemma EventsAreDistinct(runId: U128, a: U64, b: U64)
    ensures MakeEvent(runId, a).seqNo == MakeEvent(runId, b).seqNo <==> a == b
    ensures MakeEvent(runId, a).payload == MakeEvent(runId, b).payload <==> a == b
    ensures a < TWO64 / 2 ==> MakeEvent(runId, a).seqNo == a
  {
    SignedReadsBack(a);
    SignedReadsBack(b);
    if MakeEvent(runId, a).payload == MakeEvent(runId, b).payload {
      PayloadsAreDistinct(runId, runId, a, b);
    }
  }

  /** The ingested stream of a heed or redb run. */
  function EventStream(runId: U128, records: U64): seq<Put<U64, Event>> {
    seq(records, i requires 0 <= i < records => Put(RecordKey(runId, i), MakeEvent(runId, i)))
  }

  function SampleStep(step: nat): nat {
    if step > 1 then step else 1
  }

  function ExpectedSampleCount(records: nat, step: nat): nat {
    if records == 0 then 0 else (records - 1) / SampleStep(step) + 1
  }

  /** After its own ingestion a record is found, whatever the database held before. */
  lemma RecordIsFound(store: map<U64, Event>, runId: U128, records: U64, i: U64)
    requires i < records
    ensures
      var after := PutAll(store, EventStream(runId, records));
      RecordKey(runId, i) in after && after[RecordKey(runId, i)] == MakeEvent(runId, i)
  {
    var items := EventStream(runId, records);
    forall j | i < j < |items|
      ensures items[j].key != items[i].key
    {
      KeysAreDistinct(runId, i, j);
    }
    LastPutWins(store, items, i);
  }

  /** The sampled point query of heed and redb. It fails at the first missing key. */
  method PointQuery(store: map<U64, Event>, runId: U128, records: U64, step: nat) returns (matched: Option<nat>)
    ensures matched.Some? <==> forall i: U64 :: Sampled(i, records, step) ==> RecordKey(runId, i) in store
    ensures matched.Some? ==> matched.value == ExpectedSampleCount(records, step)
  {
    var s := SampleStep(step);
    var rows := 0;
    var i := 0;
    SampleStart(step);
    while i < records
      invariant SampleAt(step, i, rows) && (rows > 0 ==> i < records + s)
      invariant forall j: U64 :: Sampled(j, records, step) && j < i ==> RecordKey(runId, j) in store
      decreases records - i
    {
      NextSample(step, i, rows);
      if RecordKey(runId, i) !in store {
        assert Sampled(i, records, step);
        return None;
      }
      rows := rows + 1;
      i := i + s;
    }
    SampleCount(step, records, i, rows);
    return Some(rows);
  }

  /** Sample number `rows` is record `i`. */
  predicate SampleAt(step: nat, i: nat, rows: nat) {
    i == SampleStep(step) * rows
  }

  lemma SampleStart(step: nat)
    ensures SampleAt(step, 0, 0)
  {
  }

  /** Each sample is a multiple of the step and the next one is a step further. */
  lemma NextSample(step: nat, i: nat, rows: nat)
    requires SampleAt(step, i, rows)
    ensures SampleAt(step, i + SampleStep(step), rows + 1)
    ensures i % SampleStep(step) == 0
    ensures forall j: nat :: i < j < i + SampleStep(step) ==> j % SampleStep(step) != 0
  {
    var s := SampleStep(step);
    Distribute(s, rows, 1);
    DivUnique(i, s, rows, 0);
    forall j: nat | i < j < i + s
      ensures j % s != 0
    {
      DivUnique(j, s, rows, j - i);
    }
  }

  /** The loop leaves with the expected number of samples. */
  lemma SampleCount(step: nat, records: nat, i: nat, rows: nat)
    requires SampleAt(step, i, rows) && records <= i
    requires rows > 0 ==> i < records + SampleStep(step)
    ensures rows == ExpectedSampleCount(records, step)
  {
    var s := SampleStep(step);
    if rows == 0 {
      assert i == 0;
    } else {
      Distribute(s, rows - 1, 1);
      if records == 0 {
        MulStep(s, 0, rows);
      } else {
        DivUnique(records - 1, s, rows - 1, records - 1 - (i - s));
      }
    }
  }

  predicate Sampled(i: nat, records: nat, step: nat) {
    i < records && i % SampleStep(step) == 0
  }

  /** Step 0 samples every record, any other step its multiples. */
  lemma SampledExactly(i: nat, records: nat, step: nat)
    ensures step == 0 ==> (Sampled(i, records, step) <==> i < records)
    ensures step > 0 ==> (Sampled(i, records, step) <==> i < records && exists k: nat :: SampleAt(step, i, k) && i == step * k)
  {
    if step > 0 && i % step == 0 {
      assert i == step * (i / step) && SampleAt(step, i, i / step);
    }
    if step > 0 {
      if k: nat :| SampleAt(step, i, k) && i == step * k {
        DivUnique(i, step, k, 0);
      }
    }
  }

  /** A benchmark run never misses a key and matches the expected number of rows, on any database.
      Past a trillion records the copy into the payload array would panic. */
  method IngestThenQuery(db: Database<U64, Event>, runId: U128, records: U64, step: nat) returns (matched: nat)
    requires !db.writerBusy && records <= 1_000_000_000_000
    modifies db
    ensures matched == ExpectedSampleCount(records, step)
    ensures forall i: U64 :: i < records ==>
              RecordKey(runId, i) in db.committed && db.committed[RecordKey(runId, i)] == MakeEvent(runId, i) &&
              |db.committed[RecordKey(runId, i)].payload| == 53
  {
    var inserted := db.IngestStream(EventStream(runId, records), Faults(false, None, false));
    forall i: U64 | i < records
      ensures RecordKey(runId, i) in db.committed && db.committed[RecordKey(runId, i)] == MakeEvent(runId, i)
      ensures |MakeEvent(runId, i).payload| == 53
    {
      RecordIsFound(old(db.committed), runId, records, i);
      PayloadFillsItsArray(runId, i);
    }
    var r := PointQuery(db.committed, runId, records, step);
    matched := r.value;
  }

  // ---- SQLite ----

  const HIGH_SCORE_THRESHOLD := 99_999

  datatype Row = Row(id: int, event: Event)

  function RowStream(runId: U128, records: U64): seq<Row> {
    seq(records, i requires 0 <= i < records => Row(RecordId(runId, i), MakeEvent(runId, i)))
  }

  /** No two rows of a run share an id, though the table does without a key. */
  lemma RowIdsAreDistinct(runId: U128, records: U64, i: nat, j: nat)
    requires i < records && j < records
    ensures RowStream(runId, records)[i].id == RowStream(runId, records)[j].id <==> i == j
  {
    KeysAreDistinct(runId, i, j);
  }

  function HighScores(rows: seq<Row>): nat {
    if rows == [] then 0
    else HighScores(rows[..|rows| - 1]) + (if rows[|rows| - 1].event.score >= HIGH_SCORE_THRESHOLD then 1 else 0)
  }

  /** The scores cycle through 0..99999, so a run holds one high score per full cycle. */
  lemma {:induction false} OneHighScorePerCycle(runId: U128, records: U64)
    ensures HighScores(RowStream(runId, records)) == records / 100_000
  {
    if records == 0 {
    } else {
      OneHighScorePerCycle(runId, records - 1);
      assert RowStream(runId, records)[..records - 1] == RowStream(runId, records - 1);
    }
  }

  method RangeQuery(rows: seq<Row>) returns (matched: nat)
    ensures matched == HighScores(rows)
  {
    matched := 0;
    for k := 0 to |rows|
      invariant matched == HighScores(rows[..k])
    {
      assert rows[..k + 1][..k] == rows[..k];
      if rows[k].event.score >= HIGH_SCORE_THRESHOLD {
        matched := matched + 1;
      }
    }
    assert rows[..|rows|] == rows;
  }

  /** On a fresh table the range query matches one row in 100000. */
  method IngestThenRangeQuery(runId: U128, records: U64) returns (matched: nat)
    ensures matched == records / 100_000
  {
    var table := new Table<Row>();
    var inserted := table.IngestStream(RowStream(runId, records), Faults(false, None, false));
    assert table.rows == RowStream(runId, records);
    matched := RangeQuery(table.rows);
    OneHighScorePerCycle(runId, records);
  }
}
