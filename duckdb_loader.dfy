/** The DuckDB loader (downloader.py): write_rates deduplicates one payload
    and merges it into staging.rates, get_watermark reads the latest date of
    one base, and the run walks from the watermark to yesterday adding up
    what write_rates returns. */
module DuckLoader {
  import opened Outcomes
  import opened SeqUtil
  import opened Forex

  /** The symbols requested when --iso-codes is not given. */
  const DEFAULT_ISO_CODES: string := "GBP,USD,NZD,CAD,AUD,JPY"

  /** The non-key columns of a staging.rates row. */
  datatype Stored = Stored(rate: real, updatedAt: Timestamp)

  /** A staging.rates table: one row per (base_iso, to_iso, date). */
  type Table = map<Key, Stored>

  /** A database file: whether staging.rates exists, and its rows. */
  class Database {
    var hasTable: bool
    var rates: Table

    /** A missing table holds no rows. */
    predicate Valid()
      reads this
    {
      !hasTable ==> rates == map[]
    }

    /** duckdb.connect on a file whose staging.rates is in this state. */
    constructor Open(hasTable: bool, rates: Table)
      requires !hasTable ==> rates == map[]
      ensures Valid() && this.hasTable == hasTable && this.rates == rates
    {
      this.hasTable := hasTable;
      this.rates := rates;
    }

    /** The table, or None when querying it raises a catalog error. */
    function Contents(): Option<Table>
      reads this
    {
      if hasTable then Some(rates) else None
    }

    /** CREATE SCHEMA / CREATE TABLE IF NOT EXISTS: an existing table keeps
        its rows, a new one starts empty. */
    method CreateTable()
      requires Valid()
      modifies this
      ensures Valid() && hasTable && rates == old(rates)
    {
      if !hasTable {
        hasTable := true;
        rates := map[];
      }
    }

    /** One MERGE of a source row: a matching row takes the new rate and
        updated_at, otherwise the row is inserted. */
    method MergeRow(row: (Key, Stored))
      requires hasTable
      modifies this
      ensures hasTable && rates == old(rates)[row.0 := row.1]
    {
      rates := rates[row.0 := row.1];
    }

    /** executemany of the MERGE: one MergeRow per row, in order. */
    method MergeMany(rows: seq<(Key, Stored)>)
      requires hasTable
      modifies this
      ensures hasTable && Valid() && rates == Merge(old(rates), rows)
    {
      for i := 0 to |rows|
        invariant hasTable
        invariant rates == Merge(old(rates), rows[..i])
      {
        assert rows[..i + 1][..i] == rows[..i];
        MergeRow(rows[i]);
      }
      assert rows[..|rows|] == rows;
    }
  }

  // ---------------------------------------------------------------------
  // The batch of one payload

  /** Pairs the rates with one updated_at. */
  function Stamped(entries: seq<(Key, real)>, stamp: Timestamp): (rows: seq<(Key, Stored)>)
    ensures |rows| == |entries|
  {
    seq(|entries|, i requires 0 <= i < |entries| => (entries[i].0, Stored(entries[i].1, stamp)))
  }

  /** Stamping keeps every key and rate in place. */
  lemma StampedSpec(entries: seq<(Key, real)>, stamp: Timestamp)
    ensures KeysOf(Stamped(entries, stamp)) == KeysOf(entries)
    ensures forall i :: 0 <= i < |entries| ==> Stamped(entries, stamp)[i] == (entries[i].0, Stored(entries[i].1, stamp))
  {
  }

  lemma StampedSnoc(entries: seq<(Key, real)>, e: (Key, real), stamp: Timestamp)
    ensures Stamped(entries + [e], stamp) == Stamped(entries, stamp) + [(e.0, Stored(e.1, stamp))]
  {
  }

  /** The rows write_rates builds from a payload: the first rate of every
      (base, to_iso, date), all stamped with the call's updated_at. */
  function Batch(p: Payload, stamp: Timestamp): seq<(Key, Stored)>
  {
    Stamped(FirstPerKey(DayEntries(p)), stamp)
  }

  /** A batch holds each key of the payload once, in order of first
      appearance, with that key's first rate and the one updated_at; it has
      as many rows as the payload has distinct keys. */
  lemma BatchIsFirstOccurrences(p: Payload, stamp: Timestamp)
    ensures NoDup(KeysOf(Batch(p, stamp)))
    ensures Elements(KeysOf(Batch(p, stamp))) == Elements(KeysOf(DayEntries(p)))
    ensures |Batch(p, stamp)| == |Elements(KeysOf(DayEntries(p)))|
    ensures forall i :: 0 <= i < |Batch(p, stamp)| ==>
              Batch(p, stamp)[i].0 in KeysOf(DayEntries(p))
              && Batch(p, stamp)[i].1 ==
                   Stored(DayEntries(p)[FirstIndex(KeysOf(DayEntries(p)), Batch(p, stamp)[i].0)].1, stamp)
  {
    var day := DayEntries(p);
    var first := FirstPerKey(day);
    StampedSpec(first, stamp);
    FirstPerKeySpec(day);
    DistinctSpec(KeysOf(day));
    DistinctCard(KeysOf(day));
    forall i | 0 <= i < |first|
      ensures first[i].0 in KeysOf(day) && first[i] == day[FirstIndex(KeysOf(day), first[i].0)]
    {
      FirstPerKeyKeepsFirst(day, i);
    }
  }

  /** For a parsed body, whose to_iso values are distinct, the seen-set
      guard never skips: every rate of the payload is written. */
  lemma BatchOfParsedBody(p: Payload, stamp: Timestamp)
    requires NoDup(KeysOf(p.rates))
    ensures Batch(p, stamp) == Stamped(DayEntries(p), stamp)
    ensures |Batch(p, stamp)| == |p.rates|
  {
    var day := DayEntries(p);
    DayEntriesSpec(p);
    FirstPerKeyOfNoDup(day);
    StampedSpec(day, stamp);
  }

  /** A payload whose rates object is empty gives an empty batch, and no
      other payload does. */
  lemma EmptyBatchIffNoRates(p: Payload, stamp: Timestamp)
    ensures Batch(p, stamp) == [] <==> p.rates == []
  {
    var day := DayEntries(p);
    FirstPerKeySpec(day);
    DistinctSpec(KeysOf(day));
    if p.rates != [] {
      assert KeysOf(day)[0] in KeysOf(day);
      assert KeysOf(day)[0] in Distinct(KeysOf(day));
    }
  }

  // ---------------------------------------------------------------------
  // MERGE

  /** The table after MERGE has run once per row, in order. */
  function Merge(t: Table, rows: seq<(Key, Stored)>): Table
  {
    if rows == [] then t
    else Merge(t, rows[..|rows| - 1])[rows[|rows| - 1].0 := rows[|rows| - 1].1]
  }

  /** Merging row by row is overriding the table with the rows' last values. */
  lemma {:induction false} MergeIsOverride(t: Table, rows: seq<(Key, Stored)>)
    ensures Merge(t, rows) == t + LastValues(rows)
  {
    if rows != [] {
      var p, e := rows[..|rows| - 1], rows[|rows| - 1];
      MergeIsOverride(t, p);
      assert rows == p + [e];
      assert LastValues(rows) == LastValues(p)[e.0 := e.1];
    }
  }

  /** After the merge the table holds its old keys and the batch's keys and
      no others; a key outside the batch keeps its row; with distinct keys,
      every batch key holds the batch's rate and updated_at. */
  lemma MergeUpserts(t: Table, rows: seq<(Key, Stored)>)
    ensures forall k :: k in Merge(t, rows) <==> k in t || k in KeysOf(rows)
    ensures forall k :: k in t && k !in KeysOf(rows) ==> Merge(t, rows)[k] == t[k]
    ensures NoDup(KeysOf(rows)) ==>
              forall i :: 0 <= i < |rows| ==> rows[i].0 in Merge(t, rows) && Merge(t, rows)[rows[i].0] == rows[i].1
  {
    MergeIsOverride(t, rows);
    LastValuesKeys(rows);
    if NoDup(KeysOf(rows)) {
      forall i | 0 <= i < |rows| ensures rows[i].0 in Merge(t, rows) && Merge(t, rows)[rows[i].0] == rows[i].1 {
        forall j | i < j < |rows| ensures rows[j].0 != rows[i].0 {
          assert KeysOf(rows)[j] == rows[j].0 && KeysOf(rows)[i] == rows[i].0;
        }
        LastWriteWins(rows, i);
      }
    }
  }

  /** Merging rows whose keys a later merge covers leaves no trace. */
  lemma MergeOverwritten(t: Table, first: seq<(Key, Stored)>, second: seq<(Key, Stored)>)
    requires forall k :: k in KeysOf(first) ==> k in KeysOf(second)
    ensures Merge(Merge(t, first), second) == Merge(t, second)
  {
    MergeIsOverride(t, first);
    MergeIsOverride(Merge(t, first), second);
    MergeIsOverride(t, second);
    LastValuesKeys(first);
    LastValuesKeys(second);
    var a, b := LastValues(first), LastValues(second);
    assert (t + a) + b == t + b;
  }

  /** The rates of a table, without updated_at. */
  function RatesOf(t: Table): (r: map<Key, real>)
    ensures r.Keys == t.Keys
    ensures forall k :: k in r ==> r[k] == t[k].rate
  {
    map k | k in t :: t[k].rate
  }

  lemma RatesOfUpdate(t: Table, k: Key, v: Stored)
    ensures RatesOf(t[k := v]) == RatesOf(t)[k := v.rate]
  {
  }

  /** Merging rows with the same keys and rates into tables with the same
      rates gives tables with the same rates, whatever the updated_at. */
  lemma {:induction false} MergeSameRates(t1: Table, t2: Table, a: seq<(Key, Stored)>, b: seq<(Key, Stored)>)
    requires RatesOf(t1) == RatesOf(t2)
    requires KeysOf(a) == KeysOf(b)
    requires forall i :: 0 <= i < |a| && i < |b| ==> a[i].1.rate == b[i].1.rate
    ensures RatesOf(Merge(t1, a)) == RatesOf(Merge(t2, b))
  {
    assert |a| == |KeysOf(a)| == |KeysOf(b)| == |b|;
    if a != [] {
      var n := |a|;
      assert KeysOf(a[..n - 1]) == KeysOf(a)[..n - 1] == KeysOf(b)[..n - 1] == KeysOf(b[..n - 1]);
      MergeSameRates(t1, t2, a[..n - 1], b[..n - 1]);
      assert KeysOf(a)[n - 1] == a[n - 1].0 && KeysOf(b)[n - 1] == b[n - 1].0;
      RatesOfUpdate(Merge(t1, a[..n - 1]), a[n - 1].0, a[n - 1].1);
      RatesOfUpdate(Merge(t2, b[..n - 1]), b[n - 1].0, b[n - 1].1);
    }
  }

  /** Writing the same payload twice leaves the keys and rates of writing it
      once; only updated_at moves to the second write's. */
  lemma WriteTwiceKeepsRates(t: Table, p: Payload, stamp1: Timestamp, stamp2: Timestamp)
    ensures Merge(Merge(t, Batch(p, stamp1)), Batch(p, stamp2)) == Merge(t, Batch(p, stamp2))
    ensures RatesOf(Merge(Merge(t, Batch(p, stamp1)), Batch(p, stamp2))) == RatesOf(Merge(t, Batch(p, stamp1)))
  {
    var b1, b2 := Batch(p, stamp1), Batch(p, stamp2);
    StampedSpec(FirstPerKey(DayEntries(p)), stamp1);
    StampedSpec(FirstPerKey(DayEntries(p)), stamp2);
    MergeOverwritten(t, b1, b2);
    MergeSameRates(t, t, b2, b1);
  }

  // ---------------------------------------------------------------------
  // write_rates

  /** The first loop of write_rates: one row per key of the payload, the
      first time the key is seen, with the call's updated_at. */
  method BuildRows(payload: Payload, updatedAt: Timestamp) returns (rows: seq<(Key, Stored)>)
    ensures rows == Batch(payload, updatedAt)
  {
    var baseIso := payload.base;
    var dateValue := payload.date;
    var seen: set<Key> := {};
    rows := [];
    ghost var day := DayEntries(payload);
    ghost var prefix: seq<(Key, real)> := [];
    ghost var first: seq<(Key, real)> := [];
    for j := 0 to |payload.rates|
      invariant prefix == day[..j]
      invariant first == FirstPerKey(prefix)
      invariant rows == Stamped(first, updatedAt)
      invariant seen == Elements(KeysOf(prefix))
    {
      var key := Key(baseIso, payload.rates[j].0, dateValue);
      ghost var e := day[j];
      assert e == (key, payload.rates[j].1);
      SliceSnoc(day, j);
      FirstPerKeyStep(prefix, e);
      StampedSnoc(first, e, updatedAt);
      prefix := prefix + [e];
      if key in seen {
        continue;
      }
      first := first + [e];
      seen := seen + {key};
      rows := rows + [(key, Stored(payload.rates[j].1, updatedAt))];
    }
    assert day[..|payload.rates|] == day;
  }

  /** write_rates: deduplicates the payload's rates by key, keeping the
      first, and merges them with updated_at into staging.rates, creating
      the table first; an empty batch returns 0 and touches nothing. */
  method WriteRates(db: Database, payload: Payload, updatedAt: Timestamp) returns (count: nat)
    requires db.Valid()
    modifies db
    ensures db.Valid()
    ensures count == |Batch(payload, updatedAt)|
    ensures db.rates == Merge(old(db.rates), Batch(payload, updatedAt))
    ensures db.hasTable == (old(db.hasTable) || count > 0)
  {
    var rows := BuildRows(payload, updatedAt);
    if rows == [] {
      return 0;
    }
    db.CreateTable();
    db.MergeMany(rows);
    return |rows|;
  }

  // ---------------------------------------------------------------------
  // get_watermark

  /** The dates of the base's rows: what SELECT MAX(date) ... WHERE base_iso
      = ? ranges over. */
  function BaseDates(t: Table, baseIso: string): set<Date>
  {
    set k | k in t && k.baseIso == baseIso :: k.date
  }

  /** get_watermark: the day after the base's latest date, or the default
      start when the table is missing or has no row for the base. */
  function GetWatermark(table: Option<Table>, baseIso: string): (start: Date)
    ensures table.None? || BaseDates(table.value, baseIso) == {} ==> start == DEFAULT_START_DATE
    ensures table.Some? && BaseDates(table.value, baseIso) != {} ==>
              (exists k :: k in table.value && k.baseIso == baseIso && k.date + 1 == start)
              && forall k :: k in table.value && k.baseIso == baseIso ==> k.date < start
  {
    match table
    case None => DEFAULT_START_DATE
    case Some(t) =>
      var dates := BaseDates(t, baseIso);
      if dates == {} then DEFAULT_START_DATE
      else
        var latest := MaxDate(dates);
        assert exists k :: k in t && k.baseIso == baseIso && k.date == latest;
        assert forall k :: k in t && k.baseIso == baseIso ==> k.date in dates;
        latest + 1
  }

  /** The keys a payload writes all carry its base and date, and there is
      at least one when it has rates. */
  lemma BatchKeys(t: Table, p: Payload, stamp: Timestamp)
    ensures forall k :: k in Merge(t, Batch(p, stamp)) <==> k in t || k in KeysOf(DayEntries(p))
    ensures forall k :: k in KeysOf(DayEntries(p)) ==> k.baseIso == p.base && k.date == p.date
    ensures p.rates != [] ==> Key(p.base, p.rates[0].0, p.date) in KeysOf(DayEntries(p))
  {
    var b, day := Batch(p, stamp), DayEntries(p);
    MergeUpserts(t, b);
    BatchIsFirstOccurrences(p, stamp);
    assert forall k :: k in KeysOf(b) <==> k in Elements(KeysOf(b));
    assert forall k :: k in KeysOf(day) <==> k in Elements(KeysOf(day));
    if p.rates != [] {
      assert KeysOf(day)[0] == Key(p.base, p.rates[0].0, p.date);
    }
  }

  /** The base's dates after writing a payload with rates: the payload's
      date joins its own base's dates, every other base is untouched. */
  lemma BaseDatesAfterWrite(t: Table, p: Payload, stamp: Timestamp, baseIso: string)
    requires p.rates != []
    ensures BaseDates(Merge(t, Batch(p, stamp)), baseIso)
            == if p.base == baseIso then BaseDates(t, baseIso) + {p.date} else BaseDates(t, baseIso)
  {
    var m := Merge(t, Batch(p, stamp));
    BatchKeys(t, p, stamp);
    var k0 := Key(p.base, p.rates[0].0, p.date);
    assert k0 in m;
  }

  /** The latest date after adding one date. */
  lemma MaxDateInsert(dates: set<Date>, d: Date)
    requires dates != {}
    ensures MaxDate(dates + {d}) == if d > MaxDate(dates) then d else MaxDate(dates)
  {
    var m, n := MaxDate(dates), MaxDate(dates + {d});
    assert n == d || n in dates;
  }

  /** Writing a payload with rates moves its base's watermark to the day
      after the payload's date unless it was later already, and leaves
      every other base's watermark where it was. */
  lemma WatermarkAfterWrite(t: Table, p: Payload, stamp: Timestamp, baseIso: string)
    requires p.rates != []
    ensures p.base == baseIso && BaseDates(t, baseIso) == {} ==>
              GetWatermark(Some(Merge(t, Batch(p, stamp))), baseIso) == p.date + 1
    ensures p.base == baseIso && BaseDates(t, baseIso) != {} ==>
              GetWatermark(Some(Merge(t, Batch(p, stamp))), baseIso)
              == if p.date + 1 > GetWatermark(Some(t), baseIso) then p.date + 1 else GetWatermark(Some(t), baseIso)
    ensures p.base != baseIso ==>
              GetWatermark(Some(Merge(t, Batch(p, stamp))), baseIso) == GetWatermark(Some(t), baseIso)
  {
    var before := BaseDates(t, baseIso);
    BaseDatesAfterWrite(t, p, stamp, baseIso);
    if p.base == baseIso {
      if before == {} {
        assert before + {p.date} == {p.date};
        assert MaxDate({p.date}) == p.date;
      } else {
        MaxDateInsert(before, p.date);
      }
    }
  }

  // ---------------------------------------------------------------------
  // The run

  /** The table after writing the payloads fetched for days in order, each
      write stamped by the clock reading taken for its day. */
  function Ingest(t: Table, fetch: Fetcher, isoCodes: string, days: seq<Date>, clock: Date -> Timestamp): Table
    requires AllFetched(fetch, BASE_ISO, isoCodes, days)
  {
    if days == [] then t
    else
      var d := days[|days| - 1];
      Merge(Ingest(t, fetch, isoCodes, days[..|days| - 1], clock), Batch(fetch(BASE_ISO, isoCodes, d).value, clock(d)))
  }

  /** The sum of what write_rates returns over days: each payload's
      distinct keys, whether they are new to the table or not. */
  function Inserted(fetch: Fetcher, isoCodes: string, days: seq<Date>): nat
    requires AllFetched(fetch, BASE_ISO, isoCodes, days)
  {
    if days == [] then 0
    else
      var p := fetch(BASE_ISO, isoCodes, days[|days| - 1]).value;
      Inserted(fetch, isoCodes, days[..|days| - 1]) + |FirstPerKey(DayEntries(p))|
  }

  /** Fetching one more day extends the ingestion by that day's write:
      writing its batch into the table so far gives the longer ingestion. */
  lemma IngestStep(t0: Table, t: Table, fetch: Fetcher, isoCodes: string, days: seq<Date>, d: Date,
                   clock: Date -> Timestamp)
    requires AllFetched(fetch, BASE_ISO, isoCodes, days)
    requires fetch(BASE_ISO, isoCodes, d).Success?
    requires t == Ingest(t0, fetch, isoCodes, days, clock)
    ensures AllFetched(fetch, BASE_ISO, isoCodes, days + [d])
    ensures Merge(t, Batch(fetch(BASE_ISO, isoCodes, d).value, clock(d))) == Ingest(t0, fetch, isoCodes, days + [d], clock)
    ensures Inserted(fetch, isoCodes, days + [d])
            == Inserted(fetch, isoCodes, days) + |Batch(fetch(BASE_ISO, isoCodes, d).value, clock(d))|
  {
    assert (days + [d])[..|days|] == days;
  }

  /** Nothing is counted exactly when every fetched payload had no rates. */
  lemma {:induction false} NothingInsertedIffNoRates(fetch: Fetcher, isoCodes: string, days: seq<Date>)
    requires AllFetched(fetch, BASE_ISO, isoCodes, days)
    ensures Inserted(fetch, isoCodes, days) == 0 <==>
              forall i :: 0 <= i < |days| ==> fetch(BASE_ISO, isoCodes, days[i]).value.rates == []
  {
    if days != [] {
      var prev := days[..|days| - 1];
      var p := fetch(BASE_ISO, isoCodes, days[|days| - 1]).value;
      NothingInsertedIffNoRates(fetch, isoCodes, prev);
      BatchIsFirstOccurrences(p, 0);
      EmptyBatchIffNoRates(p, 0);
      assert forall i :: 0 <= i < |prev| ==> prev[i] == days[i];
    }
  }

  lemma OverrideUpdate(a: Table, m: Table, k: Key, v: Stored)
    ensures (a + m)[k := v] == a + m[k := v]
  {
  }

  /** Merging into an overridden table overrides the merged one. */
  lemma {:induction false} MergeUnderOverride(a: Table, b: Table, rows: seq<(Key, Stored)>)
    ensures Merge(a + b, rows) == a + Merge(b, rows)
  {
    if rows != [] {
      var n := |rows|;
      MergeUnderOverride(a, b, rows[..n - 1]);
      OverrideUpdate(a, Merge(b, rows[..n - 1]), rows[n - 1].0, rows[n - 1].1);
    }
  }

  /** An ingestion into a table overrides the table with the ingestion
      into an empty one. */
  lemma {:induction false} IngestOverride(t: Table, fetch: Fetcher, isoCodes: string, days: seq<Date>, clock: Date -> Timestamp)
    requires AllFetched(fetch, BASE_ISO, isoCodes, days)
    ensures Ingest(t, fetch, isoCodes, days, clock) == t + Ingest(map[], fetch, isoCodes, days, clock)
  {
    if days == [] {
      assert t + map[] == t;
    } else {
      var prev, d := days[..|days| - 1], days[|days| - 1];
      IngestOverride(t, fetch, isoCodes, prev, clock);
      MergeUnderOverride(t, Ingest(map[], fetch, isoCodes, prev, clock), Batch(fetch(BASE_ISO, isoCodes, d).value, clock(d)));
    }
  }

  /** The keys and rates an ingestion writes do not depend on the clock. */
  lemma {:induction false} IngestRatesIgnoreClock(t: Table, fetch: Fetcher, isoCodes: string, days: seq<Date>,
                                                  clock1: Date -> Timestamp, clock2: Date -> Timestamp)
    requires AllFetched(fetch, BASE_ISO, isoCodes, days)
    ensures RatesOf(Ingest(t, fetch, isoCodes, days, clock1)) == RatesOf(Ingest(t, fetch, isoCodes, days, clock2))
  {
    if days != [] {
      var prev, d := days[..|days| - 1], days[|days| - 1];
      var p := fetch(BASE_ISO, isoCodes, d).value;
      IngestRatesIgnoreClock(t, fetch, isoCodes, prev, clock1, clock2);
      StampedSpec(FirstPerKey(DayEntries(p)), clock1(d));
      StampedSpec(FirstPerKey(DayEntries(p)), clock2(d));
      MergeSameRates(Ingest(t, fetch, isoCodes, prev, clock1), Ingest(t, fetch, isoCodes, prev, clock2),
                     Batch(p, clock1(d)), Batch(p, clock2(d)));
    }
  }

  /** Re-running over days already loaded leaves the table as the second
      pass alone would make it, with the keys and rates of the first. */
  lemma IngestTwice(t: Table, fetch: Fetcher, isoCodes: string, days: seq<Date>,
                    clock1: Date -> Timestamp, clock2: Date -> Timestamp)
    requires AllFetched(fetch, BASE_ISO, isoCodes, days)
    ensures Ingest(Ingest(t, fetch, isoCodes, days, clock1), fetch, isoCodes, days, clock2)
            == Ingest(t, fetch, isoCodes, days, clock2)
    ensures RatesOf(Ingest(Ingest(t, fetch, isoCodes, days, clock1), fetch, isoCodes, days, clock2))
            == RatesOf(Ingest(t, fetch, isoCodes, days, clock1))
  {
    var once := Ingest(t, fetch, isoCodes, days, clock1);
    var a, b := Ingest(map[], fetch, isoCodes, days, clock1), Ingest(map[], fetch, isoCodes, days, clock2);
    IngestOverride(t, fetch, isoCodes, days, clock1);
    IngestOverride(once, fetch, isoCodes, days, clock2);
    IngestOverride(t, fetch, isoCodes, days, clock2);
    IngestRatesIgnoreClock(map[], fetch, isoCodes, days, clock1, clock2);
    assert a.Keys == RatesOf(a).Keys == RatesOf(b).Keys == b.Keys;
    assert (t + a) + b == t + b;
    IngestRatesIgnoreClock(t, fetch, isoCodes, days, clock1, clock2);
  }

  /** The line main prints for the total. */
  function Message(total: nat): (line: string)
    ensures line == "No new rates inserted." <==> total == 0
    ensures total != 0 ==> line == "Inserted " + Decimal(total) + " rows into raw.rates."
  {
    if total != 0 then "Inserted " + Decimal(total) + " rows into raw.rates."
    else "No new rates inserted."
  }

  /** The state after writing the payloads of days into t0: every request
      succeeded, the table is their ingestion and total is what write_rates
      returned for them. */
  predicate Loaded(t0: Table, t: Table, total: nat, fetch: Fetcher, isoCodes: string, days: seq<Date>,
                   clock: Date -> Timestamp)
  {
    && AllFetched(fetch, BASE_ISO, isoCodes, days)
    && t == Ingest(t0, fetch, isoCodes, days, clock)
    && total == Inserted(fetch, isoCodes, days)
  }

  /** Writing the next day's batch keeps the state loaded. */
  lemma LoadedStep(t0: Table, t: Table, total: nat, fetch: Fetcher, isoCodes: string, days: seq<Date>, d: Date,
                   clock: Date -> Timestamp)
    requires Loaded(t0, t, total, fetch, isoCodes, days, clock)
    requires fetch(BASE_ISO, isoCodes, d).Success?
    ensures Loaded(t0, Merge(t, Batch(fetch(BASE_ISO, isoCodes, d).value, clock(d))),
                   total + |Batch(fetch(BASE_ISO, isoCodes, d).value, clock(d))|, fetch, isoCodes, days + [d], clock)
  {
    IngestStep(t0, t, fetch, isoCodes, days, d, clock);
  }

  /** What the date loop of main leaves behind, walking startDate..endDate
      from table t0 (which existed when had): the requests stop at the first
      failure, the days written are those requested before it, the table t
      is their ingestion into t0, it exists (has) when it did before or a
      row was written, and the result is the total write_rates returned or
      the error of the failed request. */
  predicate RangeIngested(t0: Table, had: bool, t: Table, has: bool, fetch: Fetcher, isoCodes: string,
                          startDate: Date, endDate: Date, clock: Date -> Timestamp,
                          result: Result<nat, FetchError>, requested: seq<Date>, written: seq<Date>)
  {
    && WalkedUntilFailure(fetch, BASE_ISO, isoCodes, startDate, endDate, requested, result.Failure?)
    && written == (if result.Failure? then requested[..|requested| - 1] else requested)
    && AllFetched(fetch, BASE_ISO, isoCodes, written)
    && t == Ingest(t0, fetch, isoCodes, written, clock)
    && has == (had || Inserted(fetch, isoCodes, written) > 0)
    && (result.Success? ==> result.value == Inserted(fetch, isoCodes, written))
    && (result.Failure? ==> result.error == fetch(BASE_ISO, isoCodes, requested[|requested| - 1]).error)
  }

  /** The loop state when the request for current fails. */
  lemma IngestStopsAtFailure(t0: Table, had: bool, t: Table, total: nat, fetch: Fetcher, isoCodes: string,
                             startDate: Date, endDate: Date, current: Date, clock: Date -> Timestamp)
    requires startDate <= current <= endDate
    requires Loaded(t0, t, total, fetch, isoCodes, DateRange(startDate, current - 1), clock)
    requires fetch(BASE_ISO, isoCodes, current).Failure?
    ensures RangeIngested(t0, had, t, had || total > 0, fetch, isoCodes, startDate, endDate, clock,
                          Failure(fetch(BASE_ISO, isoCodes, current).error),
                          DateRange(startDate, current - 1) + [current], DateRange(startDate, current - 1))
  {
    WalkStopsAtFailure(fetch, BASE_ISO, isoCodes, startDate, endDate, current);
    assert (DateRange(startDate, current - 1) + [current])[..|DateRange(startDate, current - 1)|]
           == DateRange(startDate, current - 1);
  }

  /** The loop state once current has passed endDate. */
  lemma IngestCompletes(t0: Table, had: bool, t: Table, total: nat, fetch: Fetcher, isoCodes: string,
                        startDate: Date, endDate: Date, current: Date, clock: Date -> Timestamp)
    requires endDate < current && (current == startDate || current == endDate + 1)
    requires Loaded(t0, t, total, fetch, isoCodes, DateRange(startDate, current - 1), clock)
    ensures RangeIngested(t0, had, t, had || total > 0, fetch, isoCodes, startDate, endDate, clock,
                          Success(total), DateRange(startDate, current - 1), DateRange(startDate, current - 1))
  {
    WalkCompletes(fetch, BASE_ISO, isoCodes, startDate, endDate, current);
  }

  /** One turn of the date loop of main: fetches day d and, when the request
      succeeds, writes its payload stamped by the clock, keeping the state
      loaded; a failed request changes nothing. */
  method IngestDay(db: Database, isoCodes: string, d: Date, clock: Date -> Timestamp, fetch: Fetcher,
                   ghost t0: Table, ghost had: bool, ghost total: nat, ghost days: seq<Date>)
    returns (failure: Option<FetchError>, count: nat)
    requires db.Valid() && db.hasTable == (had || total > 0)
    requires Loaded(t0, db.rates, total, fetch, isoCodes, days, clock)
    modifies db
    ensures db.Valid() && db.hasTable == (had || total + count > 0)
    ensures failure == (if fetch(BASE_ISO, isoCodes, d).Failure? then Some(fetch(BASE_ISO, isoCodes, d).error) else None)
    ensures failure.Some? ==> db.rates == old(db.rates) && count == 0
    ensures failure.None? ==> Loaded(t0, db.rates, total + count, fetch, isoCodes, days + [d], clock)
  {
    var payload := fetch(BASE_ISO, isoCodes, d);
    if payload.Failure? {
      return Some(payload.error), 0;
    }
    LoadedStep(t0, db.rates, total, fetch, isoCodes, days, d, clock);
    count := WriteRates(db, payload.value, clock(d));
    failure := None;
  }

  /** The date loop of main: writes the payload of every day from
      startDate to endDate in turn, adding up what write_rates returns; a
      failed request ends the loop after the writes so far. */
  method IngestRange(db: Database, isoCodes: string, startDate: Date, endDate: Date,
                     clock: Date -> Timestamp, fetch: Fetcher)
    returns (result: Result<nat, FetchError>, ghost requested: seq<Date>, ghost written: seq<Date>)
    requires db.Valid()
    modifies db
    ensures db.Valid()
    ensures RangeIngested(old(db.rates), old(db.hasTable), db.rates, db.hasTable, fetch, isoCodes,
                          startDate, endDate, clock, result, requested, written)
  {
    var totalInserted := 0;
    var current := startDate;
    requested := [];
    ghost var t0, had := db.rates, db.hasTable;
    while current <= endDate
      invariant current == startDate || startDate < current <= endDate + 1
      invariant requested == DateRange(startDate, current - 1)
      invariant Loaded(t0, db.rates, totalInserted, fetch, isoCodes, requested, clock)
      invariant db.Valid() && db.hasTable == (had || totalInserted > 0)
      decreases endDate - current
    {
      var failure, count := IngestDay(db, isoCodes, current, clock, fetch, t0, had, totalInserted, requested);
      if failure.Some? {
        IngestStopsAtFailure(t0, had, db.rates, totalInserted, fetch, isoCodes, startDate, endDate, current, clock);
        return Failure(failure.value), requested + [current], requested;
      }
      DateRangeSnoc(startDate, current);
      totalInserted := totalInserted + count;
      requested := requested + [current];
      current := current + 1;
    }
    IngestCompletes(t0, had, db.rates, totalInserted, fetch, isoCodes, startDate, endDate, current, clock);
    return Success(totalInserted), requested, requested;
  }

  /** main: walks from the EUR watermark to yesterday (no cutoff), and
      reports the total of the counts write_rates returned. */
  method Run(db: Database, today: Date, clock: Date -> Timestamp, fetch: Fetcher,
             isoCodes: string := DEFAULT_ISO_CODES)
    returns (result: Result<string, FetchError>, ghost requested: seq<Date>)
    requires db.Valid()
    modifies db
    ensures db.Valid()
    ensures WalkedUntilFailure(fetch, BASE_ISO, isoCodes, GetWatermark(old(db.Contents()), BASE_ISO), today - 1,
                               requested, result.Failure?)
    ensures var written := if result.Failure? then requested[..|requested| - 1] else requested;
            && AllFetched(fetch, BASE_ISO, isoCodes, written)
            && db.rates == Ingest(old(db.rates), fetch, isoCodes, written, clock)
            && db.hasTable == (old(db.hasTable) || Inserted(fetch, isoCodes, written) > 0)
            && (result.Success? ==> result.value == Message(Inserted(fetch, isoCodes, written)))
            && (result.Failure? ==> result.error == fetch(BASE_ISO, isoCodes, requested[|requested| - 1]).error)
  {
    var endDate := today - 1;
    var startDate := GetWatermark(db.Contents(), BASE_ISO);
    var total;
    ghost var written;
    total, requested, written := IngestRange(db, isoCodes, startDate, endDate, clock, fetch);
    assert written == if total.Failure? then requested[..|requested| - 1] else requested;
    if total.Failure? {
      return Failure(total.error), requested;
    }
    return Success(Message(total.value)), requested;
  }
}
