/** The BigQuery loader driven by dlt (scripts/downloader.py): the --bq-table
    check, the weights CSV reader, the watermark, the 16:00 UTC cutoff, the
    accumulator that deduplicates rows across the fetched range, and the
    resource that counts the rows it hands to the pipeline. */
module DltLoader {
  import opened Outcomes
  import opened SeqUtil
  import opened Forex

  /** 16:00:00, in seconds after midnight UTC: before it, today's rates are
      not downloaded. */
  const CUTOFF_SECONDS: nat := 16 * 3600

  const SECONDS_PER_DAY: nat := 86400

  /** The table --bq-table names when it is not given. */
  const DEFAULT_BQ_TABLE: string := "staging.rates"

  /** One row handed to the pipeline. */
  datatype Row = Row(baseIso: string, toIso: string, date: Date, rate: real,
                     createdAt: Timestamp, updatedAt: Timestamp)

  function RowKey(r: Row): Key
  {
    Key(r.baseIso, r.toIso, r.date)
  }

  // ---------------------------------------------------------------------
  // The --bq-table argument

  /** Python's value.split(".", 1) when value holds a '.'. */
  function SplitAtFirstDot(value: string): (parts: Option<(string, string)>)
    ensures parts.None? <==> '.' !in value
    ensures parts.Some? ==> parts.value.0 + "." + parts.value.1 == value && '.' !in parts.value.0
  {
    if '.' !in value then None
    else
      var i := FirstIndex(value, '.');
      assert value == value[..i] + "." + value[i + 1..];
      Some((value[..i], value[i + 1..]))
  }

  /** The dataset named by --bq-table, or the message the run exits with.
      What is accepted is exactly a dot-free dataset followed by ".rates";
      a value without a dot gets the format message, any other table name
      the rates-only message. */
  function ParseBqTable(value: string): (r: Result<string, string>)
    ensures r.Success? ==> '.' !in r.value && value == r.value + ".rates"
    ensures '.' !in value ==> r == Failure("--bq-table must be in dataset.table format")
    ensures '.' in value && r.Failure? ==> r == Failure("dlt loader currently supports only the rates table name")
  {
    match SplitAtFirstDot(value)
    case None => Failure("--bq-table must be in dataset.table format")
    case Some((dataset, table)) =>
      if table != "rates" then Failure("dlt loader currently supports only the rates table name")
      else Success(dataset)
  }

  /** Every dataset without a dot is accepted with the rates table. */
  lemma ParseBqTableAccepts(dataset: string)
    requires '.' !in dataset
    ensures ParseBqTable(dataset + ".rates") == Success(dataset)
  {
    var value := dataset + ".rates";
    var parts := SplitAtFirstDot(value);
    assert value[|dataset|] == '.';
    var i := FirstIndex(value, '.');
    assert i == |dataset| by {
      assert value[..|dataset|] == dataset;
    }
    assert parts.value.0 == dataset;
    assert parts.value.1 == value[|dataset| + 1..] == "rates";
  }

  // ---------------------------------------------------------------------
  // The weights CSV

  /** One record of the weights CSV; a field is None when its column is
      missing from the record. */
  datatype CsvRow = CsvRow(baseIso: Option<string>, toIso: Option<string>)

  /** The non-empty to_iso values of the records for baseIso, in file order. */
  function Candidates(rows: seq<CsvRow>, baseIso: string): (codes: seq<string>)
    ensures |codes| <= |rows|
    ensures forall k :: 0 <= k < |codes| ==> codes[k] != ""
  {
    if rows == [] then []
    else
      var prev := Candidates(rows[..|rows| - 1], baseIso);
      var row := rows[|rows| - 1];
      if row.baseIso == Some(baseIso) && row.toIso.Some? && row.toIso.value != "" then prev + [row.toIso.value]
      else prev
  }

  /** The ISO codes load_iso_codes collects: candidates at their first appearance. */
  function IsoCodeList(rows: seq<CsvRow>, baseIso: string): seq<string>
  {
    Distinct(Candidates(rows, baseIso))
  }

  /** Some record of the CSV is for baseIso and has a non-empty to_iso. */
  predicate HasMatch(rows: seq<CsvRow>, baseIso: string)
  {
    exists i :: 0 <= i < |rows| && rows[i].baseIso == Some(baseIso) && rows[i].toIso.Some? && rows[i].toIso.value != ""
  }

  /** Codes are collected exactly when some record matches. */
  lemma CodesFoundIffMatch(rows: seq<CsvRow>, baseIso: string)
    ensures IsoCodeList(rows, baseIso) != [] <==> HasMatch(rows, baseIso)
  {
    var c := Candidates(rows, baseIso);
    DistinctSpec(c);
    if HasMatch(rows, baseIso) {
      var i :| 0 <= i < |rows| && rows[i].baseIso == Some(baseIso) && rows[i].toIso.Some? && rows[i].toIso.value != "";
      CandidatesAreMatchingRecords(rows, baseIso, rows[i].toIso.value);
      assert rows[i].toIso.value in IsoCodeList(rows, baseIso);
    }
    if IsoCodeList(rows, baseIso) != [] {
      var code := IsoCodeList(rows, baseIso)[0];
      CandidatesAreMatchingRecords(rows, baseIso, code);
    }
  }

  /** What load_iso_codes returns, or the message it exits with: a missing
      file and a file without a matching record are the two exits. */
  function IsoCodesResult(weightsPath: string, weights: Option<seq<CsvRow>>, baseIso: string): (r: Result<string, string>)
    ensures r.Success? <==> weights.Some? && HasMatch(weights.value, baseIso)
    ensures weights.None? ==> r == Failure("weights csv not found: " + weightsPath)
    ensures weights.Some? && r.Failure? ==>
              r == Failure("no currencies found for base_iso=" + baseIso + " in " + weightsPath)
  {
    match weights
    case None => Failure("weights csv not found: " + weightsPath)
    case Some(rows) =>
      CodesFoundIffMatch(rows, baseIso);
      var codes := IsoCodeList(rows, baseIso);
      if codes == [] then Failure("no currencies found for base_iso=" + baseIso + " in " + weightsPath)
      else Success(Join(codes, ','))
  }

  /** A code is listed exactly when some record for the base carries it as a
      non-empty to_iso. */
  lemma {:induction false} CandidatesAreMatchingRecords(rows: seq<CsvRow>, baseIso: string, code: string)
    ensures code in Candidates(rows, baseIso) <==>
              exists i :: 0 <= i < |rows| && rows[i].baseIso == Some(baseIso) && rows[i].toIso == Some(code) && code != ""
  {
    if rows != [] {
      var p := rows[..|rows| - 1];
      CandidatesAreMatchingRecords(p, baseIso, code);
      if exists i :: 0 <= i < |p| && p[i].baseIso == Some(baseIso) && p[i].toIso == Some(code) && code != "" {
        var i :| 0 <= i < |p| && p[i].baseIso == Some(baseIso) && p[i].toIso == Some(code) && code != "";
        assert rows[i] == p[i];
      }
    }
  }

  /** The collected codes are the matching records' codes, each once, in
      order of first appearance. */
  lemma IsoCodeListMembers(rows: seq<CsvRow>, baseIso: string)
    ensures forall code :: code in IsoCodeList(rows, baseIso) <==>
              exists i :: 0 <= i < |rows| && rows[i].baseIso == Some(baseIso) && rows[i].toIso == Some(code) && code != ""
  {
    DistinctSpec(Candidates(rows, baseIso));
    forall code ensures code in IsoCodeList(rows, baseIso) <==>
              exists i :: 0 <= i < |rows| && rows[i].baseIso == Some(baseIso) && rows[i].toIso == Some(code) && code != ""
    {
      CandidatesAreMatchingRecords(rows, baseIso, code);
    }
  }

  lemma IsoCodeListCharacterised(rows: seq<CsvRow>, baseIso: string)
    ensures NoDup(IsoCodeList(rows, baseIso))
    ensures forall code :: code in IsoCodeList(rows, baseIso) <==>
              exists i :: 0 <= i < |rows| && rows[i].baseIso == Some(baseIso) && rows[i].toIso == Some(code) && code != ""
    ensures forall a, b :: 0 <= a < b < |IsoCodeList(rows, baseIso)| ==>
              IsoCodeList(rows, baseIso)[a] in Candidates(rows, baseIso)
              && IsoCodeList(rows, baseIso)[b] in Candidates(rows, baseIso)
              && FirstIndex(Candidates(rows, baseIso), IsoCodeList(rows, baseIso)[a])
              < FirstIndex(Candidates(rows, baseIso), IsoCodeList(rows, baseIso)[b])
  {
    IsoCodeListMembers(rows, baseIso);
    DistinctSpec(Candidates(rows, baseIso));
    forall a, b | 0 <= a < b < |IsoCodeList(rows, baseIso)|
      ensures IsoCodeList(rows, baseIso)[a] in Candidates(rows, baseIso)
              && IsoCodeList(rows, baseIso)[b] in Candidates(rows, baseIso)
              && FirstIndex(Candidates(rows, baseIso), IsoCodeList(rows, baseIso)[a])
              < FirstIndex(Candidates(rows, baseIso), IsoCodeList(rows, baseIso)[b])
    {
      DistinctKeepsFirstOccurrenceOrder(Candidates(rows, baseIso), a, b);
    }
  }

  /** The comma-joined result names every collected code and nothing else,
      as long as no code itself holds a comma. */
  lemma IsoCodesRoundTrip(weightsPath: string, rows: seq<CsvRow>, baseIso: string)
    requires forall r :: r in rows && r.toIso.Some? ==> ',' !in r.toIso.value
    ensures IsoCodesResult(weightsPath, Some(rows), baseIso).Success? ==>
              Split(IsoCodesResult(weightsPath, Some(rows), baseIso).value, ',') == IsoCodeList(rows, baseIso)
  {
    var codes := IsoCodeList(rows, baseIso);
    DistinctSpec(Candidates(rows, baseIso));
    if codes != [] {
      forall k | 0 <= k < |codes| ensures ',' !in codes[k] {
        CandidatesAreMatchingRecords(rows, baseIso, codes[k]);
        var i :| 0 <= i < |rows| && rows[i].baseIso == Some(baseIso) && rows[i].toIso == Some(codes[k]) && codes[k] != "";
        assert rows[i] in rows;
      }
      SplitJoin(codes, ',');
    }
  }

  /** The loop of load_iso_codes: the to_iso of every record for baseIso,
      skipping empty and already seen codes. */
  method CollectIsoCodes(rows: seq<CsvRow>, baseIso: string) returns (isoCodes: seq<string>)
    ensures isoCodes == IsoCodeList(rows, baseIso)
  {
    isoCodes := [];
    var seen: set<string> := {};
    for i := 0 to |rows|
      invariant isoCodes == Distinct(Candidates(rows[..i], baseIso))
      invariant seen == Elements(isoCodes)
    {
      var row := rows[i];
      assert rows[..i + 1][..i] == rows[..i];
      if row.baseIso != Some(baseIso) {
        continue;
      }
      if row.toIso.None? || row.toIso.value == "" || row.toIso.value in seen {
        continue;
      }
      isoCodes := isoCodes + [row.toIso.value];
      seen := seen + {row.toIso.value};
    }
    assert rows[..|rows|] == rows;
  }

  /** load_iso_codes: reads the weights CSV (None when the file is missing). */
  method LoadIsoCodes(weightsPath: string, weights: Option<seq<CsvRow>>, baseIso: string)
    returns (r: Result<string, string>)
    ensures r == IsoCodesResult(weightsPath, weights, baseIso)
  {
    if weights.None? {
      return Failure("weights csv not found: " + weightsPath);
    }
    var isoCodes := CollectIsoCodes(weights.value, baseIso);
    if isoCodes == [] {
      return Failure("no currencies found for base_iso=" + baseIso + " in " + weightsPath);
    }
    return Success(Join(isoCodes, ','));
  }

  // ---------------------------------------------------------------------
  // Range planning

  /** A non-empty set of keys has a non-empty set of dates. */
  lemma KeysHaveDates(keys: set<Key>, dates: set<Date>)
    requires dates == set k | k in keys :: k.date
    requires keys != {}
    ensures dates != {}
  {
    if forall k :: k !in keys { assert false; }
    var k :| k in keys;
    assert k.date in dates;
  }

  /** get_watermark: the day after the latest landed date, over every base;
      landed is None when the table does not exist. */
  function GetWatermark(landed: Option<set<Key>>): (start: Date)
    ensures landed.None? ==> start == DEFAULT_START_DATE
    ensures landed.Some? && landed.value == {} ==> start == DEFAULT_START_DATE
    ensures landed.Some? && landed.value != {} ==>
              (exists k :: k in landed.value && start == k.date + 1)
              && forall k :: k in landed.value ==> k.date < start
  {
    match landed
    case None => DEFAULT_START_DATE
    case Some(keys) =>
      var dates := set k | k in keys :: k.date;
      if keys == {} then DEFAULT_START_DATE
      else
        KeysHaveDates(keys, dates);
        var latest := MaxDate(dates);
        assert exists k :: k in keys && k.date == latest;
        assert forall k :: k in keys ==> k.date in dates;
        latest + 1
  }

  /** The inclusive end date: today from 16:00:00 UTC on, yesterday before. */
  function EndDate(today: Date, secondsOfDay: nat): (end: Date)
    requires secondsOfDay < SECONDS_PER_DAY
    ensures end == today <==> secondsOfDay >= CUTOFF_SECONDS
    ensures end == today || end == today - 1
  {
    if secondsOfDay >= CUTOFF_SECONDS then today else today - 1
  }

  // ---------------------------------------------------------------------
  // Accumulating the fetched range

  /** The (key, rate) pairs of the payloads fetched for days, in fetch order. */
  function RangeEntries(fetch: Fetcher, baseIso: string, isoCodes: string, days: seq<Date>): seq<(Key, real)>
    requires AllFetched(fetch, baseIso, isoCodes, days)
  {
    if days == [] then []
    else
      RangeEntries(fetch, baseIso, isoCodes, days[..|days| - 1])
      + DayEntries(fetch(baseIso, isoCodes, days[|days| - 1]).value)
  }

  /** Assigning one more entry into the dictionary: a new key goes to the
      end of the order, an existing key keeps its place and takes the rate. */
  lemma AssignStep(entries: seq<(Key, real)>, e: (Key, real))
    ensures Distinct(KeysOf(entries + [e])) ==
              if e.0 in LastValues(entries) then Distinct(KeysOf(entries)) else Distinct(KeysOf(entries)) + [e.0]
    ensures LastValues(entries + [e]) == LastValues(entries)[e.0 := e.1]
  {
    var s := entries + [e];
    assert s[..|s| - 1] == entries;
    DistinctSpec(KeysOf(entries));
    LastValuesKeys(entries);
    KeysOfAppend(entries, [e]);
    assert KeysOf(s)[..|s| - 1] == KeysOf(entries);
  }

  /** The rows of the rows dictionary after assigning every entry: one per
      key, at the key's first insertion, with the key's last rate, stamped. */
  function RowsOf(entries: seq<(Key, real)>, stamp: Timestamp): seq<Row>
  {
    var order := Distinct(KeysOf(entries));
    var rates := LastValues(entries);
    DistinctSpec(KeysOf(entries));
    LastValuesKeys(entries);
    seq(|order|, i requires 0 <= i < |order| =>
      Row(order[i].baseIso, order[i].toIso, order[i].date, rates[order[i]], stamp, stamp))
  }

  /** The rows have pairwise distinct keys, one per key of the entries, and
      all carry the one timestamp as created_at and updated_at. */
  lemma RowsAreDeduplicated(entries: seq<(Key, real)>, stamp: Timestamp)
    ensures forall i, j :: 0 <= i < j < |RowsOf(entries, stamp)| ==>
              RowKey(RowsOf(entries, stamp)[i]) != RowKey(RowsOf(entries, stamp)[j])
    ensures forall k :: k in KeysOf(entries) <==> exists r :: r in RowsOf(entries, stamp) && RowKey(r) == k
    ensures |RowsOf(entries, stamp)| == |Elements(KeysOf(entries))|
    ensures forall r :: r in RowsOf(entries, stamp) ==> r.createdAt == stamp && r.updatedAt == stamp
  {
    var rows, order := RowsOf(entries, stamp), Distinct(KeysOf(entries));
    DistinctSpec(KeysOf(entries));
    assert forall i :: 0 <= i < |rows| ==> RowKey(rows[i]) == order[i];
    forall k | k in KeysOf(entries) ensures exists r :: r in rows && RowKey(r) == k {
      var i :| 0 <= i < |order| && order[i] == k;
      assert rows[i] in rows;
    }
    DistinctCard(KeysOf(entries));
  }

  /** A key's row carries the rate of the key's last entry (last write wins). */
  lemma RowsKeepLastRate(entries: seq<(Key, real)>, stamp: Timestamp, i: nat)
    requires i < |entries|
    requires forall j :: i < j < |entries| ==> entries[j].0 != entries[i].0
    ensures forall r :: r in RowsOf(entries, stamp) && RowKey(r) == entries[i].0 ==> r.rate == entries[i].1
  {
    LastWriteWins(entries, i);
  }

  /** Rows come in the order in which their keys were first inserted. */
  lemma RowsInFirstInsertionOrder(entries: seq<(Key, real)>, stamp: Timestamp, a: nat, b: nat)
    requires a < b < |RowsOf(entries, stamp)|
    ensures RowKey(RowsOf(entries, stamp)[a]) in KeysOf(entries)
    ensures RowKey(RowsOf(entries, stamp)[b]) in KeysOf(entries)
    ensures FirstIndex(KeysOf(entries), RowKey(RowsOf(entries, stamp)[a]))
            < FirstIndex(KeysOf(entries), RowKey(RowsOf(entries, stamp)[b]))
  {
    DistinctKeepsFirstOccurrenceOrder(KeysOf(entries), a, b);
  }

  /** Every entry's key carries the base and the date of the payload it came
      from, whatever date was requested. */
  lemma {:induction false} EntryKeysComeFromPayloads(fetch: Fetcher, baseIso: string, isoCodes: string, days: seq<Date>, n: nat)
    requires AllFetched(fetch, baseIso, isoCodes, days)
    requires n < |RangeEntries(fetch, baseIso, isoCodes, days)|
    ensures exists i :: 0 <= i < |days| &&
              var p := fetch(baseIso, isoCodes, days[i]).value;
              RangeEntries(fetch, baseIso, isoCodes, days)[n].0.baseIso == p.base
              && RangeEntries(fetch, baseIso, isoCodes, days)[n].0.date == p.date
  {
    var prev := days[..|days| - 1];
    var front := RangeEntries(fetch, baseIso, isoCodes, prev);
    if n < |front| {
      EntryKeysComeFromPayloads(fetch, baseIso, isoCodes, prev, n);
      var i :| 0 <= i < |prev| &&
              var p := fetch(baseIso, isoCodes, prev[i]).value;
              front[n].0.baseIso == p.base && front[n].0.date == p.date;
      assert days[i] == prev[i];
    } else {
      var last := |days| - 1;
      assert RangeEntries(fetch, baseIso, isoCodes, days)[n] == DayEntries(fetch(baseIso, isoCodes, days[last]).value)[n - |front|];
    }
  }

  /** The inner loop of iter_rates: assigns every (to_iso, rate) of one
      payload into the dictionary, given as its key order and its rates. */
  method AssignPayload(order: seq<Key>, rates: map<Key, real>, ghost entries: seq<(Key, real)>, payload: Payload)
    returns (order': seq<Key>, rates': map<Key, real>)
    requires order == Distinct(KeysOf(entries)) && rates == LastValues(entries)
    ensures order' == Distinct(KeysOf(entries + DayEntries(payload)))
    ensures rates' == LastValues(entries + DayEntries(payload))
  {
    ghost var day := DayEntries(payload);
    ghost var folded := entries;
    order', rates' := order, rates;
    assert entries + day[..0] == entries;
    for j := 0 to |payload.rates|
      invariant folded == entries + day[..j]
      invariant order' == Distinct(KeysOf(folded))
      invariant rates' == LastValues(folded)
    {
      var key := Key(payload.base, payload.rates[j].0, payload.date);
      ghost var e := day[j];
      assert e == (key, payload.rates[j].1);
      AppendSliceSnoc(entries, day, j);
      AssignStep(folded, e);
      folded := folded + [e];
      if key !in rates' {
        order' := order' + [key];
      }
      rates' := rates'[key := payload.rates[j].1];
    }
    assert day[..|payload.rates|] == day;
  }

  /** The final loop of iter_rates: one row per dictionary entry, in order,
      with created_at and updated_at set to the stamp. */
  method StampRows(ghost entries: seq<(Key, real)>, order: seq<Key>, rates: map<Key, real>, stamp: Timestamp)
    returns (rows: seq<Row>)
    requires order == Distinct(KeysOf(entries)) && rates == LastValues(entries)
    ensures rows == RowsOf(entries, stamp)
  {
    DistinctSpec(KeysOf(entries));
    LastValuesKeys(entries);
    rows := [];
    for i := 0 to |order|
      invariant |rows| == i
      invariant forall m :: 0 <= m < i ==>
                  rows[m] == Row(order[m].baseIso, order[m].toIso, order[m].date, rates[order[m]], stamp, stamp)
    {
      var key := order[i];
      rows := rows + [Row(key.baseIso, key.toIso, key.date, rates[key], stamp, stamp)];
    }
  }

  /** iter_rates: fetches start_date..end_date one day at a time, folds every
      payload into an insertion-ordered dictionary keyed by (payload base,
      to_iso, payload date), then stamps every row with one timestamp.
      requested is the sequence of dates asked of the endpoint. */
  method IterRates(baseIso: string, isoCodes: string, startDate: Date, endDate: Date,
                   stamp: Timestamp, fetch: Fetcher)
    returns (result: Result<seq<Row>, FetchError>, ghost requested: seq<Date>)
    ensures WalkedUntilFailure(fetch, baseIso, isoCodes, startDate, endDate, requested, result.Failure?)
    ensures result.Success? ==> result.value == RowsOf(RangeEntries(fetch, baseIso, isoCodes, requested), stamp)
    ensures result.Failure? ==> result.error == fetch(baseIso, isoCodes, requested[|requested| - 1]).error
  {
    var order: seq<Key> := [];
    var rates: map<Key, real> := map[];
    ghost var entries: seq<(Key, real)> := [];
    requested := [];
    var current := startDate;
    while current <= endDate
      invariant current == startDate || startDate < current <= endDate + 1
      invariant requested == DateRange(startDate, current - 1)
      invariant AllFetched(fetch, baseIso, isoCodes, requested)
      invariant entries == RangeEntries(fetch, baseIso, isoCodes, requested)
      invariant order == Distinct(KeysOf(entries)) && rates == LastValues(entries)
      decreases endDate - current
    {
      DateRangeSnoc(startDate, current);
      requested := requested + [current];
      assert requested[..|requested| - 1] == DateRange(startDate, current - 1);
      var response := fetch(baseIso, isoCodes, current);
      if response.Failure? {
        DateRangePrefix(startDate, current, endDate);
        return Failure(response.error), requested;
      }
      order, rates := AssignPayload(order, rates, entries, response.value);
      entries := entries + DayEntries(response.value);
      current := current + 1;
    }
    assert requested == DateRange(startDate, endDate);
    var rows := StampRows(entries, order, rates, stamp);
    return Success(rows), requested;
  }

  /** The mutable {"rows": n} dictionary rates_resource counts into. */
  class Counter {
    var rows: int

    constructor ()
      ensures rows == 0
    {
      rows := 0;
    }
  }

  /** rates_resource: yields the rows of iter_rates for the EUR base and adds
      one to counter.rows per row yielded. */
  method RatesResource(isoCodes: string, startDate: Date, endDate: Date, counter: Counter,
                       stamp: Timestamp, fetch: Fetcher)
    returns (result: Result<seq<Row>, FetchError>, ghost requested: seq<Date>)
    modifies counter
    ensures WalkedUntilFailure(fetch, BASE_ISO, isoCodes, startDate, endDate, requested, result.Failure?)
    ensures result.Success? ==> result.value == RowsOf(RangeEntries(fetch, BASE_ISO, isoCodes, requested), stamp)
    ensures result.Failure? ==> result.error == fetch(BASE_ISO, isoCodes, requested[|requested| - 1]).error
    ensures counter.rows == old(counter.rows) + if result.Success? then |result.value| else 0
  {
    var rows;
    rows, requested := IterRates(BASE_ISO, isoCodes, startDate, endDate, stamp, fetch);
    if rows.Failure? {
      return rows, requested;
    }
    var yielded: seq<Row> := [];
    for i := 0 to |rows.value|
      invariant yielded == rows.value[..i]
      invariant counter.rows == old(counter.rows) + i
    {
      counter.rows := counter.rows + 1;
      yielded := yielded + [rows.value[i]];
    }
    assert yielded == rows.value;
    return Success(yielded), requested;
  }

  // ---------------------------------------------------------------------
  // The run

  /** "merge" when the destination table exists, "append" otherwise. */
  datatype WriteDisposition = Merge | Append

  /** What a run hands to the pipeline, and the line it prints. */
  datatype LoadReport = LoadReport(datasetName: string, disposition: WriteDisposition,
                                   startDate: Date, endDate: Date, rows: seq<Row>, message: string)

  /** A run ends with SystemExit (configuration) or a failed request. */
  datatype RunError = Exit(message: string) | FetchFailed(error: FetchError)

  /** main: landed holds the keys of PROJECT_ID.<bq_table> (None when that
      table does not exist); today and secondsOfDay are the UTC clock read
      for the cutoff, stamp the one iter_rates reads. */
  method Run(weightsPath: string, weights: Option<seq<CsvRow>>,
             landed: Option<set<Key>>, today: Date, secondsOfDay: nat, stamp: Timestamp, fetch: Fetcher,
             bqTable: string := DEFAULT_BQ_TABLE)
    returns (result: Result<LoadReport, RunError>, ghost requested: seq<Date>)
    requires secondsOfDay < SECONDS_PER_DAY
    ensures ParseBqTable(bqTable).Failure? ==>
              result == Failure(Exit(ParseBqTable(bqTable).error)) && requested == []
    ensures ParseBqTable(bqTable).Success? && IsoCodesResult(weightsPath, weights, BASE_ISO).Failure? ==>
              result == Failure(Exit(IsoCodesResult(weightsPath, weights, BASE_ISO).error)) && requested == []
    ensures ParseBqTable(bqTable).Success? && IsoCodesResult(weightsPath, weights, BASE_ISO).Success? ==>
              var dataset := ParseBqTable(bqTable).value;
              var isoCodes := IsoCodesResult(weightsPath, weights, BASE_ISO).value;
              var start, end := GetWatermark(landed), EndDate(today, secondsOfDay);
              && WalkedUntilFailure(fetch, BASE_ISO, isoCodes, start, end, requested, result.Failure?)
              && (result.Failure? ==>
                    result.error == FetchFailed(fetch(BASE_ISO, isoCodes, requested[|requested| - 1]).error))
              && (result.Success? ==>
                    var rows := RowsOf(RangeEntries(fetch, BASE_ISO, isoCodes, requested), stamp);
                    result.value == LoadReport(dataset, if landed.Some? then Merge else Append, start, end, rows,
                                               "Loaded " + Decimal(|rows|) + " rows into " + dataset + ".rates"))
  {
    requested := [];
    var table := ParseBqTable(bqTable);
    if table.Failure? {
      return Failure(Exit(table.error)), requested;
    }
    var datasetName := table.value;
    var isoCodes := LoadIsoCodes(weightsPath, weights, BASE_ISO);
    if isoCodes.Failure? {
      return Failure(Exit(isoCodes.error)), requested;
    }
    var startDate := GetWatermark(landed);
    var disposition := if landed.Some? then Merge else Append;
    var endDate := EndDate(today, secondsOfDay);
    var counter := new Counter();
    var rows;
    rows, requested := RatesResource(isoCodes.value, startDate, endDate, counter, stamp, fetch);
    if rows.Failure? {
      return Failure(FetchFailed(rows.error)), requested;
    }
    var message := "Loaded " + Decimal(counter.rows) + " rows into " + datasetName + ".rates";
    return Success(LoadReport(datasetName, disposition, startDate, endDate, rows.value, message)), requested;
  }
}
