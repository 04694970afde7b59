# Forex ingestion, read API and dbt report: a Dafny model

This project models the core of the forex repository. That core has four parts.

- **The BigQuery loader driven by dlt** (`scripts/downloader.py`). It:
  - checks `--bq-table`;
  - reads the weights CSV into a comma-joined list of ISO codes;
  - finds the watermark, the day after the latest date loaded into the table;
  - chooses the end date by the 16:00 UTC cutoff;
  - walks the date range, fetching one payload per day;
  - folds every payload into an insertion-ordered dictionary keyed by (payload base, to_iso, payload date);
  - stamps every row with one timestamp, and counts the rows it hands to the pipeline.
- **The DuckDB loader** (`downloader.py`). `write_rates` deduplicates one payload, keeping each key's first rate. It then MERGEs (upserts) the rows into `staging.rates`, creating the table first, and an empty payload touches nothing. `get_watermark` reads the latest date of one base. `main` walks from that watermark to yesterday, adding up what `write_rates` returns, and prints a message.
- **The TWI read API** (`api/src/main.py`). `/twi` turns its parameters into one of two queries or a 400 error. `/twi/latest` answers 404 when there is no row. `_serialize_row` turns dates and timestamps into ISO strings.
- **The dbt report converter** (`dbt/scripts/dbt_test_to_junit.py`). It turns `run_results.json` into a JUnit test suite, one testcase per result, with a failure, error or skipped child chosen by the result's status.

Modules:

| Module | File | What it holds |
|---|---|---|
| `Outcomes` | `outcomes.dfy` | Option and Result |
| `SeqUtil` | `seq_util.dfy` | first-occurrence deduplication (`Distinct`, `FirstPerKey`), last-write-wins dictionaries (`LastValues`), `Join`/`Split`, decimal rendering |
| `Forex` | `forex.dfy` | dates as day numbers; the natural key (base_iso, to_iso, date); the payload; the fetch oracle; the date range a loader walks, and what a walk that stops at the first failed request has requested |
| `DltLoader` | `dlt_loader.dfy` | `scripts/downloader.py` |
| `DuckLoader` | `duckdb_loader.dfy` | `downloader.py`, with the DuckDB connection as a class `Database` whose table is a map from key to (rate, updated_at) |
| `TwiApi` | `twi_api.dfy` | `api/src/main.py` |
| `DbtJunit` | `dbt_junit.dfy` | `dbt/scripts/dbt_test_to_junit.py` |

Each loop of the source is a method with a `while` or `for` loop. Its postcondition ties its result, or the new state of the database or counter, to a specification function:
- `RowsOf`, `RangeEntries`, `Batch`, `Merge`, `Ingest` and `Inserted` for the loaders;
- `Serialized` for the API;
- `Suite` for the report.

Lemmas then prove what the source promises about those functions.

The environment enters the model as parameters:
- the HTTP endpoint is an oracle `Fetcher`, and a failed request is a `Failure`;
- the clock readings are `stamp`, `clock`, `today` and `secondsOfDay`;
- the BigQuery client of the API is a `QueryRunner`;
- `isoformat()` is an `IsoFormat` function;
- whether a table exists, and its keys, are `Option` inputs;
- the input file of the converter is a `load` function.

## Model

| member | source | states |
|---|---|---|
| Forex.DateRange | scripts/downloader.py:72-84 | the days both `while current_date <= end_date` loops visit (also downloader.py:129-133): last - first + 1 of them when first <= last, none otherwise, the i-th being first + i |
| Forex.DayEntriesSpec | scripts/downloader.py:76-77 | `DayEntries` gives one (key, rate) per item of the payload's rates, in order, the key taking payload["base"] and the payload's date (as downloader.py:41-42 does); its keys are distinct iff the to_iso values are |
| Forex.DateRangeVisitsEachDayOnce | scripts/downloader.py:72-84 | the walked dates are exactly first..last, each once, in increasing order; none when first > last |
| Forex.WalkStopsAtFailure | scripts/downloader.py:73-74 | a request that fails after every earlier date succeeded ends the walk: that date is requested last and is the only failure |
| Forex.WalkCompletes | scripts/downloader.py:73 | a walk that passes the last date without a failure requested the whole range, and every request succeeded |
| Forex.MaxDate | downloader.py:96 | max(date) is one of the dates and no date exceeds it |
| SeqUtil.DistinctSpec | scripts/downloader.py:132-141 | guarding appends with a seen-set keeps no duplicate and loses no element |
| SeqUtil.DistinctKeepsFirstOccurrenceOrder | scripts/downloader.py:138-141 | the kept elements come in the order of their first appearance |
| SeqUtil.DistinctCard | scripts/downloader.py:71-78 | one kept element per distinct element |
| SeqUtil.DistinctOfNoDup | api/src/main.py:19 | a sequence without duplicates is its own deduplication |
| SeqUtil.FirstPerKeySpec | downloader.py:40-46 | skipping seen keys keeps pairs of the input, whose keys are the input's distinct keys in first-appearance order |
| SeqUtil.FirstPerKeyStep | downloader.py:42-46 | one more pair is kept exactly when its key is not yet seen, and the seen set gains its key |
| SeqUtil.FirstPerKeyKeepsFirst | downloader.py:43-46 | the pair kept for a key is that key's first pair |
| SeqUtil.LastValuesKeys | scripts/downloader.py:76-83 | the dictionary holds exactly the keys assigned |
| SeqUtil.LastWriteWins | scripts/downloader.py:78-83 | a key holds the value of its last assignment |
| SeqUtil.Decimal | scripts/downloader.py:224 | `{n}` in the f-strings (also downloader.py:136): a non-empty string of digits, "0" exactly for 0 and otherwise without a leading zero |
| SeqUtil.DecimalRoundTrip | scripts/downloader.py:224 | reading the digits of `{n}` back gives n |
| SeqUtil.SplitJoin | scripts/downloader.py:146 | splitting the comma-joined list at commas gives the list back when no part holds a comma |
| DltLoader.SplitAtFirstDot | scripts/downloader.py:188-190 | no split exactly when there is no '.'; otherwise dataset + "." + table is the value and the dataset has no '.' |
| DltLoader.ParseBqTableAccepts | scripts/downloader.py:188-192 | every dot-free dataset followed by ".rates" is accepted with that dataset |
| DltLoader.ParseBqTable | scripts/downloader.py:188-192 | only dot-free dataset + ".rates" is accepted, with that dataset; no '.' gives the format message; any other table gives the rates-only message |
| DltLoader.Candidates | scripts/downloader.py:134-139 | the filter of records for the base with a non-empty to_iso: no more codes than records, and none empty |
| DltLoader.CandidatesAreMatchingRecords | scripts/downloader.py:134-139 | a code is a candidate iff some record for the base has it as a non-empty to_iso |
| DltLoader.IsoCodeListCharacterised | scripts/downloader.py:132-141 | the collected codes are exactly the matching records' codes, without duplicates, in first-appearance order |
| DltLoader.CodesFoundIffMatch | scripts/downloader.py:134-145 | codes are collected exactly when some record for the base has a non-empty to_iso |
| DltLoader.IsoCodesResult | scripts/downloader.py:128-146 | success iff the file exists and some record matches; a missing file exits "weights csv not found: <path>", a file without a match exits "no currencies found for base_iso=<base> in <path>" |
| DltLoader.IsoCodesRoundTrip | scripts/downloader.py:142-146 | the returned string splits at commas back into the collected codes |
| DltLoader.CollectIsoCodes | scripts/downloader.py:132-141 | the seen-set loop collects exactly the codes of `IsoCodeList` |
| DltLoader.LoadIsoCodes | scripts/downloader.py:118-146 | the loop returns the joined codes; it exits "weights csv not found" on a missing file and "no currencies found" when none match |
| DltLoader.GetWatermark | scripts/downloader.py:107-115 | default start for a missing or empty table; otherwise one past a landed date and after every landed date, over all bases |
| DltLoader.EndDate | scripts/downloader.py:213-217 | today iff the time of day is at or after 16:00:00, else yesterday |
| DltLoader.AssignStep | scripts/downloader.py:76-83 | assigning a new key appends it to the order; an existing key keeps its place and takes the new rate |
| DltLoader.RowsAreDeduplicated | scripts/downloader.py:71-89 | rows have pairwise distinct keys, one per fetched key, and all carry the one timestamp as created_at and updated_at |
| DltLoader.RowsKeepLastRate | scripts/downloader.py:76-83 | a key's row carries the rate of the key's last fetched entry |
| DltLoader.RowsInFirstInsertionOrder | scripts/downloader.py:86-89 | rows come in the order their keys were first inserted |
| DltLoader.EntryKeysComeFromPayloads | scripts/downloader.py:75-77 | every key takes its base and date from the payload it came from, not from the requested date |
| DltLoader.AssignPayload | scripts/downloader.py:76-83 | the inner loop leaves the order and rates of the dictionary after assigning the payload's entries |
| DltLoader.StampRows | scripts/downloader.py:85-89 | the final loop yields the stamped rows of the dictionary |
| DltLoader.IterRates | scripts/downloader.py:54-89 | requests walk start..end and stop at the first failure; on success the rows are those of every fetched entry |
| DltLoader.Counter.constructor | scripts/downloader.py:219 | the counter starts at 0 |
| DltLoader.RatesResource | scripts/downloader.py:171-173 | yields exactly iter_rates' rows and adds one to the counter per row |
| DltLoader.Run | scripts/downloader.py:176-224 | --bq-table defaults to "staging.rates"; the --bq-table and weights exits; otherwise it walks watermark..cutoff end, uses merge iff the table exists, and reports the row count |
| DuckLoader.Database.Open | downloader.py:128 | the connection sees the table in the given state |
| DuckLoader.Database.CreateTable | downloader.py:51-62 | afterwards the table exists; an existing table keeps its rows |
| DuckLoader.Database.MergeRow | downloader.py:65-83 | a matching row takes the new rate and updated_at; otherwise the row is inserted |
| DuckLoader.Database.MergeMany | downloader.py:63-86 | the table after one MERGE per row, in order |
| DuckLoader.BatchIsFirstOccurrences | downloader.py:40-46 | a batch has each payload key once, with its first rate and the call's updated_at; its size is the number of distinct keys |
| DuckLoader.BatchOfParsedBody | downloader.py:41-46 | when the payload's to_iso values are distinct, as in a parsed body, the guard skips nothing: every rate is written, in order, with the call's updated_at |
| DuckLoader.EmptyBatchIffNoRates | downloader.py:48-49 | the batch is empty iff the payload has no rates |
| DuckLoader.MergeIsOverride | downloader.py:63-86 | merging row by row is overriding the table with the rows' last values |
| DuckLoader.MergeUpserts | downloader.py:74-83 | keys after the merge are the old keys plus the batch keys; other keys are unchanged; each batch key holds its batch row |
| DuckLoader.MergeOverwritten | downloader.py:77-83 | a merge whose keys a later merge covers leaves no trace |
| DuckLoader.MergeSameRates | downloader.py:77-80 | merges of rows with the same keys and rates into tables with the same rates give the same rates |
| DuckLoader.WriteTwiceKeepsRates | downloader.py:77-83 | writing a payload twice equals writing it once with the second updated_at, with the same keys and rates |
| DuckLoader.BuildRows | downloader.py:36-46 | the first loop of write_rates builds the payload's batch |
| DuckLoader.WriteRates | downloader.py:35-87 | returns the batch size and merges the batch; the table exists afterwards iff it did before or a row was written |
| DuckLoader.GetWatermark | downloader.py:90-103 | default start for a missing table or a base without rows; otherwise one past the base's latest date |
| DuckLoader.BatchKeys | downloader.py:42 | a payload writes keys with its own base and date, and at least one when it has rates |
| DuckLoader.BaseDatesAfterWrite | downloader.py:96 | a write adds the payload's date to its base's dates and leaves other bases' dates alone |
| DuckLoader.WatermarkAfterWrite | downloader.py:94-103 | after a write the base's watermark is the later of the old one and payload date + 1; other bases keep theirs |
| DuckLoader.IngestStep | downloader.py:130-133 | one more fetched day extends the ingestion by that day's merge and the total by its batch size |
| DuckLoader.NothingInsertedIffNoRates | downloader.py:132-138 | the total is 0 iff every fetched payload had no rates |
| DuckLoader.IngestOverride | downloader.py:130-133 | ingesting into a table overrides the table with an ingestion into an empty one |
| DuckLoader.IngestRatesIgnoreClock | downloader.py:38 | the keys and rates written do not depend on the clock |
| DuckLoader.IngestTwice | downloader.py:126-133 | re-running over loaded days equals the second pass alone, with the first pass's keys and rates |
| DuckLoader.Message | downloader.py:135-138 | "No new rates inserted." iff the total is 0; otherwise "Inserted <total> rows into raw.rates." with the total in decimal |
| DuckLoader.LoadedStep | downloader.py:131-133 | writing the next fetched day keeps the table and total equal to the ingestion of the days so far |
| DuckLoader.IngestStopsAtFailure | downloader.py:130-131 | a failed request ends the run after the writes of the earlier days |
| DuckLoader.IngestCompletes | downloader.py:130 | a loop that passes the end date has written every day of the range |
| DuckLoader.IngestDay | downloader.py:131-133 | one turn writes the day's batch when its request succeeds and changes nothing when it fails |
| DuckLoader.IngestRange | downloader.py:127-133 | the date loop: walks start..end to the first failure; the table is the ingestion of the days written; the total is their write counts |
| DuckLoader.Run | downloader.py:106-138 | walks from the EUR watermark to yesterday with the --iso-codes symbols (by default `DEFAULT_ISO_CODES`), and prints the message for the total |
| TwiApi.DictItems | api/src/main.py:19 | dict(row) has every column once, in order of first appearance, holding the value assigned to it last |
| TwiApi.SerializeValue | api/src/main.py:20-23 | a date or timestamp becomes the text of its isoformat(); any other value passes unchanged |
| TwiApi.SerializeRow | api/src/main.py:16-24 | the loop builds the serialised dictionary |
| TwiApi.SerializedKeepsColumns | api/src/main.py:19-23 | every column of the row is kept once, in order, with its value serialised |
| TwiApi.SerializedIsJsonReady | api/src/main.py:20-21 | no date or timestamp is left |
| TwiApi.SerializedIdempotent | api/src/main.py:16-24 | serialising a serialised row changes nothing |
| TwiApi.DictItemsOfDict | api/src/main.py:19 | dict() of a dictionary's items is the same dictionary |
| TwiApi.TwiLatest | api/src/main.py:31-48 | base_iso defaults to "EUR"; 404 "No data found" iff the query returns no row; otherwise the first row, serialised |
| TwiApi.Dispatch | api/src/main.py:59-93 | succeeds iff exactly a date, or both start and end, are given; range and single-date queries carry their parameters; each 400 detail holds iff its condition does |
| TwiApi.Twi | api/src/main.py:51-97 | the dispatch error, or every row of the query serialised, in order |
| DbtJunit.Status | dbt/scripts/dbt_test_to_junit.py:22 | `result.get("status", "unknown")`: "unknown" when missing, None exactly when null, the status otherwise |
| DbtJunit.TimeText | dbt/scripts/dbt_test_to_junit.py:23 | `str(result.get("execution_time", 0))`: "0" when missing, "None" when null, the value's text otherwise |
| DbtJunit.Get | dbt/scripts/dbt_test_to_junit.py:17-23 | `dict.get(key, default)`: the default for a missing member, None exactly for a null one, the value otherwise |
| DbtJunit.OrDefault | dbt/scripts/dbt_test_to_junit.py:27 | `message or default`: the message unless missing, null or empty |
| DbtJunit.TestCase | dbt/scripts/dbt_test_to_junit.py:21-33 | a testcase element with at most one child, which can be written iff unique_id is not null (name=None) |
| DbtJunit.TestCaseRoundTrip | dbt/scripts/dbt_test_to_junit.py:21-33 | the testcase gives back the name (default "unknown", None when null), the time (default "0") and the verdict of the status; failure and error messages are non-empty and equal their text; a skipped result has exactly one child, skipped with message "skipped", and any other passing status has no child |
| DbtJunit.NullTimeIsNone | dbt/scripts/dbt_test_to_junit.py:23 | a null execution_time gives time="None", a missing one time="0" |
| DbtJunit.SuiteWritable | dbt/scripts/dbt_test_to_junit.py:24-36 | the report can be written iff no result has a null unique_id |
| DbtJunit.SuiteCounts | dbt/scripts/dbt_test_to_junit.py:18-33 | one testcase per result; as many failure, error and skipped children as results with status fail, error and skipped |
| DbtJunit.BuildTestSuite | dbt/scripts/dbt_test_to_junit.py:18-33 | the loop builds the suite of the results, in order |
| DbtJunit.Convert | dbt/scripts/dbt_test_to_junit.py:6-37 | 2 and nothing read or written iff argv does not have 3 items; otherwise the input is read, and it is 0 with the suite of the input's results (none when "results" is missing) written to the output path iff "results" is not null and the suite is writable; otherwise 1 (the uncaught TypeError) with no report |

## Left out

- HTTP. `download_rates` is the `Fetcher` oracle. The URL, the query parameters and the 30-second timeout are not modelled. The days requested are a ghost out-parameter `requested` of the walking methods; the source returns no such log.
- Loading into BigQuery. The dlt pipeline's merge or append is not modelled: `DltLoader.Run` returns the rows, the write disposition and the message it hands over.
- The SQL and the database clients:
  - the DuckDB table is a map, and schema creation is folded into `CreateTable`;
  - the API's SELECTs are `QueryRunner` results, so their filtering, ordering and limit are named by the `Query` value but not checked;
  - the connection's context manager is not modelled.
- Clocks. `datetime.now` and `date.today` are parameters. In the DuckDB run, `clock(d)` is the reading taken by the `write_rates` call for day d.
- Floating point. `float(rate)` is the identity on `real`, and `str(execution_time)` is the text of the value.
- ISO dates. Parsing the payload's date and formatting with `isoformat()` are not modelled: dates are day numbers, and `IsoFormat` is a parameter.
- Files and output. These are not modelled:
  - argparse. Its defaults are parameter defaults instead: the DuckDB `--iso-codes` default is `DEFAULT_ISO_CODES` on `DuckLoader.Run`, and the dlt `--bq-table` default is `DEFAULT_BQ_TABLE` ("staging.rates") on `DltLoader.Run`. `--db-path` is not modelled, and the weights file path (`WEIGHTS_CSV`) is the `weightsPath` parameter;
  - reading CSV and JSON, and writing XML;
  - `print`.

  The CSV reader's records, the weights file's presence and the parsed run results are inputs. Printed lines are returned as strings.
- FastAPI routing, `/health`, and the 422 that FastAPI returns for a `limit` outside 1..1000. `Dispatch` and `Twi` require 1 <= limit <= 1000 instead.
- Generators. `iter_rates` and `rates_resource` yield lazily. Both models return the whole list, which yields the same rows because `iter_rates` yields nothing before its last request.
- The XML tree is built as an `Element` value. `SubElement` appends children to a mutable tree.
- DbtJunit.Convert: when `tree.write` raises on a None attribute, the output file has already been opened and may hold part of the report; the model records no write.
- Non-string members of a dbt result. Member values are strings (the text `str()` gives for execution_time); a non-string unique_id, status or message, and a result that is not an object, are not modelled.
- DuckLoader.BatchIsFirstOccurrences: the seen-set guard of `write_rates` never fires on a parsed body, because JSON parsing turns a repeated to_iso into one item holding the last value. The payload's items are a sequence that may repeat a to_iso only so that the guard can be stated; `DuckLoader.BatchOfParsedBody` covers the parsed case.
- `api/scripts/generate_openapi.py` is not part of this model.
- `api/tests/test_main.py` is not modelled. It patches `main._client`, while `api/src/main.py:13` defines `_bq_client`.
- Nothing is left out of the watermark query in `scripts/downloader.py`: it takes the maximum over every base, unlike the DuckDB loader's per-base query, and the model keeps that difference.
- Both watermarks are one past the latest date the endpoint returned, and the endpoint may return an earlier business date than the one requested. So a later run can request days it already requested; the model keys rows by the payload's date, as the source does.
