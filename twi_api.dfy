/** The read API over presentation.twi (api/src/main.py): the parameter
    rules of /twi, the empty-result rule of /twi/latest, and the
    serialisation of result rows into JSON-ready dictionaries. */
module TwiApi {
  import opened Outcomes
  import opened SeqUtil
  import opened Forex

  /** The base currency both endpoints read when base_iso is not given. */
  const DEFAULT_BASE_ISO: string := "EUR"

  /** The number of rows /twi returns for a range when limit is not given. */
  const DEFAULT_LIMIT: int := 100

  /** The largest limit /twi accepts; the smallest is 1. */
  const MAX_LIMIT: int := 1000

  /** A value with an isoformat method: a DATE or a TIMESTAMP column. */
  datatype Temporal = Day(date: Date) | Instant(at: Timestamp)

  /** A column value of a result row. */
  datatype Value = Time(moment: Temporal) | Text(text: string) | Number(number: real) | Null

  /** The (column, value) items of a row or of a dictionary, in order. */
  type Fields = seq<(string, Value)>

  /** An HTTPException: its status code and detail. */
  datatype HttpError = HttpError(status: int, detail: string)

  /** The parameterised SELECTs the endpoints run on presentation.twi. */
  datatype Query =
      /** base_iso = @base_iso, latest date first, one row. */
    | Latest(baseIso: string)
      /** base_iso = @base_iso and date between @start and @end, by date, at most limit rows. */
    | Between(baseIso: string, start: Date, end: Date, limit: int)
      /** base_iso = @base_iso and date = @date, one row. */
    | On(baseIso: string, date: Date)

  /** The BigQuery client: a query to its result rows. */
  type QueryRunner = Query -> seq<Fields>

  /** isoformat() of a date or timestamp. */
  type IsoFormat = Temporal -> string

  /** No value is left that JSON encoding cannot take as it is. */
  predicate JsonReady(fields: Fields)
  {
    forall i :: 0 <= i < |fields| ==> !fields[i].1.Time?
  }

  // ---------------------------------------------------------------------
  // _serialize_row

  /** The items of dict(row): every column once, at its first position,
      with the value assigned to it last. */
  function DictItems(row: Fields): (items: Fields)
    ensures KeysOf(items) == Distinct(KeysOf(row))
    ensures NoDup(KeysOf(items))
    ensures forall i :: 0 <= i < |items| ==> items[i].0 in LastValues(row) && items[i].1 == LastValues(row)[items[i].0]
  {
    var names := Distinct(KeysOf(row));
    LastValuesKeys(row);
    DistinctSpec(KeysOf(row));
    var items := seq(|names|, i requires 0 <= i < |names| => (names[i], LastValues(row)[names[i]]));
    assert KeysOf(items) == names;
    items
  }

  /** A dictionary's items are its own dict(). */
  lemma DictItemsOfDict(fields: Fields)
    requires NoDup(KeysOf(fields))
    ensures DictItems(fields) == fields
  {
    var ks := KeysOf(fields);
    DistinctOfNoDup(ks);
    forall i | 0 <= i < |fields|
      ensures DictItems(fields)[i] == fields[i]
    {
      assert ks[i] == fields[i].0;
      forall j | i < j < |fields|
        ensures fields[j].0 != fields[i].0
      {
        assert ks[j] == fields[j].0;
      }
      LastWriteWins(fields, i);
    }
  }

  /** The value serialized_row takes for one value: isoformat() for a
      date or timestamp, the value itself otherwise. */
  function SerializeValue(v: Value, iso: IsoFormat): (w: Value)
    ensures !w.Time?
    ensures v.Time? ==> w == Text(iso(v.moment))
    ensures !v.Time? ==> w == v
  {
    if v.Time? then Text(iso(v.moment)) else v
  }

  /** The dictionary _serialize_row returns, as its items. */
  function Serialized(row: Fields, iso: IsoFormat): Fields
  {
    var items := DictItems(row);
    seq(|items|, i requires 0 <= i < |items| => (items[i].0, SerializeValue(items[i].1, iso)))
  }

  /** _serialize_row: assigns every item of dict(row) into a new
      dictionary, converting dates and timestamps with isoformat(); the keys
      of dict(row) are distinct, so every assignment adds an entry. */
  method SerializeRow(row: Fields, iso: IsoFormat) returns (serializedRow: Fields)
    ensures serializedRow == Serialized(row, iso)
  {
    var items := DictItems(row);
    serializedRow := [];
    for i := 0 to |items|
      invariant serializedRow == Serialized(row, iso)[..i]
    {
      var (key, value) := items[i];
      if value.Time? {
        serializedRow := serializedRow + [(key, Text(iso(value.moment)))];
      } else {
        serializedRow := serializedRow + [(key, value)];
      }
      assert Serialized(row, iso)[..i + 1] == Serialized(row, iso)[..i] + [Serialized(row, iso)[i]];
    }
    assert Serialized(row, iso)[..|items|] == Serialized(row, iso);
  }

  /** The serialised row has every column of the row exactly once, in the
      order of first appearance, with the row's value for it serialised. */
  lemma SerializedKeepsColumns(row: Fields, iso: IsoFormat)
    ensures KeysOf(Serialized(row, iso)) == Distinct(KeysOf(row))
    ensures NoDup(KeysOf(Serialized(row, iso)))
    ensures forall name :: name in KeysOf(Serialized(row, iso)) <==> name in KeysOf(row)
    ensures forall i :: 0 <= i < |Serialized(row, iso)| ==>
              Serialized(row, iso)[i].0 in LastValues(row) &&
              Serialized(row, iso)[i].1 == SerializeValue(LastValues(row)[Serialized(row, iso)[i].0], iso)
  {
    DistinctSpec(KeysOf(row));
    LastValuesKeys(row);
    assert KeysOf(Serialized(row, iso)) == Distinct(KeysOf(row));
  }

  /** Every date and timestamp has become its ISO string. */
  lemma SerializedIsJsonReady(row: Fields, iso: IsoFormat)
    ensures JsonReady(Serialized(row, iso))
  {
    SerializedKeepsColumns(row, iso);
  }

  /** Serialising a serialised row changes nothing. */
  lemma SerializedIdempotent(row: Fields, iso: IsoFormat)
    ensures Serialized(Serialized(row, iso), iso) == Serialized(row, iso)
  {
    var once := Serialized(row, iso);
    SerializedKeepsColumns(row, iso);
    DictItemsOfDict(once);
  }

  // ---------------------------------------------------------------------
  // twi_latest

  /** twi_latest: the latest row of the base, serialised; no row is a 404. */
  method TwiLatest(run: QueryRunner, iso: IsoFormat, baseIso: string := DEFAULT_BASE_ISO)
    returns (response: Result<Fields, HttpError>)
    ensures response.Failure? <==> run(Latest(baseIso)) == []
    ensures response.Failure? ==> response.error == HttpError(404, "No data found")
    ensures response.Success? ==> response.value == Serialized(run(Latest(baseIso))[0], iso)
    ensures response.Success? ==> JsonReady(response.value)
  {
    var rows := run(Latest(baseIso));
    if |rows| == 0 {
      return Failure(HttpError(404, "No data found"));
    }
    var first := SerializeRow(rows[0], iso);
    SerializedIsJsonReady(rows[0], iso);
    return Success(first);
  }

  // ---------------------------------------------------------------------
  // twi

  /** The query twi runs for its parameters, or the HTTPException it
      raises: exactly one of a date, or a start and an end together, is
      accepted; anything else is a 400 naming what is wrong. */
  function Dispatch(baseIso: string, date: Option<Date>, start: Option<Date>, end: Option<Date>, limit: int)
    : (r: Result<Query, HttpError>)
    requires 1 <= limit <= MAX_LIMIT
    ensures r.Success? <==> (date.Some? && start.None? && end.None?) || (date.None? && start.Some? && end.Some?)
    ensures r.Success? ==> r.value.baseIso == baseIso && !r.value.Latest?
    ensures r.Success? && r.value.Between? ==> start.Some? && end.Some? && r.value == Between(baseIso, start.value, end.value, limit)
    ensures r.Success? && r.value.On? ==> date.Some? && r.value == On(baseIso, date.value)
    ensures r.Failure? ==> r.error.status == 400
    ensures r.Failure? ==> (r.error.detail == "date cannot be combined with start or end" <==>
                             date.Some? && (start.Some? || end.Some?))
    ensures r.Failure? ==> (r.error.detail == "start and end must be provided together" <==>
                             date.None? && start.Some? != end.Some?)
    ensures r.Failure? ==> (r.error.detail == "invalid parameters" <==>
                             date.None? && start.None? && end.None?)
  {
    if date.Some? && (start.Some? || end.Some?) then
      Failure(HttpError(400, "date cannot be combined with start or end"))
    else if start.Some? && end.Some? then
      Success(Between(baseIso, start.value, end.value, limit))
    else if start.Some? || end.Some? then
      Failure(HttpError(400, "start and end must be provided together"))
    else if date.Some? then
      Success(On(baseIso, date.value))
    else
      Failure(HttpError(400, "invalid parameters"))
  }

  /** twi: checks the parameters, runs the query and serialises every
      result row, in order. */
  method Twi(run: QueryRunner, iso: IsoFormat, baseIso: string := DEFAULT_BASE_ISO, date: Option<Date> := None,
             start: Option<Date> := None, end: Option<Date> := None, limit: int := DEFAULT_LIMIT)
    returns (response: Result<seq<Fields>, HttpError>)
    requires 1 <= limit <= MAX_LIMIT
    ensures response.Failure? <==> Dispatch(baseIso, date, start, end, limit).Failure?
    ensures response.Failure? ==> response.error == Dispatch(baseIso, date, start, end, limit).error
    ensures response.Success? ==>
              var rows := run(Dispatch(baseIso, date, start, end, limit).value);
              && |response.value| == |rows|
              && forall i :: 0 <= i < |rows| ==> response.value[i] == Serialized(rows[i], iso)
    ensures response.Success? ==> forall i :: 0 <= i < |response.value| ==> JsonReady(response.value[i])
  {
    var query := Dispatch(baseIso, date, start, end, limit);
    if query.Failure? {
      return Failure(query.error);
    }
    var rows := run(query.value);
    var serialized: seq<Fields> := [];
    for i := 0 to |rows|
      invariant |serialized| == i
      invariant forall k :: 0 <= k < i ==> serialized[k] == Serialized(rows[k], iso) && JsonReady(serialized[k])
    {
      var one := SerializeRow(rows[i], iso);
      SerializedIsJsonReady(rows[i], iso);
      serialized := serialized + [one];
    }
    return Success(serialized);
  }
}
