/** Types shared by both loaders: calendar dates as day numbers, the natural
    key of a rate observation, the payload the rate endpoint returns, and the
    date range a loader walks. */
module Forex {
  import opened Outcomes
  import opened SeqUtil

  /** A calendar date, as the number of days since 1970-01-01. */
  type Date = int

  /** A UTC instant, as seconds since 1970-01-01T00:00:00Z. */
  type Timestamp = int

  /** 2026-01-02, the date a loader starts from when nothing has landed. */
  const DEFAULT_START_DATE: Date := 20455

  /** The base currency both loaders ingest. */
  const BASE_ISO: string := "EUR"

  /** The natural key of a rate observation: (base_iso, to_iso, date). */
  datatype Key = Key(baseIso: string, toIso: string, date: Date)

  /** The parsed body of one rate request: its "base", its "date" and the
      (to_iso, rate) items of its "rates" dictionary, in order. A parsed
      dictionary never repeats a to_iso (a repeated JSON member arrives as
      one item holding the last value); the items are a sequence so that
      the loaders' guards against repeated keys can be stated. */
  datatype Payload = Payload(base: string, date: Date, rates: seq<(string, real)>)

  /** An unsuccessful rate request (an HTTP error status, a timeout, ...). */
  datatype FetchError = FetchError(reason: string)

  /** The rate endpoint: base currency, comma-joined symbols and requested
      date to the payload, or to the error that raise_for_status raises. */
  type Fetcher = (string, string, Date) -> Result<Payload, FetchError>

  /** The dates first, first + 1, ..., last; empty when first > last. */
  function DateRange(first: Date, last: Date): (days: seq<Date>)
    ensures |days| == if first <= last then last - first + 1 else 0
    ensures forall i :: 0 <= i < |days| ==> days[i] == first + i
    decreases last - first + 1
  {
    if first > last then [] else [first] + DateRange(first + 1, last)
  }

  /** Each date of the range occurs exactly once, in increasing order. */
  lemma DateRangeVisitsEachDayOnce(first: Date, last: Date)
    ensures forall d :: d in DateRange(first, last) <==> first <= d <= last
    ensures forall i, j :: 0 <= i < j < |DateRange(first, last)| ==>
              DateRange(first, last)[i] < DateRange(first, last)[j]
  {
    var days := DateRange(first, last);
    forall d | first <= d <= last ensures d in days {
      assert days[d - first] == d;
    }
  }

  /** Walking one more day extends the range by that day. */
  lemma DateRangeSnoc(first: Date, next: Date)
    requires first <= next
    ensures DateRange(first, next) == DateRange(first, next - 1) + [next]
  {
  }

  /** A range that stops earlier is a prefix of the longer one. */
  lemma DateRangePrefix(first: Date, mid: Date, last: Date)
    requires mid <= last
    ensures DateRange(first, mid) <= DateRange(first, last)
  {
  }

  /** Every request for these dates succeeds. */
  predicate AllFetched(fetch: Fetcher, baseIso: string, isoCodes: string, days: seq<Date>)
  {
    forall i :: 0 <= i < |days| ==> fetch(baseIso, isoCodes, days[i]).Success?
  }

  /** The requests of a loop over first..last that fetches each date in turn
      and stops at the first failed request: a prefix of the range, every
      request but a failed last one succeeded, and the whole range was
      requested when nothing failed. */
  predicate WalkedUntilFailure(fetch: Fetcher, baseIso: string, isoCodes: string,
                               first: Date, last: Date, requested: seq<Date>, failed: bool)
  {
    && requested <= DateRange(first, last)
    && (failed ==> |requested| > 0
                   && AllFetched(fetch, baseIso, isoCodes, requested[..|requested| - 1])
                   && fetch(baseIso, isoCodes, requested[|requested| - 1]).Failure?)
    && (!failed ==> requested == DateRange(first, last)
                    && AllFetched(fetch, baseIso, isoCodes, requested))
  }

  /** A walk whose request for current fails, after every earlier date of
      the range succeeded, stops there. */
  lemma WalkStopsAtFailure(fetch: Fetcher, baseIso: string, isoCodes: string, first: Date, last: Date, current: Date)
    requires first <= current <= last
    requires AllFetched(fetch, baseIso, isoCodes, DateRange(first, current - 1))
    requires fetch(baseIso, isoCodes, current).Failure?
    ensures WalkedUntilFailure(fetch, baseIso, isoCodes, first, last, DateRange(first, current - 1) + [current], true)
  {
    var requested := DateRange(first, current - 1) + [current];
    DateRangeSnoc(first, current);
    DateRangePrefix(first, current, last);
    assert requested[..|requested| - 1] == DateRange(first, current - 1);
  }

  /** A walk that got past the last date without a failure requested the
      whole range. */
  lemma WalkCompletes(fetch: Fetcher, baseIso: string, isoCodes: string, first: Date, last: Date, current: Date)
    requires last < current && (current == first || current == last + 1)
    requires AllFetched(fetch, baseIso, isoCodes, DateRange(first, current - 1))
    ensures WalkedUntilFailure(fetch, baseIso, isoCodes, first, last, DateRange(first, current - 1), false)
  {
    if current == first {
      assert DateRange(first, current - 1) == [] == DateRange(first, last);
    }
  }

  /** The (key, rate) pairs of one payload, in body order; the key takes its
      base and date from the payload, not from the requested date. */
  function DayEntries(p: Payload): seq<(Key, real)>
  {
    seq(|p.rates|, i requires 0 <= i < |p.rates| => (Key(p.base, p.rates[i].0, p.date), p.rates[i].1))
  }

  /** A payload gives one entry per item of its rates, in order: the item's
      to_iso and rate under the payload's base and date. Its keys are
      distinct exactly when its to_iso values are. */
  lemma DayEntriesSpec(p: Payload)
    ensures |DayEntries(p)| == |p.rates|
    ensures forall i :: 0 <= i < |p.rates| ==>
              DayEntries(p)[i].0.baseIso == p.base && DayEntries(p)[i].0.date == p.date
              && DayEntries(p)[i].0.toIso == p.rates[i].0 && DayEntries(p)[i].1 == p.rates[i].1
    ensures NoDup(KeysOf(DayEntries(p))) <==> NoDup(KeysOf(p.rates))
  {
    var day := DayEntries(p);
    assert forall i :: 0 <= i < |p.rates| ==> KeysOf(day)[i] == Key(p.base, KeysOf(p.rates)[i], p.date);
  }

  lemma HasElement(dates: set<Date>)
    requires dates != {}
    ensures exists d :: d in dates
  {
    if forall d :: d !in dates { assert false; }
  }

  /** A largest date of a non-empty set, found by taking one date out. */
  lemma {:induction false} Maximum(dates: set<Date>) returns (m: Date)
    requires dates != {}
    ensures m in dates && forall d :: d in dates ==> d <= m
    decreases |dates|
  {
    HasElement(dates);
    var x :| x in dates;
    var rest := dates - {x};
    if rest == {} {
      assert dates == {x};
      m := x;
    } else {
      var r := Maximum(rest);
      m := if x > r then x else r;
      assert dates == rest + {x};
    }
  }

  lemma MaxDateExists(dates: set<Date>)
    requires dates != {}
    ensures exists m :: m in dates && forall d :: d in dates ==> d <= m
  {
    var m := Maximum(dates);
  }

  /** The latest of a non-empty set of dates: SQL's max(date). */
  function MaxDate(dates: set<Date>): (m: Date)
    requires dates != {}
    ensures m in dates && forall d :: d in dates ==> d <= m
  {
    MaxDateExists(dates);
    var m :| m in dates && forall d :: d in dates ==> d <= m;
    m
  }
}
