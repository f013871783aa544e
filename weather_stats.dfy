/**
 * `GET /weather/statistics`: daily records for a date range, served from a file-backed cache
 * whose entries stay fresh for one hour.
 *
 * The cache file is a snapshot that `load_cache` reads whole and `save_cache` rewrites whole.
 * `Serve` states what one request does to that snapshot; `StatisticsService.Statistics` is the
 * request handler itself, step by step, and is proved to behave as `Serve` says.
 */
module WeatherStats {

  import opened Wrappers
  import opened Calendar
  import opened Upstream
  import opened Weather

  /** Seconds an entry stays fresh. */
  const CacheTtl: int := 3600

  const FormatError: string := "Invalid date format. Use yyyy-MM-dd"
  const RangeError: string := "end_date must be after start_date"

  /** One day of the answer, as the statistics endpoint reports and caches it. */
  datatype Record = Record(date: Option<string>, avgTemp: Option<real>, precipitationMm: Option<real>, isSunny: bool)

  /** A cached answer with the clock reading (epoch seconds) taken when it was written. */
  datatype Entry = Entry(ts: int, data: seq<Record>)

  type Cache = map<string, Entry>

  /** The cache file: not there, there but not readable as a cache, or a stored snapshot. */
  datatype CacheFile = Missing | Unreadable | Stored(cache: Cache)

  /** `load_cache()`: the stored snapshot, and the empty cache when there is none to read. */
  function Loaded(file: CacheFile): (cache: Cache)
    ensures file.Stored? ==> cache == file.cache
    ensures !file.Stored? ==> cache == map[]
  {
    if file.Stored? then file.cache else map[]
  }

  /** `is_cache_valid(ts)`: strictly less than an hour old. */
  predicate IsFresh(entry: Entry, now: int)
    ensures now <= entry.ts ==> IsFresh(entry, now)
    ensures now >= entry.ts + CacheTtl ==> !IsFresh(entry, now)
  {
    now - entry.ts < CacheTtl
  }

  /** An entry written at `ts` is fresh up to `ts + 3599` and stale from `ts + 3600` on. */
  lemma FreshForOneHour(entry: Entry, now: int)
    ensures IsFresh(entry, now) <==> now <= entry.ts + 3599
    ensures !IsFresh(entry, entry.ts + 3600)
  {
  }

  /** The key of a request: the caller's three strings joined by underscores, as given. */
  function CacheKey(city: string, start: string, end: string): (key: string)
    ensures |key| == |city| + |start| + |end| + 2
    ensures key[..|city|] == city && key[|city|] == '_'
    ensures key[|city| + 1..|city| + 1 + |start|] == start && key[|city| + 1 + |start|] == '_'
    ensures key[|key| - |end|..] == end
  {
    city + "_" + start + "_" + end
  }

  /** Two keys joined by one underscore come apart again when the last parts have none. */
  lemma SplitAtLastUnderscore(a: string, b: string, x: string, y: string)
    requires '_' !in b && '_' !in y
    requires a + "_" + b == x + "_" + y
    ensures a == x && b == y
  {
    var k := a + "_" + b;
    assert k == x + "_" + y;
    // The separator before `b`, seen from the right-hand side, and the one before `y`.
    assert k[|k| - |b| - 1] == '_' && k[|k| - |y| - 1] == '_';
    assert forall i :: |k| - |y| <= i < |k| ==> k[i] == y[i - (|k| - |y|)];
    assert forall i :: |k| - |b| <= i < |k| ==> k[i] == b[i - (|k| - |b|)];
    assert |b| == |y|;
    assert b == k[|k| - |b|..] == y;
    assert a == k[..|a|] == x;
  }

  /** A `yyyy-MM-dd` date that parses has no underscore in it. */
  lemma NoUnderscore(date: string)
    requires ParseDate(date, '-').Some?
    ensures '_' !in date
  {
    ParsedCharacters(date, '-');
  }

  /**
   * Requests whose dates pass validation never share a key unless they are the same request:
   * a valid date has no underscore, so the key determines city, start and end.
   */
  lemma CacheKeyInjective(city1: string, start1: string, end1: string, city2: string, start2: string, end2: string)
    requires ParseDate(start1, '-').Some? && ParseDate(end1, '-').Some?
    requires ParseDate(start2, '-').Some? && ParseDate(end2, '-').Some?
    requires CacheKey(city1, start1, end1) == CacheKey(city2, start2, end2)
    ensures city1 == city2 && start1 == start2 && end1 == end2
  {
    NoUnderscore(start1);
    NoUnderscore(end1);
    NoUnderscore(start2);
    NoUnderscore(end2);
    SplitAtLastUnderscore(city1 + "_" + start1, end1, city2 + "_" + start2, end2);
    SplitAtLastUnderscore(city1, start1, city2, start2);
  }

  /** Keys are case-sensitive: "Moscow" and "moscow" are cached apart. */
  lemma KeysAreCaseSensitive(start: string, end: string)
    ensures CacheKey("Moscow", start, end) != CacheKey("moscow", start, end)
  {
    assert CacheKey("Moscow", start, end)[0] == 'M';
  }

  /** The date check: both dates must parse as `yyyy-MM-dd`, and the end may not precede the start. */
  function CheckDates(start: string, end: string): (error: Option<string>)
    ensures error == Some(FormatError) <==> ParseDate(start, '-').None? || ParseDate(end, '-').None?
    ensures error == Some(RangeError) <==>
      ParseDate(start, '-').Some? && ParseDate(end, '-').Some? && Before(ParseDate(end, '-').value, ParseDate(start, '-').value)
    ensures error.Some? ==> error == Some(FormatError) || error == Some(RangeError)
  {
    match (ParseDate(start, '-'), ParseDate(end, '-'))
    case (Some(s), Some(e)) => if Before(e, s) then Some(RangeError) else None
    case _ => Some(FormatError)
  }

  /** A range that starts and ends on the same valid day passes the check. */
  lemma SameDayRangeAccepted(date: string)
    requires ParseDate(date, '-').Some?
    ensures CheckDates(date, date).None?
  {
  }

  /** The record made from one upstream day; None where the source raises (null conditions). */
  function ToRecord(d: Day): (r: Option<Record>)
    ensures r.None? <==> d.conditions.Null?
    ensures r.Some? ==> r.value.date == d.datetime.OrNone() && r.value.avgTemp == d.temp.OrNone()
    ensures r.Some? && d.precip.Absent? ==> r.value.precipitationMm == Some(0.0)
    ensures r.Some? && d.precip.Null? ==> r.value.precipitationMm.None?
    ensures r.Some? && d.precip.Present? ==> r.value.precipitationMm == Some(d.precip.value)
    ensures r.Some? && d.conditions.Absent? ==> !r.value.isSunny
    ensures r.Some? && d.conditions.Present? ==> r.value.isSunny == IsSunnyConditions(d.conditions.value)
  {
    match ConditionsText(d)
    case None => None
    case Some(text) =>
      EmptyConditionsNotSunny();
      var precip := if d.precip.Absent? then Some(0.0) else d.precip.OrNone();
      Some(Record(d.datetime.OrNone(), d.temp.OrNone(), precip, IsSunnyConditions(text)))
  }

  /** The records for a list of upstream days, one per day and in order; None if any day fails. */
  function Transform(days: seq<Day>): (r: Option<seq<Record>>)
    ensures r.Some? <==> forall i :: 0 <= i < |days| ==> ToRecord(days[i]).Some?
    ensures r.Some? ==> |r.value| == |days|
    ensures r.Some? ==> forall i :: 0 <= i < |days| ==> ToRecord(days[i]) == Some(r.value[i])
  {
    if days == [] then Some([])
    else
      match ToRecord(days[0])
      case None => None
      case Some(first) =>
        match Transform(days[1..])
        case None => None
        case Some(rest) => Some([first] + rest)
  }

  /** The loop of the handler that builds `result`, one appended record per day. */
  method TransformDays(days: seq<Day>) returns (result: Option<seq<Record>>)
    ensures result == Transform(days)
  {
    var records: seq<Record> := [];
    for i := 0 to |days|
      invariant |records| == i
      invariant forall j :: 0 <= j < i ==> ToRecord(days[j]) == Some(records[j])
    {
      var record := ToRecord(days[i]);
      if record.None? {
        return None;
      }
      records := records + [record.value];
    }
    assert Transform(days).Some?;
    assert records == Transform(days).value;
    return Some(records);
  }

  /** The answer the handler sends, or, for `Unhandled`, the exception that escapes it. */
  datatype Response =
    | InvalidDates(message: string)  // {"error": ...} before the cache is read
    | Data(cached: bool, data: seq<Record>)
    | FetchFailed(cause: Failure)    // {"error": str(e)} from the request
    | Unhandled(cause: Failure)      // raised while building the records

  /** What one request leaves behind: the answer, the cache file, and whether upstream was asked. */
  datatype Outcome = Outcome(response: Response, file: CacheFile, fetched: bool)

  /** `resp.json().get("days", [])` for a body whose `days` is not null. */
  function DaysOrEmpty(p: Payload): seq<Day>
    requires p.Json?
  {
    if p.days.Present? then p.days.value else []
  }

  /**
   * One statistics request against the cache file `file`. The clock reads `now` when the cache
   * entry is checked and `storedAt` when the new entry is written; `answer` is what the
   * provider returns if it is asked.
   */
  function Serve(file: CacheFile, city: string, start: string, end: string, now: int, answer: Attempt, storedAt: int): (o: Outcome)
    ensures o.fetched ==> CheckDates(start, end).None?
    ensures o.response.InvalidDates? <==> CheckDates(start, end).Some?
    ensures o.response.Data? && o.response.cached ==> !o.fetched && o.file == file
    ensures o.file != file ==> o.fetched && o.response.Data? && !o.response.cached
    ensures o.file != file ==> o.file == Stored(Loaded(file)[CacheKey(city, start, end) := Entry(storedAt, o.response.data)])
    ensures o.response.Data? && !o.response.cached ==>
      Checked(answer).Ok? && Checked(answer).value.Json? && !Checked(answer).value.days.Null?
      && Transform(DaysOrEmpty(Checked(answer).value)) == Some(o.response.data)
  {
    match CheckDates(start, end)
    case Some(message) => Outcome(InvalidDates(message), file, false)
    case None =>
      var cache := Loaded(file);
      var key := CacheKey(city, start, end);
      if key in cache && IsFresh(cache[key], now) then
        Outcome(Data(true, cache[key].data), file, false)
      else
        match Checked(answer)
        case Err(f) => Outcome(FetchFailed(f), file, true)
        case Ok(NotJson) => Outcome(FetchFailed(BadJson), file, true)
        case Ok(Json(Null)) => Outcome(Unhandled(DaysNotAList), file, true)
        case Ok(Json(days)) =>
          match Transform(DaysOrEmpty(Json(days)))
          case None => Outcome(Unhandled(NullConditions), file, true)
          case Some(records) => Outcome(Data(false, records), Stored(cache[key := Entry(storedAt, records)]), true)
  }

  /** A date that is not `yyyy-MM-dd` is refused before the cache or the provider is touched. */
  lemma BadDateFormatRefused(file: CacheFile, city: string, start: string, end: string, now: int, answer: Attempt, storedAt: int)
    requires ParseDate(start, '-').None? || ParseDate(end, '-').None?
    ensures Serve(file, city, start, end, now, answer, storedAt) == Outcome(InvalidDates(FormatError), file, false)
  {
  }

  /** An end date before the start date is refused before the cache or the provider is touched. */
  lemma InvertedRangeRefused(file: CacheFile, city: string, start: string, end: string, now: int, answer: Attempt, storedAt: int)
    requires ParseDate(start, '-').Some? && ParseDate(end, '-').Some?
    requires Before(ParseDate(end, '-').value, ParseDate(start, '-').value)
    ensures Serve(file, city, start, end, now, answer, storedAt) == Outcome(InvalidDates(RangeError), file, false)
  {
  }

  /** A fresh entry is answered as cached, unchanged, without asking the provider or writing. */
  lemma FreshEntryServed(file: CacheFile, city: string, start: string, end: string, now: int, answer: Attempt, storedAt: int)
    requires CheckDates(start, end).None?
    requires CacheKey(city, start, end) in Loaded(file)
    requires IsFresh(Loaded(file)[CacheKey(city, start, end)], now)
    ensures Serve(file, city, start, end, now, answer, storedAt)
      == Outcome(Data(true, Loaded(file)[CacheKey(city, start, end)].data), file, false)
  {
  }

  /** A missing or stale entry makes the request go to the provider. */
  lemma MissFetches(file: CacheFile, city: string, start: string, end: string, now: int, answer: Attempt, storedAt: int)
    requires CheckDates(start, end).None?
    requires CacheKey(city, start, end) !in Loaded(file) || !IsFresh(Loaded(file)[CacheKey(city, start, end)], now)
    ensures Serve(file, city, start, end, now, answer, storedAt).fetched
    ensures !Serve(file, city, start, end, now, answer, storedAt).response.Data?
      || !Serve(file, city, start, end, now, answer, storedAt).response.cached
  {
  }

  /**
   * After a successful fetch the key maps to the new records stamped `storedAt`, the answer is
   * those records marked not cached, and the whole snapshot is written back.
   */
  lemma SuccessfulMissStores(file: CacheFile, city: string, start: string, end: string, now: int,
                             answer: Attempt, storedAt: int, days: seq<Day>)
    requires CheckDates(start, end).None?
    requires CacheKey(city, start, end) !in Loaded(file) || !IsFresh(Loaded(file)[CacheKey(city, start, end)], now)
    requires Checked(answer) == Ok(Json(Present(days))) || (Checked(answer) == Ok(Json(Absent)) && days == [])
    requires Transform(days).Some?
    ensures var o := Serve(file, city, start, end, now, answer, storedAt);
      && o.response == Data(false, Transform(days).value)
      && o.file == Stored(Loaded(file)[CacheKey(city, start, end) := Entry(storedAt, Transform(days).value)])
      && o.fetched
  {
  }

  /** A response without `days` is cached as an empty list of records. */
  lemma MissingDaysCachedEmpty(file: CacheFile, city: string, start: string, end: string, now: int,
                               status: int, storedAt: int)
    requires CheckDates(start, end).None?
    requires CacheKey(city, start, end) !in Loaded(file) || !IsFresh(Loaded(file)[CacheKey(city, start, end)], now)
    requires !IsErrorStatus(status)
    ensures var o := Serve(file, city, start, end, now, Answered(status, Json(Absent)), storedAt);
      o.response == Data(false, []) && Loaded(o.file)[CacheKey(city, start, end)] == Entry(storedAt, [])
  {
  }

  /**
   * Every way the fetch can go wrong on a miss ends in an error answer and leaves the file,
   * a stale entry under the key included, as it was: the request or `raise_for_status` raised,
   * the body is not JSON, `days` is null, or a day has null conditions.
   */
  lemma FailedFetchKeepsFile(file: CacheFile, city: string, start: string, end: string, now: int, answer: Attempt, storedAt: int)
    requires CheckDates(start, end).None?
    requires CacheKey(city, start, end) !in Loaded(file) || !IsFresh(Loaded(file)[CacheKey(city, start, end)], now)
    ensures var o := Serve(file, city, start, end, now, answer, storedAt);
      Checked(answer).Err? ==> o == Outcome(FetchFailed(Checked(answer).error), file, true)
    ensures var o := Serve(file, city, start, end, now, answer, storedAt);
      Checked(answer) == Ok(NotJson) ==> o == Outcome(FetchFailed(BadJson), file, true)
    ensures var o := Serve(file, city, start, end, now, answer, storedAt);
      Checked(answer) == Ok(Json(Null)) ==> o == Outcome(Unhandled(DaysNotAList), file, true)
    ensures var o := Serve(file, city, start, end, now, answer, storedAt);
      (Checked(answer).Ok? && Checked(answer).value.Json? && !Checked(answer).value.days.Null?
       && Transform(DaysOrEmpty(Checked(answer).value)).None?)
      ==> o == Outcome(Unhandled(NullConditions), file, true)
  {
  }

  /**
   * The file changes only when fresh data was fetched, and then only at the request's key:
   * every other key, stale or not, keeps its entry. A failed fetch leaves a stale entry in place.
   */
  lemma OnlyTheRequestKeyChanges(file: CacheFile, city: string, start: string, end: string, now: int, answer: Attempt, storedAt: int)
    ensures var o := Serve(file, city, start, end, now, answer, storedAt);
      o.file == file || (o.response.Data? && !o.response.cached && o.file.Stored?)
    ensures var o := Serve(file, city, start, end, now, answer, storedAt);
      !o.response.Data? ==> o.file == file
    ensures var o := Serve(file, city, start, end, now, answer, storedAt);
      forall k :: k != CacheKey(city, start, end) ==>
        (k in Loaded(o.file) <==> k in Loaded(file)) && (k in Loaded(file) ==> Loaded(o.file)[k] == Loaded(file)[k])
  {
  }

  /**
   * Two identical requests within the hour: the second one is answered from the cache with
   * the same records, does not ask the provider, and leaves the file as the first left it.
   */
  lemma RepeatWithinTtlIsCached(file: CacheFile, city: string, start: string, end: string,
                                now1: int, answer1: Attempt, storedAt1: int,
                                now2: int, answer2: Attempt, storedAt2: int)
    requires Serve(file, city, start, end, now1, answer1, storedAt1).response.Data?
    requires now2 - storedAt1 < CacheTtl
    ensures var o1 := Serve(file, city, start, end, now1, answer1, storedAt1);
      o1.fetched ==>
        Serve(o1.file, city, start, end, now2, answer2, storedAt2) == Outcome(Data(true, o1.response.data), o1.file, false)
  {
  }

  /** Two days with conditions give two records flagged by the classifier, in order. */
  lemma TwoDaysFlagged(d1: Day, d2: Day)
    requires d1.conditions.Present? && d2.conditions.Present?
    ensures Transform([d1, d2]).Some? && |Transform([d1, d2]).value| == 2
    ensures Transform([d1, d2]).value[0].isSunny == IsSunnyConditions(d1.conditions.value)
    ensures Transform([d1, d2]).value[1].isSunny == IsSunnyConditions(d2.conditions.value)
  {
    assert ToRecord([d1, d2][0]).Some? && ToRecord([d1, d2][1]).Some?;
  }

  /** Two upstream days, "Clear" then "Rain, Overcast", give a sunny record and then a non-sunny one. */
  lemma ClearThenOvercast(d1: Day, d2: Day)
    requires d1.conditions == Present("Clear") && d2.conditions == Present("Rain, Overcast")
    ensures Transform([d1, d2]).Some?
    ensures |Transform([d1, d2]).value| == 2
    ensures Transform([d1, d2]).value[0].isSunny && !Transform([d1, d2]).value[1].isSunny
  {
    TwoDaysFlagged(d1, d2);
    ClearIsSunny();
    RainOvercastIsNotSunny();
  }

  /** The statistics router: the cache file it reads and rewrites, and the requests it sends. */
  class StatisticsService {

    var file: CacheFile

    /** The (city, start, end) of every request sent to the provider, oldest first. */
    ghost var requests: seq<(string, string, string)>

    constructor (initial: CacheFile)
      ensures file == initial && requests == []
    {
      file := initial;
      requests := [];
    }

    /** `load_cache()`: never fails; an absent or unreadable file reads as the empty cache. */
    method LoadCache() returns (cache: Cache)
      ensures cache == Loaded(file)
      ensures file.Stored? ==> cache == file.cache
      ensures !file.Stored? ==> cache == map[]
    {
      if file.Stored? {
        cache := file.cache;
      } else {
        cache := map[];
      }
    }

    /** `save_cache(cache)`: the whole file is replaced by the snapshot. */
    method SaveCache(cache: Cache)
      modifies this`file
      ensures file == Stored(cache)
    {
      file := Stored(cache);
    }

    /**
     * `weather_statistics(city, start_date, end_date)`. `now` and `storedAt` are the two
     * readings of the clock, `answer` what the provider would return.
     */
    method Statistics(city: string, start: string, end: string, now: int, answer: Attempt, storedAt: int)
      returns (response: Response)
      modifies this
      ensures var o := Serve(old(file), city, start, end, now, answer, storedAt);
        && response == o.response
        && file == o.file
        && requests == old(requests) + (if o.fetched then [(city, start, end)] else [])
    {
      var startDate := ParseDate(start, '-');
      var endDate := ParseDate(end, '-');
      if startDate.None? || endDate.None? {
        return InvalidDates(FormatError);
      }
      if Before(endDate.value, startDate.value) {
        return InvalidDates(RangeError);
      }

      var cache := LoadCache();
      var key := CacheKey(city, start, end);
      if key in cache && IsFresh(cache[key], now) {
        return Data(true, cache[key].data);
      }

      requests := requests + [(city, start, end)];
      var days: seq<Day>;
      match Checked(answer) {
        case Err(f) =>
          return FetchFailed(f);
        case Ok(NotJson) =>
          return FetchFailed(BadJson);
        case Ok(Json(Null)) =>
          return Unhandled(DaysNotAList);
        case Ok(Json(Absent)) =>
          days := [];
        case Ok(Json(Present(list))) =>
          days := list;
      }

      var result := TransformDays(days);
      if result.None? {
        return Unhandled(NullConditions);
      }
      cache := cache[key := Entry(storedAt, result.value)];
      SaveCache(cache);
      response := Data(false, result.value);
    }
  }

}
