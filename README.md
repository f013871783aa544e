# weatherapp — a Dafny model of the weather routes

The application is a small HTTP façade over a timeline weather provider. This project models
its two route files:

- `weatherapp/routes/weather_stats.py`: the statistics endpoint. It validates a `yyyy-MM-dd`
  date range, looks the request up in a file-backed cache whose entries stay fresh for one
  hour, and on a miss fetches the range, turns each upstream day into a record with a sunny
  flag, stores the records under the request's key and rewrites the whole cache file.
- `weatherapp/routes/weather.py`: the single-day endpoints `is_sunny`, `precipitation` and
  `temperature`. They share the `yyyy.MM.dd` date check and reformatting and the sunny
  keyword classifier. `is_sunny` also uses a bounded retry loop, `get_with_retries`.

Modules:

| file | module | models |
|---|---|---|
| wrappers.dfy | `Wrappers` | `Option` for Python's `None`, `Result` for exceptions |
| text.dfy | `Text` | `str.lower` and the substring test `k in s` |
| calendar.dfy | `Calendar` | `datetime.strptime`/`strftime` for `%Y<sep>%m<sep>%d`, date order |
| upstream.dfy | `Upstream` | what the provider answers: status, decoded body, `days`, and the failures |
| weather.py → weather.dfy | `Weather` | classifier, `get_with_retries`, the three single-day endpoints |
| weather_stats.py → weather_stats.dfy | `WeatherStats` | the cache, the `Serve` specification, the `StatisticsService` class |

How the outside world is passed in:

- The provider's answer to one request is an `Attempt`. It is either `NoAnswer` (requests
  raised before a response) or `Answered(status, payload)`. The payload is a decoded JSON
  object with an optional `days` key, or `NotJson`.
- JSON keys are `Field`s that tell a missing key (`Absent`) from an explicit `null`. This
  matters because `d.get(k, default)` returns the default only for a missing key.
- `is_sunny` sees the network as a function from attempt number to `Attempt`. The other two
  endpoints and the statistics endpoint send exactly one request, so they take one `Attempt`.
- The clock is two integer parameters of the statistics request. `now` is the reading in
  `is_cache_valid`. `storedAt` is the later reading written into the new entry at line 84.
  `time.sleep` becomes the list `slept` of the pauses taken.
- The cache file is a `CacheFile`: `Missing`, `Unreadable` or `Stored(cache)`.
  `load_cache` reads it whole and `save_cache` replaces it whole.
- Exceptions that escape `weather_statistics` become the `Unhandled` response. This happens
  for a `null` `days` value (iterating `None`) and for a `null` `conditions` value (`None.lower()`).
  In the single-day endpoints the same failures are caught and reported as `Failed`.

Two behaviours of the code are worth stating plainly:

- HTTP error statuses are retried by `get_with_retries`, like network failures:
  `raise_for_status` raises inside the `try` of `weatherapp/routes/weather.py:22-24`, and its
  `HTTPError` is a `RequestException`.
- CPython's `strptime` reads `%d` with the pattern `3[01]|[12]\d|0[1-9]|[1-9]| [1-9]`, so a
  day may be written as a blank and one digit (`"2023-07- 5"`), and `%m` and `%d` also take
  one digit (`"2023-7-5"`). Such a date is valid, and its raw spelling becomes part of the
  cache key, so two spellings of one range are cached under two keys.

## Model

| member | source | states |
|---|---|---|
| `Text.LowerChar` | weatherapp/routes/weather.py:56 | a capital becomes the small letter 32 code points up; every other character is kept; no capital remains |
| `Text.Lower` | weatherapp/routes/weather.py:56 | `s.lower()` has the same length, no capital letters, each capital moved to its small letter and every other character kept |
| `Text.Contains` | weatherapp/routes/weather.py:57 | `k in s` needs `k` no longer than `s`, and the empty string is in every string |
| `Text.SameLengthContains` | weatherapp/routes/weather.py:57 | a text as long as `k` contains `k` iff it is `k` |
| `Text.OccurrenceContains` | weatherapp/routes/weather.py:57 | an occurrence of `k` at any index makes `k in s` true |
| `Text.ContainsOccurrence` | weatherapp/routes/weather.py:57 | `k in s` holds only through an occurrence of `k` at some index, which it returns |
| `Text.ContainsSuffix` | weatherapp/routes/weather.py:13 | a text containing `a + b` contains `b`, so "mostly clear" implies "clear" |
| `Text.ContainsChar` | weatherapp/routes/weather.py:57 | every character of a contained string occurs in the containing one |
| `Text.MissingCharNotContained` | weatherapp/routes/weather.py:57 | a text lacking one character of `k` does not contain `k` |
| `Calendar.DaysInMonth` | weatherapp/routes/weather_stats.py:42 | February has 29 days in a leap year and 28 otherwise; April, June, September and November have 30; the others 31 |
| `Calendar.IsValidDate` | weatherapp/routes/weather_stats.py:42-43 | a day is valid iff its year is 1 to 9999, its month 1 to 12, and its day at most 30 in April, June, September and November, at most 28 in February (29 in a leap year) and at most 31 otherwise |
| `Calendar.Before` | weatherapp/routes/weather_stats.py:44 | on valid days, `a < b` holds iff the `yyyymmdd` number of `a` is smaller than that of `b` |
| `Calendar.Numeral` | weatherapp/routes/weather_stats.py:42 | a numeral of `w` digits is below `10^w` |
| `Calendar.NumeralOfPadded` | weatherapp/routes/weather.py:40 | a zero-padded numeral reads back as the number it was written from |
| `Calendar.PaddedNumeral` | weatherapp/routes/weather_stats.py:42 | a string of digits is the zero-padded numeral of its own value, so `%Y` reads back as written |
| `Calendar.MatchMonth` | weatherapp/routes/weather_stats.py:42 | `%m` takes one or two digits and reads the month from 1 to 12 they spell |
| `Calendar.MatchDay` | weatherapp/routes/weather_stats.py:42 | `%d` takes one or two characters and reads the day from 1 to 31 they spell: the digits' value, or the digit after a leading blank |
| `Calendar.ParseDate` | weatherapp/routes/weather_stats.py:42-43 | an accepted text names a real calendar day (years 1 to 9999, leap years), and is 8 to 10 characters long |
| `Calendar.ParsedCharacters` | weatherapp/routes/weather_stats.py:42-43 | an accepted text holds only digits, the separator and blanks |
| `Calendar.MonthSpelled` | weatherapp/routes/weather_stats.py:42 | the characters `%m` consumed are one of the spellings of the month it read |
| `Calendar.DaySpelled` | weatherapp/routes/weather_stats.py:42 | the characters `%d` consumed are one of the spellings of the day it read |
| `Calendar.MonthMatched` | weatherapp/routes/weather_stats.py:42 | every spelling of a month (`07`, `7`, `12`) is read whole as that month when a separator follows |
| `Calendar.DayMatched` | weatherapp/routes/weather_stats.py:42 | every spelling of a day (`05`, `5`, ` 5`, `31`) is read whole as that day |
| `Calendar.ParsedSpelling` | weatherapp/routes/weather_stats.py:42-43 | an accepted text is a spelling of the day it returns |
| `Calendar.ParseDateAccepts` | weatherapp/routes/weather_stats.py:42-43 | four digits, the separator, a month, the separator and a day that ends the text, naming a real day, are accepted as that day |
| `Calendar.SpellingParsed` | weatherapp/routes/weather_stats.py:42-43 | every spelling of a valid day is accepted and names that day |
| `Calendar.ParseDateSpellings` | weatherapp/routes/weather_stats.py:42-43 | `strptime` returns day `d` iff `d` is valid and the text is a spelling of `d`: four-digit year, month and day zero-padded or in one digit, the day also after a blank |
| `Calendar.ParseFormat` | weatherapp/routes/weather.py:39-40 | formatting a valid day and parsing the result with the same separator gives the same day |
| `Calendar.Format` | weatherapp/routes/weather.py:40 | `strftime("%Y-%m-%d")` gives ten characters: four digits, the separator, two digits, the separator, two digits |
| `Upstream.Field.OrNone` | weatherapp/routes/weather_stats.py:77-78 | `get(key)` is None exactly when the key is missing or null, else the value |
| `Upstream.IsErrorStatus` | weatherapp/routes/weather.py:22 | `raise_for_status` raises exactly for the client-error (4xx) and server-error (5xx) classes |
| `Upstream.Checked` | weatherapp/routes/weather.py:21-22 | a request passes exactly when there is a response whose status is outside 400–599; otherwise the request error or the HTTP error |
| `Upstream.FirstDay` | weatherapp/routes/weather.py:99 | `json()["days"][0]` succeeds exactly for an object whose `days` is a non-empty list, and gives its first element |
| `Upstream.ConditionsText` | weatherapp/routes/weather.py:56 | the conditions default to `""` when missing and fail only when null |
| `Weather.HasSunnyKeyword` | weatherapp/routes/weather.py:57 | some keyword occurs in the text; a text shorter than five characters has none |
| `Weather.IsSunnyConditions` | weatherapp/routes/weather.py:56-57 | the description is sunny iff its lower case contains "clear" or "sunny" |
| `Weather.SunnyIffClearOrSunny` | weatherapp/routes/weather.py:56-57 | a text has one of the five keywords iff it contains "clear" or "sunny" |
| `Weather.EmptyConditionsNotSunny` | weatherapp/routes/weather.py:56-57 | empty conditions are not sunny |
| `Weather.MainlyClearIsSunny` | weatherapp/routes/weather.py:56-57 | "Mainly Clear" is sunny, whatever its case |
| `Weather.UpperCaseClearIsSunny` | weatherapp/routes/weather.py:56-57 | "CLEAR" is sunny |
| `Weather.ClearIsSunny` | weatherapp/routes/weather_stats.py:74-75 | "Clear" is sunny |
| `Weather.MissingLettersNotSunny` | weatherapp/routes/weather.py:56-57 | conditions lacking a letter of "clear" and a letter of "sunny" are not sunny |
| `Weather.RainOvercastIsNotSunny` | weatherapp/routes/weather_stats.py:74-75 | "Rain, Overcast" is not sunny |
| `Weather.PartlyCloudyIsNotSunny` | weatherapp/routes/weather.py:56-57 | "Partly Cloudy" is not sunny |
| `Weather.FailureOf` | weatherapp/routes/weather.py:24-26 | the exception a failed attempt raises: the request error, or the HTTP error for its status |
| `Weather.FirstSuccess` | weatherapp/routes/weather.py:19-23 | the first attempt below `n` that gets past `raise_for_status`, every earlier one failing; None iff all `n` fail |
| `Weather.GetWithRetries` | weatherapp/routes/weather.py:18-27 | at most `retries` attempts. It returns the first successful response and stops there, or re-raises the last attempt's exception after `retries` failures. It pauses `delay` once between consecutive attempts and never after the last. With `retries <= 0` it sends nothing and returns None |
| `Weather.FirstSuccessExtends` | weatherapp/routes/weather.py:19-23 | more attempts do not move the first success |
| `Weather.ErrorStatusIsRetried` | weatherapp/routes/weather.py:22-24 | an error status on the first attempt is retried, and a good second answer is the one returned |
| `Weather.ApiDate` | weatherapp/routes/weather.py:38-42 | defined exactly for valid `yyyy.MM.dd` dates. It gives the day's zero-padded `yyyy-MM-dd` spelling, which parses back to the same day |
| `Weather.Reply` | weatherapp/routes/weather.py:58-70 | success echoes city and date with the field; failure echoes them with the field null and the exception |
| `Weather.SunnyFrom` | weatherapp/routes/weather.py:54-63 | on success the description is the lower-cased conditions of the first day, and the flag is true iff that description contains "clear" or "sunny". A missing, null or empty `days` fails, and so do null conditions or an unreadable body |
| `Weather.IsSunny` | weatherapp/routes/weather.py:30-70 | a bad date gives the format error with no request and no pause. Otherwise it makes one to three attempts two seconds apart and reports the first successful answer, or the last failure with `sunny` null |
| `Weather.PrecipitationValue` | weatherapp/routes/weather.py:100-104 | null iff the amount is missing, null or zero; any other amount passes through unchanged |
| `Weather.Precipitation` | weatherapp/routes/weather.py:73-112 | the format error iff the date is invalid. Otherwise city and date are echoed: the projected amount of the first day from the single request, or null with the request's or the body's failure |
| `Weather.TemperatureValue` | weatherapp/routes/weather.py:139 | null iff the temperature is missing or null, else the value |
| `Weather.Temperature` | weatherapp/routes/weather.py:115-151 | the format error iff the date is invalid. Otherwise city and date are echoed: the first day's temperature from the single request, or null with the failure |
| `Weather.EmptyDayListFails` | weatherapp/routes/weather.py:99 | an empty `days` list is a failure (`NoDays`) in all three endpoints |
| `WeatherStats.Loaded` | weatherapp/routes/weather_stats.py:17-24 | loading never fails: the stored snapshot, or the empty cache when the file is missing or unreadable |
| `WeatherStats.IsFresh` | weatherapp/routes/weather_stats.py:30-31 | an entry is fresh at any time up to its write, and stale from one hour after it |
| `WeatherStats.FreshForOneHour` | weatherapp/routes/weather_stats.py:30-31 | an entry is fresh iff it is at most 3599 s old; at exactly 3600 s it is stale |
| `WeatherStats.CacheKey` | weatherapp/routes/weather_stats.py:50 | the key is the city, an underscore, the start date, an underscore and the end date, as given |
| `WeatherStats.SplitAtLastUnderscore` | weatherapp/routes/weather_stats.py:50 | joining with `_` is undone at the last underscore when the tails have none |
| `WeatherStats.NoUnderscore` | weatherapp/routes/weather_stats.py:42-43 | a date that passes `strptime` has no underscore in it |
| `WeatherStats.CacheKeyInjective` | weatherapp/routes/weather_stats.py:50 | for validated dates, equal keys mean equal raw city, start and end strings |
| `WeatherStats.KeysAreCaseSensitive` | weatherapp/routes/weather_stats.py:50 | "Moscow" and "moscow" have different keys |
| `WeatherStats.CheckDates` | weatherapp/routes/weather_stats.py:41-47 | the format error iff either date fails to parse; the range error iff both parse and the end precedes the start; no other error |
| `WeatherStats.SameDayRangeAccepted` | weatherapp/routes/weather_stats.py:44 | a range whose start equals its end passes the date check |
| `WeatherStats.Serve` | weatherapp/routes/weather_stats.py:33-87 | the provider is asked only for a valid range, and the date errors arise iff the range check fails. A cached answer asks nothing and writes nothing. An uncached answer is given only when `raise_for_status` passed, the body is JSON with a non-null `days`, and its days turn into exactly those records. The file changes only after such a fetch, and then only the request's key is set to them |
| `WeatherStats.ToRecord` | weatherapp/routes/weather_stats.py:74-81 | date and temperature pass through (null if missing). Precipitation is 0.0 only when missing. The sunny flag is the classifier on the conditions (false when missing). A day with null conditions fails |
| `WeatherStats.Transform` | weatherapp/routes/weather_stats.py:72-81 | one record per upstream day, same length, same order; no records if any day fails |
| `WeatherStats.TransformDays` | weatherapp/routes/weather_stats.py:72-81 | the appending loop builds exactly `Transform(days)` |
| `WeatherStats.TwoDaysFlagged` | weatherapp/routes/weather_stats.py:72-81 | two days with conditions give two records, in order, each flagged by the classifier on its own conditions |
| `WeatherStats.BadDateFormatRefused` | weatherapp/routes/weather_stats.py:41-47 | an unparsable date gives the format error; file unchanged; no request |
| `WeatherStats.InvertedRangeRefused` | weatherapp/routes/weather_stats.py:44-45 | an end before the start gives the range error; file unchanged; no request |
| `WeatherStats.FreshEntryServed` | weatherapp/routes/weather_stats.py:53-54 | a fresh entry is returned as cached with its stored data; file unchanged; no request |
| `WeatherStats.MissFetches` | weatherapp/routes/weather_stats.py:53-65 | a missing or stale entry sends the request, and the answer is never marked cached |
| `WeatherStats.SuccessfulMissStores` | weatherapp/routes/weather_stats.py:84-87 | after a successful fetch the answer is the new records marked not cached. The file becomes the loaded cache with only the key set to `{ts: storedAt, data: records}` |
| `WeatherStats.MissingDaysCachedEmpty` | weatherapp/routes/weather_stats.py:67 | an answer without `days` is returned and cached as an empty list |
| `WeatherStats.FailedFetchKeepsFile` | weatherapp/routes/weather_stats.py:64-81 | on a miss, a request or HTTP error gives that error, a non-JSON body gives the decoding error, a null `days` and a day with null conditions raise; in each case the file, any stale entry under the key included, is left as it was |
| `WeatherStats.OnlyTheRequestKeyChanges` | weatherapp/routes/weather_stats.py:84-85 | the file changes only when fresh data was returned, and any error answer leaves it as it was. Every key other than the request's keeps its entry |
| `WeatherStats.RepeatWithinTtlIsCached` | weatherapp/tests/test_weather_stats.py:25-37 | a second identical request within the hour is answered as cached with the same data. It sends no request, so the pair makes one fetch |
| `WeatherStats.ClearThenOvercast` | weatherapp/routes/weather_stats.py:73-81 | days with "Clear" then "Rain, Overcast" give two records flagged sunny, then not sunny |
| `WeatherStats.StatisticsService.LoadCache` | weatherapp/routes/weather_stats.py:17-24 | returns the stored snapshot, or the empty cache for a missing or unreadable file |
| `WeatherStats.StatisticsService.SaveCache` | weatherapp/routes/weather_stats.py:26-28 | the file becomes exactly the given snapshot |
| `WeatherStats.StatisticsService.Statistics` | weatherapp/routes/weather_stats.py:33-87 | the handler's answer and the new file are those `Serve` gives. The request log grows by the raw (city, start, end) exactly when the provider was asked |

## Left out

- HTTP routing, query defaults, CORS, environment loading and the root route of `weatherapp/main.py` are framework wiring and are not modelled.
- Request URLs, query parameters, the API key, socket timeouts and the JSON decoding of a response are not modelled. An answer is given already decoded, or as `NotJson`.
- The text of error messages built from exceptions (`str(e)`) is not modelled. The `Failure` value that caused them is reported instead.
- Values of unexpected JSON types (a `days` element that is not an object, a number where text is expected) are not modelled.
- A stored cache file that is valid JSON but not shaped like a cache is not modelled. `Unreadable` covers only files that fail to load.
- A failure while writing the cache file (an `IOError` from `save_cache`) is not modelled. The write always succeeds.
- Concurrent requests and the last-writer-wins race on the cache file are not modelled. Each request runs alone.
- `Text.Lower` lower-cases ASCII letters only, not the full Unicode mapping of `str.lower`.
- `Calendar.ParseDate` reads ASCII digits only, while Python's `\d` also accepts other Unicode decimal digits.
- `Calendar.Format` always pads the year to four digits. Some C libraries print years below 1000 without padding.
- Temperatures and precipitation are opaque reals that are only passed through or compared with zero. Float arithmetic is not modelled.
- Clock readings are whole seconds, while `time.time()` returns fractions of a second.
- `time.sleep` is recorded as the list of pauses; no time passes in the model.
- `Weather.GetWithRetries` takes the pause as a `nat`: a negative `delay`, for which `time.sleep` raises `ValueError` out of the loop after the first failed attempt, is not modelled. `is_sunny` passes 2.
