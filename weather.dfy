/**
 * The single-day endpoints of the weather router: `is_sunny`, `precipitation` and
 * `temperature`, the keyword classifier they share with the statistics endpoint, and the
 * bounded retry loop that `is_sunny` puts around its request.
 */
module Weather {

  import opened Wrappers
  import opened Text
  import opened Calendar
  import opened Upstream

  /** The descriptions counted as sunny. */
  const SunnyKeywords: set<string> := {"clear", "sunny", "mostly clear", "partly sunny", "mainly clear"}

  /** Attempts and pause (in seconds) of `get_with_retries` as `is_sunny` calls it. */
  const Retries: int := 3
  const RetryDelay: int := 2

  /** The answer to a date the endpoints cannot read as `yyyy.MM.dd`. */
  const DateFormatError: string := "Неверный формат даты. Используйте ГГГГ.ММ.ДД."

  // ---------------------------------------------------------------- classifier

  /** `any(k in text for k in SUNNY_KEYWORDS)`: some keyword is a substring of `text`. */
  predicate HasSunnyKeyword(text: string)
    ensures HasSunnyKeyword(text) ==> |text| >= 5
  {
    exists k :: k in SunnyKeywords && Contains(text, k)
  }

  /** The sunny flag of a description: a keyword occurs in its lower case. */
  predicate IsSunnyConditions(conditions: string)
    ensures IsSunnyConditions(conditions) <==> Contains(Lower(conditions), "clear") || Contains(Lower(conditions), "sunny")
    ensures IsSunnyConditions(conditions) ==> |conditions| >= 5
  {
    SunnyIffClearOrSunny(Lower(conditions));
    HasSunnyKeyword(Lower(conditions))
  }

  /**
   * The five keywords collapse to two: "mostly clear" and "mainly clear" end in "clear",
   * "partly sunny" ends in "sunny".
   */
  lemma SunnyIffClearOrSunny(text: string)
    ensures HasSunnyKeyword(text) <==> Contains(text, "clear") || Contains(text, "sunny")
  {
    if HasSunnyKeyword(text) {
      var k :| k in SunnyKeywords && Contains(text, k);
      if k == "mostly clear" {
        assert "mostly " + "clear" == k;
        ContainsSuffix(text, "mostly ", "clear");
      } else if k == "mainly clear" {
        assert "mainly " + "clear" == k;
        ContainsSuffix(text, "mainly ", "clear");
      } else if k == "partly sunny" {
        assert "partly " + "sunny" == k;
        ContainsSuffix(text, "partly ", "sunny");
      }
    }
    if Contains(text, "clear") {
      assert "clear" in SunnyKeywords;
    }
    if Contains(text, "sunny") {
      assert "sunny" in SunnyKeywords;
    }
  }

  /** An empty or missing description is never sunny. */
  lemma EmptyConditionsNotSunny()
    ensures !IsSunnyConditions("")
  {
    SunnyIffClearOrSunny("");
  }

  /** Classification ignores case: "Mainly Clear" is sunny. */
  lemma MainlyClearIsSunny()
    ensures IsSunnyConditions("Mainly Clear")
  {
    assert Lower("Mainly Clear") == "mainly clear";
    OccurrenceContains("mainly clear", "clear", 7);
    SunnyIffClearOrSunny("mainly clear");
  }

  /** Classification ignores case: "CLEAR" is sunny. */
  lemma UpperCaseClearIsSunny()
    ensures IsSunnyConditions("CLEAR")
  {
    assert Lower("CLEAR") == "clear";
    OccurrenceContains("clear", "clear", 0);
    SunnyIffClearOrSunny("clear");
  }

  /**
   * A description is not sunny when its lower case lacks some letter of "clear" and some
   * letter of "sunny".
   */
  lemma MissingLettersNotSunny(conditions: string, i: int, j: int)
    requires 0 <= i < 5 && "clear"[i] !in Lower(conditions)
    requires 0 <= j < 5 && "sunny"[j] !in Lower(conditions)
    ensures !IsSunnyConditions(conditions)
  {
    SunnyIffClearOrSunny(Lower(conditions));
    MissingCharNotContained(Lower(conditions), "clear", i);
    MissingCharNotContained(Lower(conditions), "sunny", j);
  }

  /** "Clear" is sunny. */
  lemma ClearIsSunny()
    ensures IsSunnyConditions("Clear")
  {
    assert Lower("Clear") == "clear";
    OccurrenceContains("clear", "clear", 0);
    SunnyIffClearOrSunny("clear");
  }

  /** "Rain, Overcast" is not sunny: it has no "l" and no "u". */
  lemma RainOvercastIsNotSunny()
    ensures !IsSunnyConditions("Rain, Overcast")
  {
    assert Lower("Rain, Overcast") == "rain, overcast";
    MissingLettersNotSunny("Rain, Overcast", 1, 1);
  }

  /** "Partly Cloudy" is not sunny. */
  lemma PartlyCloudyIsNotSunny()
    ensures !IsSunnyConditions("Partly Cloudy")
  {
    assert Lower("Partly Cloudy") == "partly cloudy";
    MissingLettersNotSunny("Partly Cloudy", 2, 0);
  }

  // ---------------------------------------------------------------- retries

  /** Whether one attempt gets past `raise_for_status`. */
  predicate Succeeds(a: Attempt)
  {
    Checked(a).Ok?
  }

  /** The exception a failed attempt raises. */
  function FailureOf(a: Attempt): (f: Failure)
    requires !Succeeds(a)
    ensures a.NoAnswer? ==> f == RequestError(a.reason)
    ensures a.Answered? ==> f == HttpError(a.status)
  {
    Checked(a).error
  }

  /** The index of the first of the attempts `0 .. n-1` that succeeds, if one does. */
  function FirstSuccess(network: nat -> Attempt, n: nat): (k: Option<nat>)
    ensures k.Some? ==> k.value < n && Succeeds(network(k.value))
    ensures k.Some? ==> forall j :: 0 <= j < k.value ==> !Succeeds(network(j))
    ensures k.None? <==> forall j :: 0 <= j < n ==> !Succeeds(network(j))
  {
    if n == 0 then None
    else
      match FirstSuccess(network, n - 1)
      case Some(k) => Some(k)
      case None => if Succeeds(network(n - 1)) then Some(n - 1) else None
  }

  /** How `get_with_retries` ends: with a response, by re-raising, or by falling off its loop. */
  datatype RetryOutcome = Returned(response: Attempt) | Raised(cause: Failure) | ReturnedNothing

  /**
   * `get_with_retries(url, params, retries, delay)`. Attempt `i` gets the answer `network(i)`;
   * `slept` lists the arguments of the `time.sleep` calls in order.
   */
  method GetWithRetries(network: nat -> Attempt, retries: int, delay: nat)
    returns (outcome: RetryOutcome, attempts: nat, slept: seq<int>)
    ensures retries <= 0 ==> outcome == ReturnedNothing && attempts == 0 && slept == []
    ensures retries > 0 ==> 1 <= attempts <= retries && |slept| == attempts - 1
    ensures forall i :: 0 <= i < |slept| ==> slept[i] == delay
    ensures retries > 0 ==> match FirstSuccess(network, retries)
      case Some(k) => outcome == Returned(network(k)) && attempts == k + 1
      case None => outcome == Raised(FailureOf(network(retries - 1))) && attempts == retries
  {
    var attempt := 0;
    slept := [];
    while attempt < retries
      invariant 0 <= attempt && (retries > 0 ==> attempt < retries) && (retries <= 0 ==> attempt == 0)
      invariant |slept| == attempt && forall i :: 0 <= i < |slept| ==> slept[i] == delay
      invariant FirstSuccess(network, attempt).None?
    {
      var answer := network(attempt);
      match Checked(answer) {
        case Ok(_) =>
          assert FirstSuccess(network, attempt + 1) == Some(attempt);
          FirstSuccessExtends(network, attempt, retries);
          return Returned(answer), attempt + 1, slept;
        case Err(e) =>
          if attempt == retries - 1 {
            assert FirstSuccess(network, attempt + 1).None?;
            return Raised(e), attempt + 1, slept;
          }
          slept := slept + [delay];
      }
      attempt := attempt + 1;
    }
    return ReturnedNothing, 0, slept;
  }

  /** Looking at more attempts does not move the first success. */
  lemma FirstSuccessExtends(network: nat -> Attempt, k: nat, n: nat)
    requires k < n && FirstSuccess(network, k + 1) == Some(k)
    ensures FirstSuccess(network, n) == Some(k)
  {
  }

  /**
   * An error status is retried like a lost connection: `raise_for_status` raises inside the
   * `try`. A 5xx answer followed by a good one yields the second attempt.
   */
  lemma ErrorStatusIsRetried(network: nat -> Attempt)
    requires network(0).Answered? && IsErrorStatus(network(0).status)
    requires Succeeds(network(1))
    ensures FirstSuccess(network, Retries) == Some(1)
  {
    assert FirstSuccess(network, 1).None?;
    assert FirstSuccess(network, 2) == Some(1);
  }

  // ---------------------------------------------------------------- endpoints

  /** `strptime(date, "%Y.%m.%d").strftime("%Y-%m-%d")`: the date as the provider's URL takes it. */
  function ApiDate(date: string): (r: Option<string>)
    ensures r.Some? <==> ParseDate(date, '.').Some?
    ensures r.Some? ==> |r.value| == 10 && ParseDate(r.value, '-') == ParseDate(date, '.')
    ensures r.Some? ==> r.value == Format(ParseDate(date, '.').value, '-')
  {
    match ParseDate(date, '.')
    case None => None
    case Some(d) => ParseFormat(d, '-'); Some(Format(d, '-'))
  }

  /** What a single-day endpoint returns: the date error, the field, or the field as null plus an error. */
  datatype DayReply<+T> =
    | BadDate(message: string)
    | Answer(city: string, date: string, value: T)
    | Failed(city: string, date: string, cause: Failure)

  /** The reply once the date is valid: the field on success, else null and the exception. */
  function Reply<T>(city: string, date: string, r: Result<T, Failure>): (reply: DayReply<T>)
    ensures r.Ok? ==> reply == Answer(city, date, r.value)
    ensures r.Err? ==> reply == Failed(city, date, r.error)
  {
    match r
    case Ok(v) => Answer(city, date, v)
    case Err(f) => Failed(city, date, f)
  }

  /** The body of `is_sunny`'s answer: the flag and the lower-cased description. */
  datatype SunnyReport = SunnyReport(sunny: bool, description: string)

  /** What `is_sunny` reads from the successful response. */
  function SunnyFrom(p: Payload): (r: Result<SunnyReport, Failure>)
    ensures r.Ok? <==> FirstDay(p).Ok? && !FirstDay(p).value.conditions.Null?
    ensures r.Ok? ==> r.value.description == Lower(ConditionsText(FirstDay(p).value).value)
    ensures r.Ok? ==> (r.value.sunny <==> Contains(r.value.description, "clear") || Contains(r.value.description, "sunny"))
    ensures FirstDay(p).Err? ==> r == Err(FirstDay(p).error)
    ensures FirstDay(p).Ok? && FirstDay(p).value.conditions.Null? ==> r == Err(NullConditions)
  {
    match FirstDay(p)
    case Err(f) => Err(f)
    case Ok(day) =>
      match ConditionsText(day)
      case None => Err(NullConditions)
      case Some(text) =>
        var description := Lower(text);
        SunnyIffClearOrSunny(description);
        Ok(SunnyReport(HasSunnyKeyword(description), description))
  }

  /**
   * `GET /weather/is_sunny`: the date check, then up to three attempts two seconds apart.
   * Returns the reply, the number of requests sent and the pauses taken.
   */
  method IsSunny(city: string, date: string, network: nat -> Attempt)
    returns (reply: DayReply<SunnyReport>, attempts: nat, slept: seq<int>)
    ensures ApiDate(date).None? ==> reply == BadDate(DateFormatError) && attempts == 0 && slept == []
    ensures ApiDate(date).Some? ==> 1 <= attempts <= Retries && |slept| == attempts - 1
    ensures forall i :: 0 <= i < |slept| ==> slept[i] == RetryDelay
    ensures ApiDate(date).Some? ==> match FirstSuccess(network, Retries)
      case Some(k) => attempts == k + 1 && reply == Reply(city, date, SunnyFrom(network(k).payload))
      case None => attempts == Retries && reply == Failed(city, date, FailureOf(network(Retries - 1)))
  {
    var apiDate := ApiDate(date);
    if apiDate.None? {
      return BadDate(DateFormatError), 0, [];
    }
    var outcome;
    outcome, attempts, slept := GetWithRetries(network, Retries, RetryDelay);
    if outcome.Returned? {
      reply := Reply(city, date, SunnyFrom(outcome.response.payload));
    } else {
      reply := Failed(city, date, outcome.cause);
    }
  }

  /** `None if precipitation == 0 else precipitation` on `day.get("precip", 0.0)`. */
  function PrecipitationValue(precip: Field<real>): (r: Option<real>)
    ensures r.None? <==> precip.Absent? || precip.Null? || precip == Present(0.0)
    ensures r.Some? ==> precip == Present(r.value) && r.value != 0.0
  {
    match precip
    case Absent => None
    case Null => None
    case Present(v) => if v == 0.0 then None else Some(v)
  }

  /** `GET /weather/precipitation`: one request, no retries. */
  function Precipitation(city: string, date: string, answer: Attempt): (reply: DayReply<Option<real>>)
    ensures reply.BadDate? <==> ApiDate(date).None?
    ensures reply.BadDate? ==> reply.message == DateFormatError
    ensures !reply.BadDate? ==> reply.city == city && reply.date == date
    ensures reply.Answer? ==> Checked(answer).Ok? && FirstDay(answer.payload).Ok?
    ensures reply.Answer? ==> reply.value == PrecipitationValue(FirstDay(answer.payload).value.precip)
    ensures reply.Failed? && Checked(answer).Err? ==> reply.cause == Checked(answer).error
    ensures reply.Failed? && Checked(answer).Ok? ==>
      FirstDay(answer.payload).Err? && reply.cause == FirstDay(answer.payload).error
  {
    if ApiDate(date).None? then BadDate(DateFormatError)
    else
      match Checked(answer)
      case Err(f) => Failed(city, date, f)
      case Ok(payload) =>
        match FirstDay(payload)
        case Err(f) => Failed(city, date, f)
        case Ok(day) => Answer(city, date, PrecipitationValue(day.precip))
  }

  /** `day.get("temp", None)`: the temperature, None when missing or null. */
  function TemperatureValue(temp: Field<real>): (r: Option<real>)
    ensures r.None? <==> !temp.Present?
    ensures r.Some? ==> temp == Present(r.value)
  {
    temp.OrNone()
  }

  /** `GET /weather/temperature`: one request, no retries. */
  function Temperature(city: string, date: string, answer: Attempt): (reply: DayReply<Option<real>>)
    ensures reply.BadDate? <==> ApiDate(date).None?
    ensures reply.BadDate? ==> reply.message == DateFormatError
    ensures !reply.BadDate? ==> reply.city == city && reply.date == date
    ensures reply.Answer? ==> Checked(answer).Ok? && FirstDay(answer.payload).Ok?
    ensures reply.Answer? ==> reply.value == TemperatureValue(FirstDay(answer.payload).value.temp)
    ensures reply.Failed? && Checked(answer).Err? ==> reply.cause == Checked(answer).error
    ensures reply.Failed? && Checked(answer).Ok? ==>
      FirstDay(answer.payload).Err? && reply.cause == FirstDay(answer.payload).error
  {
    if ApiDate(date).None? then BadDate(DateFormatError)
    else
      match Checked(answer)
      case Err(f) => Failed(city, date, f)
      case Ok(payload) =>
        match FirstDay(payload)
        case Err(f) => Failed(city, date, f)
        case Ok(day) => Answer(city, date, TemperatureValue(day.temp))
  }

  /** An empty `days` list is a failure (IndexError) in all three endpoints, not an answer. */
  lemma EmptyDayListFails(city: string, date: string, status: int)
    requires ApiDate(date).Some? && !IsErrorStatus(status)
    ensures Precipitation(city, date, Answered(status, Json(Present([])))) == Failed(city, date, NoDays)
    ensures Temperature(city, date, Answered(status, Json(Present([])))) == Failed(city, date, NoDays)
    ensures SunnyFrom(Json(Present([]))) == Err(NoDays)
  {
  }

}
