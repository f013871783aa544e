/**
 * What the timeline provider answers, reduced to what the endpoints read from it. The URL,
 * the query parameters and the decoding of the body are not modelled: an answer is either no
 * response at all or a status code with an already decoded body.
 */
module Upstream {

  import opened Wrappers

  /** A key of a JSON object: missing, present with `null`, or present with a value. */
  datatype Field<+T> = Absent | Null | Present(value: T)
  {
    /** `obj.get(key)`: None both when the key is missing and when it holds `null`. */
    function OrNone(): (r: Option<T>)
      ensures r.Some? <==> Present?
      ensures r.Some? ==> r.value == value
    {
      if Present? then Some(value) else None
    }
  }

  /** One element of the `days` array; temperatures and amounts are opaque reals. */
  datatype Day = Day(datetime: Field<string>, temp: Field<real>, precip: Field<real>, conditions: Field<string>)

  /** The body of a response: a JSON object with an optional `days` key, or anything else. */
  datatype Payload = Json(days: Field<seq<Day>>) | NotJson

  /** The outcome of one `requests.get`: a response with a status, or an exception before one. */
  datatype Attempt = Answered(status: int, payload: Payload) | NoAnswer(reason: string)

  /** Why an endpoint gave up; every one of these is an exception in the source. */
  datatype Failure =
    | RequestError(reason: string)  // connection error, timeout, ... raised by requests.get
    | HttpError(status: int)        // raised by raise_for_status
    | BadJson                       // resp.json() could not decode an object
    | MissingDays                   // KeyError: 'days'
    | DaysNotAList                  // the value of `days` is null: TypeError
    | NoDays                        // IndexError: days[0] of an empty list
    | NullConditions                // None.lower(): AttributeError

  /** `raise_for_status` raises for the client and server error classes, 400 to 599. */
  predicate IsErrorStatus(status: int)
    ensures IsErrorStatus(status) <==> status / 100 == 4 || status / 100 == 5
  {
    400 <= status < 600
  }

  /** `requests.get(...)` followed by `resp.raise_for_status()`. */
  function Checked(a: Attempt): (r: Result<Payload, Failure>)
    ensures r.Ok? <==> a.Answered? && !IsErrorStatus(a.status)
    ensures r.Ok? ==> r.value == a.payload
    ensures a.NoAnswer? ==> r == Err(RequestError(a.reason))
    ensures a.Answered? && IsErrorStatus(a.status) ==> r == Err(HttpError(a.status))
  {
    match a
    case NoAnswer(reason) => Err(RequestError(reason))
    case Answered(status, payload) => if IsErrorStatus(status) then Err(HttpError(status)) else Ok(payload)
  }

  /** `resp.json()["days"][0]`, as the single-day endpoints read it. */
  function FirstDay(p: Payload): (r: Result<Day, Failure>)
    ensures r.Ok? <==> p.Json? && p.days.Present? && p.days.value != []
    ensures r.Ok? ==> r.value == p.days.value[0]
  {
    match p
    case NotJson => Err(BadJson)
    case Json(Absent) => Err(MissingDays)
    case Json(Null) => Err(DaysNotAList)
    case Json(Present(days)) => if days == [] then Err(NoDays) else Ok(days[0])
  }

  /** `d.get("conditions", "")`: the text, empty when the key is missing, None when it is null. */
  function ConditionsText(d: Day): (r: Option<string>)
    ensures r.None? <==> d.conditions.Null?
    ensures d.conditions.Absent? ==> r == Some("")
    ensures d.conditions.Present? ==> r == Some(d.conditions.value)
  {
    match d.conditions
    case Absent => Some("")
    case Null => None
    case Present(text) => Some(text)
  }

}
