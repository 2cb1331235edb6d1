/** The Room type converters: `Date` to and from epoch milliseconds, `ValueStatus` to and from its name. */
module Converters {
  import opened Wrappers
  import opened Entities

  /** `fromTimestamp`: null stays null, otherwise the date at that many milliseconds. */
  function FromTimestamp(value: Option<Long>): (date: Option<Date>)
    ensures date.Some? <==> value.Some?
    ensures date.Some? ==> date.value.time == value.value
  {
    match value
    case None => None
    case Some(t) => Some(Date(t))
  }

  /** `dateToTimestamp`: null stays null, otherwise the date's milliseconds. */
  function DateToTimestamp(date: Option<Date>): (value: Option<Long>)
    ensures value.Some? <==> date.Some?
    ensures value.Some? ==> value.value == date.value.time
  {
    match date
    case None => None
    case Some(d) => Some(d.time)
  }

  /** Storing a date and reading it back gives the same date; null included. */
  lemma DateRoundTrip(date: Option<Date>)
    ensures FromTimestamp(DateToTimestamp(date)) == date
  {
  }

  /** Reading a timestamp and storing it again gives the same timestamp; null included. */
  lemma TimestampRoundTrip(value: Option<Long>)
    ensures DateToTimestamp(FromTimestamp(value)) == value
  {
  }

  /** `fromValueStatus`: the enum constant's name. */
  function FromValueStatus(status: ValueStatus): (name: string)
    ensures |name| >= 3
  {
    match status
    case Normal => "NORMAL"
    case High => "HIGH"
    case Low => "LOW"
    case CriticalHigh => "CRITICAL_HIGH"
    case CriticalLow => "CRITICAL_LOW"
  }

  /** The message of the `IllegalArgumentException` that `ValueStatus.valueOf` throws. */
  function NoEnumConstant(name: string): string
  {
    "No enum constant com.bloodworktracker.data.database.entities.ValueStatus." + name
  }

  /** `toValueStatus`: `ValueStatus.valueOf`, which throws for a string that names no constant. */
  function ToValueStatus(name: string): (r: Result<ValueStatus, string>)
    ensures r.Success? <==> name in {"NORMAL", "HIGH", "LOW", "CRITICAL_HIGH", "CRITICAL_LOW"}
    ensures r.Failure? ==> r.error == NoEnumConstant(name)
  {
    if name == "NORMAL" then Success(Normal)
    else if name == "HIGH" then Success(High)
    else if name == "LOW" then Success(Low)
    else if name == "CRITICAL_HIGH" then Success(CriticalHigh)
    else if name == "CRITICAL_LOW" then Success(CriticalLow)
    else Failure(NoEnumConstant(name))
  }

  /** Every status survives being stored as its name. */
  lemma StatusRoundTrip(status: ValueStatus)
    ensures ToValueStatus(FromValueStatus(status)) == Success(status)
  {
  }

  /** Every name that reads back as a status is that status's name. */
  lemma NameRoundTrip(name: string)
    requires ToValueStatus(name).Success?
    ensures FromValueStatus(ToValueStatus(name).value) == name
  {
  }

  /** Different statuses are stored under different names. */
  lemma FromValueStatusInjective(a: ValueStatus, b: ValueStatus)
    requires FromValueStatus(a) == FromValueStatus(b)
    ensures a == b
  {
  }
}
