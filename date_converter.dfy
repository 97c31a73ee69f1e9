/**
 * The Room type converter registered on the app database: a nullable
 * `Long` timestamp column to and from a nullable `Date`.
 */
module DateConverter {
  import opened Wrappers
  import opened Models

  /** `value?.let { Date(it) }` */
  function FromTimestamp(value: Option<int>): (d: Option<Date>)
    ensures d.None? <==> value.None?
    ensures d.Some? ==> d.value.time == value.value
  {
    match value
    case None => None
    case Some(v) => Some(Date(v))
  }

  /** `date?.time` */
  function DateToTimestamp(date: Option<Date>): (t: Option<int>)
    ensures t.None? <==> date.None?
    ensures t.Some? ==> t.value == date.value.time
  {
    match date
    case None => None
    case Some(d) => Some(d.time)
  }

  /** A stored column value reads back unchanged, null included. */
  lemma TimestampRoundTrip(value: Option<int>)
    ensures DateToTimestamp(FromTimestamp(value)) == value
  {
  }

  /** A date written and read back is the same instant, null included. */
  lemma DateRoundTrip(date: Option<Date>)
    ensures FromTimestamp(DateToTimestamp(date)) == date
  {
  }
}
