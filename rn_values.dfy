/** How the React Native binding reads the optional numbers native events
    carry: an absent value (`undefined` or `null`, both `None` here) becomes a
    default. */
module NativeEventValues {
  import opened Wrappers

  /** `validDate`: no date for an absent time or one at or before the epoch,
      otherwise the date of that time (kept as milliseconds since the epoch). */
  function ValidDate(time: Option<int>): (date: Option<int>)
    ensures date.Some? <==> time.Some? && time.value > 0
    ensures date.Some? ==> date.value == time.value
  {
    match time
    case None => None
    case Some(t) => if t <= 0 then None else Some(t)
  }

  /** `optionalNumericParameter`: -1 when the value is absent. The default is
      not out of band (an absent value reads the same as -1), and a zero value
      is kept, since `??` only replaces an absent value. */
  function OptionalNumericParameter(value: Option<int>): (n: int)
    ensures value.Some? ==> n == value.value
    ensures value.None? ==> n == -1
  {
    match value
    case None => -1
    case Some(v) => v
  }
}
