/** Classification of the engine's integer return code (ReturnCode). */
module ReturnCodes {
  import opened Wrappers

  const Success := 0
  const Cancel := 255

  datatype ReturnCode = ReturnCode(value: int)
  {
    predicate IsValueSuccess() { value == Success }

    predicate IsValueCancel() { value == Cancel }

    predicate IsValueError() { value != Success && value != Cancel }
  }

  /** `ReturnCode::isSuccess`: false for a missing code. */
  function IsSuccess(rc: Option<ReturnCode>): (b: bool)
    ensures b <==> rc.Some? && rc.value.value == 0
  {
    rc.Some? && rc.value.IsValueSuccess()
  }

  /** `ReturnCode::isCancel`: false for a missing code. */
  function IsCancel(rc: Option<ReturnCode>): (b: bool)
    ensures b <==> rc.Some? && rc.value.value == 255
  {
    rc.Some? && rc.value.IsValueCancel()
  }

  /** Exactly one of success, error and cancel holds for every value. */
  lemma ExactlyOneClass(rc: ReturnCode)
    ensures rc.IsValueSuccess() <==> rc.value == 0
    ensures rc.IsValueCancel() <==> rc.value == 255
    ensures rc.IsValueError() <==> rc.value != 0 && rc.value != 255
    ensures || (rc.IsValueSuccess() && !rc.IsValueError() && !rc.IsValueCancel())
            || (!rc.IsValueSuccess() && rc.IsValueError() && !rc.IsValueCancel())
            || (!rc.IsValueSuccess() && !rc.IsValueError() && rc.IsValueCancel())
  {
  }
}
