/** Parse statuses and their printable names (include/frontend/ParseInfo.hpp). */
module ParseInfo {

  datatype ParseStatus = ErrNone | ErrUnknownToken | ErrMisplacedToken | ErrGeneral

  /** toErrorName: an if-chain over the three error statuses, falling back to "OK". */
  function ToErrorName(status: ParseStatus): (name: string)
    ensures |name| > 0
  {
    if status == ErrUnknownToken then "Unknown token error"
    else if status == ErrMisplacedToken then "Misplaced token error"
    else if status == ErrGeneral then "General error"
    else "OK"
  }

  /** Only the no-error status prints as OK. */
  lemma OkOnlyForNone(status: ParseStatus)
    ensures ToErrorName(status) == "OK" <==> status == ErrNone
  {
    if status != ErrNone {
      assert |ToErrorName(status)| > 2;
    }
  }

  /** Distinct statuses print distinct names. */
  lemma ToErrorNameInjective(a: ParseStatus, b: ParseStatus)
    ensures ToErrorName(a) == ToErrorName(b) ==> a == b
  {
  }
}
