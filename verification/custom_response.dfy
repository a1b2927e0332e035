/**
 * The response envelope every handler returns: a message, a success flag
 * and an optional payload. The three functions are the class's initialiser
 * and its two static factories, with the same default arguments.
 */
module CustomResponse {
  import opened Wrappers

  datatype Envelope<T> = Envelope(message: string, isSuccess: bool, data: Option<T>)

  /** The initialiser: stores its three arguments as they are. */
  function New<T>(msg: string := "", isSuccess: bool := true, data: Option<T> := None): (e: Envelope<T>)
    ensures e.message == msg && e.isSuccess == isSuccess && e.data == data
  {
    Envelope(msg, isSuccess, data)
  }

  /**
   * The `success` factory. Its flag is passed straight through, so a caller
   * can build a "success" envelope that reports failure.
   */
  function Success<T>(msg: string := "Success", success: bool := true, data: Option<T> := None): (e: Envelope<T>)
    ensures e.message == msg && e.isSuccess == success && e.data == data
  {
    New(msg, success, data)
  }

  /** The `error` factory: never successful and never carrying data. */
  function Error<T>(msg: string := "Error"): (e: Envelope<T>)
    ensures e.message == msg && !e.isSuccess && e.data == None
  {
    New(msg, false, None)
  }

  /** What each constructor gives when called with no arguments. */
  lemma Defaults<T>()
    ensures New<T>() == Envelope("", true, None)
    ensures Success<T>() == Envelope("Success", true, None)
    ensures Error<T>() == Envelope("Error", false, None)
  {
  }

  /** `success` and `error` agree exactly when `success` is told to report failure without data. */
  lemma SuccessVersusError<T>(msg: string, flag: bool, data: Option<T>)
    ensures Success(msg, flag, data) == Error(msg) <==> !flag && data == None
  {
  }
}
