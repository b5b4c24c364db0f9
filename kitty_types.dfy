/** The records kitty's remote-control protocol exchanges with the program:
    the `ls` listing (OS windows, tabs, windows), the launch reply and the
    generic success/failure record every command returns. */
module KittyTypes {
  import opened Wrappers

  datatype KittyWindow = KittyWindow(
    id: nat,
    title: string,
    pid: nat,
    cwd: string,
    cmdline: seq<string>,
    env: map<string, string>,
    isSelf: bool,
    state: Option<string>,
    num: Option<nat>,
    recent: Option<nat>)

  datatype KittyTab = KittyTab(
    id: nat,
    index: Option<nat>,
    title: string,
    windows: seq<KittyWindow>,
    state: Option<string>,
    recent: Option<nat>)

  datatype KittyOsWindow = KittyOsWindow(
    id: nat,
    tabs: seq<KittyTab>,
    title: Option<string>,
    state: Option<string>)

  type KittyLsResponse = seq<KittyOsWindow>

  datatype KittyLaunchResponse = KittyLaunchResponse(tabId: Option<nat>, windowId: Option<nat>)

  /** What every kitty command reports: a flag, an optional payload and an
      optional error message. */
  datatype KittyCommandResult<T> = KittyCommandResult(success: bool, data: Option<T>, errorMessage: Option<string>)

  const NoDataMessage := "Command succeeded but no data returned"
  const FailedMessage := "Command failed"

  /** `KittyCommandResult::success`: a successful record whose conversion
      yields the payload. */
  function SuccessResult<T>(data: T): (r: KittyCommandResult<T>)
    ensures IsSuccess(r) && r.errorMessage.None?
    ensures IntoResult(r) == Ok(data)
  {
    KittyCommandResult(true, Some(data), None)
  }

  /** `KittyCommandResult::success_empty`: successful, with nothing to convert. */
  function SuccessEmpty<T>(): (r: KittyCommandResult<T>)
    ensures IsSuccess(r) && r.data.None? && r.errorMessage.None?
    ensures IntoResult(r) == Err(NoDataMessage)
  {
    KittyCommandResult(true, None, None)
  }

  /** `KittyCommandResult::error`: a failed record whose conversion yields
      the message. */
  function ErrorResult<T>(message: string): (r: KittyCommandResult<T>)
    ensures !IsSuccess(r) && r.data.None?
    ensures IntoResult(r) == Err(message)
  {
    KittyCommandResult(false, None, Some(message))
  }

  predicate IsSuccess<T>(r: KittyCommandResult<T>) {
    r.success
  }

  /** `KittyCommandResult::into_result`. */
  function IntoResult<T>(r: KittyCommandResult<T>): Result<T> {
    if r.success then
      match r.data
      case Some(d) => Ok(d)
      case None => Err(NoDataMessage)
    else
      Err(r.errorMessage.GetOr(FailedMessage))
  }

  /** The conversion succeeds exactly for successful records that carry a
      payload, and then yields that payload. */
  lemma IntoResultOk<T>(r: KittyCommandResult<T>)
    ensures IntoResult(r).Ok? <==> (IsSuccess(r) && r.data.Some?)
    ensures IntoResult(r).Ok? ==> r.data == Some(IntoResult(r).value)
  {
  }

  /** A failed record converts to its own message, or to the fixed
      "Command failed" when it has none. */
  lemma IntoResultFailure<T>(r: KittyCommandResult<T>)
    requires !IsSuccess(r)
    ensures r.errorMessage.Some? ==> IntoResult(r) == Err(r.errorMessage.value)
    ensures r.errorMessage.None? ==> IntoResult(r) == Err(FailedMessage)
  {
  }
}
