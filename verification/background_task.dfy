/**
 The periodic background price check and its registration with the host
 scheduler. The HTTP fetch, the scheduler and the status query are inputs:
 each is described by the outcome it produced.
 */
module BackgroundTask {
  import opened Options
  import opened NotificationStore
  import opened NotificationService

  /** What the task reports back to the scheduler. */
  datatype BackgroundFetchResult = NoData | NewData | Failed

  /** How the fetch of today's prices went. */
  datatype Response =
    | FetchThrew                      // `fetch` rejected (network failure)
    | NotOk                           // a response whose `ok` is false
    | JsonThrew                       // the body is not valid JSON
    | Body(data: Option<seq<Sample>>) // the parsed body; `None` for a falsy value such as `null`

  /** One run of the task: its result, whether it fetched, and the notifications it scheduled. */
  datatype TaskRun = TaskRun(result: BackgroundFetchResult, fetched: bool, alerts: seq<Intent>)

  /** The fetch outcomes the task treats as failures. */
  predicate IsFailure(response: Response)
  {
    !response.Body?
  }

  /** The body the task goes on to evaluate: present and non-empty. */
  predicate HasPrices(response: Response)
  {
    response.Body? && response.data.Some? && |response.data.value| > 0
  }

  /** The body of the task registered under "background-price-check". */
  function RunTask(store: State, response: Response, now: int): (run: TaskRun)
    ensures !store.isNotificationsEnabled ==> run == TaskRun(NoData, false, [])
    ensures store.isNotificationsEnabled ==> run.fetched
    ensures store.isNotificationsEnabled && IsFailure(response) ==> run.result == Failed && run.alerts == []
    ensures store.isNotificationsEnabled && response.Body? && !HasPrices(response) ==>
      run.result == NoData && run.alerts == []
    ensures store.isNotificationsEnabled && HasPrices(response) ==>
      run.result == NewData && run.alerts == AlertsFor(store, response.data.value, now)
  {
    if !store.isNotificationsEnabled then TaskRun(NoData, false, [])
    else match response
      case FetchThrew => TaskRun(Failed, true, [])
      case NotOk => TaskRun(Failed, true, [])
      case JsonThrew => TaskRun(Failed, true, [])
      case Body(data) =>
        if data.None? || |data.value| == 0 then TaskRun(NoData, true, [])
        else TaskRun(NewData, true, AlertsFor(store, data.value, now))
  }

  /** Each result has exactly one cause, and notifications only ever come with `NewData`. */
  lemma ResultClassification(store: State, response: Response, now: int)
    ensures var run := RunTask(store, response, now);
      && (run.result == NewData <==> store.isNotificationsEnabled && HasPrices(response))
      && (run.result == Failed <==> store.isNotificationsEnabled && IsFailure(response))
      && (run.result == NoData <==> !store.isNotificationsEnabled || (response.Body? && !HasPrices(response)))
      && (|run.alerts| > 0 ==> run.result == NewData)
  {
  }

  /** `NewData` is reported even when no sample is dated at or before `now`; nothing is sent then. */
  lemma NewDataWithoutCurrentPrice(store: State, data: seq<Sample>, now: int)
    requires store.isNotificationsEnabled
    requires |data| > 0 && data[0].date > now
    ensures RunTask(store, Body(Some(data)), now) == TaskRun(NewData, true, [])
  {
  }

  // ---------------------------------------------------------------------------
  // registerBackgroundTask / unregisterBackgroundTask

  /** A call into the task manager: either it answered or it threw. */
  datatype Call = Succeeded | Threw

  /** The returned flag, whether the task is registered afterwards, and whether a registration was attempted. */
  datatype RegisterRun = RegisterRun(returned: bool, registered: bool, attempted: bool)

  /**
   Registration given the current state `registered`, the outcome of the
   "is it registered?" query and the outcome of the registration call.
   */
  function RegisterBackgroundTask(registered: bool, query: Call, register: Call): (r: RegisterRun)
    ensures query.Threw? ==> r == RegisterRun(false, registered, false)
    ensures query.Succeeded? && registered ==> r == RegisterRun(true, true, false)
    ensures query.Succeeded? && !registered ==>
      r.attempted && r.returned == (register.Succeeded?) && r.registered == (register.Succeeded?)
  {
    if query.Threw? then RegisterRun(false, registered, false)
    else if registered then RegisterRun(true, true, false)
    else if register.Threw? then RegisterRun(false, false, true)
    else RegisterRun(true, true, true)
  }

  /** The flag returned is exactly "the task is registered afterwards, and the query answered". */
  lemma RegisterReturnsRegistered(registered: bool, query: Call, register: Call)
    ensures var r := RegisterBackgroundTask(registered, query, register);
      r.returned <==> query.Succeeded? && r.registered
  {
  }

  /** Registering again after a successful registration returns true without a second registration. */
  lemma RegisterIdempotent(registered: bool, query1: Call, register1: Call, query2: Call, register2: Call)
    requires RegisterBackgroundTask(registered, query1, register1).returned
    requires query2.Succeeded?
    ensures var first := RegisterBackgroundTask(registered, query1, register1);
      RegisterBackgroundTask(first.registered, query2, register2) == RegisterRun(true, true, false)
  {
  }

  /** Whether the task is registered after `unregisterBackgroundTask`; its errors are swallowed. */
  function UnregisterBackgroundTask(registered: bool, query: Call, unregister: Call): (after: bool)
    ensures after ==> registered
    ensures !after <==> !registered || (query.Succeeded? && unregister.Succeeded?)
  {
    if query.Threw? then registered
    else if registered && unregister.Succeeded? then false
    else registered
  }

  // ---------------------------------------------------------------------------
  // getBackgroundFetchStatus

  /** The platform's background-fetch availability; any value it adds later is `Unrecognised`. */
  datatype BackgroundFetchStatus = Denied | Restricted | Available | Unrecognised(code: int)

  /** The status query either answered or threw. */
  datatype StatusQuery = Answered(status: BackgroundFetchStatus) | QueryThrew

  function GetBackgroundFetchStatus(q: StatusQuery): (s: string)
    ensures q == Answered(Available) ==> s == "Available"
    ensures q == Answered(Denied) ==> s == "Denied"
    ensures q == Answered(Restricted) ==> s == "Restricted"
    ensures q.Answered? && q.status.Unrecognised? ==> s == "Unknown"
    ensures q == QueryThrew ==> s == "Error"
  {
    match q
    case QueryThrew => "Error"
    case Answered(Available) => "Available"
    case Answered(Denied) => "Denied"
    case Answered(Restricted) => "Restricted"
    case Answered(Unrecognised(_)) => "Unknown"
  }

  /** The text tells the answers apart: equal texts come from the same named status or the same failure class. */
  lemma StatusTextDistinguishes(q1: StatusQuery, q2: StatusQuery)
    requires GetBackgroundFetchStatus(q1) == GetBackgroundFetchStatus(q2)
    ensures q1.QueryThrew? <==> q2.QueryThrew?
    ensures q1.Answered? && !q1.status.Unrecognised? ==> q1 == q2
  {
  }
}
