/** The request-state machine (viewmodels/DNDApi.kt, `AsyncStateHandler`): an
    observable record of flags that an `executeRequest` call resets and the
    launched coroutine then fills in with the request's result or error.

    The coroutine suspends inside the remote `request` and, for a client
    error, again inside `e.response.body()`. It is modelled as two events:
    `ExecuteRequest` launches a job, and `ResumeJob` hands that job the
    request's outcome, together with what reading the error body gives, and
    runs the rest of the coroutine to its end. A job that was cancelled before
    it resumes sees a `CancellationException` instead of its outcome. */
module AsyncState {
  import opened Wrappers

  /** A decoded JSON object (member name to raw member text); the handler
      stores it without looking inside. */
  type JsonObject = map<string, string>

  /** What reading a failed response's body (`e.response.body()`, decoded as
      `JsonObject?`) gives: an object, `None` for a JSON `null` body, or a
      failure to read or decode it. */
  datatype BodyRead = Parsed(json: Option<JsonObject>) | Unreadable(cause: string)

  /** What a request or a callback can throw. */
  datatype Throwable =
    | ClientRequestException(body: BodyRead)  // a 4xx response
    | CancellationException                   // the job was cancelled while suspended
    | OtherException(message: string)         // any other `Exception`
    | FatalError(message: string)             // a `Throwable` that is not an `Exception`
  {
    /** Whether `catch (e: Exception)` catches it. */
    predicate IsException()
    {
      !FatalError?
    }
  }

  /** How the remote request ends when it is not cancelled. */
  datatype RequestOutcome<T> = Returned(value: T) | Threw(thrown: Throwable)

  /** How the `onComplete` callback ends. */
  datatype CallbackOutcome = Finished | CallbackThrew(thrown: Throwable)

  /** A coroutine job: it can be cancelled until it completes. */
  class Job {
    var isCancelled: bool
    var isCompleted: bool

    constructor()
      ensures !isCancelled && !isCompleted
    {
      isCancelled, isCompleted := false, false;
    }

    /** `Job.cancel()`: no effect on a job that has already completed. */
    method Cancel()
      modifies this
      ensures isCancelled == (old(isCancelled) || !old(isCompleted))
      ensures isCompleted == old(isCompleted)
    {
      if !isCompleted {
        isCancelled := true;
      }
    }
  }

  /** `AsyncUiState`. The flags are separate fields, so nothing in the record
      itself makes them mutually exclusive. */
  datatype AsyncUiState<T> = AsyncUiState(
    data: Option<T>,
    isSuccessful: bool,
    isLoading: bool,
    isFailed: bool,
    error: Option<Throwable>,
    errorBody: Option<JsonObject>,
    job: Option<Job>)

  /** `AsyncUiState()` with every default. */
  function Initial<T>(): (s: AsyncUiState<T>)
    ensures s.data == None && s.error == None && s.errorBody == None && s.job == None
    ensures !s.isSuccessful && !s.isLoading && !s.isFailed
  {
    AsyncUiState(None, false, false, false, None, None, None)
  }

  // ---------------------------------------------------------------------------
  // The individual `_uiState.update` steps
  // ---------------------------------------------------------------------------

  /** `resetUiState(isLoading)`: every field is overwritten. */
  function Reset<T>(s: AsyncUiState<T>, isLoading: bool): AsyncUiState<T>
  {
    s.(data := None, isSuccessful := false, isLoading := isLoading, isFailed := false,
       error := None, errorBody := None, job := None)
  }

  /** The success update: `copy(isSuccessful = true, data = result)`. */
  function SuccessUpdate<T>(s: AsyncUiState<T>, result: T): AsyncUiState<T>
  {
    s.(isSuccessful := true, data := Some(result))
  }

  /** The failure update: `copy(isFailed = true, error = e, errorBody = body)`. */
  function FailureUpdate<T>(s: AsyncUiState<T>, e: Throwable, body: Option<JsonObject>): AsyncUiState<T>
  {
    s.(isFailed := true, error := Some(e), errorBody := body)
  }

  /** The last update: `copy(isLoading = false)`. */
  function LoadingCleared<T>(s: AsyncUiState<T>): AsyncUiState<T>
  {
    s.(isLoading := false)
  }

  /** The state right after `executeRequest` reset it, before any result. */
  predicate JustStarted<T>(s: AsyncUiState<T>)
  {
    && s.isLoading && !s.isSuccessful && !s.isFailed
    && s.data == None && s.error == None && s.errorBody == None
  }

  // ---------------------------------------------------------------------------
  // What resuming a job does to the state
  // ---------------------------------------------------------------------------

  /** The end of a resumed coroutine: the new state, whether `onComplete` was
      invoked, and the throwable that escaped the coroutine, if any. */
  datatype Completion<T> = Completion(state: AsyncUiState<T>, ranOnComplete: bool, escaped: Option<Throwable>)

  /** The `catch` block followed by the final update, for a throwable `t`
      raised inside the `try`. A throwable that is not an `Exception`, or an
      unreadable client-error body, escapes and skips every later update. */
  function Caught<T>(s: AsyncUiState<T>, t: Throwable, ranOnComplete: bool): Completion<T>
  {
    if !t.IsException() then Completion(s, ranOnComplete, Some(t))
    else match t
      case ClientRequestException(Unreadable(cause)) =>
        Completion(s, ranOnComplete, Some(OtherException(cause)))
      case ClientRequestException(Parsed(json)) =>
        Completion(LoadingCleared(FailureUpdate(s, t, json)), ranOnComplete, None)
      case _ =>
        Completion(LoadingCleared(FailureUpdate(s, t, None)), ranOnComplete, None)
  }

  /** The rest of the coroutine, from the request's resumption to its end.
      A cancelled job's request throws `CancellationException` whatever it
      would have produced. */
  function Resumed<T>(s: AsyncUiState<T>, cancelled: bool, outcome: RequestOutcome<T>,
                      callback: CallbackOutcome): Completion<T>
  {
    var effective := if cancelled then Threw(CancellationException) else outcome;
    match effective
    case Returned(v) =>
      (match callback
       case Finished => Completion(LoadingCleared(SuccessUpdate(s, v)), true, None)
       case CallbackThrew(t) => Caught(SuccessUpdate(s, v), t, true))
    case Threw(t) => Caught(s, t, false)
  }

  // ---------------------------------------------------------------------------
  // The handler
  // ---------------------------------------------------------------------------

  class AsyncStateHandler<T> {
    /** The value of the `_uiState` state flow. */
    var state: AsyncUiState<T>
    /** Every job this handler has launched. */
    ghost var launched: set<Job>

    /** Only the job recorded in the current state can still be running:
        every other launched job has been cancelled or has completed. */
    ghost predicate Valid()
      reads this, launched
    {
      && (state.job.Some? ==> state.job.value in launched)
      && forall j :: j in launched && state.job != Some(j) ==> j.isCancelled || j.isCompleted
    }

    /** The job `executeRequest` will cancel. */
    function CurrentJob(): set<Job>
      reads this
    {
      if state.job.Some? then {state.job.value} else {}
    }

    constructor()
      ensures Valid() && state == Initial() && launched == {}
    {
      state := Initial();
      launched := {};
    }

    /** `resetUiState`. */
    method ResetUiState(isLoading: bool)
      modifies this
      ensures state == Reset(old(state), isLoading) && launched == old(launched)
    {
      state := Reset(state, isLoading);
    }

    /** `executeRequest`: cancel the job in the current state, reset the state
        to loading, launch a new job and record it in the state. */
    method ExecuteRequest() returns (job: Job)
      requires Valid()
      modifies this, CurrentJob()
      ensures Valid()
      ensures fresh(job) && !job.isCancelled && !job.isCompleted
      ensures state == Reset(old(state), true).(job := Some(job))
      ensures launched == old(launched) + {job}
      ensures old(state.job).Some? ==>
        var prev := old(state.job).value;
        && prev.isCancelled == old(prev.isCancelled || !prev.isCompleted)
        && prev.isCompleted == old(prev.isCompleted)
    {
      if state.job.Some? {
        state.job.value.Cancel();
      }
      ResetUiState(true);
      job := new Job();
      launched := launched + {job};
      state := state.(job := Some(job));
    }

    /** The launched coroutine resumes with the request's `outcome` and runs to
        its end; `callback` is how `onComplete` ends if it is invoked. */
    method ResumeJob(job: Job, outcome: RequestOutcome<T>, callback: CallbackOutcome)
      returns (ranOnComplete: bool, escaped: Option<Throwable>)
      requires Valid() && job in launched && !job.isCompleted
      modifies this, job
      ensures Valid() && launched == old(launched)
      ensures job.isCompleted && job.isCancelled == old(job.isCancelled)
      ensures Completion(state, ranOnComplete, escaped) == Resumed(old(state), old(job.isCancelled), outcome, callback)
      ensures old(state.job) != Some(job) ==> state.data == old(state.data) && !ranOnComplete
    {
      ranOnComplete, escaped := false, None;
      var thrown: Option<Throwable> := None;
      var effective := if job.isCancelled then Threw(CancellationException) else outcome;
      match effective {
        case Returned(v) =>
          state := SuccessUpdate(state, v);
          ranOnComplete := true;
          if callback.CallbackThrew? {
            thrown := Some(callback.thrown);
          }
        case Threw(t) =>
          thrown := Some(t);
      }
      if thrown.Some? {
        var e := thrown.value;
        if !e.IsException() {
          escaped := Some(e);
        } else {
          var errorBody: Option<JsonObject> := None;
          if e.ClientRequestException? {
            match e.body {
              case Parsed(json) => errorBody := json;
              case Unreadable(cause) => escaped := Some(OtherException(cause));
            }
          }
          if escaped == None {
            state := FailureUpdate(state, e, errorBody);
          }
        }
      }
      if escaped == None {
        state := LoadingCleared(state);
      }
      job.isCompleted := true;
      ResumedKeepsJob(old(state), old(job.isCancelled), outcome, callback);
      if old(state.job) != Some(job) {
        CancelledNeverWritesData(old(state), outcome, callback);
      }
    }
  }

  // ---------------------------------------------------------------------------
  // Properties
  // ---------------------------------------------------------------------------

  /** A reset clears data, error, error body and job, clears both outcome
      flags and sets loading as asked, whatever the state was before. */
  lemma ResetForgetsPriorState<T>(s: AsyncUiState<T>, other: AsyncUiState<T>, isLoading: bool)
    ensures Reset(s, isLoading) == Reset(other, isLoading)
    ensures var r := Reset(s, isLoading);
            && r.data == None && r.error == None && r.errorBody == None && r.job == None
            && !r.isSuccessful && !r.isFailed && r.isLoading == isLoading
    ensures JustStarted(Reset(s, true))
  {
  }

  /** Resuming never touches the job recorded in the state. */
  lemma ResumedKeepsJob<T>(s: AsyncUiState<T>, cancelled: bool, outcome: RequestOutcome<T>,
                           callback: CallbackOutcome)
    ensures Resumed(s, cancelled, outcome, callback).state.job == s.job
  {
  }

  /** A request that returns from loading, with `onComplete` returning normally:
      success with the result as data, not failed, no longer loading. */
  lemma SuccessPath<T>(s: AsyncUiState<T>, v: T)
    requires JustStarted(s)
    ensures var c := Resumed(s, false, Returned(v), Finished);
            && c.state.isSuccessful && c.state.data == Some(v)
            && !c.state.isFailed && !c.state.isLoading
            && c.state.error == None && c.state.errorBody == None
            && c.ranOnComplete && c.escaped == None
  {
  }

  /** A request that throws an exception from loading: failed with that
      exception, no data, not successful, no longer loading. Only a
      client-request exception can leave an error body, and for one the body
      recorded is exactly what was read (null for a JSON `null` body). */
  lemma FailurePath<T>(s: AsyncUiState<T>, e: Throwable, callback: CallbackOutcome)
    requires JustStarted(s) && e.IsException()
    requires e.ClientRequestException? ==> e.body.Parsed?
    ensures var c := Resumed(s, false, Threw(e), callback);
            && c.state.isFailed && c.state.error == Some(e) && c.state.data == None
            && !c.state.isSuccessful && !c.state.isLoading
            && (c.state.errorBody.Some? ==> e.ClientRequestException?)
            && (e.ClientRequestException? ==> c.state.errorBody == e.body.json)
            && !c.ranOnComplete && c.escaped == None
  {
  }

  /** `onComplete` is invoked exactly when the job was not cancelled and its
      request returned. */
  lemma OnCompleteOnlyOnSuccess<T>(s: AsyncUiState<T>, cancelled: bool, outcome: RequestOutcome<T>,
                                   callback: CallbackOutcome)
    ensures Resumed(s, cancelled, outcome, callback).ranOnComplete <==> !cancelled && outcome.Returned?
  {
  }

  /** A cancelled job never writes its result: data and the success flag stay
      as they were, and `onComplete` is not invoked. */
  lemma CancelledNeverWritesData<T>(s: AsyncUiState<T>, outcome: RequestOutcome<T>, callback: CallbackOutcome)
    ensures var c := Resumed(s, true, outcome, callback);
            c.state.data == s.data && c.state.isSuccessful == s.isSuccessful && !c.ranOnComplete
  {
  }

  /** When a throwable escapes, no later update runs: the state stays loading
      if it was, and no failure is recorded. */
  lemma EscapeLeavesLoading<T>(s: AsyncUiState<T>, cancelled: bool, outcome: RequestOutcome<T>,
                               callback: CallbackOutcome)
    ensures var c := Resumed(s, cancelled, outcome, callback);
            c.escaped.Some? ==>
              c.state.isLoading == s.isLoading && c.state.isFailed == s.isFailed && c.state.error == s.error
  {
  }

  /** Between the success (or failure) update and the final update the state
      is successful (or failed) and still loading at once. */
  lemma FlagsOverlapBeforeLoadingCleared<T>(s: AsyncUiState<T>, v: T, e: Throwable)
    requires JustStarted(s)
    ensures SuccessUpdate(s, v).isSuccessful && SuccessUpdate(s, v).isLoading
    ensures FailureUpdate(s, e, None).isFailed && FailureUpdate(s, e, None).isLoading
  {
  }

  // ---------------------------------------------------------------------------
  // Stale cancellation: as written, and as evidently intended
  // ---------------------------------------------------------------------------

  /** As written: a job superseded by a newer `executeRequest` still runs its
      `catch` block when it resumes, because `CancellationException` is an
      `Exception`. It marks the newer request failed and not loading while
      that request is in flight, and once the newer request succeeds the
      state is successful and failed at once. */
  lemma StaleCancellationCorruptsNewerRequest<T>(s: AsyncUiState<T>, stale: RequestOutcome<T>, v: T)
    requires JustStarted(s)
    ensures var mid := Resumed(s, true, stale, Finished).state;
            && mid.isFailed && !mid.isLoading && mid.error == Some(CancellationException)
            && var last := Resumed(mid, false, Returned(v), Finished).state;
               last.isSuccessful && last.isFailed && last.data == Some(v)
  {
  }

  /** The same scenario driven through the handler: two `executeRequest` calls,
      then the superseded job resumes (cancelled) and the newer one returns `v`.
      The handler ends successful and failed at once. */
  method StaleResumeThroughHandler<T>(stale: RequestOutcome<T>, v: T) returns (s: AsyncUiState<T>)
    ensures s.isSuccessful && s.isFailed && s.data == Some(v) && !s.isLoading
    ensures s.error == Some(CancellationException)
  {
    var h := new AsyncStateHandler<T>();
    var first := h.ExecuteRequest();
    var second := h.ExecuteRequest();
    assert first.isCancelled && !first.isCompleted;
    var ran, escaped := h.ResumeJob(first, stale, Finished);
    ran, escaped := h.ResumeJob(second, Returned(v), Finished);
    s := h.state;
  }

  /** The evident intent: a cancelled job's completion is dropped silently. */
  function GuardedResumed<T>(s: AsyncUiState<T>, cancelled: bool, outcome: RequestOutcome<T>,
                             callback: CallbackOutcome): (c: Completion<T>)
    ensures cancelled ==> c.state == s && !c.ranOnComplete && c.escaped == None
    ensures !cancelled ==> c == Resumed(s, false, outcome, callback)
  {
    if cancelled then Completion(s, false, None) else Resumed(s, false, outcome, callback)
  }

  /** With the guard, the last `executeRequest` wins: a stale completion leaves
      the newer request loading, and the newer request's own completion ends
      in exactly one of success and failure, not loading. */
  lemma GuardedLastExecuteWins<T>(s: AsyncUiState<T>, stale: RequestOutcome<T>, outcome: RequestOutcome<T>)
    requires JustStarted(s)
    requires outcome.Threw? ==> outcome.thrown.IsException()
    requires outcome.Threw? && outcome.thrown.ClientRequestException? ==> outcome.thrown.body.Parsed?
    ensures var mid := GuardedResumed(s, true, stale, Finished).state;
            && mid == s
            && var last := GuardedResumed(mid, false, outcome, Finished).state;
               && !last.isLoading
               && (last.isSuccessful <==> !last.isFailed)
               && (last.isSuccessful <==> outcome.Returned?)
               && (outcome.Returned? ==> last.data == Some(outcome.value))
  {
    var mid := GuardedResumed(s, true, stale, Finished).state;
    assert mid == s;
    match outcome {
      case Returned(v) => SuccessPath(s, v);
      case Threw(e) => FailurePath(s, e, Finished);
    }
  }
}
