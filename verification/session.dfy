/** The bounded retry loop `atomic_update_session` (utils.py): read the
    session, patch its state, write it back, and retry on any failure.

    The session service and the clock are not modelled as code: the service
    is a parameter saying what each numbered attempt's read and write do, and
    `time.sleep` is recorded as the list of attempt numbers after which the
    loop sleeps (it sleeps `backoff_factor * attempt` seconds). */
module Session {
  import opened Wrappers
  import opened PyValue

  /** What `get_session` does on one attempt: raise, or return a session whose
      `state` is some Python value (not necessarily a dict). */
  datatype Read = ReadFails(reason: string) | ReadOk(state: Value)

  /** What `create_session` does on one attempt. */
  datatype Write = WriteOk | WriteFails(reason: string)

  /** The session service's behaviour on one attempt. */
  datatype Attempt = Attempt(read: Read, write: Write)

  /** The exception that ends one attempt. */
  datatype AttemptError =
    | ReadError(reason: string)
    | PatchRaised(reason: string)
    | NotADict(returned: Value)     // `ValueError("patch_fn must return dict")`
    | WriteError(reason: string)

  /** How the loop ends: the state written on the committing attempt, or the
      `RuntimeError` raised after the last attempt, carrying `max_retries` and
      the last attempt's exception (`None` when no attempt was made). */
  datatype Outcome =
    | Committed(state: Fields, attempt: nat)
    | Exhausted(maxRetries: int, last: Option<AttemptError>)

  /** The outcome together with the attempt numbers after which the loop slept. */
  datatype Run = Run(outcome: Outcome, sleeps: seq<nat>)

  /** A patch function: it returns some Python value, or raises. */
  type PatchFn = Fields -> Result<Value, string>

  /** The dict handed to the patch: the session's state when it is a dict, an
      empty dict otherwise. */
  function PatchInput(state: Value): Fields
  {
    if state.Dict? then state.fields else []
  }

  /** One pass of the loop body: read, patch, check the result is a dict, write. */
  function RunAttempt(a: Attempt, patch: PatchFn): (r: Result<Fields, AttemptError>)
    ensures r.Success? <==>
              && a.read.ReadOk?
              && patch(PatchInput(a.read.state)).Success?
              && patch(PatchInput(a.read.state)).value.Dict?
              && a.write.WriteOk?
    ensures r.Success? ==> r.value == patch(PatchInput(a.read.state)).value.fields
  {
    match a.read
    case ReadFails(why) => Failure(ReadError(why))
    case ReadOk(state) =>
      match patch(PatchInput(state))
      case Failure(why) => Failure(PatchRaised(why))
      case Success(v) =>
        if !v.Dict? then Failure(NotADict(v))
        else
          match a.write
          case WriteFails(why) => Failure(WriteError(why))
          case WriteOk => Success(v.fields)
  }

  /** Attempt `k` (counting from 1) commits. */
  predicate Succeeds(service: nat -> Attempt, patch: PatchFn, k: nat)
  {
    RunAttempt(service(k), patch).Success?
  }

  /** The loop from attempt `k` on, `last` being the exception of attempt `k - 1`. */
  function RetryFrom(service: nat -> Attempt, patch: PatchFn, maxRetries: int, k: nat,
                     last: Option<AttemptError>): (r: Run)
    requires k >= 1
    decreases maxRetries + 1 - k
    ensures r.outcome.Committed? ==>
              && k <= r.outcome.attempt <= maxRetries
              && RunAttempt(service(r.outcome.attempt), patch) == Success(r.outcome.state)
              && forall j :: k <= j < r.outcome.attempt ==> !Succeeds(service, patch, j)
    ensures r.outcome.Exhausted? ==>
              && r.outcome.maxRetries == maxRetries
              && (forall j :: k <= j <= maxRetries ==> !Succeeds(service, patch, j))
              && (k > maxRetries ==> r.outcome.last == last)
              && (k <= maxRetries ==>
                    && RunAttempt(service(maxRetries), patch).Failure?
                    && r.outcome.last == Some(RunAttempt(service(maxRetries), patch).error))
    ensures var failed := if r.outcome.Committed? then r.outcome.attempt - k
                          else if k <= maxRetries then maxRetries + 1 - k else 0;
            && |r.sleeps| == failed
            && forall i :: 0 <= i < |r.sleeps| ==> r.sleeps[i] == k + i
  {
    if k > maxRetries then Run(Exhausted(maxRetries, last), [])
    else
      match RunAttempt(service(k), patch)
      case Success(state) => Run(Committed(state, k), [])
      case Failure(e) =>
        var rest := RetryFrom(service, patch, maxRetries, k + 1, Some(e));
        Run(rest.outcome, [k] + rest.sleeps)
  }

  /** `max_retries` when the caller does not pass one. */
  const DefaultMaxRetries := 5

  /** `atomic_update_session`: attempts 1 to `max_retries`, stopping at the
      first that commits, sleeping after each that fails, and raising once all
      have failed. */
  function AtomicUpdate(service: nat -> Attempt, patch: PatchFn, maxRetries: int): (r: Run)
    ensures r.outcome.Committed? <==>
              exists k :: 1 <= k <= maxRetries && Succeeds(service, patch, k)
    ensures r.outcome.Committed? ==>
              && 1 <= r.outcome.attempt <= maxRetries
              && RunAttempt(service(r.outcome.attempt), patch) == Success(r.outcome.state)
              && forall j :: 1 <= j < r.outcome.attempt ==> !Succeeds(service, patch, j)
    ensures r.outcome.Exhausted? ==>
              && r.outcome.maxRetries == maxRetries
              && (maxRetries < 1 ==> r.outcome.last == None)
              && (maxRetries >= 1 ==>
                    && RunAttempt(service(maxRetries), patch).Failure?
                    && r.outcome.last == Some(RunAttempt(service(maxRetries), patch).error))
    ensures r.sleeps == if r.outcome.Committed? then Range(1, r.outcome.attempt)
                        else Range(1, maxRetries + 1)
    ensures AttemptsMade(r) <= if maxRetries > 0 then maxRetries else 0
  {
    var r := RetryFrom(service, patch, maxRetries, 1, None);
    assert r.outcome.Committed? ==> Succeeds(service, patch, r.outcome.attempt);
    r
  }

  /** The attempt numbers `lo, lo + 1, ..., hi - 1` (empty when `hi <= lo`). */
  function Range(lo: int, hi: int): (r: seq<int>)
    ensures |r| == if lo < hi then hi - lo else 0
    ensures forall i :: 0 <= i < |r| ==> r[i] == lo + i
    decreases hi - lo
  {
    if lo < hi then [lo] + Range(lo + 1, hi) else []
  }

  /** How many times the loop body ran: once per sleep, plus the committing attempt. */
  function AttemptsMade(r: Run): nat
  {
    |r.sleeps| + if r.outcome.Committed? then 1 else 0
  }

  /** With `max_retries <= 0` the loop body never runs and the error carries no
      last exception. */
  lemma NoAttemptsWhenNonPositive(service: nat -> Attempt, patch: PatchFn, maxRetries: int)
    requires maxRetries <= 0
    ensures AtomicUpdate(service, patch, maxRetries) == Run(Exhausted(maxRetries, None), [])
  {
  }

  /** A session whose state is not a dict is patched exactly as an empty one. */
  lemma NonDictStateReadAsEmpty(state: Value, w: Write, patch: PatchFn)
    requires !state.Dict?
    ensures RunAttempt(Attempt(ReadOk(state), w), patch)
         == RunAttempt(Attempt(ReadOk(Dict([])), w), patch)
  {
  }
}
