/** The decision rules of the risk request client (`RiskJobService`): the retry budget,
    backoff and 404 downgrade of `runRiskJob`, the status check of `initRisk`, and the
    message precedence of `handleError`. The HTTP transport is replaced by the outcomes
    it delivers; the borrower-risk record is the opaque type parameter `R`. */
module RiskJobService {
  import opened Wrappers
  import Decimal

  // ---------------------------------------------------------------------------
  // Error values and their normalization (`handleError`)
  // ---------------------------------------------------------------------------

  /** The failure values `handleError` meets, as far as it inspects them.
      `ErrObject` is any object: `nestedMessage` is `error.error.message` when that is a
      string (None when `error.error` is null, undefined, not an object, or has no string
      `message`), `message` is `error.message` when that is a string.
      `ErrString` is a thrown string primitive. `ErrOther` is every other value
      (null, undefined, a number, a boolean). */
  datatype ErrorValue =
    | ErrObject(nestedMessage: Option<string>, message: Option<string>)
    | ErrString(text: string)
    | ErrOther

  /** An `HttpErrorResponse` delivered for a failed request: its status code, the
      `message` field of its error body, and its own `message`. */
  datatype HttpFailure = HttpFailure(status: int, bodyMessage: Option<string>, message: Option<string>) {
    function AsErrorValue(): ErrorValue {
      ErrObject(bodyMessage, message)
    }
  }

  const UnknownErrorMessage := "An unknown error occurred"

  /** JavaScript truthiness of an optional string: present and non-empty. */
  predicate Truthy(s: Option<string>) {
    s.Some? && s.value != ""
  }

  /** `error?.error?.message` */
  function NestedMessageOf(e: ErrorValue): Option<string> {
    if e.ErrObject? then e.nestedMessage else None
  }

  /** `error?.message` (a string primitive has no `message` property) */
  function MessageOf(e: ErrorValue): Option<string> {
    if e.ErrObject? then e.message else None
  }

  /** The message of the `Error` that `handleError` rethrows. */
  function HandleError(e: ErrorValue): (message: string)
    // the message is taken from the failure itself, or it is the generic fallback
    ensures message == UnknownErrorMessage
         || NestedMessageOf(e) == Some(message)
         || MessageOf(e) == Some(message)
         || e == ErrString(message)
    // a fallback only for failures that carry no usable text
    ensures e.ErrOther? ==> message == UnknownErrorMessage
    // a thrown string passes through unchanged, even the empty one
    ensures e.ErrString? ==> message == e.text
    // an empty message can only come from the empty string
    ensures message == "" ==> e == ErrString("")
  {
    if Truthy(NestedMessageOf(e)) then NestedMessageOf(e).value
    else if Truthy(MessageOf(e)) then MessageOf(e).value
    else if e.ErrString? then e.text
    else UnknownErrorMessage
  }

  /** The precedence of `handleError`, each rule stated with the rules above it failing. */
  lemma HandleErrorPrecedence(e: ErrorValue)
    ensures Truthy(NestedMessageOf(e)) ==> HandleError(e) == NestedMessageOf(e).value
    ensures !Truthy(NestedMessageOf(e)) && Truthy(MessageOf(e)) ==> HandleError(e) == MessageOf(e).value
    ensures !Truthy(NestedMessageOf(e)) && !Truthy(MessageOf(e)) && e.ErrString? ==> HandleError(e) == e.text
    ensures !Truthy(NestedMessageOf(e)) && !Truthy(MessageOf(e)) && !e.ErrString? ==> HandleError(e) == UnknownErrorMessage
  {
  }

  /** An `Error` built by `new Error(m)` with a non-empty `m` is normalized to `m`:
      it has no nested `.error`, so its own message is kept. */
  lemma HandleErrorKeepsErrorMessage(m: string)
    requires m != ""
    ensures HandleError(ErrObject(None, Some(m))) == m
  {
  }

  /** The four shapes of failure: nested body message, top-level message, plain string,
      empty object. */
  lemma HandleErrorExamples()
    ensures HandleError(ErrObject(Some("X"), None)) == "X"
    ensures HandleError(ErrObject(None, Some("Y"))) == "Y"
    ensures HandleError(ErrString("Z")) == "Z"
    ensures HandleError(ErrObject(None, None)) == UnknownErrorMessage
  {
  }

  // ---------------------------------------------------------------------------
  // runRiskJob: retry with backoff, then 404 downgrade or normalization
  // ---------------------------------------------------------------------------

  /** What one GET attempt delivers: the decoded body (None for a JSON `null`) or a failure. */
  datatype Attempt<R> = Ok(body: Option<seq<R>>) | Err(failure: HttpFailure)

  /** The observable behaviour of one `runRiskJob()` subscription: how many attempts
      delivered an outcome, the backoff delays waited (in ms, in order), and the result;
      `result == None` means the outcomes ran out while a request was still outstanding. */
  datatype RunTrace<R> = RunTrace(attempts: nat, delays: seq<nat>, result: Option<Result<Option<seq<R>>>>)

  /** The retry counter's ceiling: `scan` rethrows once the count has reached 2. */
  const MaxRetries: nat := 2
  const MaxAttempts: nat := MaxRetries + 1
  const BaseDelayMs: nat := 1000
  const NotFound: int := 404

  function Pow2(k: nat): nat {
    if k == 0 then 1 else 2 * Pow2(k - 1)
  }

  /** `timer(1000 * Math.pow(2, retryCount))` */
  function BackoffDelay(retryCount: nat): nat {
    BaseDelayMs * Pow2(retryCount)
  }

  /** The `scan` accumulator step: the next retry count, or None when the failure is rethrown. */
  function ScanStep(retryCount: nat): Option<nat> {
    if retryCount >= MaxRetries then None else Some(retryCount + 1)
  }

  /** How many times the counter can still be incremented before `scan` rethrows. */
  function RetriesLeft(retryCount: nat): nat
    decreases MaxRetries - retryCount
  {
    match ScanStep(retryCount)
    case None => 0
    case Some(next) => 1 + RetriesLeft(next)
  }

  /** From a count c within the budget, exactly MaxRetries - c further failures are
      answered with a retry before the next one is rethrown; from 0 that is two. */
  lemma RetriesLeftFrom(retryCount: nat)
    requires retryCount <= MaxRetries
    ensures RetriesLeft(retryCount) == MaxRetries - retryCount
  {
  }

  /** The `catchError` of `runRiskJob`: a 404 becomes an empty list, anything else is normalized. */
  function CatchRunError<R>(f: HttpFailure): Result<Option<seq<R>>> {
    if f.status == NotFound then Success(Some([])) else Failure(HandleError(f.AsErrorValue()))
  }

  /** The subscription from the point where the `scan` counter stands at `retryCount`. */
  function RunFrom<R>(outcomes: seq<Attempt<R>>, retryCount: nat): RunTrace<R>
    decreases |outcomes|
  {
    if outcomes == [] then RunTrace(0, [], None)
    else match outcomes[0]
      case Ok(body) => RunTrace(1, [], Some(Success(body)))
      case Err(f) =>
        match ScanStep(retryCount)
        case None => RunTrace(1, [], Some(CatchRunError(f)))
        case Some(next) =>
          var rest := RunFrom(outcomes[1..], next);
          RunTrace(1 + rest.attempts, [BackoffDelay(next)] + rest.delays, rest.result)
  }

  /** `runRiskJob()`, with the i-th GET attempt delivering `outcomes[i]`. */
  function RunRiskJob<R>(outcomes: seq<Attempt<R>>): RunTrace<R> {
    RunFrom(outcomes, 0)
  }

  /** The first `k` outcomes are all failures. */
  predicate FailsFirst<R>(outcomes: seq<Attempt<R>>, k: nat) {
    k <= |outcomes| && forall j :: 0 <= j < k ==> outcomes[j].Err?
  }

  /** The `n` backoff delays waited when the counter starts at `retryCount`. */
  function Delays(retryCount: nat, n: nat): (ds: seq<nat>)
    ensures |ds| == n
    ensures forall j :: 0 <= j < n ==> ds[j] == BackoffDelay(retryCount + 1 + j)
    decreases n
  {
    if n == 0 then [] else [BackoffDelay(retryCount + 1)] + Delays(retryCount + 1, n - 1)
  }

  lemma FullBackoffSchedule()
    ensures Delays(0, MaxRetries) == [2000, 4000]
  {
  }

  /** An attempt that succeeds within the budget ends the run with its body. */
  lemma {:induction false} RunFromFirstOk<R>(outcomes: seq<Attempt<R>>, retryCount: nat, i: nat)
    requires retryCount + i <= MaxRetries
    requires i < |outcomes| && outcomes[i].Ok? && FailsFirst(outcomes, i)
    ensures RunFrom(outcomes, retryCount) == RunTrace(i + 1, Delays(retryCount, i), Some(Success(outcomes[i].body)))
    decreases i
  {
    if i > 0 {
      assert outcomes[0].Err?;
      var rest := outcomes[1..];
      assert FailsFirst(rest, i - 1) by {
        forall j | 0 <= j < i - 1 ensures rest[j].Err? {
          assert rest[j] == outcomes[j + 1];
        }
      }
      RunFromFirstOk(rest, retryCount + 1, i - 1);
    }
  }

  /** When every attempt the budget allows fails, the last failure goes to `catchError`. */
  lemma {:induction false} RunFromExhausted<R>(outcomes: seq<Attempt<R>>, retryCount: nat)
    requires retryCount <= MaxRetries
    requires FailsFirst(outcomes, MaxAttempts - retryCount)
    ensures var k := MaxAttempts - retryCount;
      RunFrom(outcomes, retryCount) == RunTrace(k, Delays(retryCount, k - 1), Some(CatchRunError(outcomes[k - 1].failure)))
    decreases MaxRetries - retryCount
  {
    assert outcomes[0].Err?;
    if retryCount < MaxRetries {
      var rest := outcomes[1..];
      var k := MaxAttempts - retryCount;
      assert FailsFirst(rest, k - 1) by {
        forall j | 0 <= j < k - 1 ensures rest[j].Err? {
          assert rest[j] == outcomes[j + 1];
        }
      }
      RunFromExhausted(rest, retryCount + 1);
      assert rest[k - 2] == outcomes[k - 1];
    }
  }

  /** Failures that leave budget over, with no further outcome, leave a request outstanding. */
  lemma {:induction false} RunFromPending<R>(outcomes: seq<Attempt<R>>, retryCount: nat)
    requires retryCount + |outcomes| <= MaxRetries
    requires FailsFirst(outcomes, |outcomes|)
    ensures RunFrom(outcomes, retryCount) == RunTrace(|outcomes|, Delays(retryCount, |outcomes|), None)
    decreases |outcomes|
  {
    if outcomes != [] {
      assert outcomes[0].Err?;
      var rest := outcomes[1..];
      assert FailsFirst(rest, |rest|) by {
        forall j | 0 <= j < |rest| ensures rest[j].Err? {
          assert rest[j] == outcomes[j + 1];
        }
      }
      RunFromPending(rest, retryCount + 1);
    }
  }

  /** Every outcome sequence falls under one of the three lemmas above:
      the index of the first success within the budget, or none. */
  lemma RunFromCases<R>(outcomes: seq<Attempt<R>>, retryCount: nat)
    requires retryCount <= MaxRetries
    ensures var k := MaxAttempts - retryCount;
      (exists i :: 0 <= i < k && i < |outcomes| && outcomes[i].Ok? && FailsFirst(outcomes, i))
      || FailsFirst(outcomes, k)
      || (|outcomes| < k && FailsFirst(outcomes, |outcomes|))
  {
  }

  // --- properties of runRiskJob ----------------------------------------------

  /** At most three attempts receive an outcome, never more than were delivered, and
      each delay waited lies between two attempts. */
  lemma {:induction false} RunAttemptsBounded<R>(outcomes: seq<Attempt<R>>)
    ensures var t := RunRiskJob(outcomes);
      t.attempts <= MaxAttempts && t.attempts <= |outcomes|
      && t.delays == Delays(0, |t.delays|)
      && |t.delays| == (if t.result.Some? then t.attempts - 1 else t.attempts)
  {
    RunFromCases(outcomes, 0);
    if i :| 0 <= i < MaxAttempts && i < |outcomes| && outcomes[i].Ok? && FailsFirst(outcomes, i) {
      RunFromFirstOk(outcomes, 0, i);
    } else if FailsFirst(outcomes, MaxAttempts) {
      RunFromExhausted(outcomes, 0);
    } else {
      RunFromPending(outcomes, 0);
    }
  }

  /** The first successful attempt's body is returned unchanged and no attempt follows it. */
  lemma RunReturnsFirstSuccess<R>(outcomes: seq<Attempt<R>>, i: nat)
    requires i < MaxAttempts && i < |outcomes| && outcomes[i].Ok? && FailsFirst(outcomes, i)
    ensures RunRiskJob(outcomes) == RunTrace(i + 1, [2000, 4000][..i], Some(Success(outcomes[i].body)))
  {
    RunFromFirstOk(outcomes, 0, i);
    FullBackoffSchedule();
    assert Delays(0, i) == Delays(0, MaxRetries)[..i];
  }

  /** Three failures: three attempts, waits of 2000 ms then 4000 ms, and the third
      failure decides the result. */
  lemma RunAllAttemptsFail<R>(outcomes: seq<Attempt<R>>)
    requires FailsFirst(outcomes, MaxAttempts)
    ensures RunRiskJob(outcomes) == RunTrace(3, [2000, 4000], Some(CatchRunError(outcomes[2].failure)))
  {
    RunFromExhausted(outcomes, 0);
    FullBackoffSchedule();
  }

  /** After three failures whose last is a 404 the run succeeds with the empty list. */
  lemma RunNotFoundAfterRetriesIsEmpty<R>(outcomes: seq<Attempt<R>>)
    requires FailsFirst(outcomes, MaxAttempts) && outcomes[2].failure.status == NotFound
    ensures RunRiskJob(outcomes).result == Some(Success(Some([])))
  {
    RunAllAttemptsFail(outcomes);
  }

  /** After three failures whose last is not a 404 the run fails with the normalized message. */
  lemma RunOtherFailureIsNormalized<R>(outcomes: seq<Attempt<R>>)
    requires FailsFirst(outcomes, MaxAttempts) && outcomes[2].failure.status != NotFound
    ensures RunRiskJob(outcomes).result == Some(Failure(HandleError(outcomes[2].failure.AsErrorValue())))
  {
    RunAllAttemptsFail(outcomes);
  }

  /** A 404 on an early attempt does not end the run: the attempt is retried. */
  lemma {:induction false} RunRetriesNotFound<R>(outcomes: seq<Attempt<R>>, i: nat)
    requires i < MaxRetries && i + 1 < |outcomes| && FailsFirst(outcomes, i + 1)
    requires outcomes[i].failure.status == NotFound
    ensures RunRiskJob(outcomes).attempts >= i + 2
    ensures |RunRiskJob(outcomes).delays| >= i + 1
  {
    RunFromCases(outcomes, 0);
    if j :| 0 <= j < MaxAttempts && j < |outcomes| && outcomes[j].Ok? && FailsFirst(outcomes, j) {
      assert j > i;
      RunFromFirstOk(outcomes, 0, j);
    } else if FailsFirst(outcomes, MaxAttempts) {
      RunFromExhausted(outcomes, 0);
    } else {
      RunFromPending(outcomes, 0);
    }
  }

  /** The run fails exactly when three attempts failed and the third was not a 404,
      and then with that failure's normalized message. */
  lemma {:induction false} RunFailsIff<R>(outcomes: seq<Attempt<R>>, m: string)
    ensures RunRiskJob(outcomes).result == Some(Failure(m))
        <==> FailsFirst(outcomes, MaxAttempts) && outcomes[2].failure.status != NotFound
             && m == HandleError(outcomes[2].failure.AsErrorValue())
  {
    RunFromCases(outcomes, 0);
    if i :| 0 <= i < MaxAttempts && i < |outcomes| && outcomes[i].Ok? && FailsFirst(outcomes, i) {
      RunFromFirstOk(outcomes, 0, i);
    } else if FailsFirst(outcomes, MaxAttempts) {
      RunFromExhausted(outcomes, 0);
    } else {
      RunFromPending(outcomes, 0);
    }
  }

  /** The run is still waiting exactly when fewer than three outcomes arrived and all failed. */
  lemma {:induction false} RunPendingIff<R>(outcomes: seq<Attempt<R>>)
    ensures RunRiskJob(outcomes).result.None?
        <==> |outcomes| < MaxAttempts && FailsFirst(outcomes, |outcomes|)
  {
    RunFromCases(outcomes, 0);
    if i :| 0 <= i < MaxAttempts && i < |outcomes| && outcomes[i].Ok? && FailsFirst(outcomes, i) {
      RunFromFirstOk(outcomes, 0, i);
    } else if FailsFirst(outcomes, MaxAttempts) {
      RunFromExhausted(outcomes, 0);
    } else {
      RunFromPending(outcomes, 0);
    }
  }

  // ---------------------------------------------------------------------------
  // initRisk: status classification, single attempt
  // ---------------------------------------------------------------------------

  /** What the single POST delivers: a response whose status reaches `mergeMap`, a
      failure raised by the transport before it, or nothing (a request that never answers). */
  datatype InitOutcome = Responded(status: int) | Failed(failure: HttpFailure) | Unanswered

  const UnexpectedStatusPrefix := "Unexpected response status: "

  /** `new Error('Unexpected response status: ' + status)` */
  function UnexpectedStatusError(status: int): ErrorValue {
    ErrObject(None, Some(UnexpectedStatusPrefix + Decimal.IntToString(status)))
  }

  /** `initRisk()` given what its one request delivers; None while it is unanswered. */
  function InitRisk(outcome: InitOutcome): Option<Result<()>> {
    match outcome
    case Responded(status) =>
      if status == 204 || status == 200 then Some(Success(()))
      else Some(Failure(HandleError(UnexpectedStatusError(status))))
    case Failed(f) => Some(Failure(HandleError(f.AsErrorValue())))
    case Unanswered => None
  }

  /** A response resolves with no value exactly when its status is 200 or 204. */
  lemma InitRiskSucceedsIff(status: int)
    ensures InitRisk(Responded(status)) == Some(Success(())) <==> status == 200 || status == 204
  {
  }

  /** Any other status fails with exactly the unexpected-status text, from which the
      status can be read back. */
  lemma InitRiskUnexpectedStatus(status: int)
    requires status != 200 && status != 204
    ensures InitRisk(Responded(status)) == Some(Failure(UnexpectedStatusPrefix + Decimal.IntToString(status)))
    ensures var m := InitRisk(Responded(status)).value.message;
      var text := m[|UnexpectedStatusPrefix|..];
      m[..|UnexpectedStatusPrefix|] == UnexpectedStatusPrefix
      && |text| >= 1
      && (if text[0] == '-' then Decimal.AllDigits(text[1..]) else Decimal.AllDigits(text))
      && Decimal.StringToInt(text) == status
  {
    var digits := Decimal.IntToString(status);
    HandleErrorKeepsErrorMessage(UnexpectedStatusPrefix + digits);
    var m := UnexpectedStatusPrefix + digits;
    assert m[|UnexpectedStatusPrefix|..] == digits;
    Decimal.IntToStringRoundTrip(status);
  }

  /** A transport failure is normalized like any other failure. */
  lemma InitRiskTransportFailure(f: HttpFailure)
    ensures InitRisk(Failed(f)) == Some(Failure(HandleError(f.AsErrorValue())))
  {
  }

  /** Only a request that never answers leaves `initRisk()` without a result. */
  lemma InitRiskPendingIff(outcome: InitOutcome)
    ensures InitRisk(outcome).None? <==> outcome.Unanswered?
  {
  }
}
