# risk-job: a Dafny model of the risk request client and its view model

The risk-job UI has two user actions: run the risk job and initialize risk. Each one
calls one HTTP endpoint through `RiskJobService` and shows the outcome through the four
fields of `RiskJobRunnerComponent`. This project models the decision rules of both parts
and proves what they promise.

- `wrappers.dfy` (module `Wrappers`) holds `Option`, which stands for JavaScript's
  `null`/`undefined`, and `Result`, which is what an observable delivers: one `next`
  value, or an `error` whose payload is an `Error`'s message.
- `decimal.dfy` (module `Decimal`) converts an integral number to its decimal text, as
  `'...' + status` and `` `${n}` `` do. It also reads that text back, so the model can
  state that a message still carries its number.
- `risk_job_service.dfy` (module `RiskJobService`) is pure:
  - `RunRiskJob` covers the retry counter (`scan` from 0, rethrowing at 2), the backoff
    `1000 * 2^k` ms, and the `catchError` that turns a final 404 into `[]` and
    normalizes any other failure. Its input is the sequence of outcomes that successive
    GET attempts deliver. It returns a `RunTrace`: how many attempts received an
    outcome, the delays waited, and the result. A `None` result means the outcomes ran
    out while a request was still outstanding.
  - `InitRisk` classifies the status that reaches `mergeMap`: 200 or 204 succeeds, and
    anything else fails with `Unexpected response status: <status>`. A POST that
    never answers gives no result, like an exhausted outcome sequence for `RunRiskJob`.
  - `HandleError` computes the message of the `Error` that `handleError` rethrows. The
    precedence is: the nested `error.error.message`, then `error.message`, then a thrown
    string, then `An unknown error occurred`.
- `risk_job_runner_component.dfy` (module `RunnerComponent`) is the class
  `RiskJobRunnerComponent<R>` with fields `risks`, `loading`, `error` and `message`.
  Each action has three methods that change only those fields: the synchronous start,
  the `next` callback and the `error` callback. `Valid()` says that while `loading`,
  neither `error` nor `message` is set. Every step keeps it, in any order, including
  when two actions overlap. From it follows what every callback ensures: one that
  arrives while `loading` ends `Settled()`, with `loading` false and exactly one of
  `error`/`message` set. `RunRiskJob` and `InitRisk` put
  a start step and the matching callback together for one action that nothing else
  interleaves.

`R` stands for the borrower-risk record. Its fields are irrelevant here.

The backoff waits are 2000 ms and then 4000 ms: the code waits
`1000 * Math.pow(2, retryCount)` ms after the count has been incremented
(`risk-job/src/app/services/risk-job-service.ts:26-28`), so the first wait uses count 1.
`FullBackoffSchedule`, `RunReturnsFirstSuccess` and `RunAllAttemptsFail` state those values.

## Model

| member | source | states |
|---|---|---|
| `RiskJobService.HandleError` | risk-job/src/app/services/risk-job-service.ts:64-72 | the message is the error's nested message, its own message, the thrown string itself, or the generic fallback; non-string, non-object values get the fallback; a thrown string passes through unchanged (even empty); an empty message arises only from the empty string |
| `RiskJobService.HandleErrorPrecedence` | risk-job/src/app/services/risk-job-service.ts:66-69 | strict precedence: a truthy nested message wins, else a truthy top-level message, else the string value, else `An unknown error occurred` |
| `RiskJobService.HandleErrorKeepsErrorMessage` | risk-job/src/app/services/risk-job-service.ts:67-68 | an `Error` with a non-empty message and no nested `.error` is normalized to its own message |
| `RiskJobService.HandleErrorExamples` | risk-job/src/app/services/risk-job-service.ts:66-69 | `{error:{message:"X"}}` gives "X", `{message:"Y"}` gives "Y", `"Z"` gives "Z", `{}` gives the fallback |
| `RiskJobService.RetriesLeftFrom` | risk-job/src/app/services/risk-job-service.ts:22-27 | from a count c within the budget, exactly 2 - c further failures are answered with a retry before the next is rethrown; from 0, exactly two |
| `RiskJobService.Delays` | risk-job/src/app/services/risk-job-service.ts:28 | the j-th delay from counter c is `1000 * 2^(c+1+j)` ms |
| `RiskJobService.FullBackoffSchedule` | risk-job/src/app/services/risk-job-service.ts:28 | the two waits of a full run are 2000 ms and 4000 ms |
| `RiskJobService.RunFromFirstOk` | risk-job/src/app/services/risk-job-service.ts:19-30 | from any counter value, a success within the remaining budget ends the run with its body after the delays of the failed attempts before it |
| `RiskJobService.RunFromExhausted` | risk-job/src/app/services/risk-job-service.ts:20-31 | from any counter value, failing every remaining attempt passes the last failure to `catchError` |
| `RiskJobService.RunFromPending` | risk-job/src/app/services/risk-job-service.ts:20-30 | failures that leave budget over, with no further outcome, leave the run waiting after one delay per failure |
| `RiskJobService.RunFromCases` | risk-job/src/app/services/risk-job-service.ts:19-30 | every outcome sequence has a first success within the budget, or fails the whole budget, or ends early having only failed |
| `RiskJobService.RunAttemptsBounded` | risk-job/src/app/services/risk-job-service.ts:19-30 | at most 3 attempts receive an outcome, never more than were delivered; the delays are the backoff schedule's prefix, one between each two attempts |
| `RiskJobService.RunReturnsFirstSuccess` | risk-job/src/app/services/risk-job-service.ts:19-30 | the first success at attempt i < 3 is returned unchanged, after exactly i+1 attempts and the waits `[2000, 4000][..i]` |
| `RiskJobService.RunAllAttemptsFail` | risk-job/src/app/services/risk-job-service.ts:20-31 | three failures give exactly 3 attempts, the waits [2000, 4000], and the third failure decides the result |
| `RiskJobService.RunNotFoundAfterRetriesIsEmpty` | risk-job/src/app/services/risk-job-service.ts:31-37 | three failures ending in a 404 give a success with the empty list, never an error |
| `RiskJobService.RunOtherFailureIsNormalized` | risk-job/src/app/services/risk-job-service.ts:31-39 | three failures ending in another status give a failure whose message is `handleError` of the last failure |
| `RiskJobService.RunRetriesNotFound` | risk-job/src/app/services/risk-job-service.ts:20-32 | a 404 on attempt i < 2 is retried like any other failure: at least i+2 attempts and i+1 waits follow |
| `RiskJobService.RunFailsIff` | risk-job/src/app/services/risk-job-service.ts:20-39 | the run fails with m if and only if the first three attempts fail, the third is not a 404 and m is its normalized message |
| `RiskJobService.RunPendingIff` | risk-job/src/app/services/risk-job-service.ts:19-30 | the run is still waiting if and only if fewer than three outcomes arrived and all of them failed |
| `RiskJobService.InitRiskSucceedsIff` | risk-job/src/app/services/risk-job-service.ts:51-56 | a response resolves with no value if and only if its status is 200 or 204 |
| `RiskJobService.InitRiskUnexpectedStatus` | risk-job/src/app/services/risk-job-service.ts:51-60 | any other status fails with exactly `Unexpected response status: ` followed by the status, which can be read back from the message |
| `RiskJobService.InitRiskTransportFailure` | risk-job/src/app/services/risk-job-service.ts:60 | a failure raised before `mergeMap` is normalized by `handleError` |
| `RiskJobService.InitRiskPendingIff` | risk-job/src/app/services/risk-job-service.ts:45-61 | `initRisk()` is without a result if and only if its single request never answers |
| `Decimal.NatToDecimal` | risk-job/src/app/components/risk-job-runner-component/risk-job-runner-component.ts:27 | the text of a count is a non-empty run of digits that starts with `0` only for zero |
| `Decimal.NatToDecimalRoundTrip` | risk-job/src/app/components/risk-job-runner-component/risk-job-runner-component.ts:27 | reading the decimal text back gives the number |
| `Decimal.IntToString` | risk-job/src/app/services/risk-job-service.ts:58 | the text of a status is non-empty and starts with `-` exactly when it is negative |
| `Decimal.IntToStringRoundTrip` | risk-job/src/app/services/risk-job-service.ts:58 | reading the text of a status back gives the status |
| `Decimal.IntToStringInjective` | risk-job/src/app/services/risk-job-service.ts:58 | two different statuses give two different texts |
| `Decimal.DigitChar` | risk-job/src/app/services/risk-job-service.ts:58 | a digit value below 10 gives the character that denotes it |
| `RunnerComponent.LoadedMessageCount` | risk-job/src/app/components/risk-job-runner-component/risk-job-runner-component.ts:27 | `Loaded N borrower(s).` has the fixed prefix and suffix around the digits of N, which read back as N |
| `RunnerComponent.LoadedMessageInjective` | risk-job/src/app/components/risk-job-runner-component/risk-job-runner-component.ts:27 | different counts give different messages |
| `RunnerComponent.RiskJobRunnerComponent.constructor` | risk-job/src/app/components/risk-job-runner-component/risk-job-runner-component.ts:13-16 | the initial state: no risks, not loading, no error, no message |
| `RunnerComponent.RiskJobRunnerComponent.StartRunRiskJob` | risk-job/src/app/components/risk-job-runner-component/risk-job-runner-component.ts:21-23 | sets `loading`, clears `error` and `message`, leaves `risks` unchanged |
| `RunnerComponent.RiskJobRunnerComponent.RunRiskJobNext` | risk-job/src/app/components/risk-job-runner-component/risk-job-runner-component.ts:25-29 | `risks` becomes the data (any array as it is, empty for null), `message` becomes `Loaded N borrower(s).` with N = the new length, `loading` false, `error` unchanged; settled when it arrives while `loading` (in a valid state) |
| `RunnerComponent.RiskJobRunnerComponent.RunRiskJobError` | risk-job/src/app/components/risk-job-runner-component/risk-job-runner-component.ts:30-33 | `error` becomes the error's message (kept even when empty) or, only when that is null or undefined, `Failed to run risk job`, `loading` false, `message` and `risks` unchanged; settled when it arrives while `loading` (in a valid state) |
| `RunnerComponent.RiskJobRunnerComponent.StartInitRisk` | risk-job/src/app/components/risk-job-runner-component/risk-job-runner-component.ts:38-40 | sets `loading`, clears `error` and `message`, leaves `risks` unchanged |
| `RunnerComponent.RiskJobRunnerComponent.InitRiskNext` | risk-job/src/app/components/risk-job-runner-component/risk-job-runner-component.ts:42-45 | `message` becomes `Init request sent successfully.`, `loading` false, `risks` and `error` unchanged; settled when it arrives while `loading` (in a valid state) |
| `RunnerComponent.RiskJobRunnerComponent.InitRiskError` | risk-job/src/app/components/risk-job-runner-component/risk-job-runner-component.ts:46-49 | `error` becomes the error's message (kept even when empty) or, only when that is null or undefined, `Failed to init risk`, `loading` false, `risks` and `message` unchanged; settled when it arrives while `loading` (in a valid state) |
| `RunnerComponent.RiskJobRunnerComponent.RunRiskJob` | risk-job/src/app/components/risk-job-runner-component/risk-job-runner-component.ts:20-35 | start then callback: still in flight while the service waits; otherwise settled with the loaded risks and their count message, or with the service's error message and the old risks |
| `RunnerComponent.RiskJobRunnerComponent.InitRisk` | risk-job/src/app/components/risk-job-runner-component/risk-job-runner-component.ts:37-51 | start then callback: still in flight while the POST is unanswered; otherwise settled with the confirmation message or the service's error message; `risks` unchanged |
| `RunnerComponent.NotFoundScenario` | risk-job/src/app/components/risk-job-runner-component/risk-job-runner-component.ts:20-35 | a fresh component run against three failures ending in a 404 shows `Loaded 0 borrower(s).`, no risks and no error |

## Left out

- The HTTP transport, the base URL read from the configuration (`environment.apiUrl`) and the network. The responses a request would get are inputs instead: a sequence of attempt outcomes for `runRiskJob`, and one outcome for `initRisk`.
- RxJS scheduling (`retryWhen`, `timer`, `mergeMap`, subscription delivery) and real waiting. Delays are returned as numbers of milliseconds, and the callbacks are explicit methods.
- HttpClient turning a non-2xx response into an error before `mergeMap` sees it. That is library behaviour outside this repository. The status that reaches `mergeMap` is an input, and a failure raised before it is the `Failed` outcome.
- Two actions in flight at once, where a stale response overwrites newer state. This is an asynchronous interleaving. `Valid()` still holds for any order of steps, but `Settled()` is proved only for a callback that arrives while `loading`. When the first of two overlapping callbacks has already cleared `loading`, the later one can leave both `error` and `message` set, and the model claims nothing about that state.
- Angular decorators, dependency injection, templates and styles. `risk-job/src/app/app.ts` is only wiring, and the component's test file only checks that the component is created.
- The fields of `BorrowerRisk`, which is the opaque type parameter `R`.
- RiskJobService.HandleError: does not model non-string message values. A truthy number in `error.error.message` would be stringified by `new Error`; the model takes every message field to be a string or absent.
- RiskJobService.HandleError: returns the message of the rethrown `Error`, not the observable that `throwError` creates. `Failure(message)` stands for that observable everywhere.
- RiskJobService.RunRiskJob: every failed attempt carries an HTTP error response. A `null` error would make `error.status` throw inside `catchError`, but HttpClient never delivers one, so the model does not cover it.
- Decimal.IntToString: covers integral numbers only. HTTP statuses and list lengths are integers, so JavaScript's exponent and fraction formats never arise.
