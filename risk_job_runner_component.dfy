/** The view model of `RiskJobRunnerComponent`: four fields that the two actions update
    in three steps each — the synchronous start, the `next` callback and the `error`
    callback of the subscription. */
module RunnerComponent {
  import opened Wrappers
  import Decimal
  import RiskJobService

  const RunFailedFallback := "Failed to run risk job"
  const InitFailedFallback := "Failed to init risk"
  const InitSucceededMessage := "Init request sent successfully."
  const LoadedPrefix := "Loaded "
  const LoadedSuffix := " borrower(s)."

  /** `Loaded ${n} borrower(s).` */
  function LoadedMessage(n: nat): string {
    LoadedPrefix + Decimal.NatToDecimal(n) + LoadedSuffix
  }

  /** The count shown in the loaded message can be read back from it. */
  lemma LoadedMessageCount(n: nat)
    ensures var m := LoadedMessage(n);
      |m| > |LoadedPrefix| + |LoadedSuffix|
      && m[..|LoadedPrefix|] == LoadedPrefix
      && m[|m| - |LoadedSuffix|..] == LoadedSuffix
      && Decimal.AllDigits(m[|LoadedPrefix|..|m| - |LoadedSuffix|])
      && Decimal.DecimalToNat(m[|LoadedPrefix|..|m| - |LoadedSuffix|]) == n
  {
    var digits := Decimal.NatToDecimal(n);
    var m := LoadedMessage(n);
    assert m[|LoadedPrefix|..|m| - |LoadedSuffix|] == digits;
    Decimal.NatToDecimalRoundTrip(n);
  }

  /** Different counts give different messages. */
  lemma LoadedMessageInjective(n: nat, k: nat)
    requires LoadedMessage(n) == LoadedMessage(k)
    ensures n == k
  {
    LoadedMessageCount(n);
    LoadedMessageCount(k);
  }

  /** `err?.message ?? fallback`: the fallback replaces only a null or undefined message;
      an empty message is kept. */
  function ErrorText(errMessage: Option<string>, fallback: string): string {
    match errMessage
    case Some(m) => m
    case None => fallback
  }

  /** `data || []`: a null body gives the empty list, any array (even empty) is kept. */
  function RisksOf<R>(data: Option<seq<R>>): seq<R> {
    match data
    case Some(d) => d
    case None => []
  }

  class RiskJobRunnerComponent<R> {
    var risks: seq<R>
    var loading: bool
    var error: Option<string>
    var message: Option<string>

    /** Kept by every step: while `loading` no error and no message is shown. A callback
        that arrives while `loading` therefore ends `Settled()`. */
    predicate Valid()
      reads this
    {
      loading ==> error.None? && message.None?
    }

    /** The state right after a start step. */
    predicate InFlight()
      reads this
    {
      loading && error.None? && message.None?
    }

    /** An action has completed: not loading, and exactly one of error and message set. */
    predicate Settled()
      reads this
    {
      !loading && (error.Some? <==> message.None?)
    }

    constructor ()
      ensures Valid()
      ensures risks == [] && !loading && error == None && message == None
    {
      risks := [];
      loading := false;
      error := None;
      message := None;
    }

    /** The synchronous part of `runRiskJob()`, before the request is subscribed to. */
    method StartRunRiskJob()
      modifies this
      ensures Valid() && InFlight()
      ensures loading && error == None && message == None && risks == old(risks)
    {
      loading := true;
      error := None;
      message := None;
    }

    /** The `next` callback of `runRiskJob()`. */
    method RunRiskJobNext(data: Option<seq<R>>)
      modifies this
      ensures Valid()
      ensures risks == (if data.Some? then data.value else [])
      ensures message == Some(LoadedMessage(|risks|))
      ensures !loading && error == old(error)
      ensures old(Valid() && loading) ==> Settled() && error == None
    {
      risks := RisksOf(data);
      message := Some(LoadedMessage(|risks|));
      loading := false;
    }

    /** The `error` callback of `runRiskJob()`; `errMessage` is `err?.message`. */
    method RunRiskJobError(errMessage: Option<string>)
      modifies this
      ensures Valid()
      ensures error == Some(if errMessage.Some? then errMessage.value else RunFailedFallback)
      ensures !loading && message == old(message) && risks == old(risks)
      ensures old(Valid() && loading) ==> Settled() && message == None
    {
      error := Some(ErrorText(errMessage, RunFailedFallback));
      loading := false;
    }

    /** The synchronous part of `initRisk()`, before the request is subscribed to. */
    method StartInitRisk()
      modifies this
      ensures Valid() && InFlight()
      ensures loading && error == None && message == None && risks == old(risks)
    {
      loading := true;
      error := None;
      message := None;
    }

    /** The `next` callback of `initRisk()`. */
    method InitRiskNext()
      modifies this
      ensures Valid()
      ensures message == Some(InitSucceededMessage)
      ensures !loading && error == old(error) && risks == old(risks)
      ensures old(Valid() && loading) ==> Settled() && error == None
    {
      message := Some(InitSucceededMessage);
      loading := false;
    }

    /** The `error` callback of `initRisk()`; `errMessage` is `err?.message`. */
    method InitRiskError(errMessage: Option<string>)
      modifies this
      ensures Valid()
      ensures error == Some(if errMessage.Some? then errMessage.value else InitFailedFallback)
      ensures !loading && message == old(message) && risks == old(risks)
      ensures old(Valid() && loading) ==> Settled() && message == None
    {
      error := Some(ErrorText(errMessage, InitFailedFallback));
      loading := false;
    }

    /** `runRiskJob()` with no other action interleaved: the start step, then the callback
        for whatever the service delivers for `outcomes` (none while it is still waiting). */
    method RunRiskJob(outcomes: seq<RiskJobService.Attempt<R>>)
      modifies this
      ensures Valid()
      ensures match RiskJobService.RunRiskJob(outcomes).result
        case None => InFlight() && risks == old(risks)
        case Some(Success(data)) =>
          Settled() && risks == (if data.Some? then data.value else []) && message == Some(LoadedMessage(|risks|)) && error == None
        case Some(Failure(m)) =>
          Settled() && error == Some(m) && message == None && risks == old(risks)
    {
      StartRunRiskJob();
      match RiskJobService.RunRiskJob(outcomes).result
      case None =>
      case Some(Success(data)) => RunRiskJobNext(data);
      case Some(Failure(m)) => RunRiskJobError(Some(m));
    }

    /** `initRisk()` with no other action interleaved. */
    method InitRisk(outcome: RiskJobService.InitOutcome)
      modifies this
      ensures Valid() && risks == old(risks)
      ensures match RiskJobService.InitRisk(outcome)
        case None => InFlight()
        case Some(Success(_)) => Settled() && message == Some(InitSucceededMessage) && error == None
        case Some(Failure(m)) => Settled() && error == Some(m) && message == None
    {
      StartInitRisk();
      match RiskJobService.InitRisk(outcome)
      case None =>
      case Some(Success(_)) => InitRiskNext();
      case Some(Failure(m)) => InitRiskError(Some(m));
    }
  }

  /** A fresh component, run against three failures ending in a 404, shows
      "Loaded 0 borrower(s)." and no error. */
  method NotFoundScenario<R>(outcomes: seq<RiskJobService.Attempt<R>>) returns (c: RiskJobRunnerComponent<R>)
    requires RiskJobService.FailsFirst(outcomes, RiskJobService.MaxAttempts)
    requires outcomes[2].failure.status == RiskJobService.NotFound
    ensures c.risks == [] && c.message == Some("Loaded 0 borrower(s).") && c.error == None && !c.loading
  {
    c := new RiskJobRunnerComponent();
    RiskJobService.RunNotFoundAfterRetriesIsEmpty(outcomes);
    c.RunRiskJob(outcomes);
    assert Decimal.DigitChar(0) == '0';
    assert LoadedMessage(0) == "Loaded 0 borrower(s).";
  }
}
