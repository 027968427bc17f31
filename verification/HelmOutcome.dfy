/** Which outcomes of a Helm action keep its idempotency key reserved
    (pkg/agent/kubernetes_helm.go).

    Helm's engine is taken stage by stage: what each action does in which order, which stages
    write to the cluster, and which errors a stage can end with.  Everything after that, from
    the error to the reserved key, is the Agent's code. */
module HelmOutcome {
  import opened Options
  import opened ReplayCache

  datatype Action = Install | Upgrade | Rollback | Uninstall | UnknownAction

  /** `hasCrds` belongs to the chart, the rest to the request. */
  datatype Request = Request(
    action: Action, dryRun: bool, createNamespace: bool, atomic: bool, maxHistory: nat, revision: nat, hasCrds: bool)

  // ---------------------------------------------------------------- Helm, stage by stage

  /** Choose is the switch refusing an action it does not know; Undo is what `atomic` does after
      a failure; ResolveCurrent and ReadBack are the Agent's own reads around a rollback. */
  datatype Stage =
    | Configure | Discover | Choose | Prepare | Crds | Render | Namespace | Prune | Store | Apply | Undo | Purge
    | ResolveCurrent | ReadBack

  datatype Error =
    | NoSuchRelease | NoDeployedReleases | ReleaseExists
    | Refused(refusal: string)
    | NoPreviousRevision
    | Canceled | DeadlineExceeded
    | KubeStatus(code: int, reason: string)
    | OtherError

  /** Whether an action performs a stage at all.  A dry run performs none that writes. */
  predicate Performs(r: Request, stage: Stage) {
    match stage
    case Configure | Discover => true
    case Choose => r.action.UnknownAction?
    case Prepare => !r.action.UnknownAction?
    case Crds => r.action.Install? && !r.dryRun && r.hasCrds
    case Render => r.action.Install? || r.action.Upgrade?
    case Namespace => r.action.Install? && !r.dryRun && r.createNamespace
    case Prune => (r.action.Upgrade? || r.action.Rollback?) && !r.dryRun && r.maxHistory > 0
    case Store => (r.action.Install? || r.action.Upgrade? || r.action.Rollback?) && !r.dryRun
    case Apply => !r.action.UnknownAction? && !r.dryRun
    case Undo => (r.action.Install? || r.action.Upgrade?) && !r.dryRun && r.atomic
    case Purge => r.action.Uninstall? && !r.dryRun
    case ResolveCurrent => r.action.Rollback? && r.dryRun && r.revision == 0
    case ReadBack => r.action.Rollback?
  }

  /** The order of the stages: a chart's CRDs are installed before the chart is rendered, old
      revisions are pruned before a new one is stored, and `Undo` follows a failure of `Apply`. */
  function Rank(stage: Stage): nat {
    match stage
    case Configure => 0 case Discover => 1 case Choose => 2 case Prepare => 3 case Crds => 4
    case Render => 5 case Namespace => 6 case Prune => 7 case Store => 8 case Apply => 9
    case Undo => 10 case Purge => 11 case ResolveCurrent => 12 case ReadBack => 13
  }

  predicate Writes(stage: Stage) {
    stage.Crds? || stage.Namespace? || stage.Prune? || stage.Store? || stage.Apply? || stage.Undo? || stage.Purge?
  }

  /** Where an error can come from: a missing release is found wherever Helm reads or deletes a
      record, an existing one where it creates one, and the guard runs when a chart is rendered. */
  predicate CanFailWith(action: Action, stage: Stage, error: Error) {
    match error
    case NoSuchRelease | NoDeployedReleases =>
      (stage.Prepare? && !action.Install?) || stage.Undo? || stage.Purge? || stage.ResolveCurrent? || stage.ReadBack?
    case ReleaseExists => stage.Store? || (stage.Undo? && action.Upgrade?)
    case Refused(refusal) => stage.Render? && refusal in {"HelmChartCrossNamespace", "HelmChartClusterScoped"}
    case NoPreviousRevision => stage.ResolveCurrent?
    case _ => true
  }

  /** How an action went: where it stopped, or what it returned; `released` says whether Helm
      named a release. */
  datatype Run =
    | Stopped(at: Stage, error: Error)
    | Finished(released: bool, body: seq<bv8>, encodable: bool)

  predicate CanEnd(r: Request, run: Run) {
    match run
    case Stopped(at, error) => Performs(r, at) && CanFailWith(r.action, at, error)
    case Finished(_, _, _) => !r.action.UnknownAction?
  }

  /** A stage that fails may have done part of its work, except that creating a record which is
      there already does nothing. */
  predicate WritesBeforeFailing(stage: Stage, error: Error) {
    Writes(stage) && !(stage.Store? && error.ReleaseExists?)
  }

  /** Whether the cluster may have changed: some stage that writes was completed, or failed in a
      way that may have written. */
  ghost predicate MayHaveWritten(r: Request, run: Run)
    requires CanEnd(r, run)
  {
    match run
    case Stopped(at, error) =>
      || (exists earlier: Stage :: Performs(r, earlier) && Rank(earlier) < Rank(at) && Writes(earlier))
      || WritesBeforeFailing(at, error)
    case Finished(_, _, _) => !r.dryRun
  }

  // ---------------------------------------------------------------- the Agent's answer

  const HELM_NOTHING_WRITTEN: set<string> := {
    "HelmRequestInvalid", "KubernetesClientUnavailable", "HelmValuesUnreadable", "HelmValuesInvalid",
    "HelmChartUnreadable", "HelmChartDependenciesMissing", "HelmConfigurationFailed", "DiscoveryFailed",
    "HelmActionUnsupported", "HelmReleaseNoPreviousRevision", "HelmReleaseNotFound", "HelmReleaseExists",
    "HelmChartCrossNamespace", "HelmChartClusterScoped"
  }

  /** helmError. */
  function HelmError(error: Error): Response {
    match error
    case NoSuchRelease | NoDeployedReleases => Response(404, "HelmReleaseNotFound")
    case ReleaseExists => Response(409, "HelmReleaseExists")
    case Canceled => Response(408, "HelmCanceled")
    case DeadlineExceeded => Response(504, "HelmTimeout")
    case KubeStatus(code, reason) => Response(code, reason)
    case _ => Response(500, "HelmOperationFailed")
  }

  /** What one action hands on: a failure or a report to encode. */
  datatype End = Answered(response: Response) | Report(body: seq<bv8>, encodable: bool)

  /** runHelmAction: a guard refusal is reported as itself, anything else by its class. */
  function RunHelmAction(r: Request, run: Run): End
    requires CanEnd(r, run)
  {
    match run
    case Stopped(at, error) =>
      if at.Configure? then Answered(Response(503, "HelmConfigurationFailed"))
      else if at.Discover? then Answered(Response(503, "DiscoveryFailed"))
      else if at.Choose? then Answered(Response(400, "HelmActionUnsupported"))
      else if error.Refused? then Answered(Response(403, error.refusal))
      else if error.NoPreviousRevision? then Answered(Response(404, "HelmReleaseNoPreviousRevision"))
      else Answered(HelmError(error))
    case Finished(released, body, encodable) =>
      if !released then Answered(Response(500, "HelmReleaseMissing")) else Report(body, encodable)
  }

  /** helmOutcomeResult. */
  function HelmOutcomeResult(end: End, dryRun: bool, maxReportBytes: nat): Completion {
    match end
    case Answered(response) =>
      Success(Outcome(response, [], !dryRun && response.reason !in HELM_NOTHING_WRITTEN))
    case Report(body, encodable) =>
      if !encodable then Success(Outcome(Response(500, "HelmReportUnencodable"), [], !dryRun))
      else if |body| > maxReportBytes then Success(Outcome(Response(507, "HelmReportTooLarge"), [], !dryRun))
      else Success(Outcome(Response(200, ""), body, !dryRun))
  }

  /** The completion the replay cache records for an action. */
  function CompletionOf(r: Request, run: Run, maxReportBytes: nat): Completion
    requires CanEnd(r, run)
  {
    HelmOutcomeResult(RunHelmAction(r, run), r.dryRun, maxReportBytes)
  }

  // ---------------------------------------------------------------- where the table is wrong

  /** The ends that release the key although something may have been written:
      * the release is gone when a rollback that succeeded is read back, when `atomic` undoes a
        failure, or when an uninstall purges its records;
      * the release exists already when an install has created CRDs or the Namespace, when an
        upgrade or a rollback has pruned its history, or when an upgrade is being undone;
      * the guard refuses a chart whose CRDs have been installed;
      * the API Server's own reason, after a write has begun, is one of the table's. */
  predicate Releases(r: Request, run: Run)
    requires CanEnd(r, run)
  {
    && run.Stopped? && !r.dryRun
    && var stage := run.at;
    match run.error
    case NoSuchRelease | NoDeployedReleases => stage.Undo? || stage.Purge? || stage.ReadBack?
    case ReleaseExists =>
      stage.Undo? || (if r.action.Install? then r.hasCrds || r.createNamespace else r.maxHistory > 0)
    case Refused(_) => r.action.Install? && r.hasCrds
    case KubeStatus(_, reason) =>
      && reason in HELM_NOTHING_WRITTEN
      && (if stage.Render? then r.action.Install? && r.hasCrds else Rank(stage) > Rank(Prepare))
    case _ => false
  }

  lemma WrittenBy(r: Request, at: Stage, error: Error)
    requires Performs(r, at) && CanFailWith(r.action, at, error)
    ensures MayHaveWritten(r, Stopped(at, error)) <==> !r.dryRun && match at
              case Configure | Discover | Choose | Prepare => false
              case Render => r.action.Install? && r.hasCrds
              case Store => !error.ReleaseExists?
                || (if r.action.Install? then r.hasCrds || r.createNamespace else r.maxHistory > 0)
              case _ => true
  {
    match at
    case Render => assert Performs(r, Crds) ==> Rank(Crds) < Rank(at);
    case Store =>
      assert Performs(r, Crds) ==> Rank(Crds) < Rank(at);
      assert Performs(r, Namespace) ==> Rank(Namespace) < Rank(at);
      assert Performs(r, Prune) ==> Rank(Prune) < Rank(at);
    case ReadBack => assert Performs(r, Apply) ==> Rank(Apply) < Rank(at);
    case _ =>
  }

  lemma OtherReasons()
    ensures "HelmCanceled" !in HELM_NOTHING_WRITTEN && "HelmTimeout" !in HELM_NOTHING_WRITTEN
    ensures "HelmOperationFailed" !in HELM_NOTHING_WRITTEN && "HelmReleaseMissing" !in HELM_NOTHING_WRITTEN
    ensures {"HelmConfigurationFailed", "DiscoveryFailed", "HelmActionUnsupported"} <= HELM_NOTHING_WRITTEN
  {
  }

  /** An action that may have written releases its key in exactly the ends above. */
  lemma UnreservedHelmWrite(r: Request, run: Run, maxReportBytes: nat)
    requires CanEnd(r, run)
    ensures MayHaveWritten(r, run) && !Reserves(CompletionOf(r, run, maxReportBytes)) <==> Releases(r, run)
  {
    OtherReasons();
    if run.Stopped? {
      WrittenBy(r, run.at, run.error);
    }
  }

  /** The response to an error of Helm's or of the API Server's, by what it says. */
  function ShownError(error: Error): Response {
    match error
    case NoSuchRelease | NoDeployedReleases => Response(404, "HelmReleaseNotFound")
    case NoPreviousRevision => Response(404, "HelmReleaseNoPreviousRevision")
    case ReleaseExists => Response(409, "HelmReleaseExists")
    case Refused(refusal) => Response(403, refusal)
    case Canceled => Response(408, "HelmCanceled")
    case DeadlineExceeded => Response(504, "HelmTimeout")
    case KubeStatus(code, reason) => Response(code, reason)
    case OtherError => Response(500, "HelmOperationFailed")
  }

  /** The answer to every end of an action: the report only when there is one and it fits, and
      otherwise why not, without a body. */
  lemma ShownOutcome(r: Request, run: Run, maxReportBytes: nat)
    requires CanEnd(r, run)
    ensures r.action.UnknownAction? ==> run.Stopped? && run.at in {Configure, Discover, Choose}
    ensures run.Stopped? && run.at.Choose? ==> r.action.UnknownAction?
    ensures CompletionOf(r, run, maxReportBytes).Success?
    ensures var shown := CompletionOf(r, run, maxReportBytes).result;
            match run
            case Finished(released, body, encodable) =>
              shown.body == (if shown.response.status == 200 then body else []) &&
              (if !released then shown.response == Response(500, "HelmReleaseMissing")
               else if !encodable then shown.response == Response(500, "HelmReportUnencodable")
               else if |body| > maxReportBytes then shown.response == Response(507, "HelmReportTooLarge")
               else shown.response == Response(200, ""))
            case Stopped(at, error) =>
              shown.body == [] && shown.response == (match at
                case Configure => Response(503, "HelmConfigurationFailed")
                case Discover => Response(503, "DiscoveryFailed")
                case Choose => Response(400, "HelmActionUnsupported")
                case _ => ShownError(error))
  {
  }

  /** An error that says by itself, whenever it comes, that nothing was written. */
  predicate LooksHarmless(error: Error) {
    match error
    case NoSuchRelease | NoDeployedReleases | NoPreviousRevision | ReleaseExists | Refused(_) => true
    case KubeStatus(_, reason) =>
      || reason == "HelmRequestInvalid" || reason == "KubernetesClientUnavailable"
      || reason == "HelmValuesUnreadable" || reason == "HelmValuesInvalid"
      || reason == "HelmChartUnreadable" || reason == "HelmChartDependenciesMissing"
      || reason == "HelmConfigurationFailed" || reason == "DiscoveryFailed" || reason == "HelmActionUnsupported"
      || reason == "HelmReleaseNoPreviousRevision" || reason == "HelmReleaseNotFound" || reason == "HelmReleaseExists"
      || reason == "HelmChartCrossNamespace" || reason == "HelmChartClusterScoped"
    case _ => false
  }

  /** The key stays reserved exactly after a real run that came past the choice of its action and
      did not stop with an error that looks harmless. */
  lemma HelmReservesExactly(r: Request, run: Run, maxReportBytes: nat)
    requires CanEnd(r, run)
    ensures Reserves(CompletionOf(r, run, maxReportBytes)) <==>
      !r.dryRun && (run.Stopped? ==> run.at !in {Configure, Discover, Choose} && !LooksHarmless(run.error))
  {
    OtherReasons();
  }

  /** A dry run never writes and never keeps its key, so that the apply after a preview executes. */
  lemma DryRunReleases(r: Request, run: Run, maxReportBytes: nat)
    requires CanEnd(r, run) && r.dryRun
    ensures !MayHaveWritten(r, run) && !Reserves(CompletionOf(r, run, maxReportBytes))
  {
    if run.Stopped? {
      WrittenBy(r, run.at, run.error);
    }
  }

  /** An end that may have written and yet releases its key. */
  ghost predicate Loses(r: Request, run: Run, maxReportBytes: nat) {
    CanEnd(r, run) && MayHaveWritten(r, run) && !Reserves(CompletionOf(r, run, maxReportBytes))
  }

  /** The API Server chooses the reasons of its refusals, Helm's errors are its own. */
  predicate OfHelm(run: Run) {
    run.Stopped? && !run.error.KubeStatus?
  }

  /** No real action is safe from such an end. */
  lemma EveryActionCanLose(r: Request, maxReportBytes: nat)
    ensures (exists run :: Loses(r, run, maxReportBytes)) <==> !r.action.UnknownAction? && !r.dryRun
  {
    forall run | Loses(r, run, maxReportBytes) ensures !r.action.UnknownAction? && !r.dryRun {
      UnreservedHelmWrite(r, run, maxReportBytes);
    }
    if !r.action.UnknownAction? && !r.dryRun {
      var run := Stopped(Apply, KubeStatus(503, "DiscoveryFailed"));
      UnreservedHelmWrite(r, run, maxReportBytes);
      WrittenBy(r, run.at, run.error);
      assert Loses(r, run, maxReportBytes);
    }
  }

  /** Without the API Server's help, an install can end so only after writing CRDs or a
      Namespace or while being undone, and an upgrade only after pruning or while being undone;
      a rollback and an uninstall always can. */
  predicate CanLoseByHelm(r: Request) {
    && !r.dryRun
    && match r.action
       case Install => r.hasCrds || r.createNamespace || r.atomic
       case Upgrade => r.maxHistory > 0 || r.atomic
       case Rollback | Uninstall => true
       case UnknownAction => false
  }

  lemma WhichRequestsLoseByHelm(r: Request, maxReportBytes: nat)
    ensures (exists run :: OfHelm(run) && Loses(r, run, maxReportBytes)) <==> CanLoseByHelm(r)
  {
    forall run | OfHelm(run) && Loses(r, run, maxReportBytes) ensures CanLoseByHelm(r) {
      UnreservedHelmWrite(r, run, maxReportBytes);
    }
    if CanLoseByHelm(r) {
      var run :=
        if r.action.Uninstall? then Stopped(Purge, NoSuchRelease)
        else if r.action.Rollback? then Stopped(ReadBack, NoSuchRelease)
        else if r.atomic then Stopped(Undo, NoSuchRelease)
        else Stopped(Store, ReleaseExists);
      UnreservedHelmWrite(r, run, maxReportBytes);
      WrittenBy(r, run.at, run.error);
      assert OfHelm(run) && Loses(r, run, maxReportBytes);
    }
  }
}
