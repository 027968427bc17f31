/** The whole install and uninstall, and what they do to the cluster between them. */
module CollectorInstall {
  import opened Options
  import opened Collector

  /** A component that is wanted says whether its resource budget parses; `valid` says whether the
      Deployment can be rendered. */
  datatype Component = Unwanted | Wanted(validBudget: bool)

  datatype Request = Request(id: int, kubeState: Component, exporter: Component, valid: bool)

  /** Something the request asks for cannot be rendered. */
  predicate Unrenderable(request: Request) {
    !request.valid || request.kubeState == Wanted(false)
  }

  function BodyOf(slot: Slot, request: Request): Body {
    Rendered(slot, request.id, false)
  }

  function ConfigBody(request: Request, exporter: bool): Body {
    Rendered(CollectorConfig, request.id, exporter)
  }

  // ---------------------------------------------------------------- what a run of writes may do

  /** Objects that are not ours, and keys that are not ours, stay as they are; whatever did
      change is ours or gone. */
  ghost predicate Respects(before: Objects, after: Objects) {
    forall key: Key ::
      && (key.Other? || IsForeign(before, key) ==> At(after, key) == At(before, key))
      && (At(after, key).Some? && At(after, key) != At(before, key) ==> At(after, key).value.managed)
  }

  lemma RespectsMore(before: Objects, middle: Objects, after: Objects, slot: Slot, body: Body)
    requires Respects(before, middle) && Touched(middle, after, slot, body)
    ensures Respects(before, after)
  {
    forall key: Key
      ensures key.Other? || IsForeign(before, key) ==> At(after, key) == At(before, key)
      ensures At(after, key).Some? && At(after, key) != At(before, key) ==> At(after, key).value.managed
    {
      assert At(after, key) == At(middle, key) || key == Named(slot);
      assert key.Other? || IsForeign(before, key) ==> At(middle, key) == At(before, key);
    }
  }

  lemma ForeignStays(before: Objects, after: Objects, key: Key)
    requires Respects(before, after)
    ensures IsForeign(after, key) <==> IsForeign(before, key)
  {
  }

  // ---------------------------------------------------------------- install

  ghost predicate BaseInstalled(objects: Objects, request: Request) {
    && Holds(objects, CollectorAccount, Rendered(CollectorAccount, request.id, false))
    && Holds(objects, CollectorRole, Rendered(CollectorRole, request.id, false))
    && Holds(objects, CollectorBinding, Rendered(CollectorBinding, request.id, false))
  }

  ghost predicate KubeStateInstalled(objects: Objects, request: Request) {
    && Holds(objects, KubeStateAccount, Rendered(KubeStateAccount, request.id, false))
    && Holds(objects, KubeStateRole, Rendered(KubeStateRole, request.id, false))
    && Holds(objects, KubeStateBinding, Rendered(KubeStateBinding, request.id, false))
    && Holds(objects, KubeStateService, Rendered(KubeStateService, request.id, false))
    && Holds(objects, KubeStateDeployment, Rendered(KubeStateDeployment, request.id, false))
  }

  ghost predicate ExporterInstalled(objects: Objects, request: Request) {
    && Holds(objects, ExporterAccount, Rendered(ExporterAccount, request.id, false))
    && Holds(objects, ExporterDaemonSet, Rendered(ExporterDaemonSet, request.id, false))
  }

  /** One more object of a run that began at `before`. */
  method Apply(api: ApiServer, ghost before: Objects, slot: Slot, body: Body) returns (r: Result)
    requires Respects(before, api.objects)
    modifies api
    ensures Respects(before, api.objects) && SameBut(old(api.objects), api.objects, Named(slot))
    ensures r.Success? ==> Holds(api.objects, slot, body)
    ensures (r.Failed? ==> api.failed) && (old(api.failed) ==> api.failed)
    ensures r.Refused? ==> r.slot == slot && IsForeign(before, Named(slot))
  {
    r := ApplyCollectorObject(api, slot, body);
    RespectsMore(before, old(api.objects), api.objects, slot, body);
    ForeignStays(before, old(api.objects), Named(slot));
  }

  ghost predicate OnlyBase(before: Objects, after: Objects) {
    forall slot: Slot :: !slot.CollectorAccount? && !slot.CollectorRole? && !slot.CollectorBinding? ==>
      At(after, Named(slot)) == At(before, Named(slot))
  }

  ghost predicate OnlyTargets(before: Objects, after: Objects) {
    forall slot: Slot :: !IsKubeState(slot) && !slot.ExporterAccount? && !slot.ExporterDaemonSet? ==>
      At(after, Named(slot)) == At(before, Named(slot))
  }

  ghost predicate OnlyWorkload(before: Objects, after: Objects) {
    forall slot: Slot :: !slot.CollectorConfig? && !slot.CollectorDeployment? ==>
      At(after, Named(slot)) == At(before, Named(slot))
  }

  method ApplyBase(api: ApiServer, ghost before: Objects, request: Request) returns (r: Result)
    requires Respects(before, api.objects)
    modifies api
    ensures Respects(before, api.objects)
    ensures OnlyBase(old(api.objects), api.objects)
    ensures r.Success? ==> BaseInstalled(api.objects, request)
    ensures r.Failed? ==> api.failed
    ensures r.Refused? ==> IsForeign(before, Named(r.slot))
  {
    r := Apply(api, before, CollectorAccount, BodyOf(CollectorAccount, request));
    if !r.Success? { return; }
    r := Apply(api, before, CollectorRole, BodyOf(CollectorRole, request));
    if !r.Success? { return; }
    r := Apply(api, before, CollectorBinding, BodyOf(CollectorBinding, request));
  }

  predicate IsKubeState(slot: Slot) {
    slot.KubeStateAccount? || slot.KubeStateRole? || slot.KubeStateBinding? || slot.KubeStateService?
      || slot.KubeStateDeployment?
  }

  method ApplyKubeStateMetrics(api: ApiServer, ghost before: Objects, request: Request) returns (r: Result)
    requires Respects(before, api.objects) && request.kubeState.Wanted?
    modifies api
    ensures Respects(before, api.objects)
    ensures forall slot: Slot :: !IsKubeState(slot) ==>
      At(api.objects, Named(slot)) == At(old(api.objects), Named(slot))
    ensures r.Success? ==> KubeStateInstalled(api.objects, request)
    ensures r.Failed? ==> api.failed || Unrenderable(request)
    ensures r.Refused? ==> IsForeign(before, Named(r.slot))
  {
    r := Apply(api, before, KubeStateAccount, BodyOf(KubeStateAccount, request));
    if !r.Success? { return; }
    r := Apply(api, before, KubeStateRole, BodyOf(KubeStateRole, request));
    if !r.Success? { return; }
    r := Apply(api, before, KubeStateBinding, BodyOf(KubeStateBinding, request));
    if !r.Success? { return; }
    r := Apply(api, before, KubeStateService, BodyOf(KubeStateService, request));
    if !r.Success? { return; }
    if !request.kubeState.validBudget {
      return Failed;
    }
    r := Apply(api, before, KubeStateDeployment, BodyOf(KubeStateDeployment, request));
  }

  ghost predicate ExporterForeign(objects: Objects) {
    IsForeign(objects, Named(ExporterAccount)) || IsForeign(objects, Named(ExporterDaemonSet))
  }

  /** A failure here is reported, not fatal. */
  method ApplyNodeExporter(api: ApiServer, ghost before: Objects, request: Request) returns (installed: bool)
    requires Respects(before, api.objects) && request.exporter.Wanted?
    modifies api
    ensures Respects(before, api.objects)
    ensures forall slot: Slot :: !slot.ExporterAccount? && !slot.ExporterDaemonSet? ==>
              At(api.objects, Named(slot)) == At(old(api.objects), Named(slot))
    ensures if installed then ExporterInstalled(api.objects, request)
            else api.failed || request.exporter == Wanted(false) || ExporterForeign(before)
  {
    var account := Apply(api, before, ExporterAccount, BodyOf(ExporterAccount, request));
    if !account.Success? || !request.exporter.validBudget {
      return false;
    }
    var daemons := Apply(api, before, ExporterDaemonSet, BodyOf(ExporterDaemonSet, request));
    return daemons.Success?;
  }

  method RefreshIngestCredentials(api: ApiServer) returns (ok: bool)
    modifies api`failed
    ensures !ok ==> api.failed
  {
    ok := *;
    if !ok {
      api.failed := true;
    }
  }

  /** A complete install: every core object is in place, and whatever the configuration scrapes
      has been installed too. */
  ghost predicate Installed(objects: Objects, request: Request) {
    && HasToken(objects) && BaseInstalled(objects, request)
    && (request.kubeState.Wanted? ==> KubeStateInstalled(objects, request))
    && Holds(objects, CollectorDeployment, Rendered(CollectorDeployment, request.id, false))
    && exists exporter: bool ::
         Holds(objects, CollectorConfig, Rendered(CollectorConfig, request.id, exporter))
         && (exporter ==> request.exporter.Wanted? && ExporterInstalled(objects, request))
  }

  /** The node exporter is in place and scraped. */
  ghost predicate ScrapesExporter(objects: Objects, request: Request) {
    && ExporterInstalled(objects, request)
    && Holds(objects, CollectorConfig, Rendered(CollectorConfig, request.id, true))
  }

  /** Nothing stands in the exporter's way. */
  ghost predicate ExporterExpected(request: Request, before: Objects, failed: bool) {
    request.exporter == Wanted(true) && !failed && !ExporterForeign(before)
  }

  method ApplyTargets(api: ApiServer, ghost before: Objects, request: Request) returns (r: Result, exporter: bool)
    requires Respects(before, api.objects)
    modifies api
    ensures Respects(before, api.objects)
    ensures OnlyTargets(old(api.objects), api.objects)
    ensures r.Success? && request.kubeState.Wanted? ==> KubeStateInstalled(api.objects, request)
    ensures r.Success? && exporter ==> request.exporter.Wanted? && ExporterInstalled(api.objects, request)
    ensures r.Success? && ExporterExpected(request, before, api.failed) ==> exporter
    ensures r.Failed? ==> api.failed || Unrenderable(request)
    ensures r.Refused? ==> IsForeign(before, Named(r.slot))
  {
    r, exporter := Success, false;
    if request.kubeState.Wanted? {
      r := ApplyKubeStateMetrics(api, before, request);
      if !r.Success? { return; }
    }
    if request.exporter.Wanted? {
      exporter := ApplyNodeExporter(api, before, request);
    }
  }

  method ApplyWorkload(api: ApiServer, ghost before: Objects, request: Request, exporter: bool) returns (r: Result)
    requires Respects(before, api.objects)
    modifies api
    ensures Respects(before, api.objects)
    ensures OnlyWorkload(old(api.objects), api.objects)
    ensures r.Success? ==> Holds(api.objects, CollectorConfig, ConfigBody(request, exporter))
    ensures r.Success? ==> Holds(api.objects, CollectorDeployment, BodyOf(CollectorDeployment, request))
    ensures (r.Failed? ==> api.failed || Unrenderable(request)) && (old(api.failed) ==> api.failed)
    ensures r.Refused? ==> IsForeign(before, Named(r.slot))
  {
    r := Apply(api, before, CollectorConfig, ConfigBody(request, exporter));
    if !r.Success? { return; }
    if !request.valid { return Failed; }
    r := Apply(api, before, CollectorDeployment, BodyOf(CollectorDeployment, request));
  }

  method ApplySecret(api: ApiServer, token: Body) returns (r: Result)
    requires token.Token? && token.length >= 32
    modifies api
    ensures Respects(old(api.objects), api.objects)
    ensures r.Success? ==> HasToken(api.objects)
    ensures r.Failed? ==> api.failed
    ensures r.Refused? ==> IsForeign(old(api.objects), Named(r.slot))
    ensures HasToken(old(api.objects)) ==> api.objects == old(api.objects)
  {
    r := EnsureIngestSecret(api, token);
    RespectsMore(old(api.objects), old(api.objects), api.objects, IngestSecret, token);
    if r.Success? {
      var refreshed := RefreshIngestCredentials(api);
      if !refreshed { return Failed; }
    }
  }

  /** An install that began at `before` has succeeded. */
  ghost predicate Completed(objects: Objects, request: Request, before: Objects, failed: bool) {
    && Installed(objects, request)
    && (ExporterExpected(request, before, failed) ==> ScrapesExporter(objects, request))
  }

  /** Later parts of an install leave the earlier ones in place. */
  lemma PartsStay(secret: Objects, base: Objects, targets: Objects, workload: Objects, request: Request, exporter: bool)
    requires OnlyBase(secret, base) && OnlyTargets(base, targets) && OnlyWorkload(targets, workload)
    requires HasToken(secret) && BaseInstalled(base, request)
    requires request.kubeState.Wanted? ==> KubeStateInstalled(targets, request)
    requires exporter ==> request.exporter.Wanted? && ExporterInstalled(targets, request)
    requires Holds(workload, CollectorConfig, ConfigBody(request, exporter))
    requires Holds(workload, CollectorDeployment, BodyOf(CollectorDeployment, request))
    ensures Installed(workload, request)
    ensures exporter ==> ScrapesExporter(workload, request)
  {
    assert HasToken(workload);
    assert BaseInstalled(workload, request);
    assert request.kubeState.Wanted? ==> KubeStateInstalled(workload, request);
    assert exporter ==> ExporterInstalled(workload, request);
  }

  /** What follows the credential. */
  method InstallObjects(api: ApiServer, ghost before: Objects, request: Request) returns (r: Result)
    requires Respects(before, api.objects) && HasToken(api.objects)
    modifies api
    ensures Respects(before, api.objects)
    ensures r.Success? ==> Completed(api.objects, request, before, api.failed)
    ensures r.Failed? ==> api.failed || Unrenderable(request)
    ensures r.Refused? ==> IsForeign(before, Named(r.slot))
    ensures At(api.objects, Named(IngestSecret)) == At(old(api.objects), Named(IngestSecret))
  {
    ghost var secret := api.objects;
    r := ApplyBase(api, before, request);
    if !r.Success? { return; }
    ghost var base := api.objects;
    var exporter;
    r, exporter := ApplyTargets(api, before, request);
    if !r.Success? { return; }
    ghost var targets := api.objects;
    r := ApplyWorkload(api, before, request, exporter);
    if r.Success? {
      PartsStay(secret, base, targets, api.objects, request, exporter);
    }
  }

  method InstallMetricsCollector(api: ApiServer, request: Request, token: Body) returns (r: Result)
    requires token.Token? && token.length >= 32
    modifies api
    ensures Respects(old(api.objects), api.objects)
    ensures r.Success? ==> Completed(api.objects, request, old(api.objects), api.failed)
    ensures r.Failed? ==> api.failed || Unrenderable(request)
    ensures r.Refused? ==> IsForeign(old(api.objects), Named(r.slot))
    ensures HasToken(old(api.objects)) ==>
      At(api.objects, Named(IngestSecret)) == At(old(api.objects), Named(IngestSecret))
  {
    ghost var before := api.objects;
    r := ApplySecret(api, token);
    if r.Success? {
      r := InstallObjects(api, before, request);
    }
  }

  // ---------------------------------------------------------------- uninstall

  /** The reverse of the install: workloads first, the credential last. */
  const ORDER: seq<Slot> :=
    [ ExporterDaemonSet, ExporterAccount,
      KubeStateDeployment, KubeStateService, KubeStateBinding, KubeStateRole, KubeStateAccount,
      CollectorDeployment, CollectorConfig, CollectorBinding, CollectorRole, CollectorAccount, IngestSecret ]

  lemma EverySlotIsListedOnce(slot: Slot)
    ensures slot in ORDER
    ensures |ORDER| == 13 && forall i, j :: 0 <= i < j < 13 ==> ORDER[i] != ORDER[j]
  {
    var at := match slot
      case ExporterDaemonSet => 0 case ExporterAccount => 1
      case KubeStateDeployment => 2 case KubeStateService => 3 case KubeStateBinding => 4
      case KubeStateRole => 5 case KubeStateAccount => 6
      case CollectorDeployment => 7 case CollectorConfig => 8 case CollectorBinding => 9 case CollectorRole => 10
      case CollectorAccount => 11 case IngestSecret => 12;
    assert ORDER[at] == slot;
  }

  /** The first `k` slots of the order are gone; the rest are as they were, but for the next one,
      which may be gone as well. */
  ghost predicate ClearedTo(before: Objects, after: Objects, k: nat) {
    && k <= |ORDER|
    && (forall id: int :: At(after, Other(id)) == At(before, Other(id)))
    && (forall i :: 0 <= i < k ==> At(after, Named(ORDER[i])).None? && !IsForeign(before, Named(ORDER[i])))
    && (forall i :: k < i < |ORDER| ==> At(after, Named(ORDER[i])) == At(before, Named(ORDER[i])))
    && (k < |ORDER| ==> KeptOrRemoved(before, after, ORDER[k]))
  }

  /** Someone else's object is never the one removed. */
  ghost predicate KeptOrRemoved(before: Objects, after: Objects, slot: Slot) {
    || At(after, Named(slot)) == At(before, Named(slot))
    || (At(after, Named(slot)).None? && !IsForeign(before, Named(slot)))
  }

  ghost predicate Reaches(before: Objects, after: Objects, k: nat) {
    ClearedTo(before, after, k) && (k < |ORDER| ==> At(after, Named(ORDER[k])) == At(before, Named(ORDER[k])))
  }

  method DeleteSlot(api: ApiServer, slot: Slot) returns (r: Result)
    modifies api
    ensures SameBut(old(api.objects), api.objects, Named(slot))
    ensures KeptOrRemoved(old(api.objects), api.objects, slot)
    ensures r.Success? ==> At(api.objects, Named(slot)).None? && !IsForeign(old(api.objects), Named(slot))
    ensures r.Failed? ==> api.failed
    ensures r.Refused? ==> r.slot == slot && IsForeign(old(api.objects), Named(slot)) && api.objects == old(api.objects)
  {
    var current := api.Get(Named(slot));
    match current
    case Missing =>
      return Success;
    case ReadFailed =>
      return Failed;
    case Found(existing) =>
      if !existing.managed {
        return Refused(slot);
      }
      var deleted := api.Delete(Named(slot));
      return if deleted.WriteFailed? then Failed else Success;
  }

  lemma OneMoreCleared(before: Objects, now: Objects, after: Objects, i: nat, success: bool)
    requires Reaches(before, now, i) && i < |ORDER|
    requires SameBut(now, after, Named(ORDER[i]))
    requires KeptOrRemoved(now, after, ORDER[i])
    requires success ==> At(after, Named(ORDER[i])).None? && !IsForeign(now, Named(ORDER[i]))
    ensures ClearedTo(before, after, i)
    ensures success ==> Reaches(before, after, i + 1)
  {
    EverySlotIsListedOnce(ORDER[i]);
  }

  method UninstallMetricsCollector(api: ApiServer) returns (r: Result, ghost cleared: nat)
    modifies api
    ensures ClearedTo(old(api.objects), api.objects, cleared)
    ensures r.Success? ==> cleared == |ORDER|
    ensures r.Failed? ==> api.failed
    ensures r.Refused? ==> IsForeign(old(api.objects), Named(r.slot))
    ensures r.Refused? ==> At(api.objects, Named(r.slot)) == At(old(api.objects), Named(r.slot))
  {
    ghost var before := api.objects;
    cleared := 0;
    for i := 0 to |ORDER|
      invariant cleared == i && Reaches(before, api.objects, i)
    {
      ghost var now := api.objects;
      r := DeleteSlot(api, ORDER[i]);
      OneMoreCleared(before, now, api.objects, i, r.Success?);
      if !r.Success? {
        return;
      }
      cleared := i + 1;
    }
    var refreshed := RefreshIngestCredentials(api);
    r := if refreshed then Success else Failed;
  }

  // ---------------------------------------------------------------- main results

  /** The cluster without the thirteen. */
  function Outside(objects: Objects): Objects {
    map key | key in objects && key.Other? :: objects[key]
  }

  ghost predicate NothingForeign(objects: Objects) {
    forall slot: Slot :: !IsForeign(objects, Named(slot))
  }

  /** Whatever prefix of an install went through, a successful uninstall leaves none of the
      thirteen objects, and all other objects as they were before the install. */
  lemma UninstallUndoesInstall(before: Objects, middle: Objects, after: Objects)
    requires Respects(before, middle) && ClearedTo(middle, after, |ORDER|)
    ensures after == Outside(before)
  {
    forall key: Key ensures At(after, key) == At(Outside(before), key) {
      match key
      case Named(slot) => EverySlotIsListedOnce(slot);
      case Other(id) => assert At(after, Other(id)) == At(middle, Other(id)) == At(before, Other(id));
    }
    forall key: Key ensures key in after <==> key in Outside(before) {
      assert At(after, key) == At(Outside(before), key);
    }
    forall key | key in after ensures after[key] == Outside(before)[key] {
      assert At(after, key) == At(Outside(before), key);
    }
  }

  /** Where no slot held someone else's object, an install leaves none either, so that neither
      operation has a reason to refuse. */
  lemma NothingForeignAppears(before: Objects, middle: Objects)
    requires Respects(before, middle)
    ensures NothingForeign(middle) <==> NothingForeign(before)
  {
    forall slot: Slot ensures IsForeign(middle, Named(slot)) <==> IsForeign(before, Named(slot)) {
      ForeignStays(before, middle, Named(slot));
    }
  }

  /** However far an uninstall got, it respects what is not its own. */
  lemma UninstallRespects(before: Objects, after: Objects, k: nat)
    requires ClearedTo(before, after, k)
    ensures Respects(before, after)
  {
    forall key: Key
      ensures key.Other? || IsForeign(before, key) ==> At(after, key) == At(before, key)
      ensures At(after, key).Some? && At(after, key) != At(before, key) ==> At(after, key).value.managed
    {
      match key
      case Named(slot) =>
        EverySlotIsListedOnce(slot);
        var i :| 0 <= i < |ORDER| && ORDER[i] == slot;
      case Other(id) => assert At(after, Other(id)) == At(before, Other(id));
    }
  }

  function Position(slot: Slot): (i: nat)
    ensures i < |ORDER| && ORDER[i] == slot
  {
    EverySlotIsListedOnce(slot);
    IndexIn(ORDER, slot)
  }

  function IndexIn(slots: seq<Slot>, slot: Slot): (i: nat)
    requires slot in slots
    ensures i < |slots| && slots[i] == slot
  {
    if slots[0] == slot then 0 else 1 + IndexIn(slots[1..], slot)
  }

  /** An interrupted uninstall removes in order: if an object is gone that was there, so is
      everything before it. The credential goes last of all. */
  lemma EarlierGoFirst(before: Objects, after: Objects, k: nat, early: Slot, late: Slot)
    requires ClearedTo(before, after, k) && Position(early) < Position(late)
    requires At(before, Named(late)).Some? && At(after, Named(late)).None?
    ensures At(after, Named(early)).None?
  {
    assert At(after, Named(ORDER[Position(late)])) != At(before, Named(ORDER[Position(late)]));
    assert Position(late) <= k;
    assert At(after, Named(ORDER[Position(early)])).None?;
  }

  lemma CredentialGoesLast(before: Objects, after: Objects, k: nat, slot: Slot)
    requires ClearedTo(before, after, k) && HasToken(before) && At(after, Named(IngestSecret)).None?
    ensures At(after, Named(slot)).None?
  {
    EverySlotIsListedOnce(slot);
    assert ORDER[12] == IngestSecret;
    if slot != IngestSecret {
      assert Position(IngestSecret) == 12;
      EarlierGoFirst(before, after, k, slot, IngestSecret);
    }
  }

  /** Nothing keeps running against permissions or configuration that an uninstall has taken away. */
  lemma WorkloadsGoFirst(before: Objects, after: Objects, k: nat, slot: Slot)
    requires ClearedTo(before, after, k)
    requires At(before, Named(slot)).Some? && At(after, Named(slot)).None?
    ensures At(after, Named(match slot
      case KubeStateAccount | KubeStateRole | KubeStateBinding | KubeStateService | KubeStateDeployment =>
        KubeStateDeployment
      case ExporterAccount | ExporterDaemonSet => ExporterDaemonSet
      case _ => CollectorDeployment)).None?
  {
    EverySlotIsListedOnce(slot);
    PositionIs(slot);
    PositionIs(KubeStateDeployment);
    PositionIs(ExporterDaemonSet);
    PositionIs(CollectorDeployment);
    match slot
    case KubeStateAccount | KubeStateRole | KubeStateBinding | KubeStateService =>
      EarlierGoFirst(before, after, k, KubeStateDeployment, slot);
    case KubeStateDeployment | ExporterDaemonSet | CollectorDeployment =>
    case ExporterAccount => EarlierGoFirst(before, after, k, ExporterDaemonSet, slot);
    case _ => EarlierGoFirst(before, after, k, CollectorDeployment, slot);
  }

  lemma PositionIs(slot: Slot)
    ensures Position(slot) == match slot
              case ExporterDaemonSet => 0 case ExporterAccount => 1
              case KubeStateDeployment => 2 case KubeStateService => 3 case KubeStateBinding => 4
              case KubeStateRole => 5 case KubeStateAccount => 6
              case CollectorDeployment => 7 case CollectorConfig => 8 case CollectorBinding => 9
              case CollectorRole => 10 case CollectorAccount => 11 case IngestSecret => 12
  {
    EverySlotIsListedOnce(slot);
    assert ORDER[0] == ExporterDaemonSet && ORDER[1] == ExporterAccount && ORDER[2] == KubeStateDeployment;
    assert ORDER[3] == KubeStateService && ORDER[4] == KubeStateBinding && ORDER[5] == KubeStateRole;
    assert ORDER[6] == KubeStateAccount && ORDER[7] == CollectorDeployment && ORDER[8] == CollectorConfig;
    assert ORDER[9] == CollectorBinding && ORDER[10] == CollectorRole && ORDER[11] == CollectorAccount;
    assert ORDER[12] == IngestSecret;
  }

  /** Someone else's object, under one of the names or any other, survives unchanged whatever
      sequence of installs and uninstalls the cluster goes through. */
  lemma {:induction false} ForeignSurvives(history: seq<Objects>, i: nat, j: nat, key: Key)
    requires i <= j < |history|
    requires forall k :: 0 <= k < |history| - 1 ==> Respects(history[k], history[k + 1])
    requires IsForeign(history[i], key) || key.Other?
    ensures At(history[j], key) == At(history[i], key)
    decreases j - i
  {
    if i < j {
      assert Respects(history[i], history[i + 1]);
      ForeignSurvives(history, i + 1, j, key);
    }
  }
}
