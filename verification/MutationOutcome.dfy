/** Which outcomes of a single-object write keep its idempotency key reserved
    (pkg/agent/kubernetes_resource.go). */
module MutationOutcome {
  import opened Options
  import opened ReplayCache

  datatype Verb = Create | Update | Patch | Delete | OtherVerb

  datatype PatchType = JsonPatch | MergePatch | StrategicMergePatch | ApplyPatch | UnknownPatch

  datatype Request = Request(
    verb: Verb,
    group: string, version: string, resource: string,
    namespace: string, name: string, subresource: string,
    patchType: PatchType,
    mutationDryRun: bool,
    deleteDryRun: bool)

  /** A decoded request body; `uid` is the eviction precondition, if the body has one. */
  datatype Object = Object(
    group: string, version: string, kind: string,
    namespace: string, name: string, generateName: string,
    resourceVersion: string, uid: string)

  datatype ApiError =
    | Canceled
    | DeadlineExceeded
    | Status(code: int, reason: string)
    | Unclassified

  /** The API Server's answer to the one call an execution makes. */
  datatype Answer =
    | Accepted(body: seq<bv8>, encodable: bool)
    | Rejected(error: ApiError)

  // ---------------------------------------------------------------- single-object writes

  predicate DryRun(request: Request) {
    if request.verb.Delete? then request.deleteDryRun else request.mutationDryRun
  }

  predicate IsPodEviction(request: Request) {
    && request.group == "" && request.version == "v1" && request.resource == "pods"
    && request.verb.Create? && request.subresource == "eviction"
    && request.namespace != "" && request.name != ""
  }

  predicate MatchesIdentity(request: Request, obj: Object, nameRequired: bool) {
    && obj.kind != ""
    && obj.group == request.group && obj.version == request.version
    && obj.namespace == request.namespace && obj.generateName == ""
    && (if nameRequired then obj.name == request.name else obj.name != "")
  }

  predicate MatchesEviction(request: Request, obj: Object) {
    && obj.uid != ""
    && obj.group == "policy" && obj.version == "v1" && obj.kind == "Eviction"
    && obj.name == request.name && obj.namespace == request.namespace && obj.generateName == ""
  }

  /** Why a request never reaches the API Server, if it does not.  `decoded` is the parsed
      body, None when it is not an object. */
  function RefusalReason(request: Request, decoded: Option<Object>): Option<string> {
    match request.verb
    case Create =>
      if decoded.Some? && (if IsPodEviction(request) then MatchesEviction(request, decoded.value)
                           else MatchesIdentity(request, decoded.value, false))
      then None else Some("InvalidObject")
    case Update =>
      if decoded.None? || !MatchesIdentity(request, decoded.value, true) then Some("InvalidObject")
      else if decoded.value.resourceVersion == "" then Some("ResourceVersionRequired")
      else None
    case Patch =>
      if request.patchType.UnknownPatch? then Some("UnsupportedPatchType")
      else if request.patchType.ApplyPatch?
           && (decoded.None? || !MatchesIdentity(request, decoded.value, true)) then Some("InvalidApplyObject")
      else None
    case Delete => None
    case OtherVerb => Some("UnsupportedVerb")
  }

  /** kubernetesResourceError: the status a failed call is reported with. */
  function StatusOf(error: ApiError): int {
    match error
    case Canceled => 0
    case DeadlineExceeded => 504
    case Status(code, _) => if code > 0 then code else 500
    case Unclassified => 500
  }

  function ReasonOf(error: ApiError): string {
    match error
    case Canceled => "Canceled"
    case DeadlineExceeded => "Timeout"
    case Status(_, reason) => if reason == "" then "KubernetesAPIError" else reason
    case Unclassified => "KubernetesAPIError"
  }

  predicate FailureApplied(status: int) {
    status < 400 || status >= 500
  }

  /** executeKubernetesResourceMutation, given what the API Server answered. */
  function ExecuteMutation(request: Request, decoded: Option<Object>, answer: Answer, maxBodyBytes: nat): Completion {
    var refusal := RefusalReason(request, decoded);
    if refusal.Some? then Success(Outcome(Response(400, refusal.value), [], false))
    else if answer.Rejected? then
      var status := StatusOf(answer.error);
      Success(Outcome(Response(status, ReasonOf(answer.error)), [], !DryRun(request) && FailureApplied(status)))
    else if request.verb.Delete? then Success(Outcome(Response(200, ""), [], !DryRun(request)))
    else if !answer.encodable then Failure("marshal Kubernetes resource response")
    else if |answer.body| > maxBodyBytes then
      Success(Outcome(Response(413, "ResponseTooLarge"), [], !DryRun(request)))
    else Success(Outcome(Response(if request.verb.Create? then 201 else 200, ""), answer.body, !DryRun(request)))
  }

  // ---------------------------------------------------------------- what a write can have done

  /** The body is the object the path names, in full. */
  predicate NamesTarget(request: Request, decoded: Option<Object>) {
    decoded.Some? && var o := decoded.value;
    && o.kind != ""
    && (o.group, o.version, o.namespace, o.name, o.generateName) ==
       (request.group, request.version, request.namespace, request.name, "")
  }

  /** A new object in the path's Namespace, under a name of its own. */
  predicate NamesNew(request: Request, decoded: Option<Object>) {
    decoded.Some? && decoded.value.name != "" && NamesTarget(request.(name := decoded.value.name), decoded)
  }

  /** A policy/v1 Eviction of the Pod the path names, tied to its uid. */
  predicate EvictsTarget(request: Request, decoded: Option<Object>) {
    decoded.Some? && var o := decoded.value;
    && o.uid != ""
    && (o.group, o.version, o.kind) == ("policy", "v1", "Eviction")
    && (o.namespace, o.name, o.generateName) == (request.namespace, request.name, "")
  }

  /** The Pods eviction subresource, v1 of the core group. */
  predicate OnEviction(request: Request) {
    && (request.group, request.version, request.resource, request.subresource) == ("", "v1", "pods", "eviction")
    && request.namespace != "" && request.name != ""
  }

  /** What is sent to the API Server at all. */
  predicate IsSent(request: Request, decoded: Option<Object>) {
    match request.verb
    case Create => if OnEviction(request) then EvictsTarget(request, decoded) else NamesNew(request, decoded)
    case Update => NamesTarget(request, decoded) && decoded.value.resourceVersion != ""
    case Patch => request.patchType in {JsonPatch, MergePatch, StrategicMergePatch}
      || (request.patchType == ApplyPatch && NamesTarget(request, decoded))
    case Delete => true
    case OtherVerb => false
  }

  /** Dry runs are asked for in the options of the verb: those of a delete are its own. */
  predicate IsForReal(request: Request) {
    (request.verb.Delete? && !request.deleteDryRun) || (!request.verb.Delete? && !request.mutationDryRun)
  }

  /** Whether the cluster may have changed: a request that was not sent, a dry run, and a call the
      API Server refused with a 4xx change nothing; anything else may have. */
  predicate MayHaveWritten(request: Request, decoded: Option<Object>, answer: Answer) {
    && IsSent(request, decoded) && IsForReal(request)
    && match answer
       case Accepted(_, _) => true
       case Rejected(Status(code, _)) => code < 400 || code >= 500
       case Rejected(_) => true
  }

  predicate CanHaveHappened(request: Request, decoded: Option<Object>, answer: Answer, wrote: bool) {
    wrote ==> MayHaveWritten(request, decoded, answer)
  }

  /** What a request that is not sent is refused with. */
  function Refusal(request: Request, decoded: Option<Object>): string {
    match request.verb
    case Update => if NamesTarget(request, decoded) then "ResourceVersionRequired" else "InvalidObject"
    case Patch => if request.patchType == ApplyPatch then "InvalidApplyObject" else "UnsupportedPatchType"
    case OtherVerb => "UnsupportedVerb"
    case _ => "InvalidObject"
  }

  /** Exactly the requests that can be sent are; any other is answered without a call. */
  lemma SentExactly(request: Request, decoded: Option<Object>, answer: Answer, maxBodyBytes: nat)
    ensures RefusalReason(request, decoded).None? <==> IsSent(request, decoded)
    ensures !IsSent(request, decoded) ==>
              ExecuteMutation(request, decoded, answer, maxBodyBytes) ==
              Success(Outcome(Response(400, Refusal(request, decoded)), [], false))
  {
  }

  /** What the caller is shown of a call that was made: the API Server's own status if it gave one,
      504 for a timeout, none for a cancellation; and of an accepted one the object, if it fits. */
  lemma ShownAnswer(request: Request, decoded: Option<Object>, answer: Answer, maxBodyBytes: nat)
    requires IsSent(request, decoded)
    ensures match (answer, ExecuteMutation(request, decoded, answer, maxBodyBytes))
      case (Rejected(error), Success(shown)) =>
        shown.body == [] && shown.response == (match error
          case Canceled => Response(0, "Canceled")
          case DeadlineExceeded => Response(504, "Timeout")
          case Unclassified => Response(500, "KubernetesAPIError")
          case Status(code, reason) =>
            Response(if code <= 0 then 500 else code, if reason != "" then reason else "KubernetesAPIError"))
      case (Accepted(body, encodable), Success(shown)) =>
        if request.verb.Delete? then shown.response == Response(200, "") && shown.body == []
        else encodable && if |body| <= maxBodyBytes
          then shown.response == Response(if request.verb.Create? then 201 else 200, "") && shown.body == body
          else shown.response == Response(413, "ResponseTooLarge") && shown.body == []
      case (_, Failure(error)) =>
        error == "marshal Kubernetes resource response"
        && answer.Accepted? && !answer.encodable && !request.verb.Delete?
  {
    SentExactly(request, decoded, answer, maxBodyBytes);
  }

  /** `applied` is exact: it is set just when a write is possible, whatever status the caller
      is shown (an oversized response reads 413 and still counts as applied). */
  lemma AppliedIsExact(request: Request, decoded: Option<Object>, answer: Answer, maxBodyBytes: nat)
    ensures var c := ExecuteMutation(request, decoded, answer, maxBodyBytes);
            c.Success? ==> (c.result.applied <==> MayHaveWritten(request, decoded, answer))
  {
    SentExactly(request, decoded, answer, maxBodyBytes);
    if answer.Rejected? {
      assert FailureApplied(StatusOf(answer.error)) <==>
        (answer.error.Status? ==> answer.error.code < 400 || answer.error.code >= 500);
    }
  }

  /** The key stays reserved exactly when something may have been written, unless the accepted
      object could not be encoded: refusals and dry runs always give it back. */
  lemma ReservesExactly(request: Request, decoded: Option<Object>, answer: Answer, maxBodyBytes: nat)
    ensures Reserves(ExecuteMutation(request, decoded, answer, maxBodyBytes)) <==>
      && MayHaveWritten(request, decoded, answer)
      && !(answer.Accepted? && !answer.encodable && !request.verb.Delete?)
  {
    AppliedIsExact(request, decoded, answer, maxBodyBytes);
    SentExactly(request, decoded, answer, maxBodyBytes);
  }

  /** A write leaves its key unreserved exactly when the accepted object could not be encoded. */
  lemma UnreservedWrite(request: Request, decoded: Option<Object>, answer: Answer, maxBodyBytes: nat, wrote: bool)
    requires CanHaveHappened(request, decoded, answer, wrote)
    ensures wrote && !Reserves(ExecuteMutation(request, decoded, answer, maxBodyBytes))
       <==> wrote && answer.Accepted? && !answer.encodable && !request.verb.Delete?
  {
    ReservesExactly(request, decoded, answer, maxBodyBytes);
  }
}
