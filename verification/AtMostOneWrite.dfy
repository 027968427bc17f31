/** The replay protocol and the outcome classification put together: how often a mutation
    under one idempotency key can change the cluster. */
module AtMostOneWrite {
  import opened Options
  import opened ReplayCache
  import opened ReplayProtocol
  import opened ReplayGuarantees
  import opened MutationOutcome
  import HelmOutcome

  /** What one execution did: what it was asked, how that went, and whether the cluster changed. */
  datatype Effect =
    | ResourceEffect(request: Request, decoded: Option<Object>, answer: Answer, maxBodyBytes: nat, wrote: bool)
    | HelmEffect(helm: HelmOutcome.Request, run: HelmOutcome.Run, maxReportBytes: nat, wrote: bool)

  predicate Happens(e: Effect) {
    e.HelmEffect? ==> HelmOutcome.CanEnd(e.helm, e.run)
  }

  function CompletionOf(e: Effect): Completion
    requires Happens(e)
  {
    match e
    case ResourceEffect(request, decoded, answer, maxBodyBytes, _) =>
      ExecuteMutation(request, decoded, answer, maxBodyBytes)
    case HelmEffect(helm, run, maxReportBytes, _) => HelmOutcome.CompletionOf(helm, run, maxReportBytes)
  }

  ghost predicate Possible(e: Effect)
    requires Happens(e)
  {
    match e
    case ResourceEffect(request, decoded, answer, _, wrote) => CanHaveHappened(request, decoded, answer, wrote)
    case HelmEffect(helm, run, _, wrote) => wrote ==> HelmOutcome.MayHaveWritten(helm, run)
  }

  /** The writes that leave their key unreserved: an accepted object that came back in a form
      that cannot be encoded as JSON, and the Helm ends that look harmless but are not. */
  predicate Lost(e: Effect)
    requires Happens(e)
  {
    match e
    case ResourceEffect(request, _, answer, _, _) => answer.Accepted? && !answer.encodable && !request.verb.Delete?
    case HelmEffect(helm, run, _, _) => HelmOutcome.Releases(helm, run)
  }

  lemma LostExactly(e: Effect)
    requires Happens(e) && Possible(e) && e.wrote
    ensures Reserves(CompletionOf(e)) <==> !Lost(e)
  {
    match e
    case ResourceEffect(request, decoded, answer, maxBodyBytes, wrote) =>
      UnreservedWrite(request, decoded, answer, maxBodyBytes, wrote);
    case HelmEffect(helm, run, maxReportBytes, _) =>
      HelmOutcome.UnreservedHelmWrite(helm, run, maxReportBytes);
  }

  /** `e` is what call `c` did in its execution. */
  ghost predicate Explains(e: Effect, c: Call) {
    Happens(e) && Ended(c) && c.phase.ret.completion == CompletionOf(e) && Possible(e)
  }

  /** Once an execution has written, every other execution under its key ended before it
      started or starts a whole `ttl` after it ended, unless its entry was evicted: at most
      one write per key and window.  Only lost writes are excepted, and each of them can happen
      twice (LostWritesAllowTwo). */
  lemma AtMostOneWritePerWindow(run: seq<System>, steps: seq<Step>, l: Limits, i: nat, c: nat, d: nat, e: Effect)
    requires IsRun(run, steps, l) && i < |run| && c < |run[i].calls| && d < |run[i].calls| && c != d
    requires Explains(e, run[i].calls[c]) && e.wrote && !Lost(e)
    requires Started(run[i].calls[d]) && run[i].calls[d].key == run[i].calls[c].key
    ensures var first, second := run[i].calls[c], run[i].calls[d];
            || (Ended(second) && second.phase.ret.endedAt <= StartOf(first))
            || first.phase.ret.endedAt + l.ttl <= StartOf(second)
            || (IdOf(first) in run[i].evicted && first.phase.ret.endedAt <= StartOf(second))
  {
    AtMostOnceInEveryRun(run, steps, l, i, c, d);
    LostExactly(e);
  }

  // ---------------------------------------------------------------- every lost write can happen twice

  const ARRIVED := Call("k", [0], Entering(1))
  const PENDING := NewRecord([0])

  function RunningAs(id: nat): Call {
    ARRIVED.(phase := Executing(id, 1))
  }

  function EndedAs(id: nat, c: Completion): Call {
    ARRIVED.(phase := Done(Executed(id, 1, 1, c)))
  }

  /** Two calls with one request, the second after the first has ended with `c`, which does not
      reserve the key. */
  function TwiceState(i: nat, c: Completion, ttl: nat): System {
    var ended := CompletedRecord(PENDING, c, 1, ttl);
    match i
    case 0 => System(Table(map[], []), 1, [], [], {}, 0)
    case 1 => System(Table(map[], []), 1, [ARRIVED], [], {}, 0)
    case 2 => System(Table(map["k" := 0], [PENDING]), 1, [RunningAs(0)], [0], {}, 1)
    case 3 => System(Table(map[], [ended]), 1, [EndedAs(0, c)], [0], {}, 1)
    case 4 => System(Table(map[], [ended]), 1, [EndedAs(0, c), ARRIVED], [0], {}, 1)
    case 5 => System(Table(map["k" := 1], [ended, PENDING]), 1, [EndedAs(0, c), RunningAs(1)], [0, 1], {}, 1)
    case _ => System(Table(map[], [ended, ended]), 1, [EndedAs(0, c), EndedAs(1, c)], [0, 1], {}, 1)
  }

  function TwiceStep(i: nat, c: Completion): Step {
    match i
    case 0 => ArriveStep("k", [0])
    case 1 => EnterStep(0, Run(0))
    case 2 => EndStep(0, c)
    case 3 => ArriveStep("k", [0])
    case 4 => EnterStep(1, Run(1))
    case _ => EndStep(1, c)
  }

  /** Two executions under one key did `e`, at the same instant, and nothing was evicted. */
  ghost predicate TwoWrites(s: System, e: Effect) {
    && s.evicted == {} && |s.calls| == 2 && s.calls[0].key == s.calls[1].key
    && e.wrote && Explains(e, s.calls[0]) && Explains(e, s.calls[1])
    && s.calls[0].phase.ret.endedAt == s.calls[1].phase.ret.startedAt
  }

  /** The exception is exact: for every lost write there is a run in which it happens twice. */
  lemma LostWritesAllowTwo(e: Effect, l: Limits)
    requires Happens(e) && Possible(e) && e.wrote && Lost(e) && l.maxEntries > 0
    ensures CanHappenTwice(e, l)
  {
    LostExactly(e);
    var c := CompletionOf(e);
    var run := seq(7, i requires 0 <= i => TwiceState(i, c, l.ttl));
    var steps := seq(6, i requires 0 <= i => TwiceStep(i, c));
    forall i | 0 <= i < |steps| ensures Takes(run[i], run[i + 1], l, steps[i]) {
      TwiceTakes(c, l, i);
    }
    assert IsRun(run, steps, l);
    assert TwoWrites(run[6], e);
  }

  lemma TwiceTakes(c: Completion, l: Limits, i: nat)
    requires !Reserves(c) && l.maxEntries > 0 && i < 6
    ensures Takes(TwiceState(i, c, l.ttl), TwiceState(i + 1, c, l.ttl), l, TwiceStep(i, c))
  {
    TwiceArrives(c, l);
    TwiceEnters(c, l);
    TwiceEnds(c, l);
    assert i == 0 || i == 1 || i == 2 || i == 3 || i == 4 || i == 5;
  }

  lemma TwiceArrives(c: Completion, l: Limits)
    ensures Takes(TwiceState(0, c, l.ttl), TwiceState(1, c, l.ttl), l, TwiceStep(0, c))
    ensures Takes(TwiceState(3, c, l.ttl), TwiceState(4, c, l.ttl), l, TwiceStep(3, c))
  {
  }

  lemma TwiceEnters(c: Completion, l: Limits)
    requires l.maxEntries > 0
    ensures Takes(TwiceState(1, c, l.ttl), TwiceState(2, c, l.ttl), l, TwiceStep(1, c))
    ensures Takes(TwiceState(4, c, l.ttl), TwiceState(5, c, l.ttl), l, TwiceStep(4, c))
  {
    assert Executions(TwiceState(2, c, l.ttl).calls) == {0};
    EnterEmpty(TwiceState(1, c, l.ttl), TwiceState(2, c, l.ttl), 0, l);
    assert Executions(TwiceState(5, c, l.ttl).calls) == {1};
    EnterEmpty(TwiceState(4, c, l.ttl), TwiceState(5, c, l.ttl), 1, l);
  }

  lemma TwiceEnds(c: Completion, l: Limits)
    requires !Reserves(c)
    ensures Takes(TwiceState(2, c, l.ttl), TwiceState(3, c, l.ttl), l, TwiceStep(2, c))
    ensures Takes(TwiceState(5, c, l.ttl), TwiceState(6, c, l.ttl), l, TwiceStep(5, c))
  {
    assert TwiceState(2, c, l.ttl).table.entries - {"k"} == map[];
    assert TwiceState(5, c, l.ttl).table.entries - {"k"} == map[];
  }

  lemma EnterEmpty(s: System, s': System, c: nat, l: Limits)
    requires l.maxEntries > 0 && s.table.entries == map[] && |s.owner| == |s.table.heap|
    requires c < |s.calls| && s.calls[c].phase.Entering? && s.calls[c].key != ""
    requires s' == System(
      Table(map[s.calls[c].key := |s.table.heap|], s.table.heap + [NewRecord(s.calls[c].fingerprint)]), s.clock,
      s.calls[c := s.calls[c].(phase := Executing(|s.table.heap|, s.clock))], s.owner + [c], s.evicted,
      Max(s.peak, |Executions(s'.calls)|))
    ensures Takes(s, s', l, EnterStep(c, Run(|s.table.heap|)))
  {
    var call := s.calls[c];
    var swept := Sweep(s.table, call.phase.now);
    assert swept == s.table && MadeRoom(swept, s.table, l.maxEntries);
    assert Inserted(s.table, call.key, call.fingerprint, s'.table, Run(|s.table.heap|));
  }

  // ---------------------------------------------------------------- three such writes

  /** A ConfigMap is created and comes back in a form that cannot be encoded. */
  function Unencodable(): Effect {
    ResourceEffect(Request(Create, "", "v1", "configmaps", "ns", "cm", "", JsonPatch, false, false),
                   Some(Object("", "v1", "ConfigMap", "ns", "cm", "", "", "")), Accepted([], false), 0, true)
  }

  /** A rollback has gone through, and its release is removed before it is read back. */
  function RollbackReadBack(): Effect {
    HelmEffect(HelmOutcome.Request(HelmOutcome.Rollback, false, false, false, 0, 1, false),
               HelmOutcome.Stopped(HelmOutcome.ReadBack, HelmOutcome.NoSuchRelease), 0, true)
  }

  /** A chart's CRDs are installed, and the guard then refuses what the chart renders. */
  function RefusedAfterCrds(): Effect {
    HelmEffect(HelmOutcome.Request(HelmOutcome.Install, false, false, false, 0, 0, true),
               HelmOutcome.Stopped(HelmOutcome.Render, HelmOutcome.Refused("HelmChartClusterScoped")), 0, true)
  }

  ghost predicate CanHappenTwice(e: Effect, l: Limits) {
    exists run, steps :: IsRun(run, steps, l) && |run| == 7 && TwoWrites(run[6], e)
  }

  lemma EncodingFailureAllowsTwoWrites(l: Limits)
    requires l.maxEntries > 0
    ensures CanHappenTwice(Unencodable(), l)
  {
    LostWritesAllowTwo(Unencodable(), l);
  }

  lemma RollbackReadBackAllowsTwoWrites(l: Limits)
    requires l.maxEntries > 0
    ensures CanHappenTwice(RollbackReadBack(), l)
  {
    var e := RollbackReadBack();
    HelmOutcome.WrittenBy(e.helm, e.run.at, e.run.error);
    LostWritesAllowTwo(e, l);
  }

  lemma RefusedChartAllowsTwoWrites(l: Limits)
    requires l.maxEntries > 0
    ensures CanHappenTwice(RefusedAfterCrds(), l)
  {
    var e := RefusedAfterCrds();
    HelmOutcome.WrittenBy(e.helm, e.run.at, e.run.error);
    LostWritesAllowTwo(e, l);
  }
}
