/** Assembling the Cluster overview from the running totals of every cached resource
    (pkg/agent/resourcecache/overview.go). */
module Overview {
  import opened Aggregates
  import opened AggregateGuarantees
  import opened Sorting

  const MAX_ITEMS_PER_SECTION := 10000

  /** Which part of the overview a section name feeds. */
  datatype Part = Nodes | Namespaces | Pods | Volumes | Claims | Workload(resource: string) | Elsewhere

  const WORKLOAD_PREFIX := "workloads."

  function PartOf(section: string): Part {
    if section == "nodes" then Nodes
    else if section == "namespaces" then Namespaces
    else if section == "pods" then Pods
    else if section == "storage.persistentvolumes" then Volumes
    else if section == "storage.persistentvolumeclaims" then Claims
    else if WORKLOAD_PREFIX <= section then Workload(section[|WORKLOAD_PREFIX|..])
    else Elsewhere
  }

  datatype SectionState = SectionState(
    section: string, synced: bool, code: string, lastSuccessAt: nat, observed: nat, truncated: bool)

  datatype NodeTotals = NodeTotals(
    total: int, unschedulable: int, statusCounts: map<string, int>, versions: map<string, int>,
    cpuCapacity: int, cpuAllocatable: int, memoryCapacity: int, memoryAllocatable: int,
    podCapacity: int, podAllocatable: int)

  datatype PodTotals = PodTotals(
    total: int, ready: int, notReady: int, terminating: int, statusCounts: map<string, int>,
    cpuRequested: int, memoryRequested: int, nonTerminal: int)

  /** Namespaces, volumes, claims and workloads; `bytes` is a capacity, a request, or zero. */
  datatype CountTotals = CountTotals(total: int, statusCounts: map<string, int>, bytes: int)

  datatype Content = Content(
    nodes: NodeTotals, namespaces: CountTotals, pods: PodTotals, volumes: CountTotals, claims: CountTotals,
    workloads: seq<(string, CountTotals)>)

  /** The published snapshot; a part nothing has reported on is empty. */
  datatype Snapshot = Snapshot(
    cacheSynced: bool, stale: bool, lastSuccessAt: nat, sections: seq<SectionState>, content: Content)

  const NO_COUNT := CountTotals(0, map[], 0)

  const EMPTY_SNAPSHOT := Snapshot(true, false, 0, [],
    Content(NodeTotals(0, 0, map[], map[], 0, 0, 0, 0, 0, 0), NO_COUNT, PodTotals(0, 0, 0, 0, map[], 0, 0, 0),
            NO_COUNT, NO_COUNT, []))

  /** What one store reports when its lock is held for a copy. */
  datatype Report = Report(
    section: string, absent: bool, synced: bool, failureCode: string, lastSuccessAt: nat, observed: nat, totals: Totals)

  predicate Sectioned(r: Report) {
    r.section != ""
  }

  predicate Visible(r: Report) {
    Sectioned(r) && !r.absent && r.synced
  }

  function StateOf(r: Report): SectionState {
    SectionState(r.section, !r.absent && r.synced,
                 if !r.absent && !r.synced then "warming_up" else r.failureCode,
                 r.lastSuccessAt, r.observed, r.observed > MAX_ITEMS_PER_SECTION)
  }

  function NodesOf(t: Totals): NodeTotals {
    NodeTotals(t.total, t.unschedulable, t.statusCounts, t.versionCounts, t.cpuCapacity, t.cpuAllocatable,
               t.memoryCapacity, t.memoryAllocatable, t.podCapacity, t.podAllocatable)
  }

  function PodsOf(t: Totals): PodTotals {
    PodTotals(t.total, t.ready, t.notReady, t.terminating, t.statusCounts, t.cpuRequested, t.memoryRequested,
      t.nonTerminal)
  }

  /** mergeSection. */
  function Merge(c: Content, section: string, t: Totals): Content {
    match PartOf(section)
    case Nodes => c.(nodes := NodesOf(t))
    case Namespaces => c.(namespaces := CountTotals(t.total, t.statusCounts, 0))
    case Pods => c.(pods := PodsOf(t))
    case Volumes => c.(volumes := CountTotals(t.total, t.statusCounts, t.storageCapacity))
    case Claims => c.(claims := CountTotals(t.total, t.statusCounts, t.storageRequested))
    case Workload(resource) => c.(workloads := c.workloads + [(resource, CountTotals(t.total, t.statusCounts, 0))])
    case Elsewhere => c
  }

  /** One turn of the loop over the cached resources. */
  function Add(s: Snapshot, r: Report): Snapshot {
    if !Sectioned(r) then s
    else if !Visible(r) then
      Snapshot(false, true, s.lastSuccessAt, s.sections + [StateOf(r)], s.content)
    else
      Snapshot(s.cacheSynced, s.stale || r.failureCode != "", Later(s.lastSuccessAt, r.lastSuccessAt),
               s.sections + [StateOf(r)], Merge(s.content, r.section, r.totals))
  }

  function Later(a: nat, b: nat): nat {
    if b > a then b else a
  }

  function Assemble(reports: seq<Report>): Snapshot {
    if reports == [] then EMPTY_SNAPSHOT else Add(Assemble(reports[..|reports| - 1]), reports[|reports| - 1])
  }

  lemma AssembleNext(reports: seq<Report>, i: nat)
    requires i < |reports|
    ensures Assemble(reports[..i + 1]) == Add(Assemble(reports[..i]), reports[i])
  {
    assert reports[..i + 1][..i] == reports[..i];
  }

  function SectionKey(state: SectionState): string {
    state.section
  }

  function WorkloadKey(w: (string, CountTotals)): string {
    w.0
  }

  /** A snapshot as it is handed out: sections and workloads sorted by name, all else as assembled. */
  predicate Publishes(snapshot: Snapshot, assembled: Snapshot) {
    && snapshot == assembled.(sections := snapshot.sections,
                              content := assembled.content.(workloads := snapshot.content.workloads))
    && multiset(snapshot.sections) == multiset(assembled.sections)
    && multiset(snapshot.content.workloads) == multiset(assembled.content.workloads)
    && (forall i, j | 0 <= i < j < |snapshot.sections| ::
          !Before(snapshot.sections[j].section, snapshot.sections[i].section))
    && (forall i, j | 0 <= i < j < |snapshot.content.workloads| ::
          !Before(snapshot.content.workloads[j].0, snapshot.content.workloads[i].0))
  }

  // ---------------------------------------------------------------- the cache

  class Cache {
    var order: seq<string>
    var stores: map<string, Store>
    var absent: set<string>

    ghost predicate Valid()
      reads this, stores.Values, set s <- stores.Values :: s.totals
    {
      && (forall gvr <- order :: gvr in stores)
      && (forall gvr <- stores :: stores[gvr].Valid())
    }

    function ReportOf(gvr: string): Report
      requires gvr in stores
      reads this, stores[gvr], stores[gvr].totals
    {
      var store := stores[gvr];
      Report(store.section, gvr in absent, store.synced, store.failureCode, store.lastSuccessAt, |store.items|,
             store.totals.View())
    }

    ghost function Reports(): (reports: seq<Report>)
      requires Valid()
      reads this, stores.Values, set s <- stores.Values :: s.totals
      ensures |reports| == |order|
      ensures forall i | 0 <= i < |order| :: reports[i] == ReportOf(order[i])
    {
      seq(|order|, i requires 0 <= i < |order| && Valid() reads this, stores.Values,
        (set s <- stores.Values :: s.totals)
          => ReportOf(order[i]))
    }

    /** The body of the loop in OverviewSnapshot. */
    method Turn(before: Snapshot, report: Report) returns (snapshot: Snapshot)
      ensures snapshot == Add(before, report)
    {
      if report.section == "" {
        return before;
      }
      snapshot := before.(sections := before.sections + [StateOf(report)]);
      if report.absent || !report.synced {
        return snapshot.(cacheSynced := false, stale := true);
      }
      if report.failureCode != "" {
        snapshot := snapshot.(stale := true);
      }
      if report.lastSuccessAt > snapshot.lastSuccessAt {
        snapshot := snapshot.(lastSuccessAt := report.lastSuccessAt);
      }
      snapshot := snapshot.(content := Merge(snapshot.content, report.section, report.totals));
    }

    method OverviewSnapshot() returns (snapshot: Snapshot)
      requires Valid()
      ensures Publishes(snapshot, Assemble(Reports()))
    {
      snapshot := EMPTY_SNAPSHOT;
      ghost var reports := Reports();
      for i := 0 to |order|
        invariant snapshot == Assemble(reports[..i])
      {
        var report := ReportOf(order[i]);
        AssembleNext(reports, i);
        snapshot := Turn(snapshot, report);
      }
      assert reports[..|order|] == reports;
      SortedIsSorted(snapshot.sections, SectionKey);
      SortedIsSorted(snapshot.content.workloads, WorkloadKey);
      snapshot := snapshot.(sections := Sorted(snapshot.sections, SectionKey),
                            content := snapshot.content.(workloads := Sorted(snapshot.content.workloads, WorkloadKey)));
    }

    lemma ReportsAre()
      requires Valid()
      ensures forall gvr <- order :: ReportOf(gvr) in Reports()
      ensures forall r <- Reports() :: exists gvr <- order :: r == ReportOf(gvr)
    {
      forall gvr | gvr in order ensures ReportOf(gvr) in Reports() {
        var i :| 0 <= i < |order| && order[i] == gvr;
        assert Reports()[i] == ReportOf(gvr);
      }
      forall r | r in Reports() ensures exists gvr <- order :: r == ReportOf(gvr) {
        var i :| 0 <= i < |order| && Reports()[i] == r;
        assert order[i] in order && r == ReportOf(order[i]);
      }
    }

    /** The published health, on the stores themselves: whether every section's resource is there and
        listed, and whether one is not or is failing. */
    lemma SnapshotHealth(snapshot: Snapshot)
      requires Valid() && Publishes(snapshot, Assemble(Reports()))
      ensures snapshot.cacheSynced <==>
        forall gvr <- order :: stores[gvr].section != "" ==> stores[gvr].synced && gvr !in absent
      ensures snapshot.stale <==>
        exists gvr <- order ::
          stores[gvr].section != "" && (!stores[gvr].synced || gvr in absent || stores[gvr].failureCode != "")
    {
      HealthIsJudgedOverAllSections(Reports());
      ReportsAre();
    }

    /** And the latest success among the sections shown, if there is any. */
    lemma SnapshotLastSuccess(snapshot: Snapshot)
      requires Valid() && Publishes(snapshot, Assemble(Reports()))
      ensures forall gvr <- order | stores[gvr].section != "" && stores[gvr].synced && gvr !in absent ::
                stores[gvr].lastSuccessAt <= snapshot.lastSuccessAt
      ensures snapshot.lastSuccessAt == 0
           || exists gvr <- order :: stores[gvr].synced && stores[gvr].lastSuccessAt == snapshot.lastSuccessAt
    {
      LastSuccessIsLatest(Reports());
      ReportsAre();
    }

    /** Every store with a section has its state published. */
    lemma SnapshotStates(snapshot: Snapshot, gvr: string)
      requires Valid() && Publishes(snapshot, Assemble(Reports())) && gvr in order && stores[gvr].section != ""
      ensures exists state <- snapshot.sections :: DescribesStore(state, stores[gvr], gvr in absent)
    {
      var i :| 0 <= i < |order| && order[i] == gvr;
      assert Reports()[i] == ReportOf(gvr);
      var state := PublishedState(snapshot, Reports(), i);
      assert DescribesStore(state, stores[gvr], gvr in absent);
    }

    /** Every section that is synced is shown with the numbers of a walk over the objects its store
        holds, whatever the order of the resources. */
    lemma SnapshotMatchesWalk(snapshot: Snapshot, i: nat)
      requires Valid() && Publishes(snapshot, Assemble(Reports())) && DistinctSections(Reports())
      requires i < |order| && Visible(ReportOf(order[i])) && NonNegativeEvents(stores[order[i]].history)
      ensures ItemsAfter(stores[order[i]].history) == stores[order[i]].items
      ensures ShowsWalk(snapshot.content, stores[order[i]].section, stores[order[i]].history)
    {
      var store := stores[order[i]];
      assert store.Valid();
      assert Reports()[i] == ReportOf(order[i]);
      PublishedMatchesWalk(snapshot, Reports(), i, store.history);
    }
  }

  // ---------------------------------------------------------------- what the overview says

  /** The state that is published of a store. */
  predicate DescribesStore(state: SectionState, store: Store, absent: bool)
    reads store
  {
    && state.section == store.section && state.lastSuccessAt == store.lastSuccessAt
    && state.observed == |store.items| && (state.truncated <==> |store.items| > 10_000)
    && (state.synced <==> store.synced && !absent)
    && state.code == (if store.synced || absent then store.failureCode else "warming_up")
  }

  lemma LastReport(reports: seq<Report>, rest: seq<Report>, last: Report)
    requires reports == rest + [last]
    ensures forall r :: r in reports <==> r in rest || r == last
  {
  }

  /** The cache is synced when every sectioned resource is present and synced, and stale when
      some section is not, or is currently failing. */
  lemma {:induction false} HealthIsJudgedOverAllSections(reports: seq<Report>)
    ensures Assemble(reports).cacheSynced <==> forall r <- reports :: Sectioned(r) ==> Visible(r)
    ensures Assemble(reports).stale <==> exists r <- reports :: Sectioned(r) && (!Visible(r) || r.failureCode != "")
  {
    if reports != [] {
      var rest, last := reports[..|reports| - 1], reports[|reports| - 1];
      HealthIsJudgedOverAllSections(rest);
      LastReport(reports, rest, last);
    }
  }

  /** The last success is the latest one among the sections shown. */
  lemma {:induction false} LastSuccessIsLatest(reports: seq<Report>)
    ensures forall r <- reports :: Visible(r) ==> r.lastSuccessAt <= Assemble(reports).lastSuccessAt
    ensures Assemble(reports).lastSuccessAt == 0
         || exists r <- reports :: Visible(r) && r.lastSuccessAt == Assemble(reports).lastSuccessAt
  {
    if reports != [] {
      var rest, last := reports[..|reports| - 1], reports[|reports| - 1];
      LastSuccessIsLatest(rest);
      LastReport(reports, rest, last);
    }
  }

  /** What is published of a section: synced if its resource is there and has been listed, its
      failure or that it is still warming up, and whether it holds more objects than the overview
      promises to count. */
  predicate Describes(state: SectionState, r: Report) {
    && state.section == r.section && state.lastSuccessAt == r.lastSuccessAt && state.observed == r.observed
    && (state.synced <==> r.synced && !r.absent)
    && state.code == (if r.synced || r.absent then r.failureCode else "warming_up")
    && (state.truncated <==> r.observed > 10_000)
  }

  /** The reports that name a section, in their order. */
  function SectionedReports(reports: seq<Report>): seq<Report> {
    if reports == [] then []
    else if reports[|reports| - 1].section == "" then SectionedReports(reports[..|reports| - 1])
    else SectionedReports(reports[..|reports| - 1]) + [reports[|reports| - 1]]
  }

  lemma {:induction false} SectionedHas(reports: seq<Report>, r: Report)
    requires r in reports && r.section != ""
    ensures r in SectionedReports(reports)
  {
    if r != reports[|reports| - 1] {
      SectionedHas(reports[..|reports| - 1], r);
    }
  }

  /** The section states are those of the sectioned resources, one each. */
  lemma {:induction false} EverySectionIsListed(reports: seq<Report>)
    ensures var shown, sections := SectionedReports(reports), Assemble(reports).sections;
            |sections| == |shown| && forall i :: 0 <= i < |shown| ==> Describes(sections[i], shown[i])
  {
    if reports != [] {
      EverySectionIsListed(reports[..|reports| - 1]);
    }
  }

  lemma PublishedState(snapshot: Snapshot, reports: seq<Report>, i: nat) returns (state: SectionState)
    requires Publishes(snapshot, Assemble(reports)) && i < |reports| && reports[i].section != ""
    ensures state in snapshot.sections && Describes(state, reports[i])
  {
    EverySectionIsListed(reports);
    SectionedHas(reports, reports[i]);
    var k :| 0 <= k < |SectionedReports(reports)| && SectionedReports(reports)[k] == reports[i];
    state := Assemble(reports).sections[k];
    assert state in multiset(snapshot.sections);
  }

  /** A resource without a section never affects the overview. */
  lemma {:induction false} SectionlessIsInvisible(before: seq<Report>, r: Report, after: seq<Report>)
    requires !Sectioned(r)
    ensures Assemble(before + [r] + after) == Assemble(before + after)
  {
    if after == [] {
      assert (before + [r] + after)[..|before|] == before && before + after == before;
      assert before + [r] + after == before + [r];
    } else {
      var rest := after[..|after| - 1];
      assert (before + [r] + after)[..|before + [r] + after| - 1] == before + [r] + rest;
      assert (before + after)[..|before + after| - 1] == before + rest;
      SectionlessIsInvisible(before, r, rest);
    }
  }

  /** A section's part of the overview shows exactly these totals. */
  predicate Shows(c: Content, section: string, t: Totals) {
    if section == "nodes" then
      c.nodes == NodeTotals(t.total, t.unschedulable, t.statusCounts, t.versionCounts, t.cpuCapacity, t.cpuAllocatable,
                            t.memoryCapacity, t.memoryAllocatable, t.podCapacity, t.podAllocatable)
    else if section == "pods" then
      c.pods == PodTotals(t.total, t.ready, t.notReady, t.terminating, t.statusCounts, t.cpuRequested,
                          t.memoryRequested, t.nonTerminal)
    else if section == "namespaces" then c.namespaces == CountTotals(t.total, t.statusCounts, 0)
    else if section == "storage.persistentvolumes" then
      c.volumes == CountTotals(t.total, t.statusCounts, t.storageCapacity)
    else if section == "storage.persistentvolumeclaims" then
      c.claims == CountTotals(t.total, t.statusCounts, t.storageRequested)
    else "workloads." <= section ==>
      exists w <- c.workloads :: "workloads." + w.0 == section && w.1 == CountTotals(t.total, t.statusCounts, 0)
  }

  ghost predicate DistinctSections(reports: seq<Report>) {
    forall i, j | 0 <= i < j < |reports| && Sectioned(reports[i]) :: reports[i].section != reports[j].section
  }

  lemma WorkloadSection(section: string)
    requires "workloads." <= section
    ensures section == "workloads." + section[10..]
    ensures section !in ["nodes", "pods", "namespaces", "storage.persistentvolumes", "storage.persistentvolumeclaims"]
    ensures PartOf(section) == Workload(section[10..])
  {
    assert section[0] == 'w';
  }

  lemma MergeKeepsOthers(c: Content, section: string, t: Totals, other: string, u: Totals)
    requires Shows(c, section, t) && section != other
    ensures Shows(Merge(c, other, u), section, t)
  {
    if "workloads." <= section {
      WorkloadSection(section);
    }
  }

  lemma MergeShows(c: Content, section: string, t: Totals)
    ensures Shows(Merge(c, section, t), section, t)
  {
    if "workloads." <= section {
      WorkloadSection(section);
      var w := (section[10..], CountTotals(t.total, t.statusCounts, 0));
      assert w in Merge(c, section, t).workloads;
    }
  }

  /** Every visible section is shown with its own totals, wherever it stands in the order. */
  lemma {:induction false} VisibleSectionsAreShown(reports: seq<Report>, i: nat)
    requires DistinctSections(reports) && i < |reports| && Visible(reports[i])
    ensures Shows(Assemble(reports).content, reports[i].section, reports[i].totals)
  {
    var rest, last := reports[..|reports| - 1], reports[|reports| - 1];
    if i == |reports| - 1 {
      MergeShows(Assemble(rest).content, last.section, last.totals);
    } else {
      VisibleSectionsAreShown(rest, i);
      MergeKeepsOthers(Assemble(rest).content, reports[i].section, reports[i].totals, last.section, last.totals);
    }
  }

  /** The sections of the resources that are there and have been listed. */
  function SectionsOf(reports: seq<Report>): set<string> {
    set r <- reports | r.synced && !r.absent :: r.section
  }

  /** A part is empty unless its section is among these, and each workload is of one of them. */
  predicate IsFedBy(c: Content, sections: set<string>) {
    && ("nodes" in sections || c.nodes == NodeTotals(0, 0, map[], map[], 0, 0, 0, 0, 0, 0))
    && ("pods" in sections || c.pods == PodTotals(0, 0, 0, 0, map[], 0, 0, 0))
    && ("namespaces" in sections || c.namespaces == CountTotals(0, map[], 0))
    && ("storage.persistentvolumes" in sections || c.volumes == CountTotals(0, map[], 0))
    && ("storage.persistentvolumeclaims" in sections || c.claims == CountTotals(0, map[], 0))
    && forall w <- c.workloads :: "workloads." + w.0 in sections
  }

  lemma MergeFeeds(c: Content, sections: set<string>, section: string, t: Totals)
    requires IsFedBy(c, sections)
    ensures IsFedBy(Merge(c, section, t), sections + {section})
  {
    if "workloads." <= section {
      WorkloadSection(section);
    }
  }

  lemma SectionsGrow(reports: seq<Report>)
    requires reports != []
    ensures var last := reports[|reports| - 1];
            SectionsOf(reports) ==
            SectionsOf(reports[..|reports| - 1]) + if last.synced && !last.absent then {last.section} else {}
  {
    LastReport(reports, reports[..|reports| - 1], reports[|reports| - 1]);
  }

  /** Nothing is shown but what visible sections feed. */
  lemma {:induction false} NothingElseIsShown(reports: seq<Report>)
    ensures IsFedBy(Assemble(reports).content, SectionsOf(reports))
  {
    if reports != [] {
      var rest, last := reports[..|reports| - 1], reports[|reports| - 1];
      NothingElseIsShown(rest);
      SectionsGrow(reports);
      MergeFeeds(Assemble(rest).content, SectionsOf(rest), last.section, last.totals);
    }
  }

  predicate NamedOnce(workloads: seq<(string, CountTotals)>) {
    forall i, j :: 0 <= i < j < |workloads| ==> workloads[i].0 != workloads[j].0
  }

  lemma MergeNamesOnce(c: Content, sections: set<string>, section: string, t: Totals)
    requires IsFedBy(c, sections) && NamedOnce(c.workloads) && section !in sections
    ensures NamedOnce(Merge(c, section, t).workloads)
  {
    if "workloads." <= section {
      WorkloadSection(section);
      assert forall w <- c.workloads :: w.0 != section[10..];
    }
  }

  /** No workload is shown twice. */
  lemma {:induction false} WorkloadsAreShownOnce(reports: seq<Report>)
    requires DistinctSections(reports)
    ensures NamedOnce(Assemble(reports).content.workloads)
  {
    if reports != [] {
      var rest, last := reports[..|reports| - 1], reports[|reports| - 1];
      WorkloadsAreShownOnce(rest);
      NothingElseIsShown(rest);
      if last.section != "" {
        assert last.section !in SectionsOf(rest);
        MergeNamesOnce(Assemble(rest).content, SectionsOf(rest), last.section, last.totals);
      }
    }
  }

  /** What a walk over a section's objects would put in its place: exact counts, and capacity
      and request sums that are never larger than the true ones, and equal to them unless the
      true sum has left the range since the last listing. */
  ghost predicate ShowsWalk(c: Content, section: string, h: seq<Event>) {
    var items := ItemsAfter(h);
    if section == "nodes" then
      && c.nodes.total == Sum(items, One()) && c.nodes.unschedulable == Sum(items, Flagged(Unschedulable))
      && Tallies(c.nodes.statusCounts, items, InStatus) && Tallies(c.nodes.versions, items, InVersion)
      && Measures(c.nodes.cpuCapacity, h, CpuCapacity)
      && Measures(c.nodes.cpuAllocatable, h, CpuAllocatable)
      && Measures(c.nodes.memoryCapacity, h, MemoryCapacity)
      && Measures(c.nodes.memoryAllocatable, h, MemoryAllocatable)
      && Measures(c.nodes.podCapacity, h, PodCapacity)
      && Measures(c.nodes.podAllocatable, h, PodAllocatable)
    else if section == "pods" then
      && c.pods.total == Sum(items, One()) && c.pods.ready == Sum(items, Flagged(Ready))
      && c.pods.notReady == Sum(items, Flagged(NotReady)) && c.pods.terminating == Sum(items, Flagged(Terminating))
      && c.pods.nonTerminal == Sum(items, Flagged(NonTerminal))
      && Tallies(c.pods.statusCounts, items, InStatus)
      && Measures(c.pods.cpuRequested, h, CpuRequested)
      && Measures(c.pods.memoryRequested, h, MemoryRequested)
    else if section == "namespaces" then CountsWalk(c.namespaces, items) && c.namespaces.bytes == 0
    else if section == "storage.persistentvolumes" then
      CountsWalk(c.volumes, items) && Measures(c.volumes.bytes, h, StorageCapacity)
    else if section == "storage.persistentvolumeclaims" then
      CountsWalk(c.claims, items) && Measures(c.claims.bytes, h, StorageRequested)
    else "workloads." <= section ==>
      exists w <- c.workloads :: "workloads." + w.0 == section && CountsWalk(w.1, items)
  }

  ghost predicate Measures(shown: int, h: seq<Event>, m: Measure) {
    && 0 <= shown <= Clamp(Sum(ItemsAfter(h), Amount(m)))
    && ((forall n | 0 <= n <= |h| :: Sum(ItemsAfter(h[..n]), Amount(m)) <= MAX_INT64) ==>
          shown == Sum(ItemsAfter(h), Amount(m)))
  }

  ghost predicate CountsWalk(c: CountTotals, items: Items) {
    c.total == Sum(items, One()) && Tallies(c.statusCounts, items, InStatus)
  }

  /** The overview equals a recomputation over the cached objects, section by section. */
  lemma OverviewMatchesWalk(reports: seq<Report>, i: nat, h: seq<Event>)
    requires DistinctSections(reports) && i < |reports| && Visible(reports[i])
    requires reports[i].totals == TotalsAfter(h) && NonNegativeEvents(h)
    ensures ShowsWalk(Assemble(reports).content, reports[i].section, h)
  {
    VisibleSectionsAreShown(reports, i);
    CountsAreExact(h);
    forall m: Measure ensures Measures(MeasureOf(TotalsAfter(h), m), h, m) {
      TotalsAreBounded(h, m);
      if forall n | 0 <= n <= |h| :: Sum(ItemsAfter(h[..n]), Amount(m)) <= MAX_INT64 {
        ExactUpTo(h, m, |h|);
        assert h[..|h|] == h;
      }
    }
    WalkOf(Assemble(reports).content, reports[i].section, h, TotalsAfter(h));
  }

  lemma WalkOf(c: Content, section: string, h: seq<Event>, t: Totals)
    requires Shows(c, section, t) && CountsAgree(ItemsAfter(h), t)
    requires forall m: Measure :: Measures(MeasureOf(t, m), h, m)
    ensures ShowsWalk(c, section, h)
  {
    if section == "nodes" {
      NodesWalk(c, section, h, t);
    } else if section == "pods" {
      PodsWalk(c, section, h, t);
    } else if section in ["namespaces", "storage.persistentvolumes", "storage.persistentvolumeclaims"] {
      CountedWalk(c, section, h, t);
    } else {
      WorkloadWalk(c, section, h, t);
    }
  }

  lemma CountedWalk(c: Content, section: string, h: seq<Event>, t: Totals)
    requires section in ["namespaces", "storage.persistentvolumes", "storage.persistentvolumeclaims"]
    requires Shows(c, section, t) && CountsAgree(ItemsAfter(h), t)
    requires forall m: Measure :: Measures(MeasureOf(t, m), h, m)
    ensures ShowsWalk(c, section, h)
  {
    assert Measures(MeasureOf(t, StorageCapacity), h, StorageCapacity);
    assert Measures(MeasureOf(t, StorageRequested), h, StorageRequested);
  }

  lemma WorkloadWalk(c: Content, section: string, h: seq<Event>, t: Totals)
    requires section !in ["nodes", "pods", "namespaces", "storage.persistentvolumes", "storage.persistentvolumeclaims"]
    requires Shows(c, section, t) && CountsAgree(ItemsAfter(h), t)
    ensures ShowsWalk(c, section, h)
  {
    assert CountsWalk(CountTotals(t.total, t.statusCounts, 0), ItemsAfter(h));
  }

  lemma NodesWalk(c: Content, section: string, h: seq<Event>, t: Totals)
    requires section == "nodes" && Shows(c, section, t) && CountsAgree(ItemsAfter(h), t)
    requires forall m: Measure :: Measures(MeasureOf(t, m), h, m)
    ensures ShowsWalk(c, section, h)
  {
    assert FlagCount(t, Unschedulable) == t.unschedulable;
    assert Measures(MeasureOf(t, CpuCapacity), h, CpuCapacity);
    assert Measures(MeasureOf(t, CpuAllocatable), h, CpuAllocatable);
    assert Measures(MeasureOf(t, MemoryCapacity), h, MemoryCapacity);
    assert Measures(MeasureOf(t, MemoryAllocatable), h, MemoryAllocatable);
    assert Measures(MeasureOf(t, PodCapacity), h, PodCapacity);
    assert Measures(MeasureOf(t, PodAllocatable), h, PodAllocatable);
  }

  lemma PodsWalk(c: Content, section: string, h: seq<Event>, t: Totals)
    requires section == "pods" && Shows(c, section, t) && CountsAgree(ItemsAfter(h), t)
    requires forall m: Measure :: Measures(MeasureOf(t, m), h, m)
    ensures ShowsWalk(c, section, h)
  {
    assert FlagCount(t, Ready) == t.ready && FlagCount(t, NotReady) == t.notReady;
    assert FlagCount(t, Terminating) == t.terminating && FlagCount(t, NonTerminal) == t.nonTerminal;
    assert Measures(MeasureOf(t, CpuRequested), h, CpuRequested);
    assert Measures(MeasureOf(t, MemoryRequested), h, MemoryRequested);
  }

  /** The order of the workloads does not matter. */
  lemma PublishedWalk(c: Content, assembled: Content, section: string, h: seq<Event>)
    requires c == assembled.(workloads := c.workloads) && multiset(c.workloads) == multiset(assembled.workloads)
    requires ShowsWalk(assembled, section, h)
    ensures ShowsWalk(c, section, h)
  {
    forall w | w in assembled.workloads ensures w in c.workloads {
      assert w in multiset(c.workloads);
    }
  }

  lemma WalkIsPublished(snapshot: Snapshot, assembled: Snapshot, section: string, h: seq<Event>)
    requires Publishes(snapshot, assembled) && ShowsWalk(assembled.content, section, h)
    ensures ShowsWalk(snapshot.content, section, h)
  {
    PublishedWalk(snapshot.content, assembled.content, section, h);
  }

  lemma PublishedMatchesWalk(snapshot: Snapshot, reports: seq<Report>, i: nat, h: seq<Event>)
    requires Publishes(snapshot, Assemble(reports))
    requires DistinctSections(reports) && i < |reports| && Visible(reports[i])
    requires reports[i].totals == TotalsAfter(h) && NonNegativeEvents(h)
    ensures ShowsWalk(snapshot.content, reports[i].section, h)
  {
    OverviewMatchesWalk(reports, i, h);
    WalkIsPublished(snapshot, Assemble(reports), reports[i].section, h);
  }
}
