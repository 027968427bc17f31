/** The running totals of one cached resource (pkg/agent/resourcecache/contribution.go) and
    the store that maintains them event by event (pkg/agent/resourcecache/store.go). */
module Aggregates {

  const MAX_INT64: int := 0x7FFF_FFFF_FFFF_FFFF
  const TWO_64: int := 0x1_0000_0000_0000_0000

  type int64 = x: int | -MAX_INT64 - 1 <= x <= MAX_INT64

  /** Two's complement wrap-around of a 64-bit addition or subtraction. */
  function Wrap(x: int): int64
    requires -TWO_64 <= x < TWO_64
  {
    if x > MAX_INT64 then x - TWO_64 else if x < -MAX_INT64 - 1 then x + TWO_64 else x
  }

  datatype Measure =
    | CpuCapacity | CpuAllocatable | CpuRequested
    | MemoryCapacity | MemoryAllocatable | MemoryRequested
    | PodCapacity | PodAllocatable
    | StorageCapacity | StorageRequested

  datatype Flag = Unschedulable | Ready | NotReady | Terminating | NonTerminal

  datatype Contribution = Contribution(
    status: string, kubernetesVersion: string,
    unschedulable: bool, ready: bool, notReady: bool, terminating: bool, nonTerminal: bool,
    cpuCapacity: int64, cpuAllocatable: int64, cpuRequested: int64,
    memoryCapacity: int64, memoryAllocatable: int64, memoryRequested: int64,
    podCapacity: int64, podAllocatable: int64,
    storageCapacity: int64, storageRequested: int64)

  datatype Totals = Totals(
    total: int, statusCounts: map<string, int>, versionCounts: map<string, int>,
    unschedulable: int, ready: int, notReady: int, terminating: int, nonTerminal: int,
    cpuCapacity: int64, cpuAllocatable: int64, cpuRequested: int64,
    memoryCapacity: int64, memoryAllocatable: int64, memoryRequested: int64,
    podCapacity: int64, podAllocatable: int64,
    storageCapacity: int64, storageRequested: int64)

  const EMPTY_TOTALS := Totals(0, map[], map[], 0, 0, 0, 0, 0, 0, 0, 0, 0, 0, 0, 0, 0, 0, 0)

  function ValueOf(c: Contribution, m: Measure): int64 {
    match m
    case CpuCapacity => c.cpuCapacity
    case CpuAllocatable => c.cpuAllocatable
    case CpuRequested => c.cpuRequested
    case MemoryCapacity => c.memoryCapacity
    case MemoryAllocatable => c.memoryAllocatable
    case MemoryRequested => c.memoryRequested
    case PodCapacity => c.podCapacity
    case PodAllocatable => c.podAllocatable
    case StorageCapacity => c.storageCapacity
    case StorageRequested => c.storageRequested
  }

  function MeasureOf(t: Totals, m: Measure): int64 {
    match m
    case CpuCapacity => t.cpuCapacity
    case CpuAllocatable => t.cpuAllocatable
    case CpuRequested => t.cpuRequested
    case MemoryCapacity => t.memoryCapacity
    case MemoryAllocatable => t.memoryAllocatable
    case MemoryRequested => t.memoryRequested
    case PodCapacity => t.podCapacity
    case PodAllocatable => t.podAllocatable
    case StorageCapacity => t.storageCapacity
    case StorageRequested => t.storageRequested
  }

  predicate IsSet(c: Contribution, f: Flag) {
    match f
    case Unschedulable => c.unschedulable
    case Ready => c.ready
    case NotReady => c.notReady
    case Terminating => c.terminating
    case NonTerminal => c.nonTerminal
  }

  function FlagCount(t: Totals, f: Flag): int {
    match f
    case Unschedulable => t.unschedulable
    case Ready => t.ready
    case NotReady => t.notReady
    case Terminating => t.terminating
    case NonTerminal => t.nonTerminal
  }

  // ---------------------------------------------------------------- one step of arithmetic

  type Sign = s: int | s == 1 || s == -1 witness 1

  function AddSigned(total: int, sign: Sign): int {
    if total + sign < 0 then 0 else total + sign
  }

  function AddFlag(total: int, isSet: bool, sign: Sign): int {
    if isSet then AddSigned(total, sign) else total
  }

  function AddScaled(total: int64, value: int64, sign: Sign): int64 {
    if value == 0 then total
    else if sign < 0 then (if Wrap(total - value) < 0 then 0 else Wrap(total - value))
    else if total > Wrap(MAX_INT64 - value) then MAX_INT64
    else Wrap(total + value)
  }

  function BucketName(bucket: string): string {
    if bucket == "" then "unknown" else bucket
  }

  function CountIn(counts: map<string, int>, bucket: string): int {
    if bucket in counts then counts[bucket] else 0
  }

  function CountBucket(counts: map<string, int>, bucket: string, sign: Sign): map<string, int> {
    var name := BucketName(bucket);
    var count := AddSigned(CountIn(counts, name), sign);
    if count <= 0 then counts - {name} else counts[name := count]
  }

  /** sectionTotals.apply. */
  function Applied(t: Totals, c: Contribution, sign: Sign): Totals {
    Totals(
      AddSigned(t.total, sign),
      CountBucket(t.statusCounts, c.status, sign),
      if c.kubernetesVersion == "" then t.versionCounts else CountBucket(t.versionCounts, c.kubernetesVersion, sign),
      AddFlag(t.unschedulable, c.unschedulable, sign), AddFlag(t.ready, c.ready, sign),
      AddFlag(t.notReady, c.notReady, sign), AddFlag(t.terminating, c.terminating, sign),
      AddFlag(t.nonTerminal, c.nonTerminal, sign),
      AddScaled(t.cpuCapacity, c.cpuCapacity, sign), AddScaled(t.cpuAllocatable, c.cpuAllocatable, sign),
      AddScaled(t.cpuRequested, c.cpuRequested, sign),
      AddScaled(t.memoryCapacity, c.memoryCapacity, sign), AddScaled(t.memoryAllocatable, c.memoryAllocatable, sign),
      AddScaled(t.memoryRequested, c.memoryRequested, sign),
      AddScaled(t.podCapacity, c.podCapacity, sign), AddScaled(t.podAllocatable, c.podAllocatable, sign),
      AddScaled(t.storageCapacity, c.storageCapacity, sign), AddScaled(t.storageRequested, c.storageRequested, sign))
  }

  lemma AppliedMeasure(t: Totals, c: Contribution, sign: Sign, m: Measure)
    ensures MeasureOf(Applied(t, c, sign), m) == AddScaled(MeasureOf(t, m), ValueOf(c, m), sign)
  {
  }

  lemma AppliedFlag(t: Totals, c: Contribution, sign: Sign, f: Flag)
    ensures FlagCount(Applied(t, c, sign), f) == AddFlag(FlagCount(t, f), IsSet(c, f), sign)
  {
  }

  /** Folding a value in saturates at the ceiling; a negative value saturates at once, because
      the overflow test itself overflows. */
  lemma AddingSaturates(total: int64, value: int64)
    requires 0 <= total
    ensures AddScaled(total, value, 1)
         == if value < 0 || total + value > MAX_INT64 then MAX_INT64 else total + value
  {
  }

  lemma RemovingFloors(total: int64, value: int64)
    requires 0 <= total && 0 <= value
    ensures AddScaled(total, value, -1) == if total < value then 0 else total - value
  {
  }

  /** Counts are never negative. */
  lemma CountingFloors(total: int, sign: Sign)
    ensures AddSigned(total, sign) ==
            if sign == 1 && total >= -1 then total + 1 else if sign == -1 && total >= 1 then total - 1 else 0
  {
  }

  // ---------------------------------------------------------------- the store

  datatype ObjectKey = ObjectKey(namespace: string, name: string)

  type Items = map<ObjectKey, Contribution>

  /** What has happened to a store since it was created or last re-listed. */
  datatype Event = Put(key: ObjectKey, contribution: Contribution) | Drop(key: ObjectKey)

  function ItemsAfter(h: seq<Event>): Items {
    if h == [] then map[] else
      var items := ItemsAfter(h[..|h| - 1]);
      match h[|h| - 1]
      case Put(key, c) => items[key := c]
      case Drop(key) => items - {key}
  }

  function TotalsAfter(h: seq<Event>): Totals {
    if h == [] then EMPTY_TOTALS else
      var h0 := h[..|h| - 1];
      Stepped(ItemsAfter(h0), TotalsAfter(h0), h[|h| - 1])
  }

  /** An object that was there is subtracted before it is replaced or forgotten. */
  function Stepped(items: Items, t: Totals, e: Event): Totals {
    var without := if e.key in items then Applied(t, items[e.key], -1) else t;
    if e.Put? then Applied(without, e.contribution, 1) else without
  }

  function ItemsStep(items: Items, e: Event): Items {
    if e.Put? then items[e.key := e.contribution] else items - {e.key}
  }

  lemma NextEvent(h: seq<Event>, e: Event)
    ensures ItemsAfter(h + [e]) == ItemsStep(ItemsAfter(h), e)
    ensures TotalsAfter(h + [e]) == Stepped(ItemsAfter(h), TotalsAfter(h), e)
  {
    assert (h + [e])[..|h|] == h;
  }

  function Listed(objects: seq<(ObjectKey, Contribution)>): (h: seq<Event>)
    ensures |h| == |objects|
  {
    seq(|objects|, i requires 0 <= i < |objects| => Put(objects[i].0, objects[i].1))
  }

  class SectionTotals {
    var total: int
    var statusCounts: map<string, int>
    var versionCounts: map<string, int>
    var unschedulable: int
    var ready: int
    var notReady: int
    var terminating: int
    var nonTerminal: int
    var cpuCapacity: int64
    var cpuAllocatable: int64
    var cpuRequested: int64
    var memoryCapacity: int64
    var memoryAllocatable: int64
    var memoryRequested: int64
    var podCapacity: int64
    var podAllocatable: int64
    var storageCapacity: int64
    var storageRequested: int64

    constructor ()
      ensures View() == EMPTY_TOTALS
    {
      total, statusCounts, versionCounts := 0, map[], map[];
      unschedulable, ready, notReady, terminating, nonTerminal := 0, 0, 0, 0, 0;
      cpuCapacity, cpuAllocatable, cpuRequested := 0, 0, 0;
      memoryCapacity, memoryAllocatable, memoryRequested := 0, 0, 0;
      podCapacity, podAllocatable, storageCapacity, storageRequested := 0, 0, 0, 0;
    }

    /** clone: the copy a reader keeps while the events go on. */
    function View(): Totals
      reads this
    {
      Totals(total, statusCounts, versionCounts, unschedulable, ready, notReady, terminating, nonTerminal,
             cpuCapacity, cpuAllocatable, cpuRequested, memoryCapacity, memoryAllocatable, memoryRequested,
             podCapacity, podAllocatable, storageCapacity, storageRequested)
    }

    method Apply(c: Contribution, sign: Sign)
      modifies this
      ensures View() == Applied(old(View()), c, sign)
    {
      ApplyCounts(c, sign);
      ApplyFlags(c, sign);
      ApplyQuantities(c, sign);
    }

    /** The buckets of `Apply`. */
    method ApplyCounts(c: Contribution, sign: Sign)
      modifies this`total, this`statusCounts, this`versionCounts
      ensures total == AddSigned(old(total), sign)
      ensures statusCounts == CountBucket(old(statusCounts), c.status, sign)
      ensures versionCounts == if c.kubernetesVersion == "" then old(versionCounts)
                               else CountBucket(old(versionCounts), c.kubernetesVersion, sign)
    {
      total := AddSigned(total, sign);
      statusCounts := CountBucket(statusCounts, c.status, sign);
      if c.kubernetesVersion != "" {
        versionCounts := CountBucket(versionCounts, c.kubernetesVersion, sign);
      }
    }

    /** The flags of `Apply`. */
    method ApplyFlags(c: Contribution, sign: Sign)
      modifies this`unschedulable, this`ready, this`notReady, this`terminating, this`nonTerminal
      ensures unschedulable == AddFlag(old(unschedulable), c.unschedulable, sign)
      ensures ready == AddFlag(old(ready), c.ready, sign)
      ensures notReady == AddFlag(old(notReady), c.notReady, sign)
      ensures terminating == AddFlag(old(terminating), c.terminating, sign)
      ensures nonTerminal == AddFlag(old(nonTerminal), c.nonTerminal, sign)
    {
      unschedulable := AddFlag(unschedulable, c.unschedulable, sign);
      ready := AddFlag(ready, c.ready, sign);
      notReady := AddFlag(notReady, c.notReady, sign);
      terminating := AddFlag(terminating, c.terminating, sign);
      nonTerminal := AddFlag(nonTerminal, c.nonTerminal, sign);
    }

    /** The saturating totals of `Apply`. */
    method ApplyQuantities(c: Contribution, sign: Sign)
      modifies this`cpuCapacity, this`cpuAllocatable, this`cpuRequested
      modifies this`memoryCapacity, this`memoryAllocatable, this`memoryRequested
      modifies this`podCapacity, this`podAllocatable, this`storageCapacity, this`storageRequested
      ensures cpuCapacity == AddScaled(old(cpuCapacity), c.cpuCapacity, sign)
      ensures cpuAllocatable == AddScaled(old(cpuAllocatable), c.cpuAllocatable, sign)
      ensures cpuRequested == AddScaled(old(cpuRequested), c.cpuRequested, sign)
      ensures memoryCapacity == AddScaled(old(memoryCapacity), c.memoryCapacity, sign)
      ensures memoryAllocatable == AddScaled(old(memoryAllocatable), c.memoryAllocatable, sign)
      ensures memoryRequested == AddScaled(old(memoryRequested), c.memoryRequested, sign)
      ensures podCapacity == AddScaled(old(podCapacity), c.podCapacity, sign)
      ensures podAllocatable == AddScaled(old(podAllocatable), c.podAllocatable, sign)
      ensures storageCapacity == AddScaled(old(storageCapacity), c.storageCapacity, sign)
      ensures storageRequested == AddScaled(old(storageRequested), c.storageRequested, sign)
    {
      cpuCapacity := AddScaled(cpuCapacity, c.cpuCapacity, sign);
      cpuAllocatable := AddScaled(cpuAllocatable, c.cpuAllocatable, sign);
      cpuRequested := AddScaled(cpuRequested, c.cpuRequested, sign);
      memoryCapacity := AddScaled(memoryCapacity, c.memoryCapacity, sign);
      memoryAllocatable := AddScaled(memoryAllocatable, c.memoryAllocatable, sign);
      memoryRequested := AddScaled(memoryRequested, c.memoryRequested, sign);
      podCapacity := AddScaled(podCapacity, c.podCapacity, sign);
      podAllocatable := AddScaled(podAllocatable, c.podAllocatable, sign);
      storageCapacity := AddScaled(storageCapacity, c.storageCapacity, sign);
      storageRequested := AddScaled(storageRequested, c.storageRequested, sign);
    }
  }

  /** Subtract what the object under `key` used to contribute, then add what it contributes now. */
  method FoldIn(items: Items, totals: SectionTotals, key: ObjectKey, c: Contribution)
    modifies totals
    ensures totals.View() == Stepped(items, old(totals.View()), Put(key, c))
  {
    if key in items {
      totals.Apply(items[key], -1);
    }
    totals.Apply(c, 1);
  }

  /** The contents a complete listing stands for, built beside whatever the store holds. */
  method Rebuild(objects: seq<(ObjectKey, Contribution)>) returns (listed: Items, rebuilt: SectionTotals)
    ensures fresh(rebuilt)
    ensures listed == ItemsAfter(Listed(objects)) && rebuilt.View() == TotalsAfter(Listed(objects))
  {
    listed := map[];
    rebuilt := new SectionTotals();
    ghost var h: seq<Event> := [];
    for i := 0 to |objects|
      invariant fresh(rebuilt) && h == Listed(objects)[..i]
      invariant listed == ItemsAfter(h) && rebuilt.View() == TotalsAfter(h)
    {
      var (key, c) := objects[i];
      NextEvent(h, Put(key, c));
      FoldIn(listed, rebuilt, key, c);
      listed := listed[key := c];
      h := h + [Put(key, c)];
    }
    assert h == Listed(objects);
  }

  /** One resource's store; `section` is empty for a resource the overview does not show. */
  class Store {
    const section: string
    var items: Items
    var totals: SectionTotals
    var synced: bool
    var lastSuccessAt: nat
    var failureCode: string
    ghost var history: seq<Event>

    ghost predicate Valid()
      reads this, totals
    {
      items == ItemsAfter(history) && totals.View() == TotalsAfter(history)
    }

    constructor (section: string)
      ensures Valid() && fresh(totals) && history == [] && !synced && lastSuccessAt == 0 && failureCode == ""
      ensures this.section == section
    {
      this.section := section;
      items, history := map[], [];
      totals := new SectionTotals();
      synced, lastSuccessAt, failureCode := false, 0, "";
    }

    method Upsert(key: ObjectKey, c: Contribution, now: nat)
      requires Valid()
      modifies this, totals
      ensures Valid() && totals == old(totals)
      ensures history == old(history) + [Put(key, c)] && lastSuccessAt == now
      ensures synced == old(synced) && failureCode == old(failureCode)
    {
      FoldIn(items, totals, key, c);
      items := items[key := c];
      lastSuccessAt := now;
      NextEvent(history, Put(key, c));
      history := history + [Put(key, c)];
    }

    method Delete(key: ObjectKey)
      requires Valid()
      modifies this, totals
      ensures Valid() && totals == old(totals)
      ensures history == if key in old(items) then old(history) + [Drop(key)] else old(history)
      ensures synced == old(synced) && failureCode == old(failureCode) && lastSuccessAt == old(lastSuccessAt)
    {
      if key in items {
        totals.Apply(items[key], -1);
        items := items - {key};
        NextEvent(history, Drop(key));
        history := history + [Drop(key)];
      }
    }

    /** A complete listing: built beside the old contents, then swapped in. */
    method Replace(objects: seq<(ObjectKey, Contribution)>, now: nat)
      requires Valid()
      modifies this
      ensures Valid() && fresh(totals)
      ensures history == Listed(objects) && synced && lastSuccessAt == now && failureCode == ""
    {
      var listed, rebuilt := Rebuild(objects);
      items, totals, history := listed, rebuilt, Listed(objects);
      synced, lastSuccessAt, failureCode := true, now, "";
    }

    method RecordFailure(code: string)
      requires Valid()
      modifies this`failureCode
      ensures Valid() && failureCode == code
    {
      failureCode := code;
    }
  }
}
