/** The running totals against a walk over the cached objects, after any history of events. */
module AggregateGuarantees {
  import opened Aggregates

  // ---------------------------------------------------------------- walking the objects

  ghost function Sum<K, V>(items: map<K, V>, f: V -> int): int {
    if items == map[] then 0 else
      var k :| k in items;
      f(items[k]) + Sum(items - {k}, f)
  }

  lemma {:induction false} SumWithout<K, V>(items: map<K, V>, f: V -> int, key: K)
    requires key in items
    ensures Sum(items, f) == f(items[key]) + Sum(items - {key}, f)
    decreases |items|
  {
    var k :| k in items && Sum(items, f) == f(items[k]) + Sum(items - {k}, f);
    if k != key {
      SmallerWithout(items, k);
      SumWithout(items - {k}, f, key);
      SmallerWithout(items, key);
      assert k in items - {key};
      SumWithout(items - {key}, f, k);
      assert items - {k} - {key} == items - {key} - {k};
    }
  }

  lemma SmallerWithout<K, V>(items: map<K, V>, k: K)
    requires k in items
    ensures |items - {k}| < |items|
  {
    assert (items - {k}).Keys == items.Keys - {k};
    assert |(items - {k}).Keys| == |items - {k}| && |items.Keys| == |items|;
  }

  lemma SumWith<K, V>(items: map<K, V>, f: V -> int, key: K, c: V)
    ensures Sum(items[key := c], f) == f(c) + Sum(items - {key}, f)
  {
    SumWithout(items[key := c], f, key);
    assert items[key := c] - {key} == items - {key};
  }

  lemma {:induction false} SumNonNegative<K, V>(items: map<K, V>, f: V -> int)
    requires forall k <- items :: f(items[k]) >= 0
    ensures Sum(items, f) >= 0
    decreases |items|
  {
    if items != map[] {
      var k :| k in items;
      SumWithout(items, f, k);
      SmallerWithout(items, k);
      SumNonNegative(items - {k}, f);
    }
  }

  // What is counted for each total.

  function One(): Contribution -> int { (c: Contribution) => 1 }

  /** An object without a status is counted as "unknown". */
  function InStatus(bucket: string): Contribution -> int {
    (c: Contribution) => if c.status == bucket != "" || (c.status == "" && bucket == "unknown") then 1 else 0
  }

  function InVersion(version: string): Contribution -> int {
    (c: Contribution) => if c.kubernetesVersion != "" && c.kubernetesVersion == version then 1 else 0
  }

  function Flagged(f: Flag): Contribution -> int {
    (c: Contribution) => if IsSet(c, f) then 1 else 0
  }

  function Amount(m: Measure): Contribution -> int {
    (c: Contribution) => ValueOf(c, m)
  }

  // ---------------------------------------------------------------- counts

  /** A count map that holds, for each bucket, how many objects are in it, and no empty bucket. */
  ghost predicate Tallies(counts: map<string, int>, items: Items, inBucket: string -> Contribution -> int) {
    forall b: string ::
      && CountIn(counts, b) == Sum(items, inBucket(b))
      && (b in counts <==> Sum(items, inBucket(b)) > 0)
  }

  ghost predicate CountsAgree(items: Items, t: Totals) {
    && t.total == Sum(items, One())
    && Tallies(t.statusCounts, items, InStatus)
    && Tallies(t.versionCounts, items, InVersion)
    && forall f: Flag :: FlagCount(t, f) == Sum(items, Flagged(f))
  }

  lemma BucketAdds(counts: map<string, int>, items: Items, key: ObjectKey, c: Contribution,
                   inBucket: string -> Contribution -> int, bucket: string)
    requires key !in items && Tallies(counts, items, inBucket)
    requires forall b, d :: inBucket(b)(d) >= 0
    requires forall b :: inBucket(b)(c) == if b == BucketName(bucket) then 1 else 0
    ensures Tallies(CountBucket(counts, bucket, 1), items[key := c], inBucket)
  {
    assert items - {key} == items;
    forall b: string
      ensures CountIn(CountBucket(counts, bucket, 1), b) == Sum(items[key := c], inBucket(b))
      ensures b in CountBucket(counts, bucket, 1) <==> Sum(items[key := c], inBucket(b)) > 0
    {
      SumWith(items, inBucket(b), key, c);
      SumNonNegative(items, inBucket(b));
    }
  }

  lemma BucketRemoves(counts: map<string, int>, items: Items, key: ObjectKey,
                      inBucket: string -> Contribution -> int, bucket: string)
    requires key in items && Tallies(counts, items, inBucket)
    requires forall b, d :: inBucket(b)(d) >= 0
    requires forall b :: inBucket(b)(items[key]) == if b == BucketName(bucket) then 1 else 0
    ensures Tallies(CountBucket(counts, bucket, -1), items - {key}, inBucket)
  {
    forall b: string
      ensures CountIn(CountBucket(counts, bucket, -1), b) == Sum(items - {key}, inBucket(b))
      ensures b in CountBucket(counts, bucket, -1) <==> Sum(items - {key}, inBucket(b)) > 0
    {
      SumWithout(items, inBucket(b), key);
      SumNonNegative(items - {key}, inBucket(b));
    }
  }

  lemma UncountedStays(counts: map<string, int>, items: Items, key: ObjectKey, c: Contribution,
                       inBucket: string -> Contribution -> int)
    requires key !in items
    requires forall b :: inBucket(b)(c) == 0
    ensures Tallies(counts, items, inBucket) <==> Tallies(counts, items[key := c], inBucket)
  {
    assert items - {key} == items;
    forall b: string ensures Sum(items[key := c], inBucket(b)) == Sum(items, inBucket(b)) {
      SumWith(items, inBucket(b), key, c);
    }
  }

  lemma CountsAdd(items: Items, t: Totals, key: ObjectKey, c: Contribution)
    requires key !in items && CountsAgree(items, t)
    ensures CountsAgree(items[key := c], Applied(t, c, 1))
  {
    assert items - {key} == items;
    SumWith(items, One(), key, c);
    SumNonNegative(items, One());
    BucketAdds(t.statusCounts, items, key, c, InStatus, c.status);
    if c.kubernetesVersion == "" {
      UncountedStays(t.versionCounts, items, key, c, InVersion);
    } else {
      BucketAdds(t.versionCounts, items, key, c, InVersion, c.kubernetesVersion);
    }
    forall f: Flag ensures FlagCount(Applied(t, c, 1), f) == Sum(items[key := c], Flagged(f)) {
      SumWith(items, Flagged(f), key, c);
      SumNonNegative(items, Flagged(f));
      AppliedFlag(t, c, 1, f);
    }
  }

  lemma CountsRemove(items: Items, t: Totals, key: ObjectKey)
    requires key in items && CountsAgree(items, t)
    ensures CountsAgree(items - {key}, Applied(t, items[key], -1))
  {
    var c := items[key];
    SumWithout(items, One(), key);
    SumNonNegative(items - {key}, One());
    BucketRemoves(t.statusCounts, items, key, InStatus, c.status);
    if c.kubernetesVersion == "" {
      UncountedStays(t.versionCounts, items - {key}, key, c, InVersion);
      assert (items - {key})[key := c] == items;
    } else {
      BucketRemoves(t.versionCounts, items, key, InVersion, c.kubernetesVersion);
    }
    forall f: Flag ensures FlagCount(Applied(t, c, -1), f) == Sum(items - {key}, Flagged(f)) {
      SumWithout(items, Flagged(f), key);
      SumNonNegative(items - {key}, Flagged(f));
      AppliedFlag(t, c, -1, f);
    }
  }

  /** One event keeps every count, bucket and flag what a walk finds. */
  lemma CountsStep(items: Items, t: Totals, e: Event)
    requires CountsAgree(items, t)
    ensures CountsAgree(ItemsStep(items, e), Stepped(items, t, e))
  {
    var without := if e.key in items then Applied(t, items[e.key], -1) else t;
    if e.key in items {
      CountsRemove(items, t, e.key);
    } else {
      assert items - {e.key} == items;
    }
    if e.Put? {
      CountsAdd(items - {e.key}, without, e.key, e.contribution);
      assert (items - {e.key})[e.key := e.contribution] == items[e.key := e.contribution];
    }
  }

  /** Counts are exact: the total, every status and version bucket and every flag are what a
      walk over the objects finds, buckets nobody is in are gone, whatever the history. */
  lemma {:induction false} CountsAreExact(h: seq<Event>)
    ensures CountsAgree(ItemsAfter(h), TotalsAfter(h))
  {
    if h != [] {
      var h0 := h[..|h| - 1];
      CountsAreExact(h0);
      CountsStep(ItemsAfter(h0), TotalsAfter(h0), h[|h| - 1]);
    }
  }

  function Count(): int -> int { (n: int) => n }

  lemma BucketMovesSum(counts: map<string, int>, bucket: string, sign: Sign)
    requires forall b <- counts :: counts[b] > 0
    requires sign == -1 ==> BucketName(bucket) in counts
    ensures Sum(CountBucket(counts, bucket, sign), Count()) == Sum(counts, Count()) + sign
    ensures forall b <- CountBucket(counts, bucket, sign) :: CountBucket(counts, bucket, sign)[b] > 0
  {
    var name := BucketName(bucket);
    var count := AddSigned(CountIn(counts, name), sign);
    SumWith(counts, Count(), name, count);
    if name in counts {
      SumWithout(counts, Count(), name);
    } else {
      assert counts - {name} == counts;
    }
  }

  /** The status buckets always sum to the total: an object without a status counts as unknown. */
  lemma {:induction false} StatusesSumToTotal(h: seq<Event>)
    ensures Sum(TotalsAfter(h).statusCounts, Count()) == TotalsAfter(h).total
  {
    if h != [] {
      var h0, e := h[..|h| - 1], h[|h| - 1];
      StatusesSumToTotal(h0);
      CountsAreExact(h0);
      var items, t := ItemsAfter(h0), TotalsAfter(h0);
      var without := if e.key in items then Applied(t, items[e.key], -1) else t;
      if e.key in items {
        CountsRemove(items, t, e.key);
        PositiveTotal(items, e.key);
        InItsBucket(items, e.key);
        BucketMovesSum(t.statusCounts, items[e.key].status, -1);
      }
      if e.Put? {
        SumNonNegative(items, One());
        StillPositive(t, without, items, e.key);
        BucketMovesSum(without.statusCounts, e.contribution.status, 1);
      }
    }
  }

  lemma PositiveTotal(items: Items, key: ObjectKey)
    requires key in items
    ensures Sum(items, One()) >= 1
  {
    SumWithout(items, One(), key);
    SumNonNegative(items - {key}, One());
  }

  lemma InItsBucket(items: Items, key: ObjectKey)
    requires key in items
    ensures Sum(items, InStatus(BucketName(items[key].status))) > 0
  {
    SumWithout(items, InStatus(BucketName(items[key].status)), key);
    SumNonNegative(items - {key}, InStatus(BucketName(items[key].status)));
  }

  lemma StillPositive(t: Totals, without: Totals, items: Items, key: ObjectKey)
    requires CountsAgree(items, t)
    requires without == if key in items then Applied(t, items[key], -1) else t
    ensures forall b <- without.statusCounts :: without.statusCounts[b] > 0
  {
    assert forall b <- t.statusCounts :: CountIn(t.statusCounts, b) > 0;
  }

  // ---------------------------------------------------------------- saturating totals

  predicate NonNegative(items: Items) {
    forall k <- items, m: Measure :: ValueOf(items[k], m) >= 0
  }

  predicate NonNegativeEvents(h: seq<Event>) {
    forall i, m: Measure | 0 <= i < |h| && h[i].Put? :: ValueOf(h[i].contribution, m) >= 0
  }

  lemma {:induction false} ItemsAreNonNegative(h: seq<Event>)
    requires NonNegativeEvents(h)
    ensures NonNegative(ItemsAfter(h))
  {
    if h != [] {
      ItemsAreNonNegative(h[..|h| - 1]);
    }
  }

  function Clamp(x: int): int {
    if x > MAX_INT64 then MAX_INT64 else x
  }

  /** One event keeps a total between zero and the true sum, and keeps it exact when the true
      sum stays within range. */
  lemma MeasureStep(items: Items, t: Totals, e: Event, m: Measure)
    requires NonNegative(items) && (e.Put? ==> ValueOf(e.contribution, m) >= 0)
    requires 0 <= MeasureOf(t, m) <= Sum(items, Amount(m))
    ensures 0 <= MeasureOf(Stepped(items, t, e), m) <= Clamp(Sum(ItemsStep(items, e), Amount(m)))
    ensures MeasureOf(t, m) == Sum(items, Amount(m)) && Sum(ItemsStep(items, e), Amount(m)) <= MAX_INT64 ==>
              MeasureOf(Stepped(items, t, e), m) == Sum(ItemsStep(items, e), Amount(m))
  {
    var rest := items - {e.key};
    SumNonNegative(rest, Amount(m));
    var without := if e.key in items then Applied(t, items[e.key], -1) else t;
    if e.key in items {
      SumWithout(items, Amount(m), e.key);
      AppliedMeasure(t, items[e.key], -1, m);
      RemovingFloors(MeasureOf(t, m), ValueOf(items[e.key], m));
    } else {
      assert rest == items;
    }
    if e.Put? {
      SumWith(items, Amount(m), e.key, e.contribution);
      AppliedMeasure(without, e.contribution, 1, m);
      AddingSaturates(MeasureOf(without, m), ValueOf(e.contribution, m));
    }
  }

  /** A saturating total never exceeds the true sum or the ceiling, and never goes negative. */
  lemma {:induction false} TotalsAreBounded(h: seq<Event>, m: Measure)
    requires NonNegativeEvents(h)
    ensures 0 <= MeasureOf(TotalsAfter(h), m) <= Clamp(Sum(ItemsAfter(h), Amount(m)))
  {
    if h != [] {
      var h0 := h[..|h| - 1];
      TotalsAreBounded(h0, m);
      ItemsAreNonNegative(h0);
      MeasureStep(ItemsAfter(h0), TotalsAfter(h0), h[|h| - 1], m);
    }
  }

  /** A total has been exact at every moment just when the true sum has never been out of range. */
  lemma {:induction false} ExactWhileInRange(h: seq<Event>, m: Measure)
    requires NonNegativeEvents(h)
    ensures (forall n | 0 <= n <= |h| :: MeasureOf(TotalsAfter(h[..n]), m) == Sum(ItemsAfter(h[..n]), Amount(m)))
       <==> (forall n | 0 <= n <= |h| :: Sum(ItemsAfter(h[..n]), Amount(m)) <= MAX_INT64)
  {
    if forall n | 0 <= n <= |h| :: Sum(ItemsAfter(h[..n]), Amount(m)) <= MAX_INT64 {
      forall n | 0 <= n <= |h| ensures MeasureOf(TotalsAfter(h[..n]), m) == Sum(ItemsAfter(h[..n]), Amount(m)) {
        ExactUpTo(h, m, n);
      }
    } else {
      var n :| 0 <= n <= |h| && Sum(ItemsAfter(h[..n]), Amount(m)) > MAX_INT64;
      assert MeasureOf(TotalsAfter(h[..n]), m) <= MAX_INT64;
    }
  }

  lemma {:induction false} ExactUpTo(h: seq<Event>, m: Measure, n: nat)
    requires NonNegativeEvents(h) && n <= |h|
    requires forall k | 0 <= k <= |h| :: Sum(ItemsAfter(h[..k]), Amount(m)) <= MAX_INT64
    ensures MeasureOf(TotalsAfter(h[..n]), m) == Sum(ItemsAfter(h[..n]), Amount(m))
  {
    if n > 0 {
      ExactUpTo(h, m, n - 1);
      assert h[..n][..n - 1] == h[..n - 1];
      ItemsAreNonNegative(h[..n - 1]);
      TotalsAreBounded(h[..n - 1], m);
      MeasureStep(ItemsAfter(h[..n - 1]), TotalsAfter(h[..n - 1]), h[n - 1], m);
    }
  }

  function MeasureStepped(items: Items, total: int64, e: Event, m: Measure): int64 {
    var without := if e.key in items then AddScaled(total, ValueOf(items[e.key], m), -1) else total;
    if e.Put? then AddScaled(without, ValueOf(e.contribution, m), 1) else without
  }

  lemma NextMeasure(h: seq<Event>, e: Event, m: Measure)
    ensures MeasureOf(TotalsAfter(h + [e]), m) == MeasureStepped(ItemsAfter(h), MeasureOf(TotalsAfter(h), m), e, m)
    ensures ItemsAfter(h + [e]) == ItemsStep(ItemsAfter(h), e)
  {
    NextEvent(h, e);
    var items, t := ItemsAfter(h), TotalsAfter(h);
    if e.key in items {
      AppliedMeasure(t, items[e.key], -1, m);
    }
    if e.Put? {
      AppliedMeasure(if e.key in items then Applied(t, items[e.key], -1) else t, e.contribution, 1, m);
    }
  }

  /** Saturation is forgotten only by a re-list: after an overflow a total stays low although
      the objects left would fit. */
  lemma OverflowLeavesDrift(h: seq<Event>, big: Contribution, small: Contribution, j: ObjectKey, k: ObjectKey,
      m: Measure)
    requires ItemsAfter(h) == map[] && MeasureOf(TotalsAfter(h), m) == 0
    requires j != k && ValueOf(big, m) == MAX_INT64 && ValueOf(small, m) == 1
    ensures var h' := h + [Put(j, big)] + [Put(k, small)] + [Drop(j)];
            Sum(ItemsAfter(h'), Amount(m)) == 1 && MeasureOf(TotalsAfter(h'), m) == 0
  {
    NextMeasure(h, Put(j, big), m);
    NextMeasure(h + [Put(j, big)], Put(k, small), m);
    NextMeasure(h + [Put(j, big)] + [Put(k, small)], Drop(j), m);
    var left := map[k := small];
    assert map[j := big, k := small] - {j} == left;
    SumWithout(left, Amount(m), k);
    assert left - {k} == map[];
  }
}
