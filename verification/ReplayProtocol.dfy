/** Any number of callers running `do` against one replay cache, interleaved at its locked
    sections (pkg/agent/resource_mutation_cache.go:98-155).

    A caller reads the clock before it takes the lock, so the time it sweeps with may be
    stale by the time it holds the lock; executions take arbitrarily long; a waiter may be
    woken or cancelled.  The clock never goes back. */
module ReplayProtocol {
  import opened ReplayCache

  /** What a caller of `do` is told. */
  datatype Return =
    | Executed(id: nat, startedAt: nat, endedAt: nat, completion: Completion)
    | Replayed(id: nat, recorded: Completion)
    | Conflicted
    | Cancelled

  datatype Phase =
    | Entering(now: nat)
    | Waiting(id: nat)
    | Executing(id: nat, startedAt: nat)
    | Done(ret: Return)

  datatype Call = Call(key: Key, fingerprint: Fingerprint, phase: Phase)

  /** `owner[id]` is the call that made entry `id`; `evicted` the entries that makeRoomLocked
      dropped; `peak` the largest number of simultaneous executions so far. */
  datatype System = System(
    table: Table,
    clock: nat,
    calls: seq<Call>,
    owner: seq<nat>,
    evicted: set<nat>,
    peak: nat)

  datatype Limits = Limits(maxEntries: nat, ttl: nat)

  // ---------------------------------------------------------------- steps

  /** Both handlers leave calls without a key out of the cache. */
  ghost predicate Proper(t: Table) {
    WellFormed(t) && NoEmptyKey(t)
  }

  ghost predicate Init(s: System) {
    s == System(Table(map[], []), s.clock, [], [], {}, 0) && 0 < s.clock
  }

  function Executions(calls: seq<Call>): set<nat> {
    set i | 0 <= i < |calls| && calls[i].phase.Executing?
  }

  function Max(a: nat, b: nat): nat {
    if a < b then b else a
  }

  ghost predicate Tick(s: System, s': System) {
    s' == s.(clock := s'.clock) && s.clock <= s'.clock
  }

  ghost predicate Arrive(s: System, s': System, key: Key, fingerprint: Fingerprint) {
    key != "" && s' == s.(calls := s.calls + [Call(key, fingerprint, Entering(s.clock))])
  }

  function PhaseAfter(begun: Begun, clock: nat): Phase {
    match begun
    case Conflict => Done(Conflicted)
    case Wait(id) => Waiting(id)
    case Run(id) => Executing(id, clock)
  }

  ghost predicate Enter(s: System, s': System, c: nat, l: Limits, begun: Begun)
    requires Proper(s.table)
  {
    && c < |s.calls| && s.calls[c].phase.Entering?
    && var call := s.calls[c];
    && Begins(s.table, l.maxEntries, call.phase.now, call.key, call.fingerprint, s'.table, begun)
    && s'.clock == s.clock
    && s'.calls == s.calls[c := call.(phase := PhaseAfter(begun, s.clock))]
    && s'.owner == (if begun.Run? then s.owner + [c] else s.owner)
    && s'.evicted == s.evicted + Dropped(Sweep(s.table, call.phase.now), s'.table)
    && s'.peak == Max(s.peak, |Executions(s'.calls)|)
  }

  ghost function Dropped(before: Table, after: Table): set<nat> {
    set k | k in before.entries && k !in after.entries :: before.entries[k]
  }

  ghost predicate End(s: System, s': System, c: nat, l: Limits, completion: Completion) {
    && c < |s.calls| && s.calls[c].phase.Executing?
    && var call := s.calls[c];
    && call.phase.id < |s.table.heap|
    && s' == s.(table := Finish(s.table, call.key, call.phase.id, completion, s.clock, l.ttl),
                calls := s.calls[c := call.(phase := Done(
                  Executed(call.phase.id, call.phase.startedAt, s.clock, completion)))])
  }

  ghost predicate Wake(s: System, s': System, c: nat) {
    && c < |s.calls| && s.calls[c].phase.Waiting?
    && var id := s.calls[c].phase.id;
    && id < |s.table.heap| && s.table.heap[id].ready
    && s' == s.(calls := s.calls[c := s.calls[c].(phase := Done(Replayed(id, Recorded(s.table.heap[id]))))])
  }

  ghost predicate Cancel(s: System, s': System, c: nat) {
    && c < |s.calls| && s.calls[c].phase.Waiting?
    && s' == s.(calls := s.calls[c := s.calls[c].(phase := Done(Cancelled))])
  }

  datatype Step =
    | TickStep
    | ArriveStep(key: Key, fingerprint: Fingerprint)
    | EnterStep(c: nat, begun: Begun)
    | EndStep(c: nat, completion: Completion)
    | WakeStep(c: nat)
    | CancelStep(c: nat)

  ghost predicate Takes(s: System, s': System, l: Limits, step: Step) {
    match step
    case TickStep => Tick(s, s')
    case ArriveStep(key, fingerprint) => Arrive(s, s', key, fingerprint)
    case EnterStep(c, begun) => Proper(s.table) && Enter(s, s', c, l, begun)
    case EndStep(c, completion) => End(s, s', c, l, completion)
    case WakeStep(c) => Wake(s, s', c)
    case CancelStep(c) => Cancel(s, s', c)
  }

  /** A run: states and the steps between them. */
  ghost predicate IsRun(run: seq<System>, steps: seq<Step>, l: Limits) {
    && |run| == |steps| + 1
    && Init(run[0])
    && forall i | 0 <= i < |steps| :: Takes(run[i], run[i + 1], l, steps[i])
  }

  // ---------------------------------------------------------------- invariant

  predicate Started(call: Call) {
    call.phase.Executing? || (call.phase.Done? && call.phase.ret.Executed?)
  }

  function IdOf(call: Call): nat
    requires Started(call)
  {
    if call.phase.Executing? then call.phase.id else call.phase.ret.id
  }

  function StartOf(call: Call): nat
    requires Started(call)
  {
    if call.phase.Executing? then call.phase.startedAt else call.phase.ret.startedAt
  }

  predicate Ended(call: Call) {
    call.phase.Done? && call.phase.ret.Executed?
  }

  predicate EndedApplied(call: Call) {
    Ended(call) && Reserves(call.phase.ret.completion)
  }

  /** Every entry belongs to exactly the call that made it, and mirrors how that call stands. */
  ghost predicate Owned(s: System) {
    && |s.owner| == |s.table.heap|
    && (forall id | 0 <= id < |s.owner| ::
          s.owner[id] < |s.calls| && Mirrors(s.table.heap[id], s.calls[s.owner[id]], id))
    && (forall c | 0 <= c < |s.calls| && Started(s.calls[c]) ::
          IdOf(s.calls[c]) < |s.owner| && s.owner[IdOf(s.calls[c])] == c)
  }

  ghost predicate Mirrors(r: Record, call: Call, id: nat) {
    && Started(call) && IdOf(call) == id && StartOf(call) > 0
    && r.fingerprint == call.fingerprint
    && (call.phase.Executing? ==> r == NewRecord(call.fingerprint))
    && (call.phase.Done? ==> r.ready && Recorded(r) == call.phase.ret.completion)
  }

  /** What the key map holds: entries under their owner's key, all executing or reserved. */
  ghost predicate Mapped(s: System, l: Limits)
    requires Owned(s)
  {
    && Proper(s.table)
    && (forall k <- s.table.entries :: Holds(s, l, k, s.table.entries[k]))
    && (forall c | 0 <= c < |s.calls| && s.calls[c].phase.Executing? ::
          s.calls[c].key in s.table.entries && s.table.entries[s.calls[c].key] == s.calls[c].phase.id)
  }

  ghost predicate Holds(s: System, l: Limits, k: Key, id: nat)
    requires Owned(s) && id < |s.owner|
  {
    var call := s.calls[s.owner[id]];
    && call.key == k
    && (Ended(call) ==> EndedApplied(call) && s.table.heap[id].expiresAt == call.phase.ret.endedAt + l.ttl > 0)
  }

  /** Keys are non-empty; clock readings recorded anywhere lie in the past, in order. */
  ghost predicate Timed(s: System) {
    forall c | 0 <= c < |s.calls| :: TimedCall(s.calls[c], s.clock)
  }

  predicate TimedCall(call: Call, clock: nat) {
    && call.key != ""
    && (call.phase.Entering? ==> call.phase.now <= clock)
    && (Started(call) ==> StartOf(call) <= clock)
    && (Ended(call) ==> call.phase.ret.startedAt <= call.phase.ret.endedAt <= clock)
  }

  /** A waiting or served caller asked exactly what the owner of its entry asked. */
  ghost predicate Served(s: System)
    requires Owned(s)
  {
    forall c | 0 <= c < |s.calls| :: ServedCall(s, s.calls[c])
  }

  ghost predicate ServedCall(s: System, call: Call)
    requires Owned(s)
  {
    && (call.phase.Waiting? ==> call.phase.id < |s.owner| && SameRequest(call, s.calls[s.owner[call.phase.id]]))
    && (call.phase.Done? && call.phase.ret.Replayed? ==>
          && call.phase.ret.id < |s.owner|
          && var owner := s.calls[s.owner[call.phase.ret.id]];
          && SameRequest(call, owner) && Ended(owner)
          && owner.phase.ret.completion == call.phase.ret.recorded)
  }

  predicate SameRequest(a: Call, b: Call) {
    a.key == b.key && a.fingerprint == b.fingerprint
  }

  /** A reserved key stays in the map until it expires or is evicted. */
  ghost predicate Reserved(s: System, l: Limits)
    requires Owned(s)
  {
    forall c | 0 <= c < |s.calls| && EndedApplied(s.calls[c]) :: Protected(s, l, s.calls[c])
  }

  ghost predicate Protected(s: System, l: Limits, call: Call)
    requires EndedApplied(call)
  {
    || call.phase.ret.id in s.evicted
    || call.phase.ret.endedAt + l.ttl <= s.clock
    || (call.key in s.table.entries && s.table.entries[call.key] == call.phase.ret.id)
  }

  /** The at-most-once guarantee: of two executions under one key, the one with the older
      entry ended before the other started, a whole `ttl` before if it may have written
      and its entry was not evicted. */
  ghost predicate AtMostOnce(s: System, l: Limits) {
    forall c, d | 0 <= c < |s.calls| && 0 <= d < |s.calls| && Started(s.calls[c]) && Started(s.calls[d])
                  && s.calls[c].key == s.calls[d].key && IdOf(s.calls[c]) < IdOf(s.calls[d]) ::
      Apart(s.calls[c], s.calls[d], s.evicted, l)
  }

  predicate Apart(first: Call, second: Call, evicted: set<nat>, l: Limits)
    requires Started(first) && Started(second)
  {
    && Ended(first)
    && first.phase.ret.endedAt <= StartOf(second)
    && (EndedApplied(first) && IdOf(first) !in evicted ==> first.phase.ret.endedAt + l.ttl <= StartOf(second))
  }

  ghost predicate Bounded(s: System, l: Limits) {
    && |s.table.entries| <= Max(l.maxEntries, s.peak)
    && |Executions(s.calls)| <= s.peak
  }

  ghost predicate Inv(s: System, l: Limits) {
    && 0 < s.clock && Owned(s) && Mapped(s, l) && Timed(s) && Served(s) && Reserved(s, l) && AtMostOnce(s, l)
      && Bounded(s, l)
  }

  // ---------------------------------------------------------------- what Begin guarantees

  /** A caller that waits or conflicts changes nothing but the sweep. */
  ghost predicate Looked(t: Table, now: nat, key: Key, fingerprint: Fingerprint, t': Table, begun: Begun)
    requires Proper(t)
  {
    && t' == Sweep(t, now) && !begun.Run?
    && (begun.Wait? ==>
          key in t.entries && t.entries[key] == begun.id && t.heap[begun.id].fingerprint == fingerprint)
  }

  /** A caller that executes found its key free or expired, and displaced only completed entries. */
  ghost predicate Made(t: Table, l: nat, now: nat, key: Key, fingerprint: Fingerprint, t': Table)
    requires Proper(t)
  {
    && t'.heap == t.heap + [NewRecord(fingerprint)]
    && key in t'.entries && t'.entries[key] == |t.heap|
    && (key in t.entries ==> Expired(t.heap[t.entries[key]], now))
    && (forall k <- t'.entries :: k == key || (k in t.entries && t'.entries[k] == t.entries[k]))
    && (forall k <- t.entries :: k in t'.entries || !InFlight(t, k))
    && (forall k <- t.entries ::
          k in t'.entries || Expired(t.heap[t.entries[k]], now) || t.entries[k] in Dropped(Sweep(t, now), t'))
    && Proper(t')
    && (|t'.entries| <= l || AllInFlight(t'))
  }

  lemma BeginLooks(t: Table, l: nat, now: nat, key: Key, fingerprint: Fingerprint, t': Table, begun: Begun)
    requires Proper(t) && Begins(t, l, now, key, fingerprint, t', begun) && !begun.Run?
    ensures Looked(t, now, key, fingerprint, t', begun)
  {
    assert key in Sweep(t, now).entries;
  }

  lemma BeginMakes(t: Table, l: nat, now: nat, key: Key, fingerprint: Fingerprint, t': Table, id: nat)
    requires Proper(t) && key != "" && Begins(t, l, now, key, fingerprint, t', Run(id))
    ensures id == |t.heap| && Made(t, l, now, key, fingerprint, t')
  {
    assert key !in Sweep(t, now).entries;
    var roomy :| MadeRoom(Sweep(t, now), roomy, l) && Inserted(roomy, key, fingerprint, t', Run(id));
    RoomKeeps(t, l, now, roomy);
    InsertMakes(t, l, now, roomy, key, fingerprint, t');
  }

  ghost predicate Kept(t: Table, l: nat, roomy: Table)
    requires Proper(t)
  {
    && roomy.heap == t.heap && Proper(roomy)
    && (forall k <- roomy.entries :: k in t.entries && roomy.entries[k] == t.entries[k])
    && (forall k <- t.entries :: k in roomy.entries || !InFlight(t, k))
    && (|roomy.entries| < l || AllInFlight(roomy))
  }

  lemma InsertMakes(t: Table, l: nat, now: nat, roomy: Table, key: Key, fingerprint: Fingerprint, t': Table)
    requires Proper(t) && key != "" && Kept(t, l, roomy)
    requires key !in roomy.entries && (key in t.entries ==> Expired(t.heap[t.entries[key]], now))
    requires Inserted(roomy, key, fingerprint, t', Run(|t.heap|))
    ensures Made(t, l, now, key, fingerprint, t')
  {
    InsertFits(roomy, l, key, fingerprint, t');
    DroppedOrExpired(t, now, roomy, key, t');
  }

  lemma DroppedOrExpired(t: Table, now: nat, roomy: Table, key: Key, t': Table)
    requires Proper(t)
    requires t'.entries.Keys == roomy.entries.Keys + {key}
    ensures forall k <- t.entries ::
              k in t'.entries || Expired(t.heap[t.entries[k]], now) || t.entries[k] in Dropped(Sweep(t, now), t')
  {
    var swept := Sweep(t, now);
    forall k <- t.entries | k !in t'.entries && !Expired(t.heap[t.entries[k]], now)
      ensures t.entries[k] in Dropped(swept, t')
    {
      assert swept.entries[k] in Dropped(swept, t');
    }
  }

  lemma InsertFits(roomy: Table, l: nat, key: Key, fingerprint: Fingerprint, t': Table)
    requires Proper(roomy) && key != "" && key !in roomy.entries
    requires Inserted(roomy, key, fingerprint, t', Run(|roomy.heap|))
    requires |roomy.entries| < l || AllInFlight(roomy)
    ensures Proper(t') && (|t'.entries| <= l || AllInFlight(t'))
  {
    InsertGrows(roomy.entries, key, |roomy.heap|);
    if |roomy.entries| >= l {
      forall k <- t'.entries ensures InFlight(t', k) {
        assert k == key || InFlight(roomy, k);
      }
    }
  }

  lemma RoomKeeps(t: Table, l: nat, now: nat, roomy: Table)
    requires Proper(t) && MadeRoom(Sweep(t, now), roomy, l)
    ensures Kept(t, l, roomy)
  {
    var swept := Sweep(t, now);
    assert forall k <- roomy.entries :: k in swept.entries;
    assert forall k <- t.entries :: InFlight(t, k) ==> k in swept.entries && InFlight(swept, k);
  }

  lemma InsertGrows(m: map<Key, nat>, key: Key, id: nat)
    requires key !in m
    ensures |m[key := id]| == |m| + 1
  {
    assert m[key := id].Keys == m.Keys + {key};
    assert |m[key := id].Keys| == |m[key := id]| && |m.Keys| == |m|;
  }

  // ---------------------------------------------------------------- steps that start and end nothing

  /** No execution starts or ends; entries go only by expiry; phases of other calls may move. */
  ghost predicate Quiet(s: System, s': System) {
    && s'.table.heap == s.table.heap && s'.owner == s.owner && s'.evicted == s.evicted
    && s.clock <= s'.clock && s.peak <= s'.peak
    && |s.calls| <= |s'.calls|
    && (forall c | 0 <= c < |s.calls| :: SameRequest(s.calls[c], s'.calls[c]))
    && (forall c | 0 <= c < |s.calls| && (Started(s.calls[c]) || Started(s'.calls[c])) :: s'.calls[c] == s.calls[c])
    && (forall c | |s.calls| <= c < |s'.calls| :: !Started(s'.calls[c]))
  }

  ghost predicate OnlyExpired(t: Table, t': Table, clock: nat)
    requires Proper(t)
  {
    && t'.entries.Keys <= t.entries.Keys
    && (forall k <- t'.entries :: t'.entries[k] == t.entries[k])
    && (forall k <- t.entries :: k in t'.entries || Expired(t.heap[t.entries[k]], clock))
  }

  lemma QuietKeeps(s: System, s': System, l: Limits)
    requires Inv(s, l) && Quiet(s, s') && OnlyExpired(s.table, s'.table, s.clock)
    requires forall c | 0 <= c < |s'.calls| && (c < |s.calls| ==> s'.calls[c] != s.calls[c]) ::
               TimedCall(s'.calls[c], s'.clock) && ServedCall(s, s'.calls[c])
    ensures Inv(s', l)
  {
    QuietOwned(s, s', l);
    QuietServed(s, s', l);
    QuietReserved(s, s', l);
    QuietBounded(s, s', l);
  }

  lemma QuietOwned(s: System, s': System, l: Limits)
    requires Inv(s, l) && Quiet(s, s') && OnlyExpired(s.table, s'.table, s.clock)
    ensures Owned(s') && Mapped(s', l) && AtMostOnce(s', l)
  {
    forall c | 0 <= c < |s'.calls| && s'.calls[c].phase.Executing?
      ensures s'.calls[c].key in s'.table.entries && s'.table.entries[s'.calls[c].key] == s'.calls[c].phase.id
    {
      assert s'.calls[c] == s.calls[c];
      assert InFlight(s.table, s.calls[c].key);
    }
  }

  lemma QuietServed(s: System, s': System, l: Limits)
    requires Inv(s, l) && Quiet(s, s') && Owned(s')
    requires forall c | 0 <= c < |s'.calls| && (c < |s.calls| ==> s'.calls[c] != s.calls[c]) ::
               TimedCall(s'.calls[c], s'.clock) && ServedCall(s, s'.calls[c])
    ensures Served(s') && Timed(s')
  {
    forall c | 0 <= c < |s'.calls|
      ensures ServedCall(s', s'.calls[c]) && TimedCall(s'.calls[c], s'.clock)
    {
      if c < |s.calls| && s'.calls[c] == s.calls[c] {
        assert ServedCall(s, s.calls[c]) && TimedCall(s.calls[c], s.clock);
      }
    }
  }

  lemma QuietReserved(s: System, s': System, l: Limits)
    requires Inv(s, l) && Quiet(s, s') && OnlyExpired(s.table, s'.table, s.clock)
    requires Owned(s')
    ensures Reserved(s', l)
  {
    forall c | 0 <= c < |s'.calls| && EndedApplied(s'.calls[c])
      ensures Protected(s', l, s'.calls[c])
    {
      assert s'.calls[c] == s.calls[c] && Protected(s, l, s.calls[c]);
      if s.calls[c].key in s.table.entries {
        assert Holds(s, l, s.calls[c].key, s.table.entries[s.calls[c].key]);
      }
    }
  }

  lemma QuietBounded(s: System, s': System, l: Limits)
    requires Inv(s, l) && Quiet(s, s') && OnlyExpired(s.table, s'.table, s.clock)
    ensures Bounded(s', l)
  {
    QuietExecutions(s, s');
    SubsetSize(s'.table.entries.Keys, s.table.entries.Keys);
    assert |s'.table.entries.Keys| == |s'.table.entries| && |s.table.entries.Keys| == |s.table.entries|;
  }

  lemma QuietExecutions(s: System, s': System)
    requires Quiet(s, s')
    ensures Executions(s'.calls) == Executions(s.calls)
  {
  }

  lemma SubsetSize<T>(a: set<T>, b: set<T>)
    requires a <= b
    ensures |a| <= |b|
  {
    assert a + (b - a) == b;
  }

  lemma TickKeeps(s: System, s': System, l: Limits)
    requires Inv(s, l) && Tick(s, s')
    ensures Inv(s', l)
  {
    QuietKeeps(s, s', l);
  }

  lemma ArriveKeeps(s: System, s': System, l: Limits, key: Key, fingerprint: Fingerprint)
    requires Inv(s, l) && Arrive(s, s', key, fingerprint)
    ensures Inv(s', l)
  {
    QuietKeeps(s, s', l);
  }

  /** One call moves between phases that are neither executing nor executed. */
  lemma MoveKeeps(s: System, s': System, l: Limits, c: nat, phase: Phase)
    requires Inv(s, l) && c < |s.calls|
    requires s'.calls == s.calls[c := s.calls[c].(phase := phase)]
    requires s' == s.(calls := s'.calls, table := s'.table)
    requires s'.table.heap == s.table.heap && OnlyExpired(s.table, s'.table, s.clock)
    requires !Started(s.calls[c]) && !Started(s'.calls[c])
    requires TimedCall(s'.calls[c], s.clock) && ServedCall(s, s'.calls[c])
    ensures Inv(s', l)
  {
    assert Quiet(s, s');
    QuietKeeps(s, s', l);
  }

  lemma WakeKeeps(s: System, s': System, l: Limits, c: nat)
    requires Inv(s, l) && Wake(s, s', c)
    ensures Inv(s', l)
  {
    var id := s.calls[c].phase.id;
    assert ServedCall(s, s.calls[c]);
    assert Mirrors(s.table.heap[id], s.calls[s.owner[id]], id);
    MoveKeeps(s, s', l, c, Done(Replayed(id, Recorded(s.table.heap[id]))));
  }

  lemma CancelKeeps(s: System, s': System, l: Limits, c: nat)
    requires Inv(s, l) && Cancel(s, s', c)
    ensures Inv(s', l)
  {
    MoveKeeps(s, s', l, c, Done(Cancelled));
  }

  lemma LookKeeps(s: System, s': System, l: Limits, c: nat, begun: Begun)
    requires Inv(s, l) && Enter(s, s', c, l, begun) && !begun.Run?
    ensures Inv(s', l)
  {
    var call := s.calls[c];
    BeginLooks(s.table, l.maxEntries, call.phase.now, call.key, call.fingerprint, s'.table, begun);
    LookServed(s, l, call, s'.table, begun);
    SameExecutions(s.calls, c, PhaseAfter(begun, s.clock));
    MoveKeeps(s, s', l, c, PhaseAfter(begun, s.clock));
  }

  lemma SameExecutions(calls: seq<Call>, c: nat, phase: Phase)
    requires c < |calls| && !calls[c].phase.Executing? && !phase.Executing?
    ensures Executions(calls[c := calls[c].(phase := phase)]) == Executions(calls)
  {
  }

  lemma LookServed(s: System, l: Limits, call: Call, t': Table, begun: Begun)
    requires Inv(s, l) && call in s.calls && call.phase.Entering?
    requires Looked(s.table, call.phase.now, call.key, call.fingerprint, t', begun)
    ensures OnlyExpired(s.table, t', s.clock) && Dropped(Sweep(s.table, call.phase.now), t') == {}
    ensures ServedCall(s, call.(phase := PhaseAfter(begun, s.clock)))
  {
    assert TimedCall(call, s.clock);
    if begun.Wait? {
      assert Holds(s, l, call.key, begun.id);
      assert Mirrors(s.table.heap[begun.id], s.calls[s.owner[begun.id]], begun.id);
    }
  }

  // ---------------------------------------------------------------- an execution starts

  ghost predicate Starts(s: System, s': System, l: Limits, c: nat)
    requires Proper(s.table)
  {
    && c < |s.calls| && s.calls[c].phase.Entering?
    && var call := s.calls[c];
    && Made(s.table, l.maxEntries, call.phase.now, call.key, call.fingerprint, s'.table)
    && s' == System(s'.table, s.clock,
                    s.calls[c := call.(phase := Executing(|s.table.heap|, s.clock))],
                    s.owner + [c],
                    s.evicted + Dropped(Sweep(s.table, call.phase.now), s'.table),
                    Max(s.peak, |Executions(s'.calls)|))
  }

  lemma StartOwned(s: System, s': System, l: Limits, c: nat)
    requires Proper(s.table) && Owned(s) && Starts(s, s', l, c) && 0 < s.clock
    ensures Owned(s')
  {
    forall id | 0 <= id < |s'.owner|
      ensures s'.owner[id] < |s'.calls| && Mirrors(s'.table.heap[id], s'.calls[s'.owner[id]], id)
    {
      if id < |s.owner| {
        assert Mirrors(s.table.heap[id], s.calls[s.owner[id]], id);
      }
    }
    assert forall d | 0 <= d < |s'.calls| && d != c :: s'.calls[d] == s.calls[d];
  }

  lemma StartTimed(s: System, s': System, l: Limits, c: nat)
    requires Proper(s.table) && Timed(s) && Starts(s, s', l, c) && 0 < s.clock
    ensures Timed(s')
  {
    assert forall d | 0 <= d < |s'.calls| && d != c :: s'.calls[d] == s.calls[d];
  }

  lemma StartServed(s: System, s': System, l: Limits, c: nat)
    requires Inv(s, l) && Starts(s, s', l, c) && Owned(s')
    ensures Served(s')
  {
    forall d | 0 <= d < |s'.calls| ensures ServedCall(s', s'.calls[d]) {
      assert d != c ==> s'.calls[d] == s.calls[d] && ServedCall(s, s.calls[d]);
    }
  }

  /** The key the new execution takes was free or expired, so nobody is executing under it. */
  lemma StartAlone(s: System, l: Limits, c: nat, d: nat)
    requires Inv(s, l) && c < |s.calls| && s.calls[c].phase.Entering?
    requires s.calls[c].key in s.table.entries ==>
               Expired(s.table.heap[s.table.entries[s.calls[c].key]], s.calls[c].phase.now)
    requires d < |s.calls| && Started(s.calls[d]) && s.calls[d].key == s.calls[c].key
    ensures Apart(s.calls[d], s.calls[c].(phase := Executing(|s.table.heap|, s.clock)), s.evicted, l)
  {
    assert TimedCall(s.calls[c], s.clock) && TimedCall(s.calls[d], s.clock);
    assert Mirrors(s.table.heap[IdOf(s.calls[d])], s.calls[d], IdOf(s.calls[d]));
    if EndedApplied(s.calls[d]) {
      assert Protected(s, l, s.calls[d]);
      if s.calls[d].key in s.table.entries {
        assert Holds(s, l, s.calls[d].key, s.table.entries[s.calls[d].key]);
      }
    }
  }

  lemma StartAtMostOnce(s: System, s': System, l: Limits, c: nat)
    requires Inv(s, l) && Starts(s, s', l, c)
    ensures AtMostOnce(s', l)
  {
    forall a, b | 0 <= a < |s'.calls| && 0 <= b < |s'.calls| && Started(s'.calls[a]) && Started(s'.calls[b])
                  && s'.calls[a].key == s'.calls[b].key && IdOf(s'.calls[a]) < IdOf(s'.calls[b])
      ensures Apart(s'.calls[a], s'.calls[b], s'.evicted, l)
    {
      assert a != c;
      if b == c {
        StartAlone(s, l, c, a);
      } else {
        assert Apart(s.calls[a], s.calls[b], s.evicted, l);
      }
    }
  }

  lemma StartMapped(s: System, s': System, l: Limits, c: nat)
    requires Inv(s, l) && Starts(s, s', l, c) && Owned(s')
    ensures Mapped(s', l)
  {
    forall k <- s'.table.entries ensures Holds(s', l, k, s'.table.entries[k]) {
      assert k != s.calls[c].key ==> Holds(s, l, k, s.table.entries[k]);
    }
    forall d | 0 <= d < |s'.calls| && s'.calls[d].phase.Executing?
      ensures s'.calls[d].key in s'.table.entries && s'.table.entries[s'.calls[d].key] == s'.calls[d].phase.id
    {
      if d != c {
        assert s'.calls[d] == s.calls[d] && InFlight(s.table, s.calls[d].key);
        assert Mirrors(s.table.heap[s.calls[d].phase.id], s.calls[d], s.calls[d].phase.id);
      }
    }
  }

  lemma StartReserved(s: System, s': System, l: Limits, c: nat)
    requires Inv(s, l) && Starts(s, s', l, c) && Owned(s')
    ensures Reserved(s', l)
  {
    forall d | 0 <= d < |s'.calls| && EndedApplied(s'.calls[d])
      ensures Protected(s', l, s'.calls[d])
    {
      assert s'.calls[d] == s.calls[d] && Protected(s, l, s.calls[d]);
      assert TimedCall(s.calls[c], s.clock);
      if s.calls[d].key in s.table.entries {
        assert Holds(s, l, s.calls[d].key, s.table.entries[s.calls[d].key]);
      }
    }
  }

  /** When nothing but executions is left in the map, there are as many executions as entries. */
  lemma InFlightCount(s: System, l: Limits)
    requires Owned(s) && Mapped(s, l) && AllInFlight(s.table)
    ensures |s.table.entries| <= |Executions(s.calls)|
  {
    var f := map k | k in s.table.entries :: s.owner[s.table.entries[k]];
    forall k <- f ensures f[k] in Executions(s.calls) && s.calls[f[k]].key == k {
      var id := s.table.entries[k];
      assert InFlight(s.table, k) && Holds(s, l, k, id) && Mirrors(s.table.heap[id], s.calls[f[k]], id);
    }
    InjectionSize(f, Executions(s.calls));
    assert |f.Keys| == |f| && f.Keys == s.table.entries.Keys && |s.table.entries.Keys| == |s.table.entries|;
  }

  lemma {:induction false} InjectionSize<K, V>(f: map<K, V>, target: set<V>)
    requires forall k <- f :: f[k] in target
    requires forall j <- f, k <- f :: f[j] == f[k] ==> j == k
    ensures |f| <= |target|
    decreases |f|
  {
    if f != map[] {
      var k :| k in f;
      var rest := f - {k};
      assert rest.Keys == f.Keys - {k} && |rest.Keys| == |rest| && |f.Keys| == |f|;
      InjectionSize(rest, target - {f[k]});
    }
  }

  lemma StartBounded(s: System, s': System, l: Limits, c: nat)
    requires Inv(s, l) && Starts(s, s', l, c) && Owned(s') && Mapped(s', l)
    ensures Bounded(s', l)
  {
    if |s'.table.entries| > l.maxEntries {
      InFlightCount(s', l);
    }
  }

  lemma EnterStarts(s: System, s': System, l: Limits, c: nat, begun: Begun)
    requires Proper(s.table) && |s.owner| == |s.table.heap|
    requires Enter(s, s', c, l, begun) && begun.Run? && s.calls[c].key != ""
    ensures Starts(s, s', l, c)
  {
    var call := s.calls[c];
    BeginMakes(s.table, l.maxEntries, call.phase.now, call.key, call.fingerprint, s'.table, begun.id);
  }

  lemma StartKeeps(s: System, s': System, l: Limits, c: nat, begun: Begun)
    requires Inv(s, l) && Enter(s, s', c, l, begun) && begun.Run?
    ensures Inv(s', l)
  {
    assert TimedCall(s.calls[c], s.clock);
    EnterStarts(s, s', l, c, begun);
    StartOwned(s, s', l, c);
    StartTimed(s, s', l, c);
    StartServed(s, s', l, c);
    StartAtMostOnce(s, s', l, c);
    StartMapped(s, s', l, c);
    StartReserved(s, s', l, c);
    StartBounded(s, s', l, c);
  }

  // ---------------------------------------------------------------- an execution ends

  /** The delete-by-key of a failed or refused execution removes the caller's own entry: its
      key maps to it, and no other call is executing or waiting to execute under that key. */
  lemma OwnEntry(s: System, l: Limits, c: nat)
    requires Inv(s, l) && c < |s.calls| && s.calls[c].phase.Executing?
    ensures s.calls[c].key in s.table.entries && s.table.entries[s.calls[c].key] == s.calls[c].phase.id
    ensures s.owner[s.calls[c].phase.id] == c && InFlight(s.table, s.calls[c].key)
    ensures forall d | 0 <= d < |s.calls| && s.calls[d].phase.Executing? && s.calls[d].key == s.calls[c].key :: d == c
    ensures forall k <- s.table.entries :: s.table.entries[k] == s.calls[c].phase.id ==> k == s.calls[c].key
  {
    assert Mirrors(s.table.heap[s.calls[c].phase.id], s.calls[c], s.calls[c].phase.id);
    forall k <- s.table.entries | s.table.entries[k] == s.calls[c].phase.id ensures k == s.calls[c].key {
      assert Holds(s, l, k, s.table.entries[k]);
    }
  }

  lemma EndOwned(s: System, s': System, l: Limits, c: nat, completion: Completion)
    requires Inv(s, l) && End(s, s', c, l, completion)
    ensures Owned(s') && Timed(s')
  {
    OwnEntry(s, l, c);
    forall id | 0 <= id < |s'.owner|
      ensures s'.owner[id] < |s'.calls| && Mirrors(s'.table.heap[id], s'.calls[s'.owner[id]], id)
    {
      assert Mirrors(s.table.heap[id], s.calls[s.owner[id]], id);
    }
    assert TimedCall(s.calls[c], s.clock);
    assert forall d | 0 <= d < |s'.calls| && d != c :: s'.calls[d] == s.calls[d];
  }

  lemma EndServed(s: System, s': System, l: Limits, c: nat, completion: Completion)
    requires Inv(s, l) && End(s, s', c, l, completion) && Owned(s')
    ensures Served(s') && AtMostOnce(s', l)
  {
    forall d | 0 <= d < |s'.calls| ensures ServedCall(s', s'.calls[d]) {
      assert d != c ==> s'.calls[d] == s.calls[d] && ServedCall(s, s.calls[d]);
    }
    forall a, b | 0 <= a < |s'.calls| && 0 <= b < |s'.calls| && Started(s'.calls[a]) && Started(s'.calls[b])
                  && s'.calls[a].key == s'.calls[b].key && IdOf(s'.calls[a]) < IdOf(s'.calls[b])
      ensures Apart(s'.calls[a], s'.calls[b], s'.evicted, l)
    {
      assert Apart(s.calls[a], s.calls[b], s.evicted, l);
    }
  }

  lemma EndHolds(s: System, s': System, l: Limits, c: nat, completion: Completion)
    requires Inv(s, l) && End(s, s', c, l, completion) && Owned(s')
    ensures forall k <- s'.table.entries :: Holds(s', l, k, s'.table.entries[k])
  {
    OwnEntry(s, l, c);
    forall k <- s'.table.entries ensures Holds(s', l, k, s'.table.entries[k]) {
      assert Holds(s, l, k, s.table.entries[k]);
    }
  }

  lemma EndMapped(s: System, s': System, l: Limits, c: nat, completion: Completion)
    requires Inv(s, l) && End(s, s', c, l, completion) && Owned(s')
    ensures Mapped(s', l)
  {
    EndHolds(s, s', l, c, completion);
    OwnEntry(s, l, c);
    forall d | 0 <= d < |s'.calls| && s'.calls[d].phase.Executing?
      ensures s'.calls[d].key in s'.table.entries && s'.table.entries[s'.calls[d].key] == s'.calls[d].phase.id
    {
      assert s'.calls[d] == s.calls[d];
    }
  }

  lemma EndReserved(s: System, s': System, l: Limits, c: nat, completion: Completion)
    requires Inv(s, l) && End(s, s', c, l, completion) && Owned(s')
    ensures Reserved(s', l)
  {
    OwnEntry(s, l, c);
    forall d | 0 <= d < |s'.calls| && EndedApplied(s'.calls[d]) ensures Protected(s', l, s'.calls[d]) {
      if d != c {
        assert s'.calls[d] == s.calls[d] && Protected(s, l, s.calls[d]);
      }
    }
  }

  lemma EndBounded(s: System, s': System, l: Limits, c: nat, completion: Completion)
    requires Inv(s, l) && End(s, s', c, l, completion)
    ensures Bounded(s', l)
  {
    SubsetSize(s'.table.entries.Keys, s.table.entries.Keys);
    assert |s'.table.entries.Keys| == |s'.table.entries| && |s.table.entries.Keys| == |s.table.entries|;
    SubsetSize(Executions(s'.calls), Executions(s.calls));
  }

  lemma EndKeeps(s: System, s': System, l: Limits, c: nat, completion: Completion)
    requires Inv(s, l) && End(s, s', c, l, completion)
    ensures Inv(s', l)
  {
    EndOwned(s, s', l, c, completion);
    EndServed(s, s', l, c, completion);
    EndMapped(s, s', l, c, completion);
    EndReserved(s, s', l, c, completion);
    EndBounded(s, s', l, c, completion);
  }

  // ---------------------------------------------------------------- whole runs

  lemma StepKeeps(s: System, s': System, l: Limits, step: Step)
    requires Inv(s, l) && Takes(s, s', l, step)
    ensures Inv(s', l)
  {
    match step
    case TickStep => TickKeeps(s, s', l);
    case ArriveStep(key, fingerprint) => ArriveKeeps(s, s', l, key, fingerprint);
    case EnterStep(c, begun) =>
      if begun.Run? {
        StartKeeps(s, s', l, c, begun);
      } else {
        LookKeeps(s, s', l, c, begun);
      }
    case EndStep(c, completion) => EndKeeps(s, s', l, c, completion);
    case WakeStep(c) => WakeKeeps(s, s', l, c);
    case CancelStep(c) => CancelKeeps(s, s', l, c);
  }

  lemma {:induction false} RunKeeps(run: seq<System>, steps: seq<Step>, l: Limits, i: nat)
    requires IsRun(run, steps, l) && i < |run|
    ensures Inv(run[i], l)
  {
    if i > 0 {
      RunKeeps(run, steps, l, i - 1);
      StepKeeps(run[i - 1], run[i], l, steps[i - 1]);
    }
  }
}
