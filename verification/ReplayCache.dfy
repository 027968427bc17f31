/** The idempotent mutation replay cache (pkg/agent/resource_mutation_cache.go).

    The value-level functions and relations below say what each locked section of
    `do` does to the table of entries; the class `MutationReplayCache` performs the
    same sections in place and is proved against them.  An entry is named by its
    position in the order of allocation, which plays the role of its address. */
module ReplayCache {
  import opened Options

  type Key = string
  type Fingerprint = seq<bv8>

  datatype Response = Response(status: int, reason: string)

  datatype Outcome = Outcome(response: Response, body: seq<bv8>, applied: bool)

  const NO_OUTCOME := Outcome(Response(0, ""), [], false)

  /** What `execute` hands back: a result or an error. */
  datatype Completion = Success(result: Outcome) | Failure(error: string)

  /** One entry.  Time 0 is Go's zero time, so `expiresAt == 0` is an entry in flight. */
  datatype Record = Record(
    fingerprint: Fingerprint,
    ready: bool,
    result: Outcome,
    err: Option<string>,
    expiresAt: nat)

  datatype Table = Table(entries: map<Key, nat>, heap: seq<Record>)

  /** What the first locked section decides for a caller. */
  datatype Begun = Conflict | Wait(id: nat) | Run(id: nat)

  ghost predicate WellFormed(t: Table) {
    forall k <- t.entries :: t.entries[k] < |t.heap|
  }

  predicate InFlight(t: Table, k: Key)
    requires k in t.entries && t.entries[k] < |t.heap|
  {
    t.heap[t.entries[k]].expiresAt == 0
  }

  function ExpiryOf(t: Table, k: Key): nat
    requires k in t.entries && t.entries[k] < |t.heap|
  {
    t.heap[t.entries[k]].expiresAt
  }

  predicate Expired(r: Record, now: nat) {
    r.expiresAt != 0 && r.expiresAt <= now
  }

  /** removeExpiredLocked. */
  ghost function Sweep(t: Table, now: nat): Table
    requires WellFormed(t)
  {
    t.(entries := map k | k in t.entries && !Expired(t.heap[t.entries[k]], now) :: t.entries[k])
  }

  /** The scan for a victim takes the empty key for "none found", so what it promises it promises
      for tables without that key. */
  predicate NoEmptyKey(t: Table) {
    "" !in t.entries
  }

  /** makeRoomLocked, in closed form: `after` keeps every entry in flight and only drops
      completed ones, oldest expiry first, no more of them than the limit asks for, and
      stops above the limit only when nothing but entries in flight is left.  Which of
      several equally old entries goes is left open, as the iteration order is. */
  ghost predicate MadeRoom(before: Table, after: Table, maxEntries: nat)
    requires WellFormed(before)
  {
    && after.heap == before.heap
    && Evicted(before, after.entries, maxEntries)
    && (NoEmptyKey(before) ==> |after.entries| < maxEntries || AllInFlight(after))
  }

  ghost predicate AllInFlight(t: Table)
    requires WellFormed(t)
  {
    forall k <- t.entries :: InFlight(t, k)
  }

  ghost predicate Oldest(t: Table, oldestKey: Key)
    requires WellFormed(t)
  {
    && oldestKey in t.entries && !InFlight(t, oldestKey)
    && forall k <- t.entries :: !InFlight(t, k) ==> ExpiryOf(t, oldestKey) <= ExpiryOf(t, k)
  }

  /** What holds after any number of passes of the eviction loop. */
  ghost predicate Evicted(before: Table, kept: map<Key, nat>, maxEntries: nat)
    requires WellFormed(before)
  {
    && kept.Keys <= before.entries.Keys
    && (forall k <- kept :: kept[k] == before.entries[k])
    && (forall k <- before.entries :: InFlight(before, k) ==> k in kept)
    && (NoEmptyKey(before) ==>
          forall v <- before.entries, s <- kept ::
            v !in kept && !InFlight(before, s) ==> ExpiryOf(before, v) <= ExpiryOf(before, s))
    && (kept != before.entries ==> maxEntries <= |kept| + 1)
  }

  lemma EvictOldest(before: Table, t: Table, maxEntries: nat, oldestKey: Key)
    requires WellFormed(before) && WellFormed(t) && t.heap == before.heap
    requires Evicted(before, t.entries, maxEntries) && maxEntries <= |t.entries|
    requires IsVictim(t, oldestKey)
    ensures |Without(t, oldestKey).entries| == |t.entries| - 1
    ensures Evicted(before, Without(t, oldestKey).entries, maxEntries)
  {
    var rest := t.entries - {oldestKey};
    assert rest.Keys == t.entries.Keys - {oldestKey};
    assert |rest.Keys| == |rest| && |t.entries.Keys| == |t.entries|;
    assert forall k <- rest :: k in t.entries;
  }

  /** The eviction loop, between two passes. */
  ghost predicate Making(before: Table, current: Table, maxEntries: nat) {
    && WellFormed(before) && WellFormed(current) && current.heap == before.heap
    && Evicted(before, current.entries, maxEntries)
  }

  lemma MakingBegins(t: Table, maxEntries: nat)
    requires WellFormed(t)
    ensures Making(t, t, maxEntries)
  {
  }

  /** A victim, as the scan promises it. */
  ghost predicate IsVictim(t: Table, oldestKey: Key)
    requires WellFormed(t)
  {
    oldestKey in t.entries && !InFlight(t, oldestKey) && (NoEmptyKey(t) ==> Oldest(t, oldestKey))
  }

  lemma MakingGoesOn(before: Table, current: Table, maxEntries: nat, oldestKey: Key)
    requires Making(before, current, maxEntries) && maxEntries <= |current.entries| && IsVictim(current, oldestKey)
    ensures Making(before, Without(current, oldestKey), maxEntries)
    ensures |Without(current, oldestKey).entries| == |current.entries| - 1
  {
    EvictOldest(before, current, maxEntries, oldestKey);
  }

  lemma MakingEnds(before: Table, current: Table, maxEntries: nat)
    requires Making(before, current, maxEntries)
    requires |current.entries| < maxEntries || (NoEmptyKey(current) ==> AllInFlight(current))
    ensures MadeRoom(before, current, maxEntries)
  {
  }

  function NewRecord(fingerprint: Fingerprint): Record {
    Record(fingerprint, false, NO_OUTCOME, None, 0)
  }

  /** The first locked section of `do`: sweep, then look the key up, then insert. */
  ghost predicate Begins(t: Table, maxEntries: nat, now: nat, key: Key, fingerprint: Fingerprint,
                         t': Table, begun: Begun)
    requires WellFormed(t)
  {
    var swept := Sweep(t, now);
    if key in swept.entries then
      var id := swept.entries[key];
      && t' == swept
      && begun == (if t.heap[id].fingerprint != fingerprint then Conflict else Wait(id))
    else
      exists roomy :: MadeRoom(swept, roomy, maxEntries) && Inserted(roomy, key, fingerprint, t', begun)
  }

  ghost predicate Inserted(roomy: Table, key: Key, fingerprint: Fingerprint, t': Table, begun: Begun) {
    && begun == Run(|roomy.heap|)
    && t' == Table(roomy.entries[key := |roomy.heap|], roomy.heap + [NewRecord(fingerprint)])
  }

  /** The entry a completion leaves behind. */
  function CompletedRecord(r: Record, c: Completion, now: nat, ttl: nat): Record {
    match c
    case Failure(error) => r.(err := Some(error), ready := true)
    case Success(result) => r.(result := result, expiresAt := now + ttl, ready := true)
  }

  predicate Reserves(c: Completion) {
    c.Success? && c.result.applied
  }

  /** The second locked section of `do`, run by the caller that executed. */
  function Finish(t: Table, key: Key, id: nat, c: Completion, now: nat, ttl: nat): Table
    requires id < |t.heap|
  {
    Table(if Reserves(c) then t.entries else t.entries - {key},
          t.heap[id := CompletedRecord(t.heap[id], c, now, ttl)])
  }

  function Without(t: Table, key: Key): Table {
    t.(entries := t.entries - {key})
  }

  /** Swept, but for the keys still to be looked at. */
  ghost predicate SweptBut(t: Table, current: Table, pending: set<Key>, now: nat)
    requires WellFormed(t)
  {
    && current.heap == t.heap && pending <= current.entries.Keys
    && (forall k <- current.entries :: k in t.entries && current.entries[k] == t.entries[k])
    && (forall k <- t.entries :: k in current.entries <==> k in pending || !Expired(t.heap[t.entries[k]], now))
  }

  lemma SweepMore(t: Table, current: Table, pending: set<Key>, key: Key, now: nat)
    requires WellFormed(t) && SweptBut(t, current, pending, now) && key in pending
    ensures if Expired(t.heap[t.entries[key]], now) then SweptBut(t, Without(current, key), pending - {key}, now)
            else SweptBut(t, current, pending - {key}, now)
  {
  }

  lemma SweptAll(t: Table, current: Table, now: nat)
    requires WellFormed(t) && SweptBut(t, current, {}, now)
    ensures current == Sweep(t, now)
  {
    assert current.entries == Sweep(t, now).entries;
  }

  // ---------------------------------------------------------------- the cache itself

  class Entry {
    var fingerprint: Fingerprint
    var ready: bool
    var result: Outcome
    var err: Option<string>
    var expiresAt: nat

    constructor (fingerprint: Fingerprint)
      ensures View() == NewRecord(fingerprint)
    {
      this.fingerprint := fingerprint;
      ready, result, err, expiresAt := false, NO_OUTCOME, None, 0;
    }

    ghost function View(): Record
      reads this
    {
      Record(fingerprint, ready, result, err, expiresAt)
    }
  }

  /** The entries' values; they depend on nothing but the entries. */
  ghost function Views(issued: seq<Entry>): (heap: seq<Record>)
    reads issued
    ensures |heap| == |issued| && forall i | 0 <= i < |issued| :: heap[i] == issued[i].View()
  {
    seq(|issued|, i requires 0 <= i < |issued| reads issued => issued[i].View())
  }

  class MutationReplayCache {
    var entries: map<Key, Entry>
    const maxEntries: nat
    const ttl: nat

    /** Every entry ever made, in order, and the position of each stored one. */
    ghost var issued: seq<Entry>
    ghost var position: map<Key, nat>

    ghost predicate Valid()
      reads this
    {
      && (forall i, j | 0 <= i < j < |issued| :: issued[i] != issued[j])
      && position.Keys == entries.Keys
      && (forall k <- entries :: position[k] < |issued| && issued[position[k]] == entries[k])
    }

    ghost function State(): (t: Table)
      reads this, issued
      ensures |t.heap| == |issued|
      ensures forall i | 0 <= i < |issued| :: t.heap[i] == issued[i].View()
    {
      Table(position, Views(issued))
    }

    constructor (maxEntries: nat, ttl: nat)
      ensures Valid() && State() == Table(map[], [])
      ensures this.maxEntries == maxEntries && this.ttl == ttl
    {
      this.maxEntries, this.ttl := maxEntries, ttl;
      entries, issued, position := map[], [], map[];
    }

    method RemoveExpiredLocked(now: nat)
      requires Valid()
      modifies this`entries, this`position
      ensures Valid() && WellFormed(old(State())) && State() == Sweep(old(State()), now)
    {
      ghost var t, current := State(), State();
      var pending := entries.Keys;
      while pending != {}
        invariant Valid() && State() == current
        invariant WellFormed(t) && SweptBut(t, current, pending, now)
        decreases pending
      {
        var key :| key in pending;
        var entry := entries[key];
        assert entry.View() == current.heap[current.entries[key]];
        SweepMore(t, current, pending, key, now);
        pending := pending - {key};
        if entry.expiresAt != 0 && entry.expiresAt <= now {
          Drop(key);
          current := Without(current, key);
        }
      }
      SweptAll(t, current, now);
    }

    /** The scan inside makeRoomLocked: the completed entry that expires first, or "". */
    method OldestCompleted() returns (oldestKey: Key)
      requires Valid()
      ensures WellFormed(State())
      ensures if oldestKey == "" then NoEmptyKey(State()) ==> AllInFlight(State()) else IsVictim(State(), oldestKey)
    {
      ghost var t := State();
      oldestKey := "";
      var oldest: nat := 0;
      var pending := entries.Keys;
      while pending != {}
        invariant pending <= entries.Keys
        invariant NoEmptyKey(t) && oldestKey == "" ==> forall k <- entries :: k in pending || InFlight(t, k)
        invariant oldestKey != "" ==>
                    oldestKey in entries && !InFlight(t, oldestKey) && oldest == ExpiryOf(t, oldestKey)
        invariant NoEmptyKey(t) && oldestKey != "" ==>
                    forall k <- entries :: k in pending || InFlight(t, k) || oldest <= ExpiryOf(t, k)
        decreases pending
      {
        var key :| key in pending;
        pending := pending - {key};
        var entry := entries[key];
        assert entry.View() == t.heap[t.entries[key]];
        if entry.expiresAt != 0 && (oldestKey == "" || entry.expiresAt < oldest) {
          oldestKey, oldest := key, entry.expiresAt;
        }
      }
    }

    /** One pass of the loop in makeRoomLocked; "" when nothing can go. */
    method EvictOne() returns (oldestKey: Key)
      requires Valid()
      modifies this`entries, this`position
      ensures Valid() && WellFormed(old(State()))
      ensures oldestKey == "" ==> State() == old(State()) && (NoEmptyKey(State()) ==> AllInFlight(State()))
      ensures oldestKey != "" ==> IsVictim(old(State()), oldestKey) && State() == Without(old(State()), oldestKey)
    {
      oldestKey := OldestCompleted();
      if oldestKey != "" {
        Drop(oldestKey);
      }
    }

    method MakeRoomLocked()
      requires Valid()
      modifies this`entries, this`position
      ensures Valid() && WellFormed(old(State())) && MadeRoom(old(State()), State(), maxEntries)
    {
      ghost var t, current := State(), State();
      MakingBegins(t, maxEntries);
      SameSize();
      while |entries| >= maxEntries
        invariant Valid() && State() == current && |entries| == |current.entries|
        invariant Making(t, current, maxEntries)
        decreases |entries|
      {
        var oldestKey := EvictOne();
        SameSize();
        if oldestKey == "" {
          break;
        }
        MakingGoesOn(t, current, maxEntries, oldestKey);
        current := Without(current, oldestKey);
      }
      MakingEnds(t, current, maxEntries);
    }

    method Drop(key: Key)
      requires Valid()
      modifies this`entries, this`position
      ensures Valid()
      ensures State() == Without(old(State()), key)
    {
      entries := entries - {key};
      position := position - {key};
      assert entries.Keys == old(entries).Keys - {key} && position.Keys == old(position).Keys - {key};
    }

    lemma SameSize()
      requires Valid()
      ensures |entries| == |position|
    {
      assert |entries.Keys| == |entries| && |position.Keys| == |position|;
    }

    method Insert(key: Key, fingerprint: Fingerprint) returns (entry: Entry)
      requires Valid()
      modifies this
      ensures Valid() && issued == old(issued) + [entry]
      ensures Inserted(old(State()), key, fingerprint, State(), Run(old(|issued|)))
    {
      ghost var roomy := State();
      entry := new Entry(fingerprint);
      entries := entries[key := entry];
      position := position[key := |issued|];
      issued := issued + [entry];
      assert State().heap == roomy.heap + [NewRecord(fingerprint)];
    }

    /** The first locked section of `do`, at a clock reading `now` taken before the lock.
        No entry is handed out on a conflict; `execute` tells running from waiting. */
    method Begin(now: nat, key: Key, fingerprint: Fingerprint)
      returns (entry: Entry?, execute: bool, ghost begun: Begun)
      requires Valid()
      modifies this
      ensures Valid() && WellFormed(old(State()))
      ensures Begins(old(State()), maxEntries, now, key, fingerprint, State(), begun)
      ensures entry == null <==> begun.Conflict?
      ensures execute <==> begun.Run?
      ensures entry != null ==> begun.id < |issued| && issued[begun.id] == entry
    {
      RemoveExpiredLocked(now);
      if key in entries {
        entry := entries[key];
        assert entry.View() == State().heap[position[key]];
        if entry.fingerprint != fingerprint {
          return null, false, Conflict;
        }
        return entry, false, Wait(position[key]);
      }
      MakeRoomLocked();
      ghost var roomy := State();
      execute, begun := true, Run(|issued|);
      entry := Insert(key, fingerprint);
    }

    /** The second locked section of `do`: record the completion on the caller's own entry,
        and release the key unless the outcome may have changed the cluster. */
    method Complete(key: Key, entry: Entry, ghost id: nat, c: Completion, now: nat)
      requires Valid() && id < |issued| && issued[id] == entry
      modifies this`entries, this`position, entry
      ensures Valid() && issued == old(issued)
      ensures State() == Finish(old(State()), key, id, c, now, ttl)
    {
      ghost var t := State();
      match c {
        case Failure(error) =>
          entry.err := Some(error);
        case Success(result) =>
          entry.result := result;
          entry.expiresAt := now + ttl;
      }
      if c.Failure? || !c.result.applied {
        entries := entries - {key};
        position := position - {key};
      }
      entry.ready := true;
      assert State().heap == Finish(t, key, id, c, now, ttl).heap;
    }

    /** What a caller released by `ready` reads off the entry it waited on. */
    method Collect(entry: Entry, ghost id: nat) returns (c: Completion)
      requires Valid() && id < |issued| && issued[id] == entry
      ensures c == Recorded(State().heap[id])
    {
      assert entry.View() == State().heap[id];
      if entry.err.Some? {
        return Failure(entry.err.value);
      }
      return Success(entry.result);
    }
  }

  function Recorded(r: Record): Completion {
    if r.err.Some? then Failure(r.err.value) else Success(r.result)
  }
}
