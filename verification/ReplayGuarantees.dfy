/** What every run of the replay protocol guarantees to its callers. */
module ReplayGuarantees {
  import opened ReplayCache
  import opened ReplayProtocol

  /** At most once: whatever the interleaving, two executions under one key never overlap,
      and the later one starts at least `ttl` after an earlier one that may have written,
      unless makeRoomLocked evicted that one's entry. */
  lemma AtMostOnceInEveryRun(run: seq<System>, steps: seq<Step>, l: Limits, i: nat, c: nat, d: nat)
    requires IsRun(run, steps, l) && i < |run| && c < |run[i].calls| && d < |run[i].calls| && c != d
    requires Started(run[i].calls[c]) && Started(run[i].calls[d])
    requires run[i].calls[c].key == run[i].calls[d].key
    ensures Apart(run[i].calls[c], run[i].calls[d], run[i].evicted, l)
         || Apart(run[i].calls[d], run[i].calls[c], run[i].evicted, l)
  {
    RunKeeps(run, steps, l, i);
    var s := run[i];
    assert s.owner[IdOf(s.calls[c])] == c && s.owner[IdOf(s.calls[d])] == d;
    assert IdOf(s.calls[c]) < IdOf(s.calls[d]) || IdOf(s.calls[d]) < IdOf(s.calls[c]);
  }

  /** In-flight pinning: an executing caller's own entry is the one under its key, and it is
      the only caller executing under that key. */
  lemma ExecutingEntryIsPinned(run: seq<System>, steps: seq<Step>, l: Limits, i: nat, c: nat)
    requires IsRun(run, steps, l) && i < |run| && c < |run[i].calls| && run[i].calls[c].phase.Executing?
    ensures var s := run[i]; var call := s.calls[c];
            && call.key in s.table.entries && s.table.entries[call.key] == call.phase.id
            && call.phase.id < |s.owner| && s.owner[call.phase.id] == c
            && forall d | 0 <= d < |s.calls| && s.calls[d].phase.Executing? && s.calls[d].key == call.key :: d == c
  {
    RunKeeps(run, steps, l, i);
    OwnEntry(run[i], l, c);
  }

  /** Replay fidelity: what a waiter is given is what an execution of the same request,
      under the same key, returned to its own caller. */
  lemma ReplayIsFaithful(run: seq<System>, steps: seq<Step>, l: Limits, i: nat, c: nat)
    requires IsRun(run, steps, l) && i < |run| && c < |run[i].calls|
    requires run[i].calls[c].phase.Done? && run[i].calls[c].phase.ret.Replayed?
    ensures exists d | 0 <= d < |run[i].calls| ::
              && SameRequest(run[i].calls[c], run[i].calls[d]) && Ended(run[i].calls[d])
              && run[i].calls[d].phase.ret.completion == run[i].calls[c].phase.ret.recorded
  {
    RunKeeps(run, steps, l, i);
    var s := run[i];
    assert ServedCall(s, s.calls[c]);
    assert SameRequest(s.calls[c], s.calls[s.owner[s.calls[c].phase.ret.id]]);
  }

  /** No waiter is forgotten: once the execution it waits for has ended, it can be woken, and is told
      what that execution returned. */
  lemma WaiterCanWake(run: seq<System>, steps: seq<Step>, l: Limits, i: nat, c: nat) returns (s': System)
    requires IsRun(run, steps, l) && i < |run| && c < |run[i].calls| && run[i].calls[c].phase.Waiting?
    ensures var s := run[i]; var id := s.calls[c].phase.id;
            && id < |s.owner| && s.owner[id] < |s.calls| && SameRequest(s.calls[c], s.calls[s.owner[id]])
            && (Ended(s.calls[s.owner[id]]) ==>
                  && Takes(s, s', l, WakeStep(c)) && |s'.calls| == |s.calls|
                  && s'.calls[c].phase == Done(Replayed(id, s.calls[s.owner[id]].phase.ret.completion)))
  {
    RunKeeps(run, steps, l, i);
    var s, id := run[i], run[i].calls[c].phase.id;
    assert ServedCall(s, s.calls[c]) && Mirrors(s.table.heap[id], s.calls[s.owner[id]], id);
    s' := s.(calls := s.calls[c := s.calls[c].(phase := Done(Replayed(id, Recorded(s.table.heap[id]))))]);
  }

  /** Bounded memory: the map outgrows its limit only to hold simultaneous executions. */
  lemma EntriesAreBounded(run: seq<System>, steps: seq<Step>, l: Limits, i: nat)
    requires IsRun(run, steps, l) && i < |run|
    ensures |run[i].table.entries| <= Max(l.maxEntries, run[i].peak)
  {
    RunKeeps(run, steps, l, i);
  }

  // ---------------------------------------------------------------- who conflicts, who executes

  /** Another request holds the key at time `now`: it is executing, or ended applied, was not
      evicted, and is younger than `ttl`. */
  predicate Blocks(s: System, d: Call, key: Key, now: nat, l: Limits) {
    && d.key == key
    && (d.phase.Executing? || (EndedApplied(d) && d.phase.ret.id !in s.evicted && now < d.phase.ret.endedAt + l.ttl))
  }

  /** A caller executes only if nothing holds its key by the true clock; a caller that does
      not execute found the key held, by the clock reading it swept with: it waits if the
      holder asked for the same, and conflicts otherwise.  A refused or dry-run execution
      never holds the key, so the corrected request after it executes. */
  lemma ExecutesWhenReleased(run: seq<System>, steps: seq<Step>, l: Limits, i: nat)
    requires IsRun(run, steps, l) && i < |steps| && steps[i].EnterStep? && steps[i].c < |run[i].calls|
    requires run[i].calls[steps[i].c].phase.Entering?
    ensures |run[i + 1].calls| == |run[i].calls|
    ensures var s := run[i]; var call, after := s.calls[steps[i].c], run[i + 1].calls[steps[i].c].phase;
            && (after.Executing? || after.Waiting? || after == Done(Conflicted))
            && (after.Executing? ==> forall d <- s.calls :: !Blocks(s, d, call.key, s.clock, l))
            && (!after.Executing? ==> exists d <- s.calls ::
                  HeldAt(d, call.key, call.phase.now, l) && (after.Waiting? <==> d.fingerprint == call.fingerprint))
  {
    RunKeeps(run, steps, l, i);
    var s, call, begun := run[i], run[i].calls[steps[i].c], steps[i].begun;
    assert Takes(s, run[i + 1], l, steps[i]) && TimedCall(call, s.clock);
    if begun.Run? {
      BeginMakes(s.table, l.maxEntries, call.phase.now, call.key, call.fingerprint, run[i + 1].table, begun.id);
      forall d <- s.calls ensures !Blocks(s, d, call.key, s.clock, l) {
        NotBlocking(s, l, d, call);
      }
    } else {
      BeginLooks(s.table, l.maxEntries, call.phase.now, call.key, call.fingerprint, run[i + 1].table, begun);
      HolderOf(s, l, call.key, call.phase.now, begun, call.fingerprint);
    }
  }

  /** As Blocks, but evicted or not. */
  predicate HeldAt(d: Call, key: Key, now: nat, l: Limits) {
    d.key == key && (d.phase.Executing? || (EndedApplied(d) && now < d.phase.ret.endedAt + l.ttl))
  }

  lemma NotBlocking(s: System, l: Limits, d: Call, call: Call)
    requires Inv(s, l) && d in s.calls && call in s.calls && call.phase.Entering?
    requires call.key in s.table.entries ==> Expired(s.table.heap[s.table.entries[call.key]], call.phase.now)
    ensures !Blocks(s, d, call.key, s.clock, l)
  {
    assert TimedCall(call, s.clock);
    if d.key == call.key && EndedApplied(d) {
      assert Protected(s, l, d);
      if d.key in s.table.entries {
        assert Holds(s, l, d.key, s.table.entries[d.key]);
      }
    }
  }

  lemma HolderOf(s: System, l: Limits, key: Key, now: nat, begun: Begun, fingerprint: Fingerprint)
    requires Inv(s, l) && key in Sweep(s.table, now).entries
    requires begun == (if s.table.heap[s.table.entries[key]].fingerprint != fingerprint then Conflict
                       else Wait(s.table.entries[key]))
    ensures exists d <- s.calls :: HeldAt(d, key, now, l) && (begun.Wait? <==> d.fingerprint == fingerprint)
  {
    var id := s.table.entries[key];
    assert Holds(s, l, key, id) && Mirrors(s.table.heap[id], s.calls[s.owner[id]], id);
    assert HeldAt(s.calls[s.owner[id]], key, now, l);
  }

  // ---------------------------------------------------------------- no eviction below the limit

  ghost function Below(n: nat): (r: set<nat>)
    ensures |r| == n && forall i: nat :: i in r <==> i < n
  {
    if n == 0 then {} else Below(n - 1) + {n - 1}
  }

  lemma EntriesFitHeap(s: System, l: Limits)
    requires Inv(s, l)
    ensures |s.table.entries| <= |s.owner|
  {
    forall j <- s.table.entries, k <- s.table.entries | s.table.entries[j] == s.table.entries[k] ensures j == k {
      assert Holds(s, l, j, s.table.entries[j]) && Holds(s, l, k, s.table.entries[k]);
    }
    InjectionSize(s.table.entries, Below(|s.owner|));
  }

  lemma NoRoomNeeded(before: Table, kept: map<Key, nat>, maxEntries: nat)
    requires Proper(before) && Evicted(before, kept, maxEntries) && |before.entries| < maxEntries
    ensures kept == before.entries
  {
    assert |before.entries.Keys| == |before.entries| && |kept.Keys| == |kept|;
    if k :| k in before.entries && k !in kept {
      SubsetSize(kept.Keys, before.entries.Keys - {k});
    }
  }

  lemma InsertDropsNothing(t: Table, maxEntries: nat, now: nat, key: Key, fingerprint: Fingerprint, t': Table,
      begun: Begun)
    requires Proper(t) && Begins(t, maxEntries, now, key, fingerprint, t', begun) && begun.Run?
    requires |t.entries| < maxEntries
    ensures Dropped(Sweep(t, now), t') == {}
  {
    var swept := Sweep(t, now);
    var roomy :| MadeRoom(swept, roomy, maxEntries) && Inserted(roomy, key, fingerprint, t', begun);
    SubsetSize(swept.entries.Keys, t.entries.Keys);
    assert |swept.entries.Keys| == |swept.entries| && |t.entries.Keys| == |t.entries|;
    NoRoomNeeded(swept, roomy.entries, maxEntries);
  }

  /** While no more executions than `maxEntries` have ever been started, nothing is evicted. */
  lemma {:induction false} NothingEvictedBelowLimit(run: seq<System>, steps: seq<Step>, l: Limits, i: nat)
    requires IsRun(run, steps, l) && i < |run| && |run[i].owner| <= l.maxEntries
    ensures run[i].evicted == {}
  {
    if i > 0 {
      var s, s', step := run[i - 1], run[i], steps[i - 1];
      assert Takes(s, s', l, step);
      NothingEvictedBelowLimit(run, steps, l, i - 1);
      RunKeeps(run, steps, l, i - 1);
      if step.EnterStep? {
        var call := s.calls[step.c];
        assert TimedCall(call, s.clock);
        if step.begun.Run? {
          EntriesFitHeap(s, l);
          InsertDropsNothing(s.table, l.maxEntries, call.phase.now, call.key, call.fingerprint, s'.table, step.begun);
        } else {
          BeginLooks(s.table, l.maxEntries, call.phase.now, call.key, call.fingerprint, s'.table, step.begun);
          assert Dropped(Sweep(s.table, call.phase.now), s'.table) == {};
        }
      }
    }
  }
}
