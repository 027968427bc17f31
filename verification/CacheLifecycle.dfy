/** Starting and closing the Agent's resource cache (pkg/agent/resourcecache/cache.go): its
    goroutines, the counter Close waits on, and the slots that bound its LISTs. */
module CacheLifecycle {

  /** Every goroutine the cache starts; followers by position in the resource order. */
  datatype Task = Runner | Stopper | Follower(resource: nat)

  datatype Phase =
    | Beginning | Delaying | Spawning(next: nat)   // the runner
    | Watching | Stopping(holds: bool)             // the stopper; it may hold the cancel function
    | Idle | Asking | Listing                      // a follower

  /** Start, between its locked part and its return. */
  datatype Start = NotStarted | Flagged | Returned

  /** `cancel` says whether the cache holds its cancel function, `cancelled` whether that has been
      called; `calling` are the callers of Close that took the function and have yet to call it. */
  datatype State = State(
    resources: nat, slots: nat,
    start: Start, stopped: bool, cancel: bool, cancelled: bool,
    counter: int, live: map<Task, Phase>, occupied: int,
    calling: set<nat>, waiting: set<nat>, closed: set<nat>)

  datatype Event =
    | StartLocked | StartSpawns
    | RunnerSpawnsStopper | DelayEnds | DelayCancelled | RunnerSkips | RunnerSpawns | RunnerEnds
    | ParentDone | StopperCancels | StopperEnds
    | Asks(resource: nat) | TakesSlot(resource: nat) | GivesUp(resource: nat)
    | ListEnds(resource: nat) | FollowerEnds(resource: nat)
    | CloseStops(caller: nat) | CloseCancels(caller: nat) | CloseReturns(caller: nat)

  const DEFAULT_SYNC_CONCURRENCY: nat := 2

  function Initial(resources: nat, syncConcurrency: int): State {
    State(resources, if syncConcurrency <= 0 then DEFAULT_SYNC_CONCURRENCY else syncConcurrency,
          NotStarted, false, false, false, 0, map[], 0, {}, {}, {})
  }

  predicate Is(s: State, t: Task, p: Phase) {
    t in s.live && s.live[t] == p
  }

  predicate Enabled(s: State, e: Event) {
    match e
    case StartLocked => s.start.NotStarted? && !s.stopped
    case StartSpawns => s.start.Flagged?
    case RunnerSpawnsStopper => Is(s, Runner, Beginning)
    case DelayEnds => Is(s, Runner, Delaying)
    case DelayCancelled => Is(s, Runner, Delaying) && s.cancelled
    case RunnerSkips => Runner in s.live && s.live[Runner].Spawning? && s.live[Runner].next < s.resources
    case RunnerSpawns => Runner in s.live && s.live[Runner].Spawning? && s.live[Runner].next < s.resources
    case RunnerEnds => Is(s, Runner, Spawning(s.resources))
    case ParentDone => Is(s, Stopper, Watching)
    case StopperCancels => Is(s, Stopper, Stopping(true))
    case StopperEnds => (Is(s, Stopper, Watching) && s.cancelled) || Is(s, Stopper, Stopping(false))
    case Asks(r) => Is(s, Follower(r), Idle) && !s.cancelled
    case TakesSlot(r) => Is(s, Follower(r), Asking) && s.occupied < s.slots
    case GivesUp(r) => Is(s, Follower(r), Asking) && s.cancelled
    case ListEnds(r) => Is(s, Follower(r), Listing)
    case FollowerEnds(r) => Is(s, Follower(r), Idle) && s.cancelled
    case CloseStops(c) => c !in s.calling + s.waiting + s.closed
    case CloseCancels(c) => c in s.calling
    case CloseReturns(c) => c in s.waiting && s.counter == 0
  }

  function Go(s: State, t: Task, p: Phase): State {
    s.(counter := s.counter + 1, live := s.live[t := p])
  }

  function Done(s: State, t: Task): State {
    s.(counter := s.counter - 1, live := s.live - {t})
  }

  function To(s: State, t: Task, p: Phase): State {
    s.(live := s.live[t := p])
  }

  /** The locked part of Cache.stop: whoever finds the cancel function takes it, and calls it after
      the lock has been released. */
  function Taken(s: State): State {
    s.(stopped := true, cancel := false)
  }

  function Next(s: State, e: Event): State
    requires Enabled(s, e)
  {
    match e
    case StartLocked => s.(start := Flagged, cancel := true)
    case StartSpawns => Go(s, Runner, Beginning).(start := Returned)
    case RunnerSpawnsStopper => To(Go(s, Stopper, Watching), Runner, Delaying)
    case DelayEnds => To(s, Runner, Spawning(0))
    case DelayCancelled => Done(s, Runner)
    case RunnerSkips => To(s, Runner, Spawning(s.live[Runner].next + 1))
    case RunnerSpawns =>
      To(Go(s, Follower(s.live[Runner].next), Idle), Runner, Spawning(s.live[Runner].next + 1))
    case RunnerEnds => Done(s, Runner)
    case ParentDone => To(Taken(s), Stopper, Stopping(s.cancel))
    case StopperCancels => To(s.(cancelled := true), Stopper, Stopping(false))
    case StopperEnds => Done(s, Stopper)
    case Asks(r) => To(s, Follower(r), Asking)
    case TakesSlot(r) => To(s, Follower(r), Listing).(occupied := s.occupied + 1)
    case GivesUp(r) => To(s, Follower(r), Idle)
    case ListEnds(r) => To(s, Follower(r), Idle).(occupied := s.occupied - 1)
    case FollowerEnds(r) => Done(s, Follower(r))
    case CloseStops(c) =>
      if s.cancel then Taken(s).(calling := s.calling + {c}) else Taken(s).(waiting := s.waiting + {c})
    case CloseCancels(c) => s.(cancelled := true, calling := s.calling - {c}, waiting := s.waiting + {c})
    case CloseReturns(c) => s.(waiting := s.waiting - {c}, closed := s.closed + {c})
  }

  predicate Takes(s: State, e: Event, t: State) {
    Enabled(s, e) && t == Next(s, e)
  }

  /** The fields behind the cache's mutex, and the context's own flag. */
  class Cache {
    var started: bool
    var stopped: bool
    var cancel: bool
    var cancelled: bool

    ghost predicate Mirrors(s: State)
      reads this
    {
      && started == !s.start.NotStarted? && stopped == s.stopped
      && cancel == s.cancel && cancelled == s.cancelled
    }

    constructor (resources: nat, syncConcurrency: int)
      ensures Mirrors(Initial(resources, syncConcurrency))
    {
      started, stopped, cancel, cancelled := false, false, false, false;
    }

    /** The locked part of Start: whether this call is the one that begins. */
    method Start(ghost s: State) returns (begins: bool)
      requires Mirrors(s)
      modifies this
      ensures begins == Enabled(s, StartLocked)
      ensures Mirrors(if begins then Next(s, StartLocked) else s)
    {
      if started || stopped {
        return false;
      }
      started := true;
      cancel := true;
      return true;
    }

    /** The locked part of stop: whether the caller now holds the cancel function. */
    method StopLocked(ghost s: State) returns (held: bool)
      requires Mirrors(s)
      modifies this
      ensures held == s.cancel && Mirrors(Taken(s))
    {
      held := cancel;
      cancel := false;
      stopped := true;
    }

    /** The rest of stop, outside the lock. */
    method CallCancel(held: bool, ghost s: State)
      requires Mirrors(s)
      modifies this
      ensures Mirrors(s.(cancelled := s.cancelled || held))
    {
      if held {
        cancelled := true;
      }
    }
  }

  // ---------------------------------------------------------------- invariants

  function Lists(s: State): set<Task> {
    set t | t in s.live && s.live[t].Listing?
  }

  /** The counter counts the live goroutines, and the occupied slots the LISTs in flight. */
  predicate CountInv(s: State) {
    s.counter == |s.live| && s.occupied == |Lists(s)| && s.occupied <= s.slots
  }

  /** The runner spawns each task once: the stopper first, then the followers in order. */
  ghost predicate SpawnInv(s: State) {
    MainInv(s) && forall r: nat | Follower(r) in s.live :: FollowerInv(s, r)
  }

  ghost predicate MainInv(s: State) {
    && (!s.start.Returned? ==> s.live == map[])
    && (Is(s, Runner, Beginning) ==> s.live.Keys == {Runner})
    && PhaseInv(s)
  }

  predicate PhaseInv(s: State) {
    && (Runner in s.live ==> s.live[Runner].Beginning? || s.live[Runner].Delaying? || s.live[Runner].Spawning?)
    && (Stopper in s.live ==> s.live[Stopper].Watching? || s.live[Stopper].Stopping?)
  }

  predicate FollowerInv(s: State, r: nat)
    requires Follower(r) in s.live
  {
    && (s.live[Follower(r)].Idle? || s.live[Follower(r)].Asking? || s.live[Follower(r)].Listing?)
    && (Runner in s.live ==> s.live[Runner].Spawning? && r < s.live[Runner].next)
  }

  lemma PhaseStep(s: State, e: Event)
    requires PhaseInv(s) && Enabled(s, e)
    ensures PhaseInv(Next(s, e))
  {
  }

  lemma MainStep(s: State, e: Event)
    requires SpawnInv(s) && Enabled(s, e)
    ensures MainInv(Next(s, e))
  {
    PhaseStep(s, e);
  }

  lemma FollowerStep(s: State, e: Event, r: nat)
    requires SpawnInv(s) && Enabled(s, e) && Follower(r) in Next(s, e).live
    ensures FollowerInv(Next(s, e), r)
  {
    if Follower(r) in s.live {
      assert FollowerInv(s, r);
    }
  }

  lemma SpawnStep(s: State, e: Event, t: State)
    requires SpawnInv(s) && Takes(s, e, t)
    ensures SpawnInv(t)
  {
    MainStep(s, e);
    forall r: nat | Follower(r) in t.live ensures FollowerInv(t, r) {
      FollowerStep(s, e, r);
    }
  }

  lemma NextIsNew(s: State)
    requires SpawnInv(s) && Runner in s.live && s.live[Runner].Spawning?
    ensures Follower(s.live[Runner].next) !in s.live
  {
    forall r: nat | Follower(r) in s.live ensures r < s.live[Runner].next {
      assert FollowerInv(s, r);
    }
  }

  lemma GoKeeps(s: State, t: Task, p: Phase)
    requires CountInv(s) && t !in s.live && !p.Listing?
    ensures CountInv(Go(s, t, p))
  {
    assert Go(s, t, p).live.Keys == s.live.Keys + {t};
    assert Lists(Go(s, t, p)) == Lists(s);
  }

  lemma DoneKeeps(s: State, t: Task)
    requires CountInv(s) && t in s.live && !s.live[t].Listing?
    ensures CountInv(Done(s, t))
  {
    assert Done(s, t).live.Keys == s.live.Keys - {t};
    assert Lists(Done(s, t)) == Lists(s);
  }

  lemma ToKeeps(s: State, t: Task, p: Phase)
    requires CountInv(s) && t in s.live && !s.live[t].Listing? && !p.Listing?
    ensures CountInv(To(s, t, p))
  {
    assert To(s, t, p).live.Keys == s.live.Keys;
    assert Lists(To(s, t, p)) == Lists(s);
  }

  lemma ListKeeps(s: State, r: nat)
    requires CountInv(s) && Follower(r) in s.live
    ensures !s.live[Follower(r)].Listing? && s.occupied < s.slots ==>
              CountInv(To(s, Follower(r), Listing).(occupied := s.occupied + 1))
    ensures s.live[Follower(r)].Listing? ==> CountInv(To(s, Follower(r), Idle).(occupied := s.occupied - 1))
  {
    var t := Follower(r);
    assert To(s, t, Listing).live.Keys == s.live.Keys && To(s, t, Idle).live.Keys == s.live.Keys;
    assert Lists(To(s, t, Listing)) == Lists(s) + {t};
    assert Lists(To(s, t, Idle)) == Lists(s) - {t};
  }

  predicate IsRunnerEvent(e: Event) {
    || e.RunnerSpawnsStopper? || e.DelayEnds? || e.DelayCancelled?
    || e.RunnerSkips? || e.RunnerSpawns? || e.RunnerEnds?
  }

  lemma RunnerCounts(s: State, e: Event)
    requires CountInv(s) && SpawnInv(s) && Enabled(s, e)
    requires IsRunnerEvent(e)
    ensures CountInv(Next(s, e))
  {
    match e
    case RunnerSpawnsStopper =>
      GoKeeps(s, Stopper, Watching);
      ToKeeps(Go(s, Stopper, Watching), Runner, Delaying);
    case DelayEnds => ToKeeps(s, Runner, Spawning(0));
    case RunnerSkips => ToKeeps(s, Runner, Spawning(s.live[Runner].next + 1));
    case RunnerSpawns =>
      var r := s.live[Runner].next;
      NextIsNew(s);
      GoKeeps(s, Follower(r), Idle);
      ToKeeps(Go(s, Follower(r), Idle), Runner, Spawning(r + 1));
    case _ => DoneKeeps(s, Runner);
  }

  lemma StopperCounts(s: State, e: Event)
    requires CountInv(s) && SpawnInv(s) && Enabled(s, e) && (e.ParentDone? || e.StopperCancels? || e.StopperEnds?)
    ensures CountInv(Next(s, e))
  {
    assert Lists(Taken(s)) == Lists(s) && Lists(s.(cancelled := true)) == Lists(s);
    match e
    case ParentDone => ToKeeps(Taken(s), Stopper, Stopping(s.cancel));
    case StopperCancels => ToKeeps(s.(cancelled := true), Stopper, Stopping(false));
    case _ => DoneKeeps(s, Stopper);
  }

  lemma FollowerCounts(s: State, e: Event)
    requires CountInv(s) && Enabled(s, e)
    requires e.Asks? || e.TakesSlot? || e.GivesUp? || e.ListEnds? || e.FollowerEnds?
    ensures CountInv(Next(s, e))
  {
    match e
    case Asks(r) => ToKeeps(s, Follower(r), Asking);
    case GivesUp(r) => ToKeeps(s, Follower(r), Idle);
    case FollowerEnds(r) => DoneKeeps(s, Follower(r));
    case TakesSlot(r) => ListKeeps(s, r);
    case ListEnds(r) => ListKeeps(s, r);
  }

  lemma CountStep(s: State, e: Event, t: State)
    requires CountInv(s) && SpawnInv(s) && Takes(s, e, t)
    ensures CountInv(t)
  {
    if IsRunnerEvent(e) {
      RunnerCounts(s, e);
    } else if e.ParentDone? || e.StopperCancels? || e.StopperEnds? {
      StopperCounts(s, e);
    } else if e.Asks? || e.TakesSlot? || e.GivesUp? || e.ListEnds? || e.FollowerEnds? {
      FollowerCounts(s, e);
    } else if e.StartSpawns? {
      GoKeeps(s, Runner, Beginning);
    } else {
      assert Lists(t) == Lists(s);
    }
  }

  ghost predicate RangeInv(s: State) {
    && (Runner in s.live && s.live[Runner].Spawning? ==> s.live[Runner].next <= s.resources)
    && (forall r: nat | Follower(r) in s.live :: r < s.resources)
  }

  lemma RangeStep(s: State, e: Event, t: State)
    requires RangeInv(s) && Takes(s, e, t)
    ensures RangeInv(t)
  {
  }

  // ---------------------------------------------------------------- runs

  ghost predicate IsPath(states: seq<State>, events: seq<Event>) {
    && |states| == |events| + 1
    && forall i :: 0 <= i < |events| ==> Takes(states[i], events[i], states[i + 1])
  }

  ghost predicate IsRun(states: seq<State>, events: seq<Event>, resources: nat, syncConcurrency: int) {
    IsPath(states, events) && states[0] == Initial(resources, syncConcurrency)
  }

  lemma {:induction false} RunKeeps(states: seq<State>, events: seq<Event>, resources: nat, syncConcurrency: int,
      i: nat)
    requires IsRun(states, events, resources, syncConcurrency) && i < |states|
    ensures CountInv(states[i]) && SpawnInv(states[i]) && RangeInv(states[i])
    ensures states[i].slots == Initial(resources, syncConcurrency).slots
  {
    if i == 0 {
      assert Lists(states[0]) == {};
    } else {
      RunKeeps(states, events, resources, syncConcurrency, i - 1);
      assert Takes(states[i - 1], events[i - 1], states[i]);
      SpawnStep(states[i - 1], events[i - 1], states[i]);
      CountStep(states[i - 1], events[i - 1], states[i]);
      RangeStep(states[i - 1], events[i - 1], states[i]);
    }
  }

  /** LISTs in flight are the occupied slots and never more than configured, or two if nothing is,
      however they end; and while there are fewer, whoever asks can have one. */
  lemma ListsAreBounded(states: seq<State>, events: seq<Event>, resources: nat, syncConcurrency: int, i: nat)
    requires IsRun(states, events, resources, syncConcurrency) && i < |states|
    ensures |Lists(states[i])| == states[i].occupied
    ensures states[i].occupied <= if 0 < syncConcurrency then syncConcurrency else 2
    ensures forall r :: Is(states[i], Follower(r), Asking) ==>
      (Enabled(states[i], TakesSlot(r)) <==> |Lists(states[i])| < if 0 < syncConcurrency then syncConcurrency else 2)
  {
    RunKeeps(states, events, resources, syncConcurrency, i);
  }

  /** Nothing runs, and nothing can begin to. */
  predicate Quiet(s: State) {
    s.live == map[] && s.counter == 0 && (s.start.Returned? || (s.start.NotStarted? && s.stopped))
  }

  lemma QuietStep(s: State, e: Event, t: State)
    requires Quiet(s) && Takes(s, e, t)
    ensures Quiet(t)
  {
  }

  lemma {:induction false} QuietStays(states: seq<State>, events: seq<Event>, i: nat, j: nat)
    requires IsPath(states, events) && i <= j < |states| && Quiet(states[i])
    ensures Quiet(states[j])
  {
    if i < j {
      QuietStays(states, events, i, j - 1);
      assert Takes(states[j - 1], events[j - 1], states[j]);
      QuietStep(states[j - 1], events[j - 1], states[j]);
    }
  }

  // ---------------------------------------------------------------- who holds the cancel function

  predicate StopperHolds(s: State) {
    Is(s, Stopper, Stopping(true))
  }

  /** The cancel function is with the cache until a stop takes it; then exactly one stopper holds it
      until it has called it.  So stopped and started means cancelled, or a holder has yet to call. */
  ghost predicate HolderInv(s: State) {
    && (s.calling + s.waiting + s.closed != {} ==> s.stopped)
    && s.cancel == (!s.start.NotStarted? && !s.stopped)
    && (s.cancelled ==> s.stopped && !s.start.NotStarted?)
    && (s.calling != {} || StopperHolds(s) <==> s.stopped && !s.start.NotStarted? && !s.cancelled)
    && !(s.calling != {} && StopperHolds(s))
    && (forall c <- s.calling, d <- s.calling :: c == d)
  }

  lemma HolderStep(s: State, e: Event, t: State)
    requires SpawnInv(s) && HolderInv(s) && Takes(s, e, t)
    ensures HolderInv(t)
  {
  }

  lemma {:induction false} HolderKept(states: seq<State>, events: seq<Event>, resources: nat, syncConcurrency: int,
      i: nat)
    requires IsRun(states, events, resources, syncConcurrency) && i < |states|
    ensures HolderInv(states[i])
  {
    if i > 0 {
      HolderKept(states, events, resources, syncConcurrency, i - 1);
      RunKeeps(states, events, resources, syncConcurrency, i - 1);
      assert Takes(states[i - 1], events[i - 1], states[i]);
      HolderStep(states[i - 1], events[i - 1], states[i]);
    }
  }

  predicate IsCancelling(e: Event) {
    e.StopperCancels? || e.CloseCancels?
  }

  /** A holder's call is possible at once, stays possible until it is made, and cancels. */
  lemma HolderCanCancel(s: State) returns (e: Event)
    requires SpawnInv(s) && HolderInv(s) && s.stopped && !s.start.NotStarted? && !s.cancelled
    ensures IsCancelling(e) && Enabled(s, e) && Next(s, e).cancelled
    ensures forall other: Event | Enabled(s, other) && other != e :: Enabled(Next(s, other), e)
  {
    if StopperHolds(s) {
      e := StopperCancels;
    } else {
      var c :| c in s.calling;
      e := CloseCancels(c);
    }
  }

  // ---------------------------------------------------------------- Close is final

  /** Whether anything the cache started runs at some point of some continuation of a run. */
  ghost predicate CanRunLater(s: State) {
    exists states: seq<State>, events: seq<Event>, i: nat ::
      IsPath(states, events) && states[0] == s && i < |states| && states[i].live != map[]
  }

  /** When Close returns, nothing runs; and nothing ever runs again exactly unless a Start was
      caught between its lock and its first goroutine, whose work then begins after all. */
  lemma CloseIsFinalExactly(states: seq<State>, events: seq<Event>, resources: nat, syncConcurrency: int, i: nat)
    requires IsRun(states, events, resources, syncConcurrency) && i < |events| && events[i].CloseReturns?
    ensures states[i + 1].live == map[]
    ensures CanRunLater(states[i + 1]) <==> states[i + 1].start.Flagged?
  {
    RunKeeps(states, events, resources, syncConcurrency, i + 1);
    HolderKept(states, events, resources, syncConcurrency, i + 1);
    var s := states[i + 1];
    assert Takes(states[i], events[i], s);
    assert |s.live.Keys| == 0;
    assert s.live == map[];
    if s.start.Flagged? {
      var later := [s, Next(s, StartSpawns)];
      assert Takes(s, StartSpawns, later[1]);
      assert IsPath(later, [StartSpawns]);
      assert Runner in later[1].live;
      assert later[1].live != map[];
    } else {
      assert Quiet(s);
      forall later: seq<State>, more: seq<Event>, k: nat | IsPath(later, more) && later[0] == s && k < |later|
        ensures later[k].live == map[]
      {
        QuietStays(later, more, 0, k);
      }
    }
  }

  lemma {:induction false} StartStaysReturned(states: seq<State>, events: seq<Event>, i: nat, j: nat)
    requires IsPath(states, events) && i <= j < |states| && states[i].start.Returned?
    ensures states[j].start.Returned?
  {
    if i < j {
      StartStaysReturned(states, events, i, j - 1);
      assert Takes(states[j - 1], events[j - 1], states[j]);
      ReturnedStep(states[j - 1], events[j - 1], states[j]);
    }
  }

  lemma ReturnedStep(s: State, e: Event, t: State)
    requires s.start.Returned? && Takes(s, e, t)
    ensures t.start.Returned?
  {
  }

  /** Close called after Start returned is final: from its return on, nothing runs. */
  lemma CloseAfterStartIsFinal(
    states: seq<State>, events: seq<Event>, resources: nat, syncConcurrency: int, i: nat, j: nat, k: nat)
    requires IsRun(states, events, resources, syncConcurrency)
    requires i < j < |events| && events[i].CloseStops? && events[j] == CloseReturns(events[i].caller)
    requires states[i].start.Returned? && j < k < |states|
    ensures states[k].live == map[]
  {
    CloseIsFinalExactly(states, events, resources, syncConcurrency, j);
    StartStaysReturned(states, events, i, j + 1);
    var later, more := states[j + 1..], events[j + 1..];
    SuffixIsPath(states, events, j + 1);
    assert later[0] == states[j + 1] && later[k - j - 1] == states[k];
    assert !CanRunLater(states[j + 1]);
  }

  // ---------------------------------------------------------------- Close comes to an end

  predicate IsTaskEvent(e: Event) {
    !e.StartLocked? && !e.StartSpawns? && !e.CloseStops? && !e.CloseCancels? && !e.CloseReturns?
  }

  /** How many steps a task can still take once the context is cancelled. */
  function Left(resources: nat, p: Phase): int {
    match p
    case Beginning => 4 * resources + 6
    case Delaying => 4 * resources + 2
    case Spawning(next) => 4 * (resources - next) + 1
    case Watching => 3
    case Stopping(holds) => if holds then 2 else 1
    case Idle => 1
    case Asking => 3
    case Listing => 2
  }

  function LeftOf(s: State, t: Task): int {
    if t in s.live then Left(s.resources, s.live[t]) else 0
  }

  function FollowersLeft(s: State, upTo: nat): int {
    if upTo == 0 then 0 else FollowersLeft(s, upTo - 1) + LeftOf(s, Follower(upTo - 1))
  }

  function AllLeft(s: State): int {
    LeftOf(s, Runner) + LeftOf(s, Stopper) + FollowersLeft(s, s.resources)
  }

  /** Only follower `r` differs. */
  lemma {:induction false} FollowersChange(s: State, t: State, r: nat, upTo: nat)
    requires s.resources == t.resources
    requires forall k :: k != r ==> LeftOf(t, Follower(k)) == LeftOf(s, Follower(k))
    ensures FollowersLeft(t, upTo) - FollowersLeft(s, upTo)
         == if r < upTo then LeftOf(t, Follower(r)) - LeftOf(s, Follower(r)) else 0
  {
    if upTo > 0 {
      FollowersChange(s, t, r, upTo - 1);
    }
  }

  function Subject(s: State, e: Event): nat
    requires Enabled(s, e)
  {
    match e
    case RunnerSpawns => s.live[Runner].next
    case Asks(r) => r
    case TakesSlot(r) => r
    case GivesUp(r) => r
    case ListEnds(r) => r
    case FollowerEnds(r) => r
    case _ => 0
  }

  predicate IsFollowerEvent(e: Event) {
    e.RunnerSpawns? || e.Asks? || e.TakesSlot? || e.GivesUp? || e.ListEnds? || e.FollowerEnds?
  }

  /** What one event changes in the sum. */
  lemma SumChange(s: State, e: Event)
    requires Enabled(s, e) && RangeInv(s)
    ensures var t, r := Next(s, e), Subject(s, e);
            AllLeft(t) - AllLeft(s) == LeftOf(t, Runner) - LeftOf(s, Runner) + LeftOf(t, Stopper) - LeftOf(s, Stopper)
                                     + (if r < s.resources then LeftOf(t, Follower(r)) - LeftOf(s, Follower(r)) else 0)
  {
    FollowersChange(s, Next(s, e), Subject(s, e), s.resources);
  }

  lemma FollowerStepsRunOut(s: State, e: Event)
    requires SpawnInv(s) && RangeInv(s) && s.cancelled && Enabled(s, e) && IsFollowerEvent(e)
    ensures AllLeft(Next(s, e)) < AllLeft(s)
  {
    SumChange(s, e);
    if e.RunnerSpawns? {
      NextIsNew(s);
    }
  }

  lemma StepsRunOut(s: State, e: Event, t: State)
    requires SpawnInv(s) && RangeInv(s) && s.cancelled && Takes(s, e, t)
    ensures t.cancelled
    ensures IsTaskEvent(e) ==> AllLeft(t) < AllLeft(s)
    ensures e.CloseStops? || e.CloseCancels? || e.CloseReturns? ==> AllLeft(t) == AllLeft(s)
    ensures s.start.Returned? ==> !e.StartLocked? && !e.StartSpawns?
  {
    if IsFollowerEvent(e) {
      FollowerStepsRunOut(s, e);
    } else {
      SumChange(s, e);
    }
  }

  lemma {:induction false} FollowersLeftPositive(s: State, upTo: nat)
    requires SpawnInv(s)
    ensures FollowersLeft(s, upTo) >= 0
  {
    if upTo > 0 {
      FollowersLeftPositive(s, upTo - 1);
      if Follower(upTo - 1) in s.live {
        assert FollowerInv(s, upTo - 1);
      }
    }
  }

  function TaskEvents(events: seq<Event>): nat {
    if events == [] then 0
    else TaskEvents(events[..|events| - 1]) + if IsTaskEvent(events[|events| - 1]) then 1 else 0
  }

  lemma PrefixIsPath(states: seq<State>, events: seq<Event>, n: nat)
    requires IsPath(states, events) && n <= |events|
    ensures IsPath(states[..n + 1], events[..n])
  {
    forall m | 0 <= m < n ensures Takes(states[..n + 1][m], events[..n][m], states[..n + 1][m + 1]) {
      assert Takes(states[m], events[m], states[m + 1]);
    }
  }

  /** Start has returned and the context is cancelled. */
  ghost predicate WindingDown(s: State) {
    SpawnInv(s) && RangeInv(s) && s.cancelled && s.start.Returned?
  }

  lemma WindingDownStep(s: State, e: Event, t: State)
    requires WindingDown(s) && Takes(s, e, t)
    ensures WindingDown(t)
    ensures (if IsTaskEvent(e) then 1 else 0) + AllLeft(t) <= AllLeft(s)
  {
    SpawnStep(s, e, t);
    RangeStep(s, e, t);
    StepsRunOut(s, e, t);
    ReturnedStep(s, e, t);
  }

  /** Once the context is cancelled, with Start returned, only so many more steps are left to all
      goroutines together, in whatever order they take them. */
  lemma {:induction false} CancelledWorkIsFinite(states: seq<State>, events: seq<Event>)
    requires IsPath(states, events) && WindingDown(states[0])
    ensures WindingDown(states[|events|])
    ensures TaskEvents(events) + AllLeft(states[|events|]) <= AllLeft(states[0])
    ensures TaskEvents(events) <= AllLeft(states[0])
  {
    var n := |events|;
    if n > 0 {
      PrefixIsPath(states, events, n - 1);
      CancelledWorkIsFinite(states[..n], events[..n - 1]);
      assert Takes(states[n - 1], events[n - 1], states[n]);
      WindingDownStep(states[n - 1], events[n - 1], states[n]);
    }
    FollowersLeftPositive(states[n], states[n].resources);
  }

  /** Until they have all ended, one of those steps can be taken. */
  lemma CancelledTaskCanMove(s: State, t: Task) returns (e: Event)
    requires SpawnInv(s) && RangeInv(s) && s.cancelled && t in s.live
    ensures Enabled(s, e) && IsTaskEvent(e)
  {
    match t
    case Stopper =>
      e := if StopperHolds(s) then StopperCancels else StopperEnds;
    case Runner =>
      var p := s.live[Runner];
      e := if p.Beginning? then RunnerSpawnsStopper else if p.Delaying? then DelayCancelled
           else if p.next < s.resources then RunnerSkips else RunnerEnds;
    case Follower(r) =>
      assert FollowerInv(s, r);
      var p := s.live[t];
      e := if p.Idle? then FollowerEnds(r) else if p.Asking? then GivesUp(r) else ListEnds(r);
  }

  lemma SuffixIsPath(states: seq<State>, events: seq<Event>, i: nat)
    requires IsPath(states, events) && i < |states|
    ensures IsPath(states[i..], events[i..])
  {
    forall m | 0 <= m < |events[i..]| ensures Takes(states[i..][m], events[i..][m], states[i..][m + 1]) {
      assert Takes(states[i + m], events[i + m], states[i + m + 1]);
    }
  }

  /** Whenever no goroutine can take a step, a waiting Close can return. */
  lemma WaitingCanMove(s: State, c: nat)
    requires CountInv(s) && SpawnInv(s) && RangeInv(s) && s.cancelled && c in s.waiting
    ensures Enabled(s, CloseReturns(c)) || exists e :: IsTaskEvent(e) && Enabled(s, e)
  {
    if s.counter != 0 {
      assert |s.live.Keys| != 0;
      var t :| t in s.live;
      var e := CancelledTaskCanMove(s, t);
    }
  }

  /** A Close called after Start returned comes to an end.  Until the cancel function has been called,
      its holder can call it; from then on, in every run, the goroutines take a bounded number of
      steps in all, and whenever none of them can take one, the Close can return. */
  lemma CloseComesToAnEnd(states: seq<State>, events: seq<Event>, resources: nat, syncConcurrency: int, i: nat, c: nat)
    requires IsRun(states, events, resources, syncConcurrency) && i < |states|
    requires states[i].start.Returned? && c in states[i].waiting && c in states[|events|].waiting
    ensures !states[i].cancelled ==> exists e, t :: IsCancelling(e) && Takes(states[i], e, t) && t.cancelled
    ensures states[i].cancelled ==> TaskEvents(events[i..]) <= AllLeft(states[i])
    ensures states[i].cancelled ==>
              Enabled(states[|events|], CloseReturns(c)) || exists e :: IsTaskEvent(e) && Enabled(states[|events|], e)
  {
    RunKeeps(states, events, resources, syncConcurrency, i);
    HolderKept(states, events, resources, syncConcurrency, i);
    if states[i].cancelled {
      SuffixIsPath(states, events, i);
      CancelledWorkIsFinite(states[i..], events[i..]);
      assert states[i..][|events[i..]|] == states[|events|];
      RunKeeps(states, events, resources, syncConcurrency, |events|);
      WaitingCanMove(states[|events|], c);
    } else {
      var e := HolderCanCancel(states[i]);
      assert Takes(states[i], e, Next(states[i], e));
    }
  }

  // ---------------------------------------------------------------- a Close that waits uncancelled

  /** The parent has ended and the stopper goroutine holds the cancel function; a Close has found
      none and waits, while a follower goes on listing. */
  function Overtaken(): State {
    State(1, 1, Returned, true, false, false, 3,
          map[Runner := Spawning(1), Stopper := Stopping(true), Follower(0) := Idle], 0, {}, {0}, {})
  }

  /** Another listing leaves things as they were. */
  lemma ListingGoesOn() returns (asking: State, listing: State)
    ensures Takes(Overtaken(), Asks(0), asking) && Takes(asking, TakesSlot(0), listing)
    ensures Takes(listing, ListEnds(0), Overtaken())
  {
    asking := Next(Overtaken(), Asks(0));
    listing := Next(asking, TakesSlot(0));
    assert Next(listing, ListEnds(0)).live == Overtaken().live;
  }

  lemma OneMore(states: seq<State>, events: seq<Event>, e: Event, t: State)
    requires IsPath(states, events) && Takes(states[|events|], e, t)
    ensures IsPath(states + [t], events + [e])
  {
    forall m | 0 <= m < |events + [e]| ensures Takes((states + [t])[m], (events + [e])[m], (states + [t])[m + 1]) {
      if m < |events| {
        assert Takes(states[m], events[m], states[m + 1]);
      }
    }
  }

  /** A run with one resource in which the Close called seventh waits, and `n` listings follow. */
  ghost predicate ListsWhileClosing(states: seq<State>, events: seq<Event>, n: nat) {
    && IsRun(states, events, 1, 1) && |events| == 7 + 3 * n
    && states[7] == states[|events|] == Overtaken() && events[6] == CloseStops(0)
    && TaskEvents(events[7..]) == 3 * n
  }

  function OpeningState(i: nat): State {
    match i
    case 0 => Initial(1, 1)
    case 1 => State(1, 1, Flagged, false, true, false, 0, map[], 0, {}, {}, {})
    case 2 => State(1, 1, Returned, false, true, false, 1, map[Runner := Beginning], 0, {}, {}, {})
    case 3 => State(1, 1, Returned, false, true, false, 2, map[Runner := Delaying, Stopper := Watching], 0, {}, {}, {})
    case 4 =>
      State(1, 1, Returned, false, true, false, 2, map[Runner := Spawning(0), Stopper := Watching], 0, {}, {}, {})
    case 5 =>
      State(1, 1, Returned, false, true, false, 3,
            map[Runner := Spawning(1), Stopper := Watching, Follower(0) := Idle], 0, {}, {}, {})
    case 6 => Overtaken().(waiting := {})
    case _ => Overtaken()
  }

  const OPENING: seq<Event> :=
    [StartLocked, StartSpawns, RunnerSpawnsStopper, DelayEnds, RunnerSpawns, ParentDone, CloseStops(0)]

  lemma OpeningStarts()
    ensures Takes(OpeningState(0), StartLocked, OpeningState(1))
    ensures Takes(OpeningState(1), StartSpawns, OpeningState(2))
    ensures Takes(OpeningState(2), RunnerSpawnsStopper, OpeningState(3))
  {
  }

  lemma OpeningSpawns()
    ensures Takes(OpeningState(3), DelayEnds, OpeningState(4))
    ensures Takes(OpeningState(4), RunnerSpawns, OpeningState(5))
  {
    assert Next(OpeningState(3), DelayEnds).live == OpeningState(4).live;
    assert Next(OpeningState(4), RunnerSpawns).live == OpeningState(5).live;
  }

  lemma OpeningStops()
    ensures Takes(OpeningState(5), ParentDone, OpeningState(6))
    ensures Takes(OpeningState(6), CloseStops(0), OpeningState(7))
  {
    assert Next(OpeningState(5), ParentDone).live == OpeningState(6).live;
  }

  lemma OvertakenIsReached() returns (states: seq<State>, events: seq<Event>)
    ensures ListsWhileClosing(states, events, 0)
  {
    states, events := seq(8, i requires 0 <= i => OpeningState(i)), OPENING;
    forall i | 0 <= i < 7 ensures Takes(states[i], events[i], states[i + 1]) {
      OpeningStarts();
      OpeningSpawns();
      OpeningStops();
      assert i == 0 || i == 1 || i == 2 || i == 3 || i == 4 || i == 5 || i == 6;
    }
    assert events[7..] == [];
  }

  lemma Extended(states: seq<State>, events: seq<Event>, e: Event, t: State)
      returns (states': seq<State>, events': seq<Event>)
    requires IsPath(states, events) && |events| >= 7 && IsTaskEvent(e) && Takes(states[|events|], e, t)
    ensures IsPath(states', events') && |events'| == |events| + 1
    ensures states'[0] == states[0] && states'[7] == states[7] && events'[6] == events[6]
    ensures states'[|events'|] == t
    ensures TaskEvents(events'[7..]) == TaskEvents(events[7..]) + 1
  {
    OneMore(states, events, e, t);
    states', events' := states + [t], events + [e];
    assert events'[7..] == events[7..] + [e];
  }

  lemma OneMoreListing(states: seq<State>, events: seq<Event>, n: nat)
      returns (states': seq<State>, events': seq<Event>)
    requires ListsWhileClosing(states, events, n)
    ensures ListsWhileClosing(states', events', n + 1)
  {
    var asking, listing := ListingGoesOn();
    states', events' := Extended(states, events, Asks(0), asking);
    states', events' := Extended(states', events', TakesSlot(0), listing);
    states', events' := Extended(states', events', ListEnds(0), Overtaken());
  }

  /** So there is no bound from the moment the Close waits: while it does, and before the cancel
      function has been called, any number of steps can be taken. */
  lemma {:induction false} WaitingIsNotBounded(n: nat) returns (states: seq<State>, events: seq<Event>)
    ensures IsRun(states, events, 1, 1) && |events| >= 7
    ensures states[7].start.Returned? && 0 in states[7].waiting && 0 in states[|events|].waiting
    ensures !states[|events|].cancelled && TaskEvents(events[7..]) == 3 * n && ListsWhileClosing(states, events, n)
  {
    if n == 0 {
      states, events := OvertakenIsReached();
    } else {
      states, events := WaitingIsNotBounded(n - 1);
      states, events := OneMoreListing(states, events, n - 1);
    }
  }
}
