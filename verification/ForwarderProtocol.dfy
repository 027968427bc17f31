/** Any number of requests against one forwarder, step by step. */
module ForwarderProtocol {
  import opened Options
  import opened Forwarder

  /** NotSent: the body could not be read, was too large, or was empty.  `attempts` and `cancelled`
      say how a failed request went. */
  datatype Result =
    | Acked(payload: nat)
    | Failed(attempts: nat, cancelled: bool)
    | Busy
    | NotSent(body: Option<nat>, status: int)

  /** A request's payload is known by the request; that an acknowledgement is for the payload that
      was sent is the session's doing (IngestSession.VerdictIsForThePayload).  `used` lists the
      sessions it has sent on. */
  datatype Phase =
    | Arrived
    | Reading
    | Trying(size: nat, used: seq<Ref>, attempt: nat)
    | Sending(size: nat, used: seq<Ref>, mine: Ref, attempt: nat)
    | Broken(size: nat, used: seq<Ref>, mine: Ref, attempt: nat)
    | Finished(used: seq<Ref>, result: Result)

  datatype State = State(
    published: Published, created: nat,
    capacity: int, limit: nat, held: int, requests: map<nat, Phase>)

  datatype Event =
    | Attach(connection: nat) | Detach
    | Arrive(request: nat) | Admit(request: nat) | Refuse(request: nat) | Body(request: nat, size: Option<nat>)
    | Reuse(request: nat) | Open(request: nat) | NoSession(request: nat, cancelled: bool)
    | Ack(request: nat) | SendFails(request: nat) | Discard(request: nat, cancelled: bool)

  datatype Config = Config(maxConcurrentBatches: int, maxBatchBytes: nat)

  /** The slots newMetricsIngestForwarder makes. */
  function Initial(c: Config): State {
    State(DETACHED, 0, if c.maxConcurrentBatches > 1 then c.maxConcurrentBatches else 1, c.maxBatchBytes, 0, map[])
  }

  predicate IsSendable(size: Option<nat>, limit: nat) {
    size.Some? && 0 < size.value <= limit
  }

  /** The answer to a body that is not forwarded. */
  function BodyStatus(size: Option<nat>, limit: nat): int {
    if size.None? then 400 else if size.value > limit then 413 else 204
  }

  predicate Enabled(s: State, e: Event) {
    match e
    case Attach(_) => true
    case Detach => true
    case Arrive(r) => r !in s.requests
    case Admit(r) => r in s.requests && s.requests[r].Arrived? && s.held < s.capacity
    case Refuse(r) => r in s.requests && s.requests[r].Arrived? && s.held >= s.capacity
    case Body(r, _) => r in s.requests && s.requests[r].Reading?
    case Reuse(r) => r in s.requests && s.requests[r].Trying? && s.published.session.Some?
    case Open(r) => r in s.requests && s.requests[r].Trying? && s.published.session.None?
      && s.published.connection.Some?
    case NoSession(r, _) => r in s.requests && s.requests[r].Trying? && s.published.session.None?
    case Ack(r) => r in s.requests && s.requests[r].Sending?
    case SendFails(r) => r in s.requests && s.requests[r].Sending?
    case Discard(r, _) => r in s.requests && s.requests[r].Broken?
  }

  /** After a failed attempt: one more, unless this was the second or the caller is gone. */
  function Retried(p: Phase, cancelled: bool): Phase
    requires p.Trying? || p.Broken?
  {
    if p.attempt == 1 && !cancelled then Trying(p.size, p.used, 2) else Finished(p.used, Failed(p.attempt, cancelled))
  }

  /** The phase a request's own event takes it to. */
  function Moved(s: State, e: Event): Phase
    requires Enabled(s, e) && !e.Attach? && !e.Detach?
  {
    match e
    case Arrive(_) => Arrived
    case Admit(_) => Reading
    case Refuse(_) => Finished([], Busy)
    case Body(_, size) =>
      if IsSendable(size, s.limit) then Trying(size.value, [], 1)
      else Finished([], NotSent(size, BodyStatus(size, s.limit)))
    case Reuse(r) => Sends(s.requests[r], s.published.session.value)
    case Open(r) => Sends(s.requests[r], Ref(s.created, s.published.connection.value))
    case NoSession(r, cancelled) => Retried(s.requests[r], cancelled)
    case Ack(r) => Finished(s.requests[r].used, Acked(r))
    case SendFails(r) =>
      var Sending(size, used, mine, attempt) := s.requests[r];
      Broken(size, used, mine, attempt)
    case Discard(r, cancelled) => Retried(s.requests[r], cancelled)
  }

  function Sends(p: Phase, session: Ref): Phase
    requires p.Trying?
  {
    Sending(p.size, p.used + [session], session, p.attempt)
  }

  /** What the forwarder publishes after an event. */
  function Published'(s: State, e: Event): Published
    requires Enabled(s, e)
  {
    match e
    case Attach(c) => Attached(c)
    case Detach => DETACHED
    case Open(_) => Opened(s.published, s.created)
    case Discard(r, _) => Discarded(s.published, s.requests[r].mine)
    case _ => s.published
  }

  predicate Holds(p: Phase) {
    p.Reading? || p.Trying? || p.Sending? || p.Broken?
  }

  /** An admission slot is taken on admission and given back when the request ends. */
  function Held'(s: State, e: Event): int
    requires Enabled(s, e)
  {
    match e
    case Attach(_) => s.held
    case Detach => s.held
    case Admit(_) => s.held + 1
    case Refuse(_) => s.held
    case _ => if Moved(s, e).Finished? then s.held - 1 else s.held
  }

  function Next(s: State, e: Event): State
    requires Enabled(s, e)
  {
    State(
      Published'(s, e),
      if e.Open? then s.created + 1 else s.created,
      s.capacity, s.limit,
      Held'(s, e),
      if e.Attach? || e.Detach? then s.requests else s.requests[e.request := Moved(s, e)])
  }

  function Holders(s: State): set<nat> {
    set r | r in s.requests && Holds(s.requests[r])
  }

  // ---------------------------------------------------------------- invariants

  predicate SlotInv(s: State) {
    s.held == |Holders(s)| && s.held <= s.capacity
  }

  function Used(p: Phase): seq<Ref> {
    if p.Arrived? || p.Reading? then [] else p.used
  }

  /** Sessions a request is done with: all it used but the one it is still sending on. */
  predicate IsSpent(p: Phase, x: Ref) {
    x in Used(p) && (p.Trying? || ((p.Sending? || p.Broken?) && x != p.mine))
  }

  predicate Distinct(used: seq<Ref>) {
    forall i, j :: 0 <= i < j < |used| ==> used[i] != used[j]
  }

  predicate Counts(r: nat, p: Phase, limit: nat) {
    match p
    case Arrived => true
    case Reading => true
    case Trying(size, used, attempt) => 0 < size <= limit && |used| < attempt <= 2
    case Sending(size, used, mine, attempt) => 0 < size <= limit && mine in used && |used| <= attempt <= 2
    case Broken(size, used, mine, attempt) => 0 < size <= limit && mine in used && |used| <= attempt <= 2
    case Finished(used, result) => |used| <= 2 && Answers(r, used, result, limit)
  }

  /** What each answer says of how the request went: an acknowledgement is for a payload that was
      sent; a failure comes after two attempts unless the caller has gone; and what was not sent was
      unreadable (400), too large (413) or empty (204). */
  predicate Answers(r: nat, used: seq<Ref>, result: Result, limit: nat) {
    match result
    case Acked(payload) => payload == r && used != []
    case Failed(attempts, cancelled) => |used| <= attempts <= 2 && (cancelled || attempts == 2)
    case Busy => used == []
    case NotSent(None, status) => used == [] && status == 400
    case NotSent(Some(size), status) =>
      used == [] && ((size > limit && status == 413) || (size == 0 && status == 204))
  }

  /** A request sends on at most one session an attempt, never twice on the same, and one it is
      done with is not published again. */
  predicate PhaseInv(s: State, r: nat, p: Phase) {
    && Counts(r, p, s.limit) && Distinct(Used(p))
    && (forall x <- Used(p) :: x.id < s.created)
    && (s.published.session.Some? ==> !IsSpent(p, s.published.session.value))
  }

  predicate RequestInv(s: State) {
    forall r <- s.requests :: PhaseInv(s, r, s.requests[r])
  }

  lemma SessionStep(s: State, e: Event)
    requires IsCurrent(s.published, s.created) && Enabled(s, e)
    ensures IsCurrent(Next(s, e).published, Next(s, e).created)
  {
  }

  lemma HoldersMove(s: State, t: State, r: nat, p: Phase)
    requires t.requests == s.requests[r := p]
    ensures Holders(t) == if Holds(p) then Holders(s) + {r} else Holders(s) - {r}
    ensures |Holders(t)| == |Holders(s)| + (if Holds(p) then 1 else 0) - (if r in Holders(s) then 1 else 0)
  {
    assert Holders(t) == if Holds(p) then Holders(s) + {r} else Holders(s) - {r};
    if r in Holders(s) {
      assert Holders(s) + {r} == Holders(s);
      assert |Holders(s) - {r}| == |Holders(s)| - 1;
    } else {
      assert |Holders(s) + {r}| == |Holders(s)| + 1;
      assert Holders(s) - {r} == Holders(s);
    }
  }

  lemma SlotStep(s: State, e: Event)
    requires SlotInv(s) && Enabled(s, e)
    ensures SlotInv(Next(s, e))
  {
    if e.Attach? || e.Detach? {
      assert Holders(Next(s, e)) == Holders(s);
    } else {
      HoldersMove(s, Next(s, e), e.request, Moved(s, e));
    }
  }

  /** Taking a session: a new one, or the published one, which the request is not done with. */
  lemma SenderStep(s: State, e: Event)
    requires IsCurrent(s.published, s.created) && RequestInv(s) && Enabled(s, e) && (e.Reuse? || e.Open?)
    ensures PhaseInv(Next(s, e), e.request, Moved(s, e))
  {
    var p, mine := s.requests[e.request], Published'(s, e).session.value;
    assert PhaseInv(s, e.request, p);
    assert mine !in p.used;
    assert Distinct(p.used + [mine]);
  }

  /** Any other event of a request's own leaves it as it was, but for its phase. */
  lemma MoverStep(s: State, e: Event)
    requires IsCurrent(s.published, s.created) && RequestInv(s) && Enabled(s, e)
    requires !e.Attach? && !e.Detach? && !e.Reuse? && !e.Open?
    ensures PhaseInv(Next(s, e), e.request, Moved(s, e))
  {
    if e.request in s.requests {
      assert PhaseInv(s, e.request, s.requests[e.request]);
      MovedCounts(s, e);
      MovedSpends(s, e);
    }
  }

  lemma MovedCounts(s: State, e: Event)
    requires Enabled(s, e) && !e.Attach? && !e.Detach? && !e.Reuse? && !e.Open? && !e.Arrive?
    requires Counts(e.request, s.requests[e.request], s.limit)
    ensures Counts(e.request, Moved(s, e), s.limit)
  {
  }

  lemma MovedSpends(s: State, e: Event)
    requires Enabled(s, e) && !e.Attach? && !e.Detach? && !e.Reuse? && !e.Open? && !e.Arrive?
    ensures Used(Moved(s, e)) == Used(s.requests[e.request])
    ensures var session := Published'(s, e).session;
            session.Some? && IsSpent(Moved(s, e), session.value) ==>
              s.published.session == session && IsSpent(s.requests[e.request], session.value)
  {
  }

  lemma RequestStep(s: State, e: Event)
    requires IsCurrent(s.published, s.created) && RequestInv(s) && Enabled(s, e)
    ensures RequestInv(Next(s, e))
  {
    var t := Next(s, e);
    forall r <- t.requests ensures PhaseInv(t, r, t.requests[r]) {
      if e.Attach? || e.Detach? || r != e.request {
        assert PhaseInv(s, r, s.requests[r]);
      } else if e.Reuse? || e.Open? {
        SenderStep(s, e);
      } else {
        MoverStep(s, e);
      }
    }
  }

  // ---------------------------------------------------------------- runs

  ghost predicate IsRun(states: seq<State>, events: seq<Event>, c: Config) {
    && |states| == |events| + 1 && states[0] == Initial(c)
    && forall i :: 0 <= i < |events| ==> Enabled(states[i], events[i]) && states[i + 1] == Next(states[i], events[i])
  }

  lemma {:induction false} RunKeeps(states: seq<State>, events: seq<Event>, c: Config, i: nat)
    requires IsRun(states, events, c) && i < |states|
    ensures IsCurrent(states[i].published, states[i].created) && SlotInv(states[i]) && RequestInv(states[i])
    ensures states[i].capacity == Initial(c).capacity && states[i].limit == c.maxBatchBytes
  {
    if i == 0 {
      assert Holders(states[0]) == {};
    } else {
      RunKeeps(states, events, c, i - 1);
      assert Enabled(states[i - 1], events[i - 1]);
      SessionStep(states[i - 1], events[i - 1]);
      SlotStep(states[i - 1], events[i - 1]);
      RequestStep(states[i - 1], events[i - 1]);
    }
  }

  /** A published session is always the attached connection's. */
  lemma PublishedSessionIsCurrent(states: seq<State>, events: seq<Event>, c: Config, i: nat)
    requires IsRun(states, events, c) && i < |states| && states[i].published.session.Some?
    ensures states[i].published.connection == Some(states[i].published.session.value.connection)
  {
    RunKeeps(states, events, c, i);
  }

  /** Payloads held, or being read, are the slots taken: never more than configured, and none once
      nobody is between admission and answer. */
  lemma HeldPayloadsAreBounded(states: seq<State>, events: seq<Event>, c: Config, i: nat)
    requires IsRun(states, events, c) && i < |states|
    ensures |Holders(states[i])| == states[i].held
    ensures states[i].held <= c.maxConcurrentBatches || states[i].held <= 1
    ensures Holders(states[i]) == {} <==> states[i].held == 0
  {
    RunKeeps(states, events, c, i);
  }

  /** A payload within the limit is sent at most twice, the second time on another session, and its
      answer says how it went. */
  lemma RetriesUseAnotherSession(states: seq<State>, events: seq<Event>, c: Config, i: nat, r: nat)
    requires IsRun(states, events, c) && i < |states| && r in states[i].requests
    ensures var p := states[i].requests[r];
            && |Used(p)| <= 2 && Distinct(Used(p))
            && (p.Sending? ==> 0 < p.size <= c.maxBatchBytes && |p.used| <= p.attempt <= 2)
            && (p.Finished? ==> Answers(r, p.used, p.result, c.maxBatchBytes))
  {
    RunKeeps(states, events, c, i);
    assert PhaseInv(states[i], r, states[i].requests[r]);
  }

  /** A request is let in exactly while fewer than the configured number hold their slots, at least
      one, and turned away exactly when that many do. */
  lemma AdmittedExactly(states: seq<State>, events: seq<Event>, c: Config, i: nat, r: nat)
    requires IsRun(states, events, c) && i < |states| && r in states[i].requests && states[i].requests[r].Arrived?
    ensures Enabled(states[i], Admit(r)) <==>
      |Holders(states[i])| < 1 || |Holders(states[i])| < c.maxConcurrentBatches
    ensures Enabled(states[i], Refuse(r)) <==> !Enabled(states[i], Admit(r))
  {
    RunKeeps(states, events, c, i);
  }

  /** The connection attached last, unless it has been detached since. */
  function LastAttached(events: seq<Event>): Option<nat> {
    if events == [] then None
    else match events[|events| - 1]
      case Attach(connection) => Some(connection)
      case Detach => None
      case _ => LastAttached(events[..|events| - 1])
  }

  /** Requests are always forwarded on the latest connection, and only while there is one. */
  lemma {:induction false} ConnectionIsLatest(states: seq<State>, events: seq<Event>, c: Config, i: nat)
    requires IsRun(states, events, c) && i < |states|
    ensures states[i].published.connection == LastAttached(events[..i])
  {
    if i > 0 {
      ConnectionIsLatest(states, events, c, i - 1);
      assert events[..i][..i - 1] == events[..i - 1];
      assert Enabled(states[i - 1], events[i - 1]);
    }
  }

  /** No request is ever stuck: it can be let in or turned away, its body can turn out to be anything,
      it finds a session exactly while there is a connection, a payload being sent can be acknowledged
      or fail, and after a failure its session is discarded. */
  lemma NobodyIsStuck(states: seq<State>, events: seq<Event>, c: Config, i: nat, r: nat)
    requires IsRun(states, events, c) && i < |states| && r in states[i].requests
    ensures var s := states[i]; match s.requests[r]
      case Arrived => Enabled(s, Admit(r)) || Enabled(s, Refuse(r))
      case Reading => forall size :: Enabled(s, Body(r, size))
      case Trying(_, _, _) =>
        && (Enabled(s, Reuse(r)) || Enabled(s, Open(r)) <==> LastAttached(events[..i]).Some?)
        && (LastAttached(events[..i]).None? ==> forall cancelled :: Enabled(s, NoSession(r, cancelled)))
      case Sending(_, _, _, _) => Enabled(s, Ack(r)) && Enabled(s, SendFails(r))
      case Broken(_, _, _, _) => forall cancelled :: Enabled(s, Discard(r, cancelled))
      case Finished(_, _) => true
  {
    RunKeeps(states, events, c, i);
    ConnectionIsLatest(states, events, c, i);
  }

  /** In every run, a published session is taken away only with its connection, or by the request
      that was sending on it when it broke. */
  lemma OnlyItsUserDiscards(states: seq<State>, events: seq<Event>, c: Config, i: nat)
    requires IsRun(states, events, c) && i < |events|
    requires states[i].published.session.Some? && states[i + 1].published.session != states[i].published.session
    ensures var e := events[i];
            || e.Attach? || e.Detach?
            || (e.Discard? && e.request in states[i].requests && states[i].requests[e.request].Broken?
                && states[i].requests[e.request].mine == states[i].published.session.value
                && Used(states[i].requests[e.request]) != [])
  {
    RunKeeps(states, events, c, i);
    assert Enabled(states[i], events[i]);
    if events[i].Discard? {
      assert PhaseInv(states[i], events[i].request, states[i].requests[events[i].request]);
    }
  }
}
