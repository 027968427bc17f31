/** Any number of Agents running the identity store's methods against one Secret: every read
    and every update is one step of the API server, updates are refused when the Secret has
    changed since it was read, refused updates may be retried, and a response may be lost
    after the update it answers was stored (pkg/agent/identity.go:78-365). */
module IdentityProtocol {
  import opened Options
  import opened Identity

  datatype Pc =
    | Reading
    | Writing(base: nat, attempt: Attempt, data: Data)
    | Done(outcome: Outcome, seen: nat)

  /** One running method call; its enrollment candidate is generated once and kept over retries. */
  datatype Call = Call(op: Op, candidate: PendingIdentity, begunAt: int, pc: Pc)

  /** `history` holds every version of the Secret, `authors` the attempt behind each change. */
  datatype System = System(history: seq<Data>, authors: seq<Attempt>, calls: seq<Call>)

  ghost predicate Init(s: System) {
    |s.history| == 1 && s.authors == [] && s.calls == [] && !PhaseOf(s.history[0]).BrokenPhase?
  }

  function Last(s: System): nat
    requires |s.history| > 0
  {
    |s.history| - 1
  }

  ghost predicate Begin(m: Material, s: System, s': System, op: Op, candidate: PendingIdentity, now: int) {
    && m.pendingValid(candidate)
    && s' == s.(calls := s.calls + [Call(op, candidate, now, if Admits(m, op, now) then Reading else Done(Failed, 0))])
  }

  ghost predicate Moves(s: System, s': System, c: nat, pc: Pc) {
    c < |s.calls| && s'.calls == s.calls[c := s.calls[c].(pc := pc)]
  }

  ghost predicate Read(m: Material, s: System, s': System, c: nat, csr: Bytes, now: int)
    requires |s.history| > 0
  {
    && c < |s.calls| && s.calls[c].pc.Reading?
    && var a := Attempt(s.calls[c].op, s.calls[c].candidate, csr, now);
    && Generated(m, a)
    && s'.history == s.history && s'.authors == s.authors
    && Moves(s, s', c, match Decide(m, a, s.history[Last(s)])
                       case Answer(outcome) => Done(outcome, Last(s))
                       case Propose(data) => Writing(Last(s), a, data))
  }

  /** The update lands on the version it was computed from; the caller may not hear of it. */
  ghost predicate Commit(m: Material, s: System, s': System, c: nat, heard: bool, now: int)
    requires |s.history| > 0
  {
    && c < |s.calls| && s.calls[c].pc.Writing? && s.calls[c].pc.base == Last(s)
    && var pc := s.calls[c].pc;
    && s'.history == s.history + [pc.data] && s'.authors == s.authors + [pc.attempt]
    && Moves(s, s', c, Done(if heard then Acknowledged(m, pc.attempt, pc.data, now) else Failed, Last(s) + 1))
  }

  /** A stale update is refused; the method retries from the read, or gives up. */
  ghost predicate Refuse(s: System, s': System, c: nat, retry: bool)
    requires |s.history| > 0
  {
    && c < |s.calls| && s.calls[c].pc.Writing? && s.calls[c].pc.base != Last(s)
    && s'.history == s.history && s'.authors == s.authors
    && Moves(s, s', c, if retry then Reading else Done(Failed, 0))
  }

  /** Any other error before anything is stored. */
  ghost predicate Break(s: System, s': System, c: nat) {
    && c < |s.calls| && !s.calls[c].pc.Done?
    && s'.history == s.history && s'.authors == s.authors
    && Moves(s, s', c, Done(Failed, 0))
  }

  datatype Step =
    | BeginStep(op: Op, candidate: PendingIdentity, now: int)
    | ReadStep(c: nat, csr: Bytes, now: int)
    | CommitStep(c: nat, heard: bool, now: int)
    | RefuseStep(c: nat, retry: bool)
    | BreakStep(c: nat)

  ghost predicate Takes(m: Material, s: System, s': System, step: Step) {
    |s.history| > 0 && match step
      case BeginStep(op, candidate, now) => Begin(m, s, s', op, candidate, now)
      case ReadStep(c, csr, now) => Read(m, s, s', c, csr, now)
      case CommitStep(c, heard, now) => Commit(m, s, s', c, heard, now)
      case RefuseStep(c, retry) => Refuse(s, s', c, retry)
      case BreakStep(c) => Break(s, s', c)
  }

  ghost predicate IsRun(m: Material, run: seq<System>, steps: seq<Step>) {
    && |run| == |steps| + 1 && Init(run[0])
    && forall i | 0 <= i < |steps| :: Takes(m, run[i], run[i + 1], steps[i])
  }

  // ---------------------------------------------------------------- invariant

  /** A version, the attempt that read it, and the version it made of it. */
  ghost predicate Link(m: Material, d: Data, a: Attempt, d': Data) {
    Generated(m, a) && Decide(m, a, d) == Propose(d') && Changes(m, a, d, d')
  }

  /** Every version is its author's proposal on the version before it: the history is a
      sequential execution of the committed attempts, whatever the interleaving was. */
  ghost predicate Sequential(m: Material, history: seq<Data>, authors: seq<Attempt>) {
    && |history| == |authors| + 1 && !PhaseOf(history[0]).BrokenPhase?
    && forall k :: 0 <= k < |authors| ==> Link(m, history[k], authors[k], history[k + 1])
  }

  ghost predicate HoldsIdentity(m: Material, d: Data, i: LocalIdentity) {
    PhaseOf(d).CompletePhase? && ExpiryIn(m, d) == Some(i.expiresAt) && IdentityOf(d, i.expiresAt) == i
  }

  /** An outcome reports what the version it was read from holds. */
  ghost predicate Reports(m: Material, op: Op, outcome: Outcome, d: Data) {
    match outcome
    case Failed => true
    case Loaded(Pending(p)) => op.LoadOrCreatePending? && PhaseOf(d).PendingPhase? && p == PendingOf(d)
    case Loaded(Complete(i)) => op.LoadOrCreatePending? && HoldsIdentity(m, d, i)
    case Loaded(_) => false
    case Stored(i) =>
      && HoldsIdentity(m, d, i)
      && (op.CompleteEnrollment? || op.CompleteRenewal?)
      && (op.CompleteEnrollment? ==> i == op.identity) && (op.CompleteRenewal? ==> i == Renewed(op))
    case CsrReady(csr) =>
      op.LoadOrCreateRenewalCsr? && HoldsIdentity(m, d, op.current) && csr == Get(d, RenewalCsr) != []
  }

  ghost predicate GoodCall(m: Material, history: seq<Data>, call: Call) {
    && (!call.pc.Done? ==> Admits(m, call.op, call.begunAt) && m.pendingValid(call.candidate))
    && match call.pc
       case Reading => true
       case Writing(base, a, data) =>
         && base < |history| && a.op == call.op && a.candidate == call.candidate && Generated(m, a)
         && Decide(m, a, history[base]) == Propose(data)
       case Done(outcome, seen) => seen < |history| && Reports(m, call.op, outcome, history[seen])
  }

  ghost predicate Inv(m: Material, s: System) {
    && Sequential(m, s.history, s.authors)
    && forall c | 0 <= c < |s.calls| :: GoodCall(m, s.history, s.calls[c])
  }

  lemma AnswerReports(m: Material, a: Attempt, d: Data)
    requires Sound(m) && Decide(m, a, d).Answer?
    ensures Reports(m, a.op, Decide(m, a, d).outcome, d)
  {
  }

  lemma AcknowledgedReports(m: Material, a: Attempt, begunAt: int, d: Data, d': Data, now: int)
    requires Sound(m) && Admits(m, a.op, begunAt) && Generated(m, a) && Decide(m, a, d) == Propose(d')
    ensures Reports(m, a.op, Acknowledged(m, a, d', now), d')
  {
    ProposalChanges(m, a, begunAt, d);
  }

  lemma MoveKeeps(m: Material, s: System, s': System, c: nat, pc: Pc)
    requires Inv(m, s) && Moves(s, s', c, pc)
    requires |s.history| <= |s'.history| && s.history == s'.history[..|s.history|]
    requires Sequential(m, s'.history, s'.authors)
    requires GoodCall(m, s'.history, s.calls[c].(pc := pc))
    ensures Inv(m, s')
  {
    forall d | 0 <= d < |s'.calls| ensures GoodCall(m, s'.history, s'.calls[d]) {
      if d != c {
        assert GoodCall(m, s.history, s.calls[d]);
      }
    }
  }

  lemma LinkExtends(m: Material, history: seq<Data>, authors: seq<Attempt>, a: Attempt, d': Data)
    requires Sequential(m, history, authors) && Link(m, history[|history| - 1], a, d')
    ensures Sequential(m, history + [d'], authors + [a])
  {
  }

  lemma ProposalExtends(m: Material, history: seq<Data>, authors: seq<Attempt>, a: Attempt, begunAt: int, d': Data)
    requires Sound(m) && Sequential(m, history, authors) && Admits(m, a.op, begunAt) && Generated(m, a)
    requires Decide(m, a, history[|history| - 1]) == Propose(d')
    ensures Sequential(m, history + [d'], authors + [a])
  {
    ProposalChanges(m, a, begunAt, history[|history| - 1]);
    LinkExtends(m, history, authors, a, d');
  }

  lemma CommitKeeps(m: Material, s: System, s': System, c: nat, heard: bool, now: int)
    requires Sound(m) && Inv(m, s) && Commit(m, s, s', c, heard, now)
    ensures Inv(m, s')
  {
    var call, pc := s.calls[c], s.calls[c].pc;
    assert GoodCall(m, s.history, call);
    ProposalExtends(m, s.history, s.authors, pc.attempt, call.begunAt, pc.data);
    AcknowledgedReports(m, pc.attempt, call.begunAt, s.history[pc.base], pc.data, now);
    MoveKeeps(m, s, s', c, Done(if heard then Acknowledged(m, pc.attempt, pc.data, now) else Failed, Last(s) + 1));
  }

  lemma StepKeeps(m: Material, s: System, s': System, step: Step)
    requires Sound(m) && Inv(m, s) && Takes(m, s, s', step)
    ensures Inv(m, s')
  {
    match step
    case BeginStep(op, candidate, now) =>
    case ReadStep(c, csr, now) =>
      var call := s.calls[c];
      var a := Attempt(call.op, call.candidate, csr, now);
      assert GoodCall(m, s.history, call);
      match Decide(m, a, s.history[Last(s)]) {
        case Answer(outcome) =>
          AnswerReports(m, a, s.history[Last(s)]);
          MoveKeeps(m, s, s', c, Done(outcome, Last(s)));
        case Propose(data) => MoveKeeps(m, s, s', c, Writing(Last(s), a, data));
      }
    case CommitStep(c, heard, now) => CommitKeeps(m, s, s', c, heard, now);
    case RefuseStep(c, retry) =>
      assert GoodCall(m, s.history, s.calls[c]);
      MoveKeeps(m, s, s', c, if retry then Reading else Done(Failed, 0));
    case BreakStep(c) => MoveKeeps(m, s, s', c, Done(Failed, 0));
  }

  lemma {:induction false} RunKeeps(m: Material, run: seq<System>, steps: seq<Step>, i: nat)
    requires Sound(m) && IsRun(m, run, steps) && i < |run|
    ensures Inv(m, run[i])
  {
    if i > 0 {
      RunKeeps(m, run, steps, i - 1);
      StepKeeps(m, run[i - 1], run[i], steps[i - 1]);
    }
  }
}
