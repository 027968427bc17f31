/** What every run of the identity protocol guarantees. */
module IdentityGuarantees {
  import opened Options
  import opened Identity
  import opened IdentityProtocol
  import Reconnect

  // ---------------------------------------------------------------- how the Secret evolves

  /** What a later version keeps of an earlier one. */
  ghost predicate Descends(d: Data, d': Data) {
    && !PhaseOf(d').BrokenPhase?
    && Rank(PhaseOf(d)) <= Rank(PhaseOf(d'))
    && (!PhaseOf(d).EmptyPhase? ==> Get(d', PrivateKey) == Get(d, PrivateKey))
    && (PhaseOf(d).CompletePhase? ==> Get(d', ClusterId) == Get(d, ClusterId) && Get(d', AgentId) == Get(d, AgentId))
    && (forall name :: Get(d', OtherField(name)) == Get(d, OtherField(name)))
  }

  /** The expiry never moves back, and while it stays the certificate and a stored CSR stay. */
  ghost predicate KeepsExpiry(m: Material, d: Data, d': Data) {
    PhaseOf(d).CompletePhase? ==>
      match (ExpiryIn(m, d), ExpiryIn(m, d'))
      case (Some(e), Some(e')) =>
        && e <= e'
        && (e == e' ==> Get(d', Certificate) == Get(d, Certificate))
        && (e == e' && Has(d, RenewalCsr) ==> Get(d', RenewalCsr) == Get(d, RenewalCsr))
      case (None, None) => Get(d', RenewalCsr) == Get(d, RenewalCsr)
      case _ => false
  }

  /** A renewal with a later expiry.  The store does not ask for one; the connection loop starts
      no other (LoopRenewalsExtend). */
  predicate Extends(op: Op) {
    op.CompleteRenewal? ==> op.previous.expiresAt < op.expiresAt
  }

  /** Every renewal committed between the versions `i` and `j` extended the expiry. */
  predicate Advancing(authors: seq<Attempt>, i: nat, j: nat)
    requires j <= |authors|
  {
    forall k | i <= k < j :: Extends(authors[k].op)
  }

  lemma SameFields(d: Data, d': Data, fields: set<Field>)
    requires SameExcept(d, d', fields)
    ensures forall f | f !in fields :: Get(d', f) == Get(d, f)
  {
    forall f | f !in fields ensures Get(d', f) == Get(d, f) {
      assert f in d <==> f in (d - fields);
      assert f in d' <==> f in (d' - fields);
      assert f in d ==> d[f] == (d - fields)[f];
      assert f in d' ==> d'[f] == (d' - fields)[f];
    }
  }

  lemma ChangeDescends(m: Material, a: Attempt, d: Data, d': Data)
    requires Changes(m, a, d, d')
    ensures Descends(d, d')
    ensures Extends(a.op) ==> KeepsExpiry(m, d, d')
  {
    match a.op
    case LoadOrCreatePending => SameFields(d, d', {PrivateKey, EnrollmentCsr, EnrollmentKey});
    case CompleteEnrollment(_, identity, _) =>
      SameFields(d, d', {Certificate, ClusterId, AgentId, Expiry, EnrollmentCsr, EnrollmentKey});
      assert Get(d', PrivateKey) == Get(d, PrivateKey);
    case LoadOrCreateRenewalCsr(current) => SameFields(d, d', {RenewalCsr});
    case CompleteRenewal(previous, csr, _, _, _) =>
      SameFields(d, d', {Certificate, Expiry, RenewalCsr});
      assert IdentityOf(d', Renewed(a.op).expiresAt).privateKey == Get(d', PrivateKey);
  }

  /** Step by step, and so over any distance. */
  ghost predicate Lineage(history: seq<Data>) {
    && (forall k :: 0 <= k < |history| ==> !PhaseOf(history[k]).BrokenPhase?)
    && (forall k :: 0 < k < |history| ==> Descends(history[k - 1], history[k]))
  }

  lemma SequentialLineage(m: Material, history: seq<Data>, authors: seq<Attempt>)
    requires Sequential(m, history, authors)
    ensures Lineage(history)
  {
    forall k | 0 < k < |history| ensures Descends(history[k - 1], history[k]) {
      assert Link(m, history[k - 1], authors[k - 1], history[k]);
      ChangeDescends(m, authors[k - 1], history[k - 1], history[k]);
    }
    forall k | 0 <= k < |history| ensures !PhaseOf(history[k]).BrokenPhase? {
      if k > 0 {
        assert Descends(history[k - 1], history[k]);
      }
    }
  }

  lemma DescendsTransitive(a: Data, b: Data, c: Data)
    requires Descends(a, b) && Descends(b, c)
    ensures Descends(a, c)
  {
    if PhaseOf(a).CompletePhase? {
      assert PhaseOf(b).CompletePhase?;
    }
  }

  lemma {:induction false} LineageDescends(history: seq<Data>, i: nat, j: nat)
    requires Lineage(history) && i <= j < |history|
    ensures Descends(history[i], history[j])
    decreases j
  {
    if i < j {
      LineageDescends(history, i, j - 1);
      DescendsTransitive(history[i], history[j - 1], history[j]);
    }
  }

  lemma ExpiryTransitive(m: Material, a: Data, b: Data, c: Data)
    requires Descends(a, b) && !PhaseOf(b).BrokenPhase? && KeepsExpiry(m, a, b) && KeepsExpiry(m, b, c)
    ensures KeepsExpiry(m, a, c)
  {
    assert PhaseOf(a).CompletePhase? ==> PhaseOf(b).CompletePhase?;
  }

  lemma HistoryDescends(m: Material, history: seq<Data>, authors: seq<Attempt>, i: nat, j: nat)
    requires Sequential(m, history, authors) && i <= j < |history|
    ensures !PhaseOf(history[j]).BrokenPhase? && Descends(history[i], history[j])
  {
    SequentialLineage(m, history, authors);
    LineageDescends(history, i, j);
  }

  lemma {:induction false} HistoryKeepsExpiry(m: Material, history: seq<Data>, authors: seq<Attempt>, i: nat, j: nat)
    requires Sequential(m, history, authors) && i <= j < |history| && Advancing(authors, i, j)
    ensures KeepsExpiry(m, history[i], history[j])
    decreases j
  {
    if i < j {
      var d, a, d' := history[j - 1], authors[j - 1], history[j];
      HistoryKeepsExpiry(m, history, authors, i, j - 1);
      HistoryDescends(m, history, authors, i, j - 1);
      assert Link(m, d, a, d') && Extends(a.op);
      ChangeDescends(m, a, d, d');
      ExpiryTransitive(m, history[i], d, d');
    }
  }

  // ---------------------------------------------------------------- main results

  /** The Secret never becomes partial or conflicting, moves only empty, pending, complete,
      and keeps its private key once it has one. */
  lemma SecretOnlyMovesForward(m: Material, run: seq<System>, steps: seq<Step>, n: nat, i: nat, j: nat)
    requires Sound(m) && IsRun(m, run, steps) && n < |run| && i <= j < |run[n].history|
    ensures Descends(run[n].history[i], run[n].history[j])
    ensures forall now :: ParseSecret(m, run[n].history[j], now) != Unreadable(PartialOrConflicting)
                       && ParseSecret(m, run[n].history[j], now) != Unreadable(MissingPrivateKey)
  {
    RunKeeps(m, run, steps, n);
    HistoryDescends(m, run[n].history, run[n].authors, i, j);
  }

  /** The interleaving leaves no trace: each version is the result of running its author's
      attempt, alone, on the version before. */
  lemma HistoryIsSequential(m: Material, run: seq<System>, steps: seq<Step>, n: nat, k: nat)
    requires Sound(m) && IsRun(m, run, steps) && n < |run| && k < |run[n].authors|
    ensures k + 1 < |run[n].history|
    ensures Decide(m, run[n].authors[k], run[n].history[k]) == Propose(run[n].history[k + 1])
    ensures Changes(m, run[n].authors[k], run[n].history[k], run[n].history[k + 1])
  {
    RunKeeps(m, run, steps, n);
  }

  /** An update is stored exactly on the version it was computed from, and refused on any other. */
  lemma StaleIsRefusedExactly(m: Material, s: System, c: nat, heard: bool, retry: bool, now: int)
    requires Inv(m, s) && c < |s.calls| && s.calls[c].pc.Writing?
    ensures (exists s' :: Takes(m, s, s', CommitStep(c, heard, now))) <==> s.calls[c].pc.base + 1 == |s.history|
    ensures (exists s' :: Takes(m, s, s', RefuseStep(c, retry))) <==> s.calls[c].pc.base + 1 < |s.history|
  {
    var call, pc := s.calls[c], s.calls[c].pc;
    assert GoodCall(m, s.history, call);
    if pc.base == Last(s) {
      var outcome := if heard then Acknowledged(m, pc.attempt, pc.data, now) else Failed;
      var stored := System(s.history + [pc.data], s.authors + [pc.attempt],
                           s.calls[c := call.(pc := Done(outcome, Last(s) + 1))]);
      assert Takes(m, s, stored, CommitStep(c, heard, now));
    } else {
      var refused := s.(calls := s.calls[c := call.(pc := if retry then Reading else Done(Failed, 0))]);
      assert Takes(m, s, refused, RefuseStep(c, retry));
    }
  }

  /** What a call has answered stands, and so does every version of the Secret. */
  lemma {:induction false} AnswersStand(m: Material, run: seq<System>, steps: seq<Step>, i: nat, j: nat, c: nat)
    requires IsRun(m, run, steps) && i <= j < |run| && c < |run[i].calls| && run[i].calls[c].pc.Done?
    ensures c < |run[j].calls| && run[j].calls[c] == run[i].calls[c]
    ensures run[i].history <= run[j].history && run[i].authors <= run[j].authors
    decreases j
  {
    if i < j {
      AnswersStand(m, run, steps, i, j - 1, c);
      assert Takes(m, run[j - 1], run[j], steps[j - 1]);
    }
  }

  function KeyOf(o: Outcome): Bytes
    requires o.Loaded? && (o.state.Pending? || o.state.Complete?)
  {
    if o.state.Pending? then o.state.pending.privateKey else o.state.identity.privateKey
  }

  /** Every Agent that loads or creates the identity ends up with the same private key. */
  lemma LoadedKeysAgree(m: Material, run: seq<System>, steps: seq<Step>, n: nat, c: nat, d: nat)
    requires Sound(m) && IsRun(m, run, steps) && n < |run| && c < |run[n].calls| && d < |run[n].calls|
    requires run[n].calls[c].pc.Done? && run[n].calls[c].pc.outcome.Loaded?
    requires run[n].calls[d].pc.Done? && run[n].calls[d].pc.outcome.Loaded?
    ensures var p, q := run[n].calls[c].pc.outcome, run[n].calls[d].pc.outcome;
            && (p.state.Pending? || p.state.Complete?) && (q.state.Pending? || q.state.Complete?)
            && KeyOf(p) == KeyOf(q) != []
  {
    RunKeeps(m, run, steps, n);
    var s := run[n];
    assert GoodCall(m, s.history, s.calls[c]) && GoodCall(m, s.history, s.calls[d]);
    var i, j := s.calls[c].pc.seen, s.calls[d].pc.seen;
    if i <= j {
      HistoryDescends(m, s.history, s.authors, i, j);
    } else {
      HistoryDescends(m, s.history, s.authors, j, i);
    }
  }

  /** Two versions that hold the same identity have, between them, no renewal or one that did not
      extend the expiry. */
  lemma RenewalNeverReturns(m: Material, run: seq<System>, steps: seq<Step>, n: nat, i: nat, k: nat, j: nat,
      identity: LocalIdentity)
    requires Sound(m) && IsRun(m, run, steps) && n < |run| && i <= k < j < |run[n].history|
    requires HoldsIdentity(m, run[n].history[i], identity) && HoldsIdentity(m, run[n].history[j], identity)
    ensures j <= |run[n].authors|
    ensures run[n].authors[k].op.CompleteRenewal? ==> !Advancing(run[n].authors, i, j)
  {
    RunKeeps(m, run, steps, n);
    if run[n].authors[k].op.CompleteRenewal? && Advancing(run[n].authors, i, j) {
      IdentityEnds(m, run[n].history, run[n].authors, i, k, j, identity);
    }
  }

  /** All calls that prepare the renewal of one identity are given one CSR, unless a renewal that
      did not extend the expiry was committed between the versions they saw. */
  lemma RenewalCsrIsUnique(m: Material, run: seq<System>, steps: seq<Step>, n: nat, c: nat, d: nat)
    requires Sound(m) && IsRun(m, run, steps) && n < |run| && c < |run[n].calls| && d < |run[n].calls|
    requires run[n].calls[c].pc.Done? && run[n].calls[c].pc.outcome.CsrReady?
    requires run[n].calls[d].pc.Done? && run[n].calls[d].pc.outcome.CsrReady?
    requires run[n].calls[c].op == run[n].calls[d].op && run[n].calls[c].pc.seen <= run[n].calls[d].pc.seen
    ensures run[n].calls[d].pc.seen <= |run[n].authors|
    ensures run[n].calls[c].pc.outcome == run[n].calls[d].pc.outcome
         || !Advancing(run[n].authors, run[n].calls[c].pc.seen, run[n].calls[d].pc.seen)
  {
    RunKeeps(m, run, steps, n);
    var s := run[n];
    assert GoodCall(m, s.history, s.calls[c]) && GoodCall(m, s.history, s.calls[d]);
    var i, j := s.calls[c].pc.seen, s.calls[d].pc.seen;
    if Advancing(s.authors, i, j) {
      forall k | i <= k < j ensures !s.authors[k].op.CompleteRenewal? {
        RenewalNeverReturns(m, run, steps, n, i, k, j, s.calls[c].op.current);
      }
      IdentityStays(m, s.history, s.authors, i, j, s.calls[c].op.current);
    }
  }

  // ---------------------------------------------------------------- renewals that do not extend

  /** A renewal as the connection loop completes it, whatever its renewal window. */
  ghost predicate OfLoop(c: Reconnect.Config, op: Op) {
    op.CompleteRenewal? ==>
      exists s, now, a ::
        && Reconnect.CanHappen(c, s, now, a) && a.Renewed?
        && s.expiresAt == op.previous.expiresAt && a.expiresAt == op.expiresAt
  }

  /** The expiries the loop can bring about are exactly the later ones. */
  lemma LoopRenewalsExtend(c: Reconnect.Config, op: Op)
    ensures OfLoop(c, op) <==> Extends(op)
  {
    if op.CompleteRenewal? && Extends(op) {
      var expiresAt := op.previous.expiresAt;
      var now := expiresAt - c.renewBefore;
      assert Reconnect.CanHappen(c, Reconnect.State(expiresAt, c.initial), now,
                                 Reconnect.Renewed(now, now, op.expiresAt));
    }
  }

  lemma AppendStep(m: Material, run: seq<System>, steps: seq<Step>, s: System, step: Step)
    requires IsRun(m, run, steps) && Takes(m, run[|run| - 1], s, step)
    ensures IsRun(m, run + [s], steps + [step])
  {
    var run', steps' := run + [s], steps + [step];
    forall i | 0 <= i < |steps'| ensures Takes(m, run'[i], run'[i + 1], steps'[i]) {
      if i < |steps| {
        assert Takes(m, run[i], run[i + 1], steps[i]);
      }
    }
  }

  /** The attempts have been made one after the other, each to its end and heard. */
  ghost predicate Heard(m: Material, s: System) {
    && |s.calls| == |s.authors| && |s.history| == |s.authors| + 1
    && forall k | 0 <= k < |s.calls| :: HeardAt(m, s.calls[k], s.authors[k], s.history[k + 1], k + 1)
  }

  ghost predicate HeardAt(m: Material, call: Call, a: Attempt, d: Data, seen: nat) {
    call.op == a.op && call.pc == Done(Acknowledged(m, a, d, a.now), seen)
  }

  predicate CanBegin(m: Material, a: Attempt) {
    Admits(m, a.op, a.now) && m.pendingValid(a.candidate)
  }

  /** Begin, read and commit, with nobody in between. */
  lemma MakesAttempt(m: Material, run: seq<System>, steps: seq<Step>, a: Attempt, d: Data)
      returns (run': seq<System>, steps': seq<Step>)
    requires IsRun(m, run, steps) && Heard(m, run[|run| - 1]) && CanBegin(m, a)
    requires Link(m, run[|run| - 1].history[|run[|run| - 1].authors|], a, d)
    ensures IsRun(m, run', steps') && Heard(m, run'[|run'| - 1])
    ensures run'[|run'| - 1].history == run[|run| - 1].history + [d]
    ensures run'[|run'| - 1].authors == run[|run| - 1].authors + [a]
  {
    var s := run[|run| - 1];
    var c := |s.calls|;
    var begun := s.(calls := s.calls + [Call(a.op, a.candidate, a.now, Reading)]);
    var read := s.(calls := s.calls + [Call(a.op, a.candidate, a.now, Writing(Last(s), a, d))]);
    var done := System(s.history + [d], s.authors + [a],
      s.calls + [Call(a.op, a.candidate, a.now, Done(Acknowledged(m, a, d, a.now), Last(s) + 1))]);
    AppendStep(m, run, steps, begun, BeginStep(a.op, a.candidate, a.now));
    run', steps' := run + [begun], steps + [BeginStep(a.op, a.candidate, a.now)];
    assert read.calls == begun.calls[c := begun.calls[c].(pc := read.calls[c].pc)];
    AppendStep(m, run', steps', read, ReadStep(c, a.csr, a.now));
    run', steps' := run' + [read], steps' + [ReadStep(c, a.csr, a.now)];
    assert done.calls == read.calls[c := read.calls[c].(pc := done.calls[c].pc)];
    AppendStep(m, run', steps', done, CommitStep(c, true, a.now));
    run', steps' := run' + [done], steps' + [CommitStep(c, true, a.now)];
  }

  ghost predicate Executable(m: Material, history: seq<Data>, authors: seq<Attempt>) {
    Sequential(m, history, authors) && forall a <- authors :: CanBegin(m, a)
  }

  /** The converse of HistoryIsSequential: every sequential execution of attempts that can be begun
      is the history of some run. */
  lemma {:induction false} SequentialHistoryHappens(m: Material, history: seq<Data>, authors: seq<Attempt>)
      returns (run: seq<System>, steps: seq<Step>)
    requires Executable(m, history, authors)
    ensures IsRun(m, run, steps) && Heard(m, run[|run| - 1])
    ensures run[|run| - 1].history == history && run[|run| - 1].authors == authors
    decreases |authors|
  {
    if authors == [] {
      run, steps := [System(history, [], [])], [];
    } else {
      var n := |authors| - 1;
      assert history[..n + 1] + [history[n + 1]] == history && authors[..n] + [authors[n]] == authors;
      run, steps := SequentialHistoryHappens(m, history[..n + 1], authors[..n]);
      assert Link(m, history[n], authors[n], history[n + 1]);
      run, steps := MakesAttempt(m, run, steps, authors[n], history[n + 1]);
    }
  }

  /** Some call that prepares the renewal of this identity was given this CSR. */
  predicate GivesCsr(s: System, identity: LocalIdentity, csr: Bytes) {
    exists c | 0 <= c < |s.calls| :: Prepared(s.calls[c], identity, csr)
  }

  predicate Prepared(call: Call, identity: LocalIdentity, csr: Bytes) {
    call.op == LoadOrCreateRenewalCsr(identity) && call.pc.Done? && call.pc.outcome == CsrReady(csr)
  }

  ghost predicate TwoCsrs(m: Material, run: seq<System>, steps: seq<Step>, identity: LocalIdentity,
      csr: Bytes, again: Bytes)
  {
    && IsRun(m, run, steps)
    && GivesCsr(run[|run| - 1], identity, csr) && GivesCsr(run[|run| - 1], identity, again)
  }

  function Preparing(i: LocalIdentity, p: PendingIdentity, csr: Bytes, now: int): Attempt {
    Attempt(LoadOrCreateRenewalCsr(i), p, csr, now)
  }

  function Renewing(i: LocalIdentity, csr: Bytes, i': LocalIdentity, p: PendingIdentity, now: int): Attempt {
    Attempt(CompleteRenewal(i, csr, i'.certificate, i'.expiresAt, now), p, csr, now)
  }

  /** A Secret that holds one of two identities with the same key, and no CSR. */
  ghost predicate Bare(m: Material, d: Data, i: LocalIdentity, i': LocalIdentity, now: int) {
    && m.identityValid(i, now) && m.identityValid(i', now)
    && i' == i.(certificate := i'.certificate, expiresAt := i'.expiresAt) && i' != i
    && HoldsIdentity(m, d, i) && d - {EnrollmentCsr, EnrollmentKey, RenewalCsr} == d
  }

  lemma PreparesAndRenews(m: Material, d: Data, i: LocalIdentity, i': LocalIdentity, p: PendingIdentity,
      csr: Bytes, now: int)
    requires Sound(m) && Bare(m, d, i, i', now) && m.csrMatches(i.privateKey, csr) && m.pendingValid(p)
    ensures CanBegin(m, Preparing(i, p, csr, now)) && CanBegin(m, Renewing(i, csr, i', p, now))
    ensures Link(m, d, Preparing(i, p, csr, now), d[RenewalCsr := csr])
    ensures Link(m, d[RenewalCsr := csr], Renewing(i, csr, i', p, now), WithIdentity(m, d, i'))
    ensures Bare(m, WithIdentity(m, d, i'), i', i, now)
  {
    var prepare, renew, stored := Preparing(i, p, csr, now), Renewing(i, csr, i', p, now), d[RenewalCsr := csr];
    assert Decide(m, prepare, d) == Propose(stored);
    ProposalChanges(m, prepare, now, d);
    assert Decide(m, renew, stored) == Propose(WithRenewed(m, stored, i'));
    assert WithRenewed(m, stored, i') == WithIdentity(m, d, i');
    ProposalChanges(m, renew, now, stored);
  }

  /** Storing a CSR and renewing with it, at the end of a history. */
  lemma RenewsNext(m: Material, history: seq<Data>, authors: seq<Attempt>, i: LocalIdentity, i': LocalIdentity,
      p: PendingIdentity, csr: Bytes, now: int)
    requires Executable(m, history, authors) && Bare(m, history[|history| - 1], i, i', now)
    requires Sound(m) && m.csrMatches(i.privateKey, csr) && m.pendingValid(p)
    ensures var d := history[|history| - 1];
            && Executable(m, history + [d[RenewalCsr := csr]], authors + [Preparing(i, p, csr, now)])
            && Executable(m, history + [d[RenewalCsr := csr]] + [WithIdentity(m, d, i')],
                          authors + [Preparing(i, p, csr, now)] + [Renewing(i, csr, i', p, now)])
            && Bare(m, WithIdentity(m, d, i'), i', i, now)
  {
    var d := history[|history| - 1];
    PreparesAndRenews(m, d, i, i', p, csr, now);
    var prepare, stored := Preparing(i, p, csr, now), d[RenewalCsr := csr];
    LinkExtends(m, history, authors, prepare, stored);
    LinkExtends(m, history + [stored], authors + [prepare], Renewing(i, csr, i', p, now), WithIdentity(m, d, i'));
  }

  /** The Secret of `first` is renewed to `other` and back, and a CSR is stored before each renewal
      and after both. */
  lemma AwayAndBack(m: Material, d: Data, p: PendingIdentity, first: LocalIdentity, other: LocalIdentity,
      csr: Bytes, again: Bytes, now: int)
      returns (history: seq<Data>, authors: seq<Attempt>)
    requires Sound(m) && Bare(m, d, first, other, now) && m.pendingValid(p)
    requires m.csrMatches(first.privateKey, csr) && m.csrMatches(first.privateKey, again)
    ensures Executable(m, history, authors) && |authors| == 5
    ensures authors[0] == Preparing(first, p, csr, now) && Get(history[1], RenewalCsr) == csr
    ensures authors[4] == Preparing(first, p, again, now) && Get(history[5], RenewalCsr) == again
  {
    var away := WithIdentity(m, d, other);
    var back := WithIdentity(m, away, first);
    RenewsNext(m, [d], [], first, other, p, csr, now);
    history, authors := [d] + [d[RenewalCsr := csr]] + [away],
      [] + [Preparing(first, p, csr, now)] + [Renewing(first, csr, other, p, now)];
    RenewsNext(m, history, authors, other, first, p, csr, now);
    history, authors := history + [away[RenewalCsr := csr]] + [back],
      authors + [Preparing(other, p, csr, now)] + [Renewing(other, csr, first, p, now)];
    RenewsNext(m, history, authors, first, other, p, again, now);
    history, authors := history + [back[RenewalCsr := again]], authors + [Preparing(first, p, again, now)];
  }

  /** The exception is real: an identity that is renewed away and back is given a new CSR. */
  lemma RenewedBackGetsNewCsr(m: Material, d: Data, p: PendingIdentity, first: LocalIdentity, other: LocalIdentity,
      csr: Bytes, again: Bytes, now: int)
    requires Sound(m) && Bare(m, d, first, other, now) && m.pendingValid(p)
    requires m.csrMatches(first.privateKey, csr) && m.csrMatches(first.privateKey, again)
    ensures exists run, steps :: TwoCsrs(m, run, steps, first, csr, again)
  {
    var history, authors := AwayAndBack(m, d, p, first, other, csr, again, now);
    var run, steps := SequentialHistoryHappens(m, history, authors);
    var calls := run[|run| - 1].calls;
    assert HeardAt(m, calls[0], authors[0], history[1], 1) && HeardAt(m, calls[4], authors[4], history[5], 5);
    assert Prepared(calls[0], first, csr) && Prepared(calls[4], first, again);
    assert TwoCsrs(m, run, steps, first, csr, again);
  }

  // ---------------------------------------------------------------- lost responses

  /** The same request: everything but the clock, which a repeat reads again. */
  predicate SameRequest(op: Op, again: Op) {
    match (op, again)
    case (LoadOrCreatePending, LoadOrCreatePending) => true
    case (CompleteEnrollment(p, i, _), CompleteEnrollment(p', i', _)) => p == p' && i == i'
    case (LoadOrCreateRenewalCsr(i), LoadOrCreateRenewalCsr(i')) => i == i'
    case (CompleteRenewal(i, csr, certificate, expiry, _), CompleteRenewal(i', csr', certificate', expiry', _)) =>
      i == i' && csr == csr' && certificate == certificate' && expiry == expiry'
    case _ => false
  }

  /** What the attempt whose update was stored would have answered. */
  function Promised(a: Attempt): Outcome {
    match a.op
    case LoadOrCreatePending => Loaded(Pending(a.candidate))
    case CompleteEnrollment(_, identity, _) => Stored(identity)
    case LoadOrCreateRenewalCsr(_) => CsrReady(a.csr)
    case CompleteRenewal(_, _, _, _, _) => Stored(Renewed(a.op))
  }

  /** The operations whose commit makes an earlier answer obsolete: completing the enrollment ends
      the pending state, and a renewal ends an identity and its CSR. */
  predicate Supersedes(later: Op, op: Op) {
    if op.LoadOrCreatePending? then later.CompleteEnrollment? else later.CompleteRenewal?
  }

  predicate Superseded(authors: seq<Attempt>, k: nat, j: nat)
    requires k < j <= |authors|
  {
    exists i :: k < i < j && Supersedes(authors[i].op, authors[k].op)
  }

  /** At the repeat's clock the Secret is readable, and complete if it has to be. */
  predicate ReadableBy(m: Material, b: Attempt, d: Data) {
    var parsed := ParseSecret(m, d, ClockOf(b));
    if b.op.LoadOrCreatePending? then !parsed.Unreadable? else parsed.Complete?
  }

  lemma {:induction false} IdentityStays(m: Material, history: seq<Data>, authors: seq<Attempt>, i: nat, j: nat,
      identity: LocalIdentity)
    requires Sequential(m, history, authors) && i <= j < |history| && HoldsIdentity(m, history[i], identity)
    requires forall k :: i <= k < j ==> !authors[k].op.CompleteRenewal?
    ensures HoldsIdentity(m, history[j], identity)
    ensures Has(history[i], RenewalCsr) ==> Get(history[j], RenewalCsr) == Get(history[i], RenewalCsr)
    decreases j
  {
    if i < j {
      IdentityStays(m, history, authors, i, j - 1, identity);
      assert Link(m, history[j - 1], authors[j - 1], history[j]);
      IdentityStaysOnce(m, history[j - 1], authors[j - 1], history[j], identity);
    }
  }

  lemma IdentityStaysOnce(m: Material, d: Data, a: Attempt, d': Data, identity: LocalIdentity)
    requires Link(m, d, a, d') && HoldsIdentity(m, d, identity) && !a.op.CompleteRenewal?
    ensures HoldsIdentity(m, d', identity)
    ensures Has(d, RenewalCsr) ==> Get(d', RenewalCsr) == Get(d, RenewalCsr)
  {
    SameFields(d, d', {RenewalCsr});
  }

  lemma IdentityEnds(m: Material, history: seq<Data>, authors: seq<Attempt>, i: nat, k: nat, j: nat,
      identity: LocalIdentity)
    requires Sequential(m, history, authors) && i <= k < j < |history| && Advancing(authors, i, j)
    requires HoldsIdentity(m, history[i], identity) && authors[k].op.CompleteRenewal?
    ensures !HoldsIdentity(m, history[j], identity)
  {
    HistoryDescends(m, history, authors, i, k);
    HistoryKeepsExpiry(m, history, authors, i, k);
    HistoryDescends(m, history, authors, k + 1, j);
    assert Link(m, history[k], authors[k], history[k + 1]);
    assert Extends(authors[k].op);
    HistoryKeepsExpiry(m, history, authors, k + 1, j);
  }

  /** From a pending state only the completion of its enrollment leads on. */
  lemma PendingEnds(m: Material, history: seq<Data>, authors: seq<Attempt>, k: nat, j: nat)
    requires Sequential(m, history, authors) && k < j < |history| && authors[k].op.LoadOrCreatePending?
    ensures j > k + 1 ==> authors[k + 1].op.CompleteEnrollment? && PhaseOf(history[j]).CompletePhase?
  {
    assert Link(m, history[k], authors[k], history[k + 1]);
    if j > k + 1 {
      assert Link(m, history[k + 1], authors[k + 1], history[k + 2]);
      HistoryDescends(m, history, authors, k + 2, j);
    }
  }

  lemma PendingRepeat(m: Material, history: seq<Data>, authors: seq<Attempt>, k: nat, j: nat, b: Attempt)
    requires Sequential(m, history, authors) && k < j < |history| && b.op.LoadOrCreatePending?
    requires authors[k].op.LoadOrCreatePending? && ReadableBy(m, b, history[j])
    ensures Decide(m, b, history[j]) == Answer(Promised(authors[k])) <==> !Superseded(authors, k, j)
  {
    PendingEnds(m, history, authors, k, j);
    assert Link(m, history[k], authors[k], history[k + 1]);
    if j > k + 1 {
      assert Supersedes(authors[k + 1].op, authors[k].op);
    }
  }

  /** The identity an operation leaves in the Secret. */
  function Left(op: Op): LocalIdentity
    requires !op.LoadOrCreatePending?
  {
    match op
    case CompleteEnrollment(_, identity, _) => identity
    case LoadOrCreateRenewalCsr(current) => current
    case CompleteRenewal(_, _, _, _, _) => Renewed(op)
  }

  lemma CommitLeaves(m: Material, a: Attempt, d: Data, d': Data)
    requires Changes(m, a, d, d') && !a.op.LoadOrCreatePending?
    ensures HoldsIdentity(m, d', Left(a.op))
    ensures a.op.LoadOrCreateRenewalCsr? ==> Has(d', RenewalCsr) && Get(d', RenewalCsr) == a.csr
  {
    if a.op.LoadOrCreateRenewalCsr? {
      SameFields(d, d', {RenewalCsr});
    }
  }

  lemma AnswerByIdentity(m: Material, a: Attempt, b: Attempt, d: Data)
    requires SameRequest(a.op, b.op) && !a.op.LoadOrCreatePending? && Generated(m, a) && ReadableBy(m, b, d)
    requires a.op.LoadOrCreateRenewalCsr? && HoldsIdentity(m, d, Left(a.op)) ==>
               Get(d, RenewalCsr) == a.csr && Has(d, RenewalCsr)
    ensures Decide(m, b, d) == Answer(Promised(a)) <==> HoldsIdentity(m, d, Left(a.op))
  {
  }

  lemma IdentityRepeat(m: Material, history: seq<Data>, authors: seq<Attempt>, k: nat, j: nat, b: Attempt)
    requires Sequential(m, history, authors) && k < j < |history|
    requires SameRequest(authors[k].op, b.op) && !b.op.LoadOrCreatePending?
    requires ReadableBy(m, b, history[j])
    ensures !Superseded(authors, k, j) ==> Decide(m, b, history[j]) == Answer(Promised(authors[k]))
    ensures Superseded(authors, k, j) && Advancing(authors, k + 1, j) ==>
              Decide(m, b, history[j]) != Answer(Promised(authors[k]))
  {
    var a, identity := authors[k], Left(authors[k].op);
    assert Link(m, history[k], a, history[k + 1]);
    CommitLeaves(m, a, history[k], history[k + 1]);
    if Superseded(authors, k, j) {
      if !Advancing(authors, k + 1, j) {
        return;
      }
      var i :| k < i < j && Supersedes(authors[i].op, a.op);
      IdentityEnds(m, history, authors, k + 1, i, j, identity);
    } else {
      forall i | k + 1 <= i < j ensures !authors[i].op.CompleteRenewal? {
        assert !Supersedes(authors[i].op, a.op);
      }
      IdentityStays(m, history, authors, k + 1, j, identity);
    }
    AnswerByIdentity(m, a, b, history[j]);
  }

  /** A method whose update was stored but whose response was lost is repeated later, with a later
      clock, over whatever has been committed since: it answers what it would have answered as long
      as nothing has superseded it, and then writes nothing.  Once it is superseded it never does
      so again, while renewals extend the expiry. */
  lemma LostResponseIsReplayed(m: Material, run: seq<System>, steps: seq<Step>, n: nat, k: nat, j: nat, b: Attempt)
    requires Sound(m) && IsRun(m, run, steps) && n < |run| && k < j < |run[n].history|
    requires k < |run[n].authors| && SameRequest(run[n].authors[k].op, b.op) && ReadableBy(m, b, run[n].history[j])
    ensures j <= |run[n].authors|
    ensures !Superseded(run[n].authors, k, j) ==>
              Decide(m, b, run[n].history[j]) == Answer(Promised(run[n].authors[k]))
    ensures Superseded(run[n].authors, k, j) && Advancing(run[n].authors, k + 1, j) ==>
              Decide(m, b, run[n].history[j]) != Answer(Promised(run[n].authors[k]))
  {
    RunKeeps(m, run, steps, n);
    if b.op.LoadOrCreatePending? {
      PendingRepeat(m, run[n].history, run[n].authors, k, j, b);
    } else {
      IdentityRepeat(m, run[n].history, run[n].authors, k, j, b);
    }
  }
}
