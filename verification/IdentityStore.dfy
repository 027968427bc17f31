/** The four methods of the identity store as they run (pkg/agent/identity.go:78-365): read the
    Secret, edit a copy, update it, and start over when the update lost a race.  Other Agents
    commit whatever the same methods allow, at any moment between two calls. */
module IdentityStore {
  import opened Options
  import opened Identity
  import opened IdentityProtocol

  datatype Fetched = Got(version: nat, data: Data) | GetFailed

  datatype Written = Updated | Conflict | UpdateFailed

  /** Stands where an attempt generates no enrollment key. */
  const NO_CANDIDATE := PendingIdentity([], [], [])

  predicate IsProposal(m: Material, a: Attempt, begunAt: int, d: Data, d': Data) {
    Admits(m, a.op, begunAt) && Generated(m, a) && Decide(m, a, d) == Propose(d')
  }

  /** The Secret at the API server; `history` and `authors` remember every version. */
  class Secret {
    var data: Data
    var version: nat
    ghost var history: seq<Data>
    ghost var authors: seq<Attempt>
    /** Whether a call has failed other than by losing a race. */
    ghost var trouble: bool
    /** How many updates of this Agent's have been stored. */
    ghost var stored: nat

    ghost predicate Valid(m: Material)
      reads this
    {
      Sequential(m, history, authors) && version == |authors| && data == history[version]
    }

    /** The attempt's proposal becomes the next version. */
    method Advance(m: Material, a: Attempt, ghost begunAt: int, d: Data)
      requires Sound(m) && Valid(m) && IsProposal(m, a, begunAt, data, d)
      modifies this
      ensures Valid(m) && history == old(history) + [d] && authors == old(authors) + [a]
      ensures trouble == old(trouble) && stored == old(stored)
    {
      ProposalExtends(m, history, authors, a, begunAt, d);
      history := history + [d];
      authors := authors + [a];
      data := d;
      version := version + 1;
    }

    /** Any number of other Agents' updates. */
    method OthersCommit(m: Material)
      requires Sound(m) && Valid(m)
      modifies this
      ensures Valid(m) && old(history) <= history && trouble == old(trouble) && stored == old(stored)
    {
      var n: int := *;
      while 0 < n
        invariant Valid(m) && old(history) <= history && trouble == old(trouble) && stored == old(stored)
      {
        n := n - 1;
        var a: Attempt, begunAt: int := *, *;
        var decision := Decide(m, a, data);
        if decision.Propose? && Admits(m, a.op, begunAt) && Generated(m, a) {
          Advance(m, a, begunAt, decision.data);
        }
      }
    }

    method Fetch(m: Material) returns (r: Fetched)
      requires Sound(m) && Valid(m)
      modifies this
      ensures Valid(m) && old(history) <= history
      ensures r.Got? ==> r.version + 1 == |history| && r.data == history[r.version]
      ensures trouble == (old(trouble) || r.GetFailed?) && stored == old(stored)
    {
      OthersCommit(m);
      if * {
        trouble := true;
        return GetFailed;
      }
      return Got(version, data);
    }

    /** An update is refused when the Secret has moved on, and may be stored without the caller
        being told. */
    method Update(m: Material, a: Attempt, ghost begunAt: int, base: nat, d: Data) returns (r: Written)
      requires Sound(m) && Valid(m) && base < |history| && IsProposal(m, a, begunAt, history[base], d)
      modifies this
      ensures Valid(m) && old(history) <= history
      ensures r.Updated? ==> base + 1 < |history| && history[base + 1] == d
      ensures r.Conflict? ==> base + 1 < |history|
      ensures trouble == (old(trouble) || r.UpdateFailed?)
      ensures old(stored) <= stored <= old(stored) + 1
      ensures (r.Conflict? ==> stored == old(stored)) && (r.Updated? ==> stored == old(stored) + 1)
    {
      OthersCommit(m);
      if * {
        trouble := true;
        return UpdateFailed;
      }
      if base != version {
        return Conflict;
      }
      Advance(m, a, begunAt, d);
      stored := stored + 1;
      if * {
        trouble := true;
        return UpdateFailed;
      }
      return Updated;
    }
  }

  /** What every method promises: it only ever extends the history by what its contract allows,
      and what it answers is what some version of the Secret held. */
  ghost predicate Answers(m: Material, op: Op, outcome: Outcome, history: seq<Data>) {
    exists seen :: 0 <= seen < |history| && Reports(m, op, outcome, history[seen])
  }

  /** Why a method may fail: a call went wrong, it lost a race at every attempt, or some version
      of the Secret does not allow the operation. */
  ghost predicate MayFail(m: Material, op: Op, trouble: bool, before: seq<Data>, after: seq<Data>, attempts: nat) {
    || trouble
    || |after| >= |before| + attempts
    || exists seen: nat, now: int :: seen < |after| && !Allows(m, op, after[seen], now)
  }

  /** An update that was acknowledged is never answered with a failure. */
  lemma AcknowledgedSucceeds(m: Material, a: Attempt, begunAt: int, d: Data, d': Data, now: int)
    requires Sound(m) && IsProposal(m, a, begunAt, d, d')
    ensures !Acknowledged(m, a, d', now).Failed?
  {
    ProposalChanges(m, a, begunAt, d);
  }

  class Store {
    const secret: Secret
    const m: Material

    constructor (s: Secret, material: Material)
      ensures secret == s && m == material
    {
      secret, m := s, material;
    }

    /** `candidate` stands for the key pair generated the first time one is needed. */
    method LoadOrCreatePending(candidate: PendingIdentity, attempts: nat) returns (outcome: Outcome)
      requires Sound(m) && secret.Valid(m) && m.pendingValid(candidate)
      modifies secret
      ensures secret.Valid(m) && old(secret.history) <= secret.history
      ensures Answers(m, Op.LoadOrCreatePending, outcome, secret.history)
      ensures old(secret.stored) <= secret.stored <= old(secret.stored) + 1
      ensures outcome.Failed? ==>
                MayFail(m, Op.LoadOrCreatePending, secret.trouble, old(secret.history), secret.history, attempts)
    {
      for i := 0 to attempts
        invariant secret.Valid(m) && old(secret.history) <= secret.history
        invariant |old(secret.history)| + i <= |secret.history| && secret.stored == old(secret.stored)
      {
        var fetched := secret.Fetch(m);
        if fetched.GetFailed? {
          return Failed;
        }
        var now: int := *;
        var parsed := ParseSecret(m, fetched.data, now);
        var attempt := Attempt(Op.LoadOrCreatePending, candidate, [], now);
        DecidesExactly(m, attempt, fetched.data);
        if parsed.Unreadable? {
          return Failed;
        }
        if !parsed.Blank? {
          AnswerReports(m, attempt, fetched.data);
          return Loaded(parsed);
        }
        var updated := fetched.data[PrivateKey := candidate.privateKey][EnrollmentCsr := candidate.csr]
                                   [EnrollmentKey := candidate.idempotencyKey];
        var written := secret.Update(m, attempt, now, fetched.version, updated);
        if written.Updated? {
          AcknowledgedReports(m, attempt, now, fetched.data, updated, now);
          AcknowledgedSucceeds(m, attempt, now, fetched.data, updated, now);
          var stored := ParseSecret(m, updated, now);
          return if stored.Unreadable? then Failed else Loaded(stored);
        }
        if written.UpdateFailed? {
          return Failed;
        }
      }
      return Failed;
    }

    method Complete(pending: PendingIdentity, identity: LocalIdentity, now: int, attempts: nat)
        returns (outcome: Outcome)
      requires Sound(m) && secret.Valid(m) && identity.privateKey == pending.privateKey
      modifies secret
      ensures secret.Valid(m) && old(secret.history) <= secret.history
      ensures Answers(m, CompleteEnrollment(pending, identity, now), outcome, secret.history)
      ensures old(secret.stored) <= secret.stored <= old(secret.stored) + 1
      ensures !m.identityValid(identity, now) ==> outcome.Failed? && secret.history == old(secret.history)
      ensures outcome.Failed? && m.identityValid(identity, now) ==>
                MayFail(m, CompleteEnrollment(pending, identity, now), secret.trouble, old(secret.history),
                  secret.history, attempts)
    {
      if !m.identityValid(identity, now) {
        return Failed;
      }
      var attempt := Attempt(CompleteEnrollment(pending, identity, now), pending, [], now);
      for i := 0 to attempts
        invariant secret.Valid(m) && old(secret.history) <= secret.history
        invariant |old(secret.history)| + i <= |secret.history| && secret.stored == old(secret.stored)
      {
        var fetched := secret.Fetch(m);
        if fetched.GetFailed? {
          return Failed;
        }
        var parsed := ParseSecret(m, fetched.data, now);
        DecidesExactly(m, attempt, fetched.data);
        if parsed.Unreadable? || parsed.Blank? {
          return Failed;
        }
        if parsed.Complete? {
          AnswerReports(m, attempt, fetched.data);
          return if parsed.identity == identity then Stored(parsed.identity) else Failed;
        }
        if parsed.pending != pending {
          return Failed;
        }
        var updated := fetched.data[Certificate := identity.certificate][ClusterId := identity.clusterId]
                                   [AgentId := identity.agentId][Expiry := m.format(identity.expiresAt)]
                       - {EnrollmentCsr, EnrollmentKey};
        var written := secret.Update(m, attempt, now, fetched.version, updated);
        if written.Updated? {
          AcknowledgedReports(m, attempt, now, fetched.data, updated, now);
          AcknowledgedSucceeds(m, attempt, now, fetched.data, updated, now);
          var stored := ParseSecret(m, updated, now);
          return if stored.Complete? then Stored(stored.identity) else Failed;
        }
        if written.UpdateFailed? {
          return Failed;
        }
      }
      return Failed;
    }

    method LoadOrCreateRenewalCsr(identity: LocalIdentity, begunAt: int, attempts: nat) returns (outcome: Outcome)
      requires Sound(m) && secret.Valid(m)
      modifies secret
      ensures secret.Valid(m) && old(secret.history) <= secret.history
      ensures Answers(m, Op.LoadOrCreateRenewalCsr(identity), outcome, secret.history)
      ensures old(secret.stored) <= secret.stored <= old(secret.stored) + 1
      ensures !m.identityValid(identity, begunAt) ==> outcome.Failed? && secret.history == old(secret.history)
      ensures outcome.Failed? && m.identityValid(identity, begunAt) ==>
                MayFail(m, Op.LoadOrCreateRenewalCsr(identity), secret.trouble, old(secret.history),
                  secret.history, attempts)
    {
      if !m.identityValid(identity, begunAt) {
        return Failed;
      }
      for i := 0 to attempts
        invariant secret.Valid(m) && old(secret.history) <= secret.history
        invariant |old(secret.history)| + i <= |secret.history| && secret.stored == old(secret.stored)
      {
        var fetched := secret.Fetch(m);
        if fetched.GetFailed? {
          return Failed;
        }
        var now: int, csr: Bytes := *, *;
        var parsed := ParseSecret(m, fetched.data, now);
        var attempt := Attempt(Op.LoadOrCreateRenewalCsr(identity), NO_CANDIDATE, csr, now);
        DecidesExactly(m, attempt, fetched.data);
        if parsed != Parsed.Complete(identity) {
          return Failed;
        }
        if Has(fetched.data, RenewalCsr) {
          AnswerReports(m, attempt, fetched.data);
          return if m.csrMatches(identity.privateKey, fetched.data[RenewalCsr])
            then CsrReady(fetched.data[RenewalCsr]) else Failed;
        }
        if !m.csrMatches(identity.privateKey, csr) {
          secret.trouble := true;
          return Failed;
        }
        var updated := fetched.data[RenewalCsr := csr];
        var written := secret.Update(m, attempt, begunAt, fetched.version, updated);
        if written.Updated? {
          AcknowledgedReports(m, attempt, begunAt, fetched.data, updated, now);
          return CsrReady(Get(updated, RenewalCsr));
        }
        if written.UpdateFailed? {
          return Failed;
        }
      }
      return Failed;
    }

    method CompleteRenewal(
      previous: LocalIdentity, csr: Bytes, certificate: Bytes, expiresAt: int, now: int, attempts: nat
    ) returns (outcome: Outcome)
      requires Sound(m) && secret.Valid(m)
      modifies secret
      ensures secret.Valid(m) && old(secret.history) <= secret.history
      ensures Answers(m, Op.CompleteRenewal(previous, csr, certificate, expiresAt, now), outcome, secret.history)
      ensures old(secret.stored) <= secret.stored <= old(secret.stored) + 1
      ensures var admitted := m.csrMatches(previous.privateKey, csr)
                && m.identityValid(previous.(certificate := certificate, expiresAt := expiresAt), now);
              if !admitted then outcome.Failed? && secret.history == old(secret.history)
              else outcome.Failed? ==>
                MayFail(m, Op.CompleteRenewal(previous, csr, certificate, expiresAt, now), secret.trouble,
                  old(secret.history), secret.history, attempts)
    {
      var renewed := LocalIdentity(previous.clusterId, previous.agentId, previous.privateKey, certificate, expiresAt);
      if !m.csrMatches(previous.privateKey, csr) || !m.identityValid(renewed, now) {
        return Failed;
      }
      var attempt := Attempt(Op.CompleteRenewal(previous, csr, certificate, expiresAt, now), NO_CANDIDATE, [], now);
      for i := 0 to attempts
        invariant secret.Valid(m) && old(secret.history) <= secret.history
        invariant |old(secret.history)| + i <= |secret.history| && secret.stored == old(secret.stored)
      {
        var fetched := secret.Fetch(m);
        if fetched.GetFailed? {
          return Failed;
        }
        var parsed := ParseSecret(m, fetched.data, now);
        DecidesExactly(m, attempt, fetched.data);
        if !parsed.Complete? {
          return Failed;
        }
        if parsed.identity == renewed {
          AnswerReports(m, attempt, fetched.data);
          return Stored(parsed.identity);
        }
        if parsed.identity != previous || Get(fetched.data, RenewalCsr) != csr {
          return Failed;
        }
        var updated := fetched.data[Certificate := renewed.certificate][Expiry := m.format(renewed.expiresAt)]
                       - {RenewalCsr};
        var written := secret.Update(m, attempt, now, fetched.version, updated);
        if written.Updated? {
          AcknowledgedReports(m, attempt, now, fetched.data, updated, now);
          AcknowledgedSucceeds(m, attempt, now, fetched.data, updated, now);
          var stored := ParseSecret(m, updated, now);
          return if stored.Complete? then Stored(stored.identity) else Failed;
        }
        if written.UpdateFailed? {
          return Failed;
        }
      }
      return Failed;
    }
  }
}
