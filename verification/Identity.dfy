/** The Agent identity Secret (pkg/agent/identity.go): what it can hold, how it is read, and
    what each of the four store methods decides to do with the data it read.

    Keys, CSRs and certificates are opaque bytes; the cryptographic checks on them
    (pkg/agent/identity_material.go) are the uninterpreted predicates of `Material`.  An
    absent Secret reads as one without data: creating it and updating it then write the
    same fields, and both lose a race by being retried. */
module Identity {
  import opened Options

  type Bytes = seq<bv8>

  datatype Field =
    | PrivateKey | Certificate | ClusterId | AgentId | Expiry
    | EnrollmentCsr | EnrollmentKey | RenewalCsr
    | OtherField(name: string)

  type Data = map<Field, Bytes>

  function Get(d: Data, f: Field): Bytes {
    if f in d then d[f] else []
  }

  predicate Has(d: Data, f: Field) {
    Get(d, f) != []
  }

  datatype PendingIdentity = PendingIdentity(privateKey: Bytes, csr: Bytes, idempotencyKey: Bytes)

  datatype LocalIdentity = LocalIdentity(
    clusterId: Bytes, agentId: Bytes, privateKey: Bytes, certificate: Bytes, expiresAt: int)

  /** The checks this model does not look into, and the textual form of an expiry. */
  datatype Material = Material(
    pendingValid: PendingIdentity -> bool,
    identityValid: (LocalIdentity, int) -> bool,
    csrMatches: (Bytes, Bytes) -> bool,
    format: int -> Bytes,
    parse: Bytes -> Option<int>)

  /** What is relied on: valid material is not empty, and an expiry survives its text form. */
  ghost predicate Sound(m: Material) {
    && (forall p :: m.pendingValid(p) ==> p.privateKey != [] && p.csr != [] && p.idempotencyKey != [])
    && (forall i, now :: m.identityValid(i, now) ==>
          i.clusterId != [] && i.agentId != [] && i.privateKey != [] && i.certificate != [])
    && (forall key, csr :: m.csrMatches(key, csr) ==> csr != [])
    && (forall t :: m.format(t) != [] && m.parse(m.format(t)) == Some(t))
  }

  // ---------------------------------------------------------------- reading the Secret

  datatype ParseError = MissingPrivateKey | InvalidExpiry | InvalidIdentity | InvalidPending | PartialOrConflicting

  datatype Parsed =
    | Blank
    | Pending(pending: PendingIdentity)
    | Complete(identity: LocalIdentity)
    | Unreadable(error: ParseError)

  function Present(d: Data, f: Field): nat {
    if Has(d, f) then 1 else 0
  }

  function CompleteCount(d: Data): nat {
    Present(d, Certificate) + Present(d, ClusterId) + Present(d, AgentId) + Present(d, Expiry)
  }

  function PendingCount(d: Data): nat {
    Present(d, EnrollmentCsr) + Present(d, EnrollmentKey)
  }

  function PendingOf(d: Data): PendingIdentity {
    PendingIdentity(Get(d, PrivateKey), Get(d, EnrollmentCsr), Get(d, EnrollmentKey))
  }

  function IdentityOf(d: Data, expiresAt: int): LocalIdentity {
    LocalIdentity(Get(d, ClusterId), Get(d, AgentId), Get(d, PrivateKey), Get(d, Certificate), expiresAt)
  }

  /** parseIdentitySecret. */
  function ParseSecret(m: Material, d: Data, now: int): Parsed {
    if !Has(d, PrivateKey) && CompleteCount(d) == 0 && PendingCount(d) == 0 then Blank
    else if !Has(d, PrivateKey) then Unreadable(MissingPrivateKey)
    else if CompleteCount(d) == 4 && PendingCount(d) == 0 then
      match m.parse(Get(d, Expiry))
      case None => Unreadable(InvalidExpiry)
      case Some(t) =>
        if m.identityValid(IdentityOf(d, t), now) then Complete(IdentityOf(d, t)) else Unreadable(InvalidIdentity)
    else if CompleteCount(d) == 0 && PendingCount(d) == 2 then
      if m.pendingValid(PendingOf(d)) then Pending(PendingOf(d)) else Unreadable(InvalidPending)
    else Unreadable(PartialOrConflicting)
  }

  // ---------------------------------------------------------------- the four methods

  datatype Op =
    | LoadOrCreatePending
    | CompleteEnrollment(pending: PendingIdentity, identity: LocalIdentity, at: int)
    | LoadOrCreateRenewalCsr(current: LocalIdentity)
    | CompleteRenewal(previous: LocalIdentity, csr: Bytes, certificate: Bytes, expiresAt: int, at: int)

  function Renewed(op: Op): LocalIdentity
    requires op.CompleteRenewal?
  {
    op.previous.(certificate := op.certificate, expiresAt := op.expiresAt)
  }

  /** The checks a method makes on its arguments before it reads anything, together with what
      registration guarantees: the identity is built on the pending key. */
  predicate Admits(m: Material, op: Op, now: int) {
    match op
    case LoadOrCreatePending => true
    case CompleteEnrollment(pending, identity, at) =>
      identity.privateKey == pending.privateKey && m.identityValid(identity, at)
    case LoadOrCreateRenewalCsr(current) => m.identityValid(current, now)
    case CompleteRenewal(previous, csr, _, expiresAt, at) =>
      m.csrMatches(previous.privateKey, csr) && m.identityValid(Renewed(op), at)
  }

  /** One attempt: the arguments, what the attempt generates if it needs to, and the clock. */
  datatype Attempt = Attempt(op: Op, candidate: PendingIdentity, csr: Bytes, now: int)

  predicate Generated(m: Material, a: Attempt) {
    && (a.op.LoadOrCreatePending? ==> m.pendingValid(a.candidate))
    && (a.op.LoadOrCreateRenewalCsr? ==> m.csrMatches(a.op.current.privateKey, a.csr))
  }

  datatype Outcome =
    | Loaded(state: Parsed)
    | Stored(identity: LocalIdentity)
    | CsrReady(csr: Bytes)
    | Failed

  /** What an attempt does with the data it read: answer, or propose an update. */
  datatype Decision = Answer(outcome: Outcome) | Propose(data: Data)

  /** The clock each method parses with: its argument, or the time of the attempt. */
  function ClockOf(a: Attempt): int {
    match a.op
    case CompleteEnrollment(_, _, at) => at
    case CompleteRenewal(_, _, _, _, at) => at
    case _ => a.now
  }

  function WithPending(d: Data, p: PendingIdentity): Data {
    d[PrivateKey := p.privateKey][EnrollmentCsr := p.csr][EnrollmentKey := p.idempotencyKey]
  }

  function WithIdentity(m: Material, d: Data, i: LocalIdentity): Data {
    d[Certificate := i.certificate][ClusterId := i.clusterId][AgentId := i.agentId][Expiry := m.format(i.expiresAt)]
    - {EnrollmentCsr, EnrollmentKey}
  }

  function WithRenewed(m: Material, d: Data, i: LocalIdentity): Data {
    d[Certificate := i.certificate][Expiry := m.format(i.expiresAt)] - {RenewalCsr}
  }

  function Decide(m: Material, a: Attempt, d: Data): Decision {
    var parsed := ParseSecret(m, d, ClockOf(a));
    match a.op
    case LoadOrCreatePending =>
      (match parsed
       case Unreadable(_) => Answer(Failed)
       case Blank => Propose(WithPending(d, a.candidate))
       case _ => Answer(Loaded(parsed)))
    case CompleteEnrollment(pending, identity, _) =>
      (match parsed
       case Complete(stored) => Answer(if stored == identity then Stored(stored) else Failed)
       case Pending(found) => if found == pending then Propose(WithIdentity(m, d, identity)) else Answer(Failed)
       case _ => Answer(Failed))
    case LoadOrCreateRenewalCsr(current) =>
      if parsed != Complete(current) then Answer(Failed)
      else if Has(d, RenewalCsr) then
        Answer(if m.csrMatches(current.privateKey, d[RenewalCsr]) then CsrReady(d[RenewalCsr]) else Failed)
      else Propose(d[RenewalCsr := a.csr])
    case CompleteRenewal(previous, csr, _, _, _) =>
      if !parsed.Complete? then Answer(Failed)
      else if parsed.identity == Renewed(a.op) then Answer(Stored(parsed.identity))
      else if parsed.identity != previous || Get(d, RenewalCsr) != csr then Answer(Failed)
      else Propose(WithRenewed(m, d, Renewed(a.op)))
  }

  // ---------------------------------------------------------------- what decides

  predicate Filled(d: Data, fields: set<Field>) {
    forall f <- fields :: f in d && d[f] != []
  }

  predicate Vacant(d: Data, fields: set<Field>) {
    forall f <- fields :: f in d ==> d[f] == []
  }

  const ENROLLED := {Certificate, ClusterId, AgentId, Expiry}
  const ENROLLING := {EnrollmentCsr, EnrollmentKey}

  /** The identity a Secret holds, field by field, whether or not it is valid. */
  predicate Spells(m: Material, d: Data, i: LocalIdentity) {
    && Filled(d, {PrivateKey} + ENROLLED) && Vacant(d, ENROLLING)
    && (d[PrivateKey], d[Certificate], d[ClusterId], d[AgentId]) ==
       (i.privateKey, i.certificate, i.clusterId, i.agentId)
    && m.parse(d[Expiry]) == Some(i.expiresAt)
  }

  predicate SpellsPending(d: Data, p: PendingIdentity) {
    && Filled(d, {PrivateKey} + ENROLLING) && Vacant(d, ENROLLED)
    && (d[PrivateKey], d[EnrollmentCsr], d[EnrollmentKey]) == (p.privateKey, p.csr, p.idempotencyKey)
  }

  predicate IsBlank(d: Data) {
    Vacant(d, {PrivateKey} + ENROLLED + ENROLLING)
  }

  predicate HoldsValid(m: Material, d: Data, i: LocalIdentity, now: int) {
    Spells(m, d, i) && m.identityValid(i, now)
  }

  predicate HoldsPending(m: Material, d: Data, p: PendingIdentity) {
    SpellsPending(d, p) && m.pendingValid(p)
  }

  lemma CountsAre(d: Data)
    ensures Has(d, PrivateKey) <==> Filled(d, {PrivateKey})
    ensures CompleteCount(d) == 4 <==> Filled(d, ENROLLED)
    ensures CompleteCount(d) == 0 <==> Vacant(d, ENROLLED)
    ensures PendingCount(d) == 2 <==> Filled(d, ENROLLING)
    ensures PendingCount(d) == 0 <==> Vacant(d, ENROLLING)
  {
  }

  /** Reading a Secret: every one of its readable states, field by field. */
  lemma ParsesExactly(m: Material, d: Data, now: int)
    ensures ParseSecret(m, d, now).Blank? <==> IsBlank(d)
    ensures forall p :: ParseSecret(m, d, now) == Pending(p) <==> HoldsPending(m, d, p)
    ensures forall i :: ParseSecret(m, d, now) == Complete(i) <==> HoldsValid(m, d, i, now)
  {
    CountsAre(d);
  }

  /** Why a Secret is unreadable. */
  lemma UnreadableExactly(m: Material, d: Data, now: int)
    ensures ParseSecret(m, d, now) == Unreadable(MissingPrivateKey) <==> Vacant(d, {PrivateKey}) && !IsBlank(d)
    ensures ParseSecret(m, d, now) == Unreadable(InvalidPending) <==>
      exists p :: SpellsPending(d, p) && !m.pendingValid(p)
    ensures ParseSecret(m, d, now) == Unreadable(InvalidIdentity) <==>
      exists i :: Spells(m, d, i) && !m.identityValid(i, now)
    ensures ParseSecret(m, d, now) == Unreadable(InvalidExpiry) <==>
      Filled(d, {PrivateKey} + ENROLLED) && Vacant(d, ENROLLING) && m.parse(d[Expiry]).None?
  {
    CountsAre(d);
    if Filled(d, {PrivateKey} + ENROLLING) && Vacant(d, ENROLLED) {
      assert SpellsPending(d, PendingOf(d));
    }
    if Filled(d, {PrivateKey} + ENROLLED) && Vacant(d, ENROLLING) && m.parse(d[Expiry]).Some? {
      assert Spells(m, d, IdentityOf(d, m.parse(d[Expiry]).value));
    }
  }

  /** What a Secret has to hold for an operation not to fail on it. */
  ghost predicate Allows(m: Material, op: Op, d: Data, now: int) {
    match op
    case LoadOrCreatePending =>
      IsBlank(d) || (exists p :: HoldsPending(m, d, p)) || (exists i :: HoldsValid(m, d, i, now))
    case CompleteEnrollment(pending, identity, at) => HoldsPending(m, d, pending) || HoldsValid(m, d, identity, at)
    case LoadOrCreateRenewalCsr(current) =>
      HoldsValid(m, d, current, now)
      && (Filled(d, {RenewalCsr}) ==> m.csrMatches(current.privateKey, d[RenewalCsr]))
    case CompleteRenewal(previous, csr, certificate, expiresAt, at) =>
      || HoldsValid(m, d, previous.(certificate := certificate, expiresAt := expiresAt), at)
      || (HoldsValid(m, d, previous, at)
          && if csr == [] then Vacant(d, {RenewalCsr}) else Filled(d, {RenewalCsr}) && d[RenewalCsr] == csr)
  }

  /** An attempt fails exactly on a Secret that does not allow it, proposes an update exactly on one
      that does and does not yet hold what is asked for, and otherwise answers what it holds. */
  lemma DecidesExactly(m: Material, a: Attempt, d: Data)
    ensures Decide(m, a, d) == Answer(Failed) <==> !Allows(m, a.op, d, a.now)
    ensures Decide(m, a, d).Propose? <==> Allows(m, a.op, d, a.now) && match a.op
      case LoadOrCreatePending => IsBlank(d)
      case CompleteEnrollment(pending, _, _) => HoldsPending(m, d, pending)
      case LoadOrCreateRenewalCsr(_) => Vacant(d, {RenewalCsr})
      case CompleteRenewal(previous, _, certificate, expiresAt, at) =>
        !HoldsValid(m, d, previous.(certificate := certificate, expiresAt := expiresAt), at)
    ensures Decide(m, a, d).Answer? && Allows(m, a.op, d, a.now) ==> match (a.op, Decide(m, a, d).outcome)
      case (LoadOrCreatePending, Loaded(Pending(p))) => HoldsPending(m, d, p)
      case (LoadOrCreatePending, Loaded(Complete(i))) => HoldsValid(m, d, i, a.now)
      case (CompleteEnrollment(_, identity, _), Stored(i)) => i == identity
      case (LoadOrCreateRenewalCsr(_), CsrReady(csr)) => Filled(d, {RenewalCsr}) && csr == d[RenewalCsr]
      case (CompleteRenewal(previous, _, certificate, expiresAt, _), Stored(i)) =>
        i == previous.(certificate := certificate, expiresAt := expiresAt)
      case _ => false
  {
    ParsesExactly(m, d, a.now);
    match a.op
    case CompleteEnrollment(_, _, at) => ParsesExactly(m, d, at);
    case CompleteRenewal(_, _, _, _, at) => ParsesExactly(m, d, at);
    case _ =>
  }

  /** What a method returns once its update is acknowledged, parsing the result at `now`. */
  function Acknowledged(m: Material, a: Attempt, d: Data, now: int): Outcome {
    match a.op
    case LoadOrCreatePending =>
      var parsed := ParseSecret(m, d, now);
      if parsed.Unreadable? then Failed else Loaded(parsed)
    case LoadOrCreateRenewalCsr(_) => CsrReady(Get(d, RenewalCsr))
    case _ =>
      var parsed := ParseSecret(m, d, ClockOf(a));
      if parsed.Complete? then Stored(parsed.identity) else Failed
  }

  // ---------------------------------------------------------------- what a proposal changes

  /** The phases a Secret can be in, by which fields are present. */
  datatype Phase = EmptyPhase | PendingPhase | CompletePhase | BrokenPhase

  function PhaseOf(d: Data): Phase {
    if !Has(d, PrivateKey) then
      (if CompleteCount(d) == 0 && PendingCount(d) == 0 then EmptyPhase else BrokenPhase)
    else if CompleteCount(d) == 4 && PendingCount(d) == 0 then CompletePhase
    else if CompleteCount(d) == 0 && PendingCount(d) == 2 then PendingPhase
    else BrokenPhase
  }

  function Rank(p: Phase): nat {
    match p case EmptyPhase => 0 case PendingPhase => 1 case CompletePhase => 2 case BrokenPhase => 3
  }

  predicate SameExcept(d: Data, d': Data, fields: set<Field>) {
    d - fields == d' - fields
  }

  function ExpiryIn(m: Material, d: Data): Option<int> {
    m.parse(Get(d, Expiry))
  }

  /** One committed change of the Secret, by the kind of operation that made it. */
  ghost predicate Enrolls(m: Material, d: Data, d': Data, p: PendingIdentity) {
    && PhaseOf(d).EmptyPhase? && PhaseOf(d').PendingPhase? && PendingOf(d') == p
    && SameExcept(d, d', {PrivateKey, EnrollmentCsr, EnrollmentKey})
  }

  ghost predicate Completes(m: Material, d: Data, d': Data, p: PendingIdentity, i: LocalIdentity) {
    && PhaseOf(d).PendingPhase? && PhaseOf(d').CompletePhase? && PendingOf(d) == p
    && ExpiryIn(m, d') == Some(i.expiresAt) && IdentityOf(d', i.expiresAt) == i
    && SameExcept(d, d', {Certificate, ClusterId, AgentId, Expiry, EnrollmentCsr, EnrollmentKey})
  }

  ghost predicate StoresCsr(m: Material, d: Data, d': Data, i: LocalIdentity, csr: Bytes) {
    && PhaseOf(d).CompletePhase? && PhaseOf(d').CompletePhase?
    && ExpiryIn(m, d) == Some(i.expiresAt) && IdentityOf(d, i.expiresAt) == i
    && !Has(d, RenewalCsr) && Get(d', RenewalCsr) == csr != []
    && SameExcept(d, d', {RenewalCsr})
  }

  ghost predicate Renews(m: Material, d: Data, d': Data, previous: LocalIdentity, csr: Bytes, i: LocalIdentity) {
    && PhaseOf(d).CompletePhase? && PhaseOf(d').CompletePhase?
    && ExpiryIn(m, d) == Some(previous.expiresAt) && IdentityOf(d, previous.expiresAt) == previous
    && ExpiryIn(m, d') == Some(i.expiresAt) && IdentityOf(d', i.expiresAt) == i
    && i.clusterId == previous.clusterId && i.agentId == previous.agentId && i.privateKey == previous.privateKey
    && Get(d, RenewalCsr) == csr && !Has(d', RenewalCsr)
    && SameExcept(d, d', {Certificate, Expiry, RenewalCsr})
  }

  ghost predicate Changes(m: Material, a: Attempt, d: Data, d': Data) {
    match a.op
    case LoadOrCreatePending => Enrolls(m, d, d', a.candidate)
    case CompleteEnrollment(pending, identity, _) => Completes(m, d, d', pending, identity)
    case LoadOrCreateRenewalCsr(current) => StoresCsr(m, d, d', current, a.csr)
    case CompleteRenewal(previous, csr, _, _, _) => Renews(m, d, d', previous, csr, Renewed(a.op))
  }

  lemma EnrollmentChanges(m: Material, d: Data, p: PendingIdentity)
    requires Sound(m) && PhaseOf(d).EmptyPhase? && m.pendingValid(p)
    ensures Enrolls(m, d, WithPending(d, p), p)
  {
  }

  lemma CompletionChanges(m: Material, d: Data, i: LocalIdentity, now: int)
    requires Sound(m) && PhaseOf(d).PendingPhase? && m.identityValid(i, now) && i.privateKey == Get(d, PrivateKey)
    ensures Completes(m, d, WithIdentity(m, d, i), PendingOf(d), i)
  {
    var d' := WithIdentity(m, d, i);
    assert Get(d', Expiry) == m.format(i.expiresAt);
  }

  lemma RenewalChanges(m: Material, d: Data, previous: LocalIdentity, i: LocalIdentity, now: int)
    requires Sound(m) && PhaseOf(d).CompletePhase? && m.identityValid(i, now)
    requires ExpiryIn(m, d) == Some(previous.expiresAt) && IdentityOf(d, previous.expiresAt) == previous
    requires i.clusterId == previous.clusterId && i.agentId == previous.agentId && i.privateKey == previous.privateKey
    ensures Renews(m, d, WithRenewed(m, d, i), previous, Get(d, RenewalCsr), i)
  {
    var d' := WithRenewed(m, d, i);
    assert Get(d', Expiry) == m.format(i.expiresAt);
  }

  /** Whatever a method proposes is exactly the change its contract names: only from the state
      it names, only the fields it names, and always into a readable phase. */
  lemma ProposalChanges(m: Material, a: Attempt, begunAt: int, d: Data)
    requires Sound(m) && Admits(m, a.op, begunAt) && Generated(m, a) && Decide(m, a, d).Propose?
    ensures Changes(m, a, d, Decide(m, a, d).data)
  {
    match a.op {
      case LoadOrCreatePending => EnrollmentChanges(m, d, a.candidate);
      case CompleteEnrollment(pending, identity, at) => CompletionChanges(m, d, identity, at);
      case LoadOrCreateRenewalCsr(current) =>
      case CompleteRenewal(previous, csr, _, _, at) => RenewalChanges(m, d, previous, Renewed(a.op), at);
    }
  }
}
