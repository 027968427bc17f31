/** One metrics ingest session (pkg/shared/agentprotocol/metrics.go): any number of calls of
    `Send` on the Agent's side, the Stream in both directions, and the Server's loop. */
module IngestSession {
  import opened Options

  type Bytes = seq<bv8>

  /** What travels to the Server: a batch's descriptor, then its payload byte by byte. */
  datatype Item = Batch(id: nat, size: nat) | Byte(value: bv8)

  datatype ResultCode = Unspecified | Okay | ResourceExhausted | OtherCode(code: int)

  datatype Verdict = Verdict(result: ResultCode, reason: string, message: string, retryAfterMillis: nat)

  datatype Ack = Ack(id: nat, verdict: Verdict)

  /** validateMetricsIngestAck, which both sides apply. */
  predicate IsAckFor(ack: Ack, id: nat) {
    var v := ack.verdict;
    && ack.id == id && !v.result.Unspecified?
    && if v.result.Okay? then v.reason == "" && v.message == "" && v.retryAfterMillis == 0
       else v.reason != "" && v.message != "" && (v.retryAfterMillis != 0 ==> v.result.ResourceExhausted?)
  }

  /** validateMetricsIngestBatch. */
  predicate IsBatch(item: Item, expected: nat, maxBatchBytes: nat) {
    item.Batch? && item.id == expected && 0 < item.size <= maxBatchBytes
  }

  // ---------------------------------------------------------------- the two ends

  /** A call of Send. It holds the session's mutex while it writes and while it awaits. */
  datatype Phase =
    | Waiting(payload: Bytes)
    | Writing(payload: Bytes, id: nat, written: nat)
    | Awaiting(payload: Bytes, id: nat)
    | Answered(payload: Bytes, id: nat, verdict: Verdict)
    | Failed(payload: Bytes)
    | WrongAck(payload: Bytes)

  /** Where the Server's loop is: `Rejected` if a check of its own has failed. */
  datatype Place =
    | AtBatch
    | InPayload(size: nat, got: seq<Item>)
    | Ended
    | Rejected

  /** A batch as the Server took it off the Stream, and its verdict. */
  datatype Served = Served(payload: seq<Item>, verdict: Verdict)

  datatype Limits = Limits(agentBytes: nat, serverBytes: nat)

  /** The Agent's side: the session's fields, its calls, the payloads numbered so far, and how many
      acknowledgements have been read. */
  datatype Agent = Agent(
    nextBatchId: nat, closed: bool, holder: Option<nat>, calls: map<nat, Phase>, sent: seq<Bytes>, heard: nat)

  /** The Server's loop, how much it has taken off the Stream, and what it has served. */
  datatype Server = Server(taken: nat, expected: nat, place: Place, served: seq<Served>)

  /** `up` and `down` are all that was ever written in either direction. */
  datatype State = State(limits: Limits, agent: Agent, up: seq<Item>, server: Server, down: seq<Ack>)

  datatype Event =
    | Call(call: nat, payload: Bytes) | Lock(call: nat, cancelled: bool)
    | Write(call: nat, count: nat) | Hear(call: nat) | Break(call: nat)
    | Shut
    | TakeBatch | TakeByte | Answer(verdict: Verdict) | ServerEnds

  function Initial(limits: Limits): State {
    State(limits, Agent(0, false, None, map[], [], 0), [], Server(0, 0, AtBatch, []), [])
  }

  /** The negotiated size: the Agent takes the smaller of the two. */
  function MaxBytes(l: Limits): nat {
    if l.agentBytes < l.serverBytes then l.agentBytes else l.serverBytes
  }

  function Items(payload: Bytes): seq<Item> {
    seq(|payload|, i requires 0 <= i < |payload| => Byte(payload[i]))
  }

  function Message(id: nat, payload: Bytes): seq<Item> {
    [Batch(id, |payload|)] + Items(payload)
  }

  predicate IsActive(p: Phase) {
    p.Writing? || p.Awaiting?
  }

  predicate Enabled(s: State, e: Event) {
    var calls, place := s.agent.calls, s.server.place;
    match e
    case Call(c, _) => c !in calls
    case Lock(c, _) => c in calls && calls[c].Waiting? && s.agent.holder.None?
    case Write(c, count) => c in calls && calls[c].Writing? && 0 < count <= Left(calls[c])
    case Hear(c) => c in calls && calls[c].Awaiting? && s.agent.heard < |s.down|
    case Break(c) => c in calls && IsActive(calls[c])
    case Shut => s.agent.holder.None?
    case TakeBatch => place.AtBatch? && s.server.taken < |s.up|
    case TakeByte => place.InPayload? && |place.got| < place.size && s.server.taken < |s.up|
    case Answer(_) => place.InPayload? && |place.got| == place.size
    case ServerEnds => !place.Rejected?
  }

  /** What a call has still to write of its message. */
  function Left(p: Phase): nat {
    if p.Writing? && p.written <= |p.payload| then |p.payload| + 1 - p.written else 0
  }

  /** Returning gives the mutex back; an exchange that failed has closed the session. */
  function Returns(a: Agent, c: nat, p: Phase, broken: bool): Agent {
    a.(holder := None, closed := a.closed || broken, calls := a.calls[c := p])
  }

  function Locks(a: Agent, c: nat, cancelled: bool): Agent
    requires c in a.calls
  {
    var payload := a.calls[c].payload;
    if a.closed || cancelled then a.(calls := a.calls[c := Failed(payload)])
    else a.(nextBatchId := a.nextBatchId + 1, holder := Some(c), sent := a.sent + [payload],
            calls := a.calls[c := Writing(payload, a.nextBatchId + 1, 0)])
  }

  function Written(p: Phase, count: nat): Phase
    requires p.Writing?
  {
    if p.written + count == |p.payload| + 1 then Awaiting(p.payload, p.id) else p.(written := p.written + count)
  }

  function Hears(a: Agent, c: nat, ack: Ack): Agent
    requires c in a.calls && a.calls[c].Awaiting?
  {
    var Awaiting(payload, id) := a.calls[c];
    Returns(a.(heard := a.heard + 1), c,
      if IsAckFor(ack, id) then Answered(payload, id, ack.verdict) else WrongAck(payload), !IsAckFor(ack, id))
  }

  function TakesBatch(v: Server, item: Item, maxBatchBytes: nat): Server {
    v.(taken := v.taken + 1, expected := v.expected + 1,
       place := if IsBatch(item, v.expected + 1, maxBatchBytes) then InPayload(item.size, []) else Rejected)
  }

  function TakesByte(v: Server, item: Item): Server
    requires v.place.InPayload?
  {
    v.(taken := v.taken + 1, place := v.place.(got := v.place.got + [item]))
  }

  function Answers(v: Server, verdict: Verdict): Server
    requires v.place.InPayload?
  {
    if IsAckFor(Ack(v.expected, verdict), v.expected) then
      v.(place := AtBatch, served := v.served + [Served(v.place.got, verdict)])
    else v.(place := Ended)
  }

  function Next(s: State, e: Event): State
    requires Enabled(s, e)
  {
    var a, v := s.agent, s.server;
    match e
    case Call(c, payload) =>
      var p := if 0 < |payload| <= MaxBytes(s.limits) then Waiting(payload) else Failed(payload);
      s.(agent := a.(calls := a.calls[c := p]))
    case Lock(c, cancelled) => s.(agent := Locks(a, c, cancelled))
    case Write(c, count) =>
      var p := a.calls[c];
      s.(agent := a.(calls := a.calls[c := Written(p, count)]),
         up := s.up + Message(p.id, p.payload)[p.written..p.written + count])
    case Hear(c) => s.(agent := Hears(a, c, s.down[a.heard]))
    case Break(c) => s.(agent := Returns(a, c, Failed(a.calls[c].payload), true))
    case Shut => s.(agent := a.(closed := true))
    case TakeBatch => s.(server := TakesBatch(v, s.up[v.taken], s.limits.serverBytes))
    case TakeByte => s.(server := TakesByte(v, s.up[v.taken]))
    case Answer(verdict) =>
      s.(server := Answers(v, verdict),
         down := if Answers(v, verdict).place.AtBatch? then s.down + [Ack(v.expected, verdict)] else s.down)
    case ServerEnds => s.(server := v.(place := Ended))
  }

  // ---------------------------------------------------------------- what either side accepts

  /** Whatever is written on the Stream, a call returns only an acknowledgement that names its own
      batch and makes sense; on any other it fails and closes the session. */
  lemma HeardExactly(a: Agent, c: nat, ack: Ack)
    requires c in a.calls && a.calls[c].Awaiting?
    ensures var after, v := Hears(a, c, ack), ack.verdict;
            var accepted := ack.id == a.calls[c].id && match v.result
              case Unspecified => false
              case Okay => v.reason == "" && v.message == "" && v.retryAfterMillis == 0
              case ResourceExhausted => v.reason != "" && v.message != ""
              case OtherCode(_) => v.reason != "" && v.message != "" && v.retryAfterMillis == 0;
            && after.calls[c] == (if accepted then Answered(a.calls[c].payload, a.calls[c].id, v)
                                  else WrongAck(a.calls[c].payload))
            && (after.closed <==> a.closed || !accepted) && after.holder.None?
  {
  }

  /** And the Server takes a batch only under the next number and within its own limit. */
  lemma TakenExactly(v: Server, item: Item, maxBatchBytes: nat)
    ensures var after := TakesBatch(v, item, maxBatchBytes);
            after.place == if item.Batch? && item.id == v.expected + 1 && 1 <= item.size <= maxBatchBytes
                           then InPayload(item.size, []) else Rejected
  {
  }

  // ---------------------------------------------------------------- the Stream

  /** All the messages, in the order of their numbers. */
  function Stream(sent: seq<Bytes>): seq<Item> {
    if sent == [] then [] else Stream(sent[..|sent| - 1]) + Message(|sent|, sent[|sent| - 1])
  }

  lemma StreamGrows(sent: seq<Bytes>, payload: Bytes)
    ensures Stream(sent + [payload]) == Stream(sent) + Message(|sent| + 1, payload)
  {
    assert (sent + [payload])[..|sent|] == sent;
  }

  lemma {:induction false} MessageInStream(sent: seq<Bytes>, k: nat)
    requires k < |sent|
    ensures Stream(sent[..k]) + Message(k + 1, sent[k]) <= Stream(sent)
  {
    var n := |sent| - 1;
    if k < n {
      MessageInStream(sent[..n], k);
      assert sent[..n][..k] == sent[..k];
    }
  }

  lemma ItemsOf(id: nat, payload: Bytes)
    ensures |Message(id, payload)| == |payload| + 1 && Message(id, payload)[0] == Batch(id, |payload|)
    ensures forall i :: 0 <= i < |payload| ==> Message(id, payload)[i + 1] == Items(payload)[i]
  {
  }

  // ---------------------------------------------------------------- invariants

  predicate Sized(payload: Bytes, l: Limits) {
    0 < |payload| <= MaxBytes(l)
  }

  /** Which call may be at work, and on what: the mutex's holder alone, on the latest batch. */
  predicate AtWork(a: Agent, c: nat, p: Phase) {
    if IsActive(p) then
      && a.holder == Some(c) && !a.closed && |a.sent| > 0
      && p.id == |a.sent| && p.payload == a.sent[|a.sent| - 1] && (p.Writing? ==> p.written <= |p.payload|)
    else a.holder != Some(c)
  }

  predicate LockInv(a: Agent, l: Limits) {
    && a.nextBatchId == |a.sent|
    && (a.holder.Some? ==> a.holder.value in a.calls)
    && (forall p <- a.sent :: Sized(p, l))
    && (forall c <- a.calls :: (a.calls[c].Waiting? ==> Sized(a.calls[c].payload, l)) && AtWork(a, c, a.calls[c]))
  }

  /** How much of the Stream is still to be written, while the session is usable. */
  function Unwritten(a: Agent): nat {
    if a.holder.Some? && a.holder.value in a.calls then Left(a.calls[a.holder.value]) else 0
  }

  ghost predicate WireInv(a: Agent, up: seq<Item>) {
    up <= Stream(a.sent) && (!a.closed ==> |up| + Unwritten(a) == |Stream(a.sent)|)
  }

  predicate Prefixed(served: seq<Served>, sent: seq<Bytes>) {
    |served| <= |sent| && forall i :: 0 <= i < |served| ==> served[i].payload == Items(sent[i])
  }

  /** The Server has taken whole messages, and part of the next one. */
  ghost predicate ServerInv(v: Server, sent: seq<Bytes>) {
    && Prefixed(v.served, sent)
    && match v.place
       case AtBatch => v.expected == |v.served| && v.taken == |Stream(sent[..|v.served|])|
       case InPayload(size, got) => v.expected == |v.served| + 1 && Halfway(v, sent)
       case Ended => true
       case Rejected => false
  }

  ghost predicate Halfway(v: Server, sent: seq<Bytes>)
    requires v.place.InPayload?
  {
    var k, got := |v.served|, v.place.got;
    && k < |sent| && v.place.size == |sent[k]| && |got| <= |sent[k]|
    && v.taken == |Stream(sent[..k])| + 1 + |got| && got == Items(sent[k])[..|got|]
  }

  /** Acknowledgements come in the order of the batches, and none has been left unread. */
  predicate AckInv(a: Agent, v: Server, down: seq<Ack>) {
    && |down| == |v.served| && a.heard <= |down|
    && (forall i :: 0 <= i < |down| ==> down[i] == Ack(i + 1, v.served[i].verdict) && IsAckFor(down[i], i + 1))
    && (!a.closed ==> a.heard == |a.sent| - if a.holder.Some? then 1 else 0)
  }

  predicate AnswerInv(a: Agent, served: seq<Served>, p: Phase) {
    match p
    case Answered(payload, id, verdict) =>
      && 0 < id <= a.heard && id <= |served| && id <= |a.sent|
      && a.sent[id - 1] == payload && served[id - 1].verdict == verdict
    case WrongAck(_) => false
    case _ => true
  }

  predicate Apart(p: Phase, q: Phase) {
    p.Answered? && q.Answered? ==> p.id != q.id
  }

  predicate CallInv(a: Agent, served: seq<Served>) {
    && (forall c <- a.calls :: AnswerInv(a, served, a.calls[c]))
    && (forall c <- a.calls, d <- a.calls :: c != d ==> Apart(a.calls[c], a.calls[d]))
  }

  ghost predicate Inv(s: State) {
    && LockInv(s.agent, s.limits) && WireInv(s.agent, s.up) && ServerInv(s.server, s.agent.sent)
    && AckInv(s.agent, s.server, s.down) && CallInv(s.agent, s.server.served)
  }

  // ---------------------------------------------------------------- the Agent's steps

  lemma LockStep(s: State, e: Event)
    requires LockInv(s.agent, s.limits) && Enabled(s, e)
    ensures LockInv(Next(s, e).agent, s.limits)
  {
    var a := Next(s, e).agent;
    forall c <- a.calls
      ensures (a.calls[c].Waiting? ==> Sized(a.calls[c].payload, s.limits)) && AtWork(a, c, a.calls[c])
    {
      if c in s.agent.calls {
        assert AtWork(s.agent, c, s.agent.calls[c]);
      }
    }
  }

  lemma WireStep(s: State, e: Event)
    requires LockInv(s.agent, s.limits) && WireInv(s.agent, s.up) && Enabled(s, e)
    ensures WireInv(Next(s, e).agent, Next(s, e).up)
  {
    match e
    case Lock(c, cancelled) => LockWires(s.agent, s.up, c, cancelled);
    case Write(c, count) =>
      assert AtWork(s.agent, c, s.agent.calls[c]);
      WriteStep(s.agent, s.up, c, count);
    case Hear(c) => assert AtWork(s.agent, c, s.agent.calls[c]);
    case _ =>
  }

  lemma LockWires(a: Agent, up: seq<Item>, c: nat, cancelled: bool)
    requires c in a.calls && a.holder.None? && a.nextBatchId == |a.sent| && WireInv(a, up)
    ensures WireInv(Locks(a, c, cancelled), up)
  {
    var payload := a.calls[c].payload;
    StreamGrows(a.sent, payload);
    ItemsOf(|a.sent| + 1, payload);
  }

  lemma WriteStep(a: Agent, up: seq<Item>, c: nat, count: nat)
    requires c in a.calls && a.calls[c].Writing? && AtWork(a, c, a.calls[c]) && WireInv(a, up)
    requires count <= Left(a.calls[c])
    ensures var p := a.calls[c];
            var up' := up + Message(p.id, p.payload)[p.written..p.written + count];
            up' <= Stream(a.sent) && |up'| + Left(p) - count == |Stream(a.sent)|
  {
    var p := a.calls[c];
    var before, message := Stream(a.sent[..|a.sent| - 1]), Message(p.id, p.payload);
    assert Stream(a.sent) == before + message;
    assert up == Stream(a.sent)[..|before| + p.written] == before + message[..p.written];
    assert up + message[p.written..p.written + count] == before + message[..p.written + count];
  }

  // ---------------------------------------------------------------- the Server's steps

  lemma ServerSeesMore(v: Server, sent: seq<Bytes>, payload: Bytes)
    requires ServerInv(v, sent)
    ensures ServerInv(v, sent + [payload])
  {
    assert (sent + [payload])[..|v.served|] == sent[..|v.served|];
  }

  /** The next item on the Stream is the one the next message has there. */
  lemma NextItem(sent: seq<Bytes>, up: seq<Item>, k: nat, offset: nat)
    requires up <= Stream(sent) && k <= |sent| && |Stream(sent[..k])| + offset < |up|
    requires k < |sent| ==> offset <= |sent[k]|
    requires k == |sent| ==> offset == 0
    ensures k < |sent|
    ensures up[|Stream(sent[..k])| + offset] == Message(k + 1, sent[k])[offset]
  {
    assert sent[..|sent|] == sent;
    if k < |sent| {
      MessageInStream(sent, k);
      var whole := Stream(sent[..k]) + Message(k + 1, sent[k]);
      var at := |Stream(sent[..k])| + offset;
      assert up[at] == Stream(sent)[at] == whole[at];
    }
  }

  lemma BatchTaken(v: Server, sent: seq<Bytes>, up: seq<Item>, l: Limits)
    requires ServerInv(v, sent) && up <= Stream(sent) && v.place.AtBatch? && v.taken < |up|
    requires forall p <- sent :: Sized(p, l)
    ensures ServerInv(TakesBatch(v, up[v.taken], l.serverBytes), sent)
  {
    var k := |v.served|;
    NextItem(sent, up, k, 0);
    ItemsOf(k + 1, sent[k]);
    assert Sized(sent[k], l);
  }

  lemma ByteTaken(v: Server, sent: seq<Bytes>, up: seq<Item>)
    requires ServerInv(v, sent) && up <= Stream(sent) && v.place.InPayload? && v.taken < |up|
    requires |v.place.got| < v.place.size
    ensures ServerInv(TakesByte(v, up[v.taken]), sent)
  {
    var k, got := |v.served|, v.place.got;
    NextItem(sent, up, k, |got| + 1);
    ItemsOf(k + 1, sent[k]);
    assert up[v.taken] == Items(sent[k])[|got|];
    assert Items(sent[k])[..|got|] + [Items(sent[k])[|got|]] == Items(sent[k])[..|got| + 1];
  }

  lemma BatchAnswered(v: Server, sent: seq<Bytes>, verdict: Verdict)
    requires ServerInv(v, sent) && v.place.InPayload? && |v.place.got| == v.place.size
    ensures ServerInv(Answers(v, verdict), sent)
  {
    var k := |v.served|;
    assert v.place.got == Items(sent[k]);
    StreamGrows(sent[..k], sent[k]);
    ItemsOf(k + 1, sent[k]);
    assert sent[..k] + [sent[k]] == sent[..k + 1];
  }

  lemma ServerStep(s: State, e: Event)
    requires Inv(s) && Enabled(s, e)
    ensures ServerInv(Next(s, e).server, Next(s, e).agent.sent)
  {
    match e
    case Lock(c, _) => ServerSeesMore(s.server, s.agent.sent, s.agent.calls[c].payload);
    case TakeBatch => BatchTaken(s.server, s.agent.sent, s.up, s.limits);
    case TakeByte => ByteTaken(s.server, s.agent.sent, s.up);
    case Answer(verdict) => BatchAnswered(s.server, s.agent.sent, verdict);
    case _ =>
  }

  // ---------------------------------------------------------------- verdicts

  lemma AckStep(s: State, e: Event)
    requires Inv(s) && Enabled(s, e)
    ensures AckInv(Next(s, e).agent, Next(s, e).server, Next(s, e).down)
  {
  }

  lemma OnlyGrows(s: State, e: Event)
    requires Enabled(s, e)
    ensures s.agent.heard <= Next(s, e).agent.heard && s.agent.sent <= Next(s, e).agent.sent
    ensures s.server.served <= Next(s, e).server.served
  {
  }

  /** A call's phase stays, or is heard's own, or has no verdict. */
  lemma PhaseMoves(s: State, e: Event, c: nat)
    requires Enabled(s, e) && c in Next(s, e).agent.calls && e != Hear(c)
    ensures var p := Next(s, e).agent.calls[c];
            (c in s.agent.calls && s.agent.calls[c] == p) || !(p.Answered? || p.WrongAck?)
  {
  }

  lemma AnswerStep(s: State, e: Event, c: nat)
    requires Inv(s) && Enabled(s, e) && c in Next(s, e).agent.calls
    ensures AnswerInv(Next(s, e).agent, Next(s, e).server.served, Next(s, e).agent.calls[c])
  {
    var a, t := s.agent, Next(s, e);
    if e == Hear(c) {
      assert AtWork(a, c, a.calls[c]);
      HeardIsAnswer(a, s.server, s.down, c);
    } else {
      PhaseMoves(s, e, c);
      if c in a.calls && a.calls[c] == t.agent.calls[c] {
        OnlyGrows(s, e);
        assert AnswerInv(a, s.server.served, a.calls[c]);
        AnswerStays(a, s.server.served, t.agent, t.server.served, a.calls[c]);
      }
    }
  }

  /** The acknowledgement that a call reads is its own. */
  lemma HeardIsAnswer(a: Agent, v: Server, down: seq<Ack>, c: nat)
    requires c in a.calls && a.calls[c].Awaiting? && AtWork(a, c, a.calls[c])
    requires AckInv(a, v, down) && a.heard < |down|
    ensures var a' := Hears(a, c, down[a.heard]);
            a'.calls[c].Answered? && AnswerInv(a', v.served, a'.calls[c])
  {
  }

  lemma AnswerStays(a: Agent, served: seq<Served>, a': Agent, served': seq<Served>, p: Phase)
    requires AnswerInv(a, served, p)
    requires a.heard <= a'.heard && a.sent <= a'.sent && served <= served'
    ensures AnswerInv(a', served', p)
  {
  }

  /** A call's number is settled once: by an acknowledgement beyond all that were heard before. */
  lemma NewAnswer(s: State, e: Event, c: nat)
    requires Inv(s) && Enabled(s, e) && c in Next(s, e).agent.calls && Next(s, e).agent.calls[c].Answered?
    ensures c in s.agent.calls
    ensures s.agent.calls[c] == Next(s, e).agent.calls[c]
         || (e == Hear(c) && Next(s, e).agent.calls[c].id > s.agent.heard)
  {
    if c in s.agent.calls {
      assert AtWork(s.agent, c, s.agent.calls[c]);
    }
  }

  lemma CallStep(s: State, e: Event)
    requires Inv(s) && Enabled(s, e)
    ensures CallInv(Next(s, e).agent, Next(s, e).server.served)
  {
    var a, calls := s.agent, Next(s, e).agent.calls;
    forall c <- calls ensures AnswerInv(Next(s, e).agent, Next(s, e).server.served, calls[c]) {
      AnswerStep(s, e, c);
    }
    forall c <- calls, d <- calls | c != d ensures Apart(calls[c], calls[d]) {
      if calls[c].Answered? && calls[d].Answered? {
        NewAnswer(s, e, c);
        NewAnswer(s, e, d);
        assert Apart(a.calls[c], a.calls[d]);
        assert AnswerInv(a, s.server.served, a.calls[c]) && AnswerInv(a, s.server.served, a.calls[d]);
      }
    }
  }

  lemma StepKeeps(s: State, e: Event)
    requires Inv(s) && Enabled(s, e)
    ensures Inv(Next(s, e))
  {
    LockStep(s, e);
    WireStep(s, e);
    ServerStep(s, e);
    AckStep(s, e);
    CallStep(s, e);
  }

  // ---------------------------------------------------------------- main results

  ghost predicate IsRun(states: seq<State>, events: seq<Event>, limits: Limits) {
    && |states| == |events| + 1 && states[0] == Initial(limits)
    && forall i :: 0 <= i < |events| ==> Enabled(states[i], events[i]) && states[i + 1] == Next(states[i], events[i])
  }

  lemma {:induction false} RunKeeps(states: seq<State>, events: seq<Event>, limits: Limits, i: nat)
    requires IsRun(states, events, limits) && i < |states|
    ensures Inv(states[i]) && states[i].limits == limits
  {
    if i > 0 {
      RunKeeps(states, events, limits, i - 1);
      StepKeeps(states[i - 1], events[i - 1]);
    }
  }

  /** The verdict a call returns is the one the Server gave on the whole payload of this very call,
      and on nothing else; no two calls share one. */
  lemma VerdictIsForThePayload(states: seq<State>, events: seq<Event>, limits: Limits, i: nat, c: nat)
    requires IsRun(states, events, limits) && i < |states|
    requires c in states[i].agent.calls && states[i].agent.calls[c].Answered?
    ensures var calls, served := states[i].agent.calls, states[i].server.served;
            && 0 < calls[c].id <= |served|
            && served[calls[c].id - 1] == Served(Items(calls[c].payload), calls[c].verdict)
            && forall d <- calls :: d != c && calls[d].Answered? ==> calls[d].id != calls[c].id
  {
    RunKeeps(states, events, limits, i);
    var a := states[i].agent;
    assert AnswerInv(a, states[i].server.served, a.calls[c]);
    forall d <- a.calls | d != c && a.calls[d].Answered? ensures a.calls[d].id != a.calls[c].id {
      assert Apart(a.calls[c], a.calls[d]);
    }
  }

  /** What the Server serves is the payloads whole, in the order their calls took the session,
      however often writing one of them broke off. */
  lemma PayloadsArriveWholeAndInOrder(states: seq<State>, events: seq<Event>, limits: Limits, i: nat)
    requires IsRun(states, events, limits) && i < |states|
    ensures Prefixed(states[i].server.served, states[i].agent.sent)
  {
    RunKeeps(states, events, limits, i);
  }

  /** Between these two ends none of the protocol's checks can fail: neither the number or size of
      a batch, nor the number of an acknowledgement. */
  lemma ChecksNeverFail(states: seq<State>, events: seq<Event>, limits: Limits, i: nat)
    requires IsRun(states, events, limits) && i < |states|
    ensures !states[i].server.place.Rejected?
    ensures forall c <- states[i].agent.calls :: !states[i].agent.calls[c].WrongAck?
  {
    RunKeeps(states, events, limits, i);
    var a := states[i].agent;
    forall c <- a.calls ensures !a.calls[c].WrongAck? {
      assert AnswerInv(a, states[i].server.served, a.calls[c]);
    }
  }

  // ---------------------------------------------------------------- a call that is answered

  lemma Extended(states: seq<State>, events: seq<Event>, limits: Limits, e: Event)
      returns (states': seq<State>, events': seq<Event>)
    requires IsRun(states, events, limits) && Enabled(states[|events|], e)
    ensures IsRun(states', events', limits) && states'[|events'|] == Next(states[|events|], e)
  {
    states', events' := states + [Next(states[|events|], e)], events + [e];
    forall i | 0 <= i < |events'|
      ensures Enabled(states'[i], events'[i]) && states'[i + 1] == Next(states'[i], events'[i])
    {
      if i < |events| {
        assert Enabled(states[i], events[i]);
      }
    }
  }

  /** The Server takes what is left of a payload. */
  lemma TakesRest(states: seq<State>, events: seq<Event>, limits: Limits, payload: Bytes)
      returns (states': seq<State>, events': seq<Event>)
    requires IsRun(states, events, limits) && IsTaking(states[|events|], payload)
    ensures IsRun(states', events', limits) && IsTaking(states'[|events'|], payload)
    ensures |states'[|events'|].server.place.got| == |payload| && states'[|events'|].agent == states[|events|].agent
    decreases |payload| - |states[|events|].server.place.got|
  {
    if |states[|events|].server.place.got| == |payload| {
      return states, events;
    }
    states', events' := Extended(states, events, limits, TakeByte);
    states', events' := TakesRest(states', events', limits, payload);
  }

  predicate IsTaking(s: State, payload: Bytes) {
    && s.up == Message(1, payload) && s.down == [] && s.server.served == [] && s.server.expected == 1
    && s.server.place.InPayload? && s.server.place.size == |payload|
    && |s.server.place.got| <= |payload| && s.server.taken == 1 + |s.server.place.got|
  }

  /** Every payload within the limits can be sent, and every verdict be returned for it. */
  lemma AnyPayloadCanBeAnswered(limits: Limits, payload: Bytes, verdict: Verdict)
      returns (states: seq<State>, events: seq<Event>)
    requires 0 < |payload| && |payload| <= limits.agentBytes && |payload| <= limits.serverBytes
    requires IsAckFor(Ack(1, verdict), 1)
    ensures IsRun(states, events, limits)
    ensures states[|events|].agent.calls == map[0 := Answered(payload, 1, verdict)]
  {
    states, events := [Initial(limits)], [];
    states, events := Extended(states, events, limits, Call(0, payload));
    states, events := Extended(states, events, limits, Lock(0, false));
    states, events := Extended(states, events, limits, Write(0, |payload| + 1));
    ItemsOf(1, payload);
    assert states[|events|].up == Message(1, payload);
    states, events := Extended(states, events, limits, TakeBatch);
    states, events := TakesRest(states, events, limits, payload);
    states, events := Extended(states, events, limits, Answer(verdict));
    states, events := Extended(states, events, limits, Hear(0));
  }
}
