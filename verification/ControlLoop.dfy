/** The select loop of a connection, the reader of its Control Stream, the clock and the
    acknowledgement timer, as one machine of atomic steps. */
module ControlLoop {
  import opened Options
  import opened Heartbeat

  /** What the Server writes. */
  datatype Frame = Ack(sequence: nat) | RenewalResponse | GoAway | WrongVersion | UnknownFrame

  datatype Failure = ReadError | ProtocolVersion | UnexpectedFrame

  /** What the reader offers on its channels. */
  datatype Handover = AckOf(sequence: nat) | RenewalOf | AwayOf | FailureOf(failure: Failure)

  datatype Reader = Reading | Handing(offer: Handover) | Finished

  datatype Outcome =
    | AckTimeout | AckInvalid | RenewalUnexpected | WentAway | ReadFailed(failure: Failure)
    | WriteFailed | RenewalAnswered | RenewalTimedOut | Left

  datatype Loop = Selecting | Writing | AwaitingRenewal | Ended(outcome: Outcome)

  /** The second line is history: the acknowledgements received, how many of them were accepted
      and when, and when each heartbeat had been written. */
  datatype State = State(
    stream: seq<Frame>, position: nat, reader: Reader, loop: Loop, beats: Beats, now: int,
    received: seq<nat>, ackedAt: seq<int>, begun: nat, writtenAt: seq<int>)

  datatype Event =
    | Elapse(time: nat) | Fire | ReadFrame | ReadFails | Abandon
    | Receive | BeginBeat | EndBeat | WriteFails | TimerSelected | BeginRenewal | RenewalTimesOut | Leave

  function Offer(f: Frame): Handover {
    match f
    case Ack(sequence) => AckOf(sequence)
    case RenewalResponse => RenewalOf
    case GoAway => AwayOf
    case WrongVersion => FailureOf(ProtocolVersion)
    case UnknownFrame => FailureOf(UnexpectedFrame)
  }

  /** The reader goroutine after its frame was taken. */
  function Resume(h: Handover): Reader {
    if h.AwayOf? || h.FailureOf? then Finished else Reading
  }

  /** A frame handed over: the loop's part. */
  function Taken(s: State, h: Handover, timeout: int): State {
    match h
    case AckOf(sequence) =>
      var t := s.(received := s.received + [sequence]);
      if s.loop.AwaitingRenewal? then t
      else
        (match Acknowledged(s.beats, sequence, s.now, timeout)
         case None => t.(loop := Ended(AckInvalid))
         case Some(beats) => t.(beats := beats, ackedAt := s.ackedAt + [s.now]))
    case RenewalOf => s.(loop := Ended(if s.loop.AwaitingRenewal? then RenewalAnswered else RenewalUnexpected))
    case AwayOf => s.(loop := Ended(WentAway))
    case FailureOf(failure) => s.(loop := Ended(ReadFailed(failure)))
  }

  /** One step, or None where it cannot be taken. */
  function Next(s: State, e: Event, timeout: int): Option<State> {
    match e
    case Elapse(time) => Some(s.(now := s.now + time))
    case Fire =>
      if s.beats.clock.deadline.Some? && s.beats.clock.deadline.value <= s.now
      then Some(s.(beats := s.beats.(clock := Clock(None, true)))) else None
    case ReadFrame =>
      if s.reader.Reading? && s.position < |s.stream|
      then Some(s.(reader := Handing(Offer(s.stream[s.position])), position := s.position + 1)) else None
    case ReadFails => if s.reader.Reading? then Some(s.(reader := Handing(FailureOf(ReadError)))) else None
    case Abandon => if s.reader.Handing? && s.loop.Ended? then Some(s.(reader := Finished)) else None
    case Receive =>
      if s.reader.Handing? && (s.loop.Selecting? || s.loop.AwaitingRenewal?)
      then Some(Taken(s, s.reader.offer, timeout).(reader := Resume(s.reader.offer))) else None
    case BeginBeat =>
      if s.loop.Selecting? then Some(s.(loop := Writing, beats := Begun(s.beats), begun := s.begun + 1)) else None
    case EndBeat =>
      if s.loop.Writing?
      then Some(s.(loop := Selecting, beats := Written(s.beats, s.now, timeout),
        writtenAt := s.writtenAt + [s.now])) else None
    case WriteFails => if s.loop.Writing? then Some(s.(loop := Ended(WriteFailed))) else None
    case TimerSelected =>
      if s.loop.Selecting? && s.beats.clock.buffered
      then Some(s.(loop := Ended(AckTimeout), beats := s.beats.(clock := s.beats.clock.(buffered := false)))) else None
    case BeginRenewal => if s.loop.Selecting? then Some(s.(loop := AwaitingRenewal)) else None
    case RenewalTimesOut => if s.loop.AwaitingRenewal? then Some(s.(loop := Ended(RenewalTimedOut))) else None
    case Leave => if s.loop.Ended? then None else Some(s.(loop := Ended(Left)))
  }

  function Initial(stream: seq<Frame>, now: int, renewing: bool): State {
    State(stream, 0, Reading, if renewing then AwaitingRenewal else Selecting, Beats(0, 0, DISARMED), now,
          [], [], 0, [])
  }

  function Run(s: State, events: seq<Event>, timeout: int): Option<State> {
    if events == [] then Some(s)
    else match Run(s, events[..|events| - 1], timeout)
      case None => None
      case Some(t) => Next(t, events[|events| - 1], timeout)
  }

  function AcksOf(frames: seq<Frame>): seq<nat> {
    if frames == [] then []
    else if frames[|frames| - 1].Ack? then AcksOf(frames[..|frames| - 1]) + [frames[|frames| - 1].sequence]
    else AcksOf(frames[..|frames| - 1])
  }

  // ---------------------------------------------------------------- the invariants

  /** The acknowledgements received are those on the stream, in order, up to the one in hand. */
  predicate ReaderInv(s: State) {
    && s.position <= |s.stream|
    && match s.reader
       case Reading => s.received == AcksOf(s.stream[..s.position])
       case Handing(AckOf(sequence)) => s.received + [sequence] == AcksOf(s.stream[..s.position])
       case Handing(_) => s.received == AcksOf(s.stream[..s.position])
       case Finished => s.received <= AcksOf(s.stream[..s.position])
  }

  lemma AcksGrow(stream: seq<Frame>, position: nat)
    requires position < |stream|
    ensures AcksOf(stream[..position + 1])
         == AcksOf(stream[..position]) + if stream[position].Ack? then [stream[position].sequence] else []
  {
    assert stream[..position + 1][..position] == stream[..position];
  }

  lemma ReaderStep(s: State, e: Event, timeout: int)
    requires ReaderInv(s) && Next(s, e, timeout).Some?
    ensures ReaderInv(Next(s, e, timeout).value)
  {
    if e.ReadFrame? {
      AcksGrow(s.stream, s.position);
    }
  }

  /** Heartbeats are numbered by how many were begun; an acknowledged one had been written. */
  predicate CountInv(s: State) {
    && s.beats.sent == s.begun
    && (match s.loop
        case Writing => |s.writtenAt| + 1 == s.begun
        case Ended(_) => s.begun <= |s.writtenAt| + 1 && |s.writtenAt| <= s.begun
        case _ => |s.writtenAt| == s.begun)
    && s.beats.acked <= |s.writtenAt|
  }

  predicate Increasing(s: seq<nat>) {
    forall i, j :: 0 <= i < j < |s| ==> s[i] < s[j]
  }

  /** The accepted acknowledgements: all received ones, but for those after the loop stopped
      caring. */
  predicate AckInv(s: State) {
    && |s.ackedAt| <= |s.received|
    && (s.loop.Selecting? || s.loop.Writing? ==> |s.ackedAt| == |s.received|)
    && Increasing(s.received[..|s.ackedAt|])
    && s.beats.acked == (if s.ackedAt == [] then 0 else s.received[|s.ackedAt| - 1])
  }

  predicate Past(times: seq<int>, now: int) {
    && (forall i :: 0 <= i < |times| ==> times[i] <= now)
    && (forall i, j :: 0 <= i < j < |times| ==> times[i] <= times[j])
  }

  /** When the Server last made progress, while a heartbeat is outstanding: the acknowledgement
      accepted last, or the writing of the first heartbeat not acknowledged, whichever is later. */
  function Progress(s: State): int
    requires s.beats.acked < |s.writtenAt|
  {
    if s.ackedAt != [] && s.ackedAt[|s.ackedAt| - 1] > s.writtenAt[s.beats.acked]
    then s.ackedAt[|s.ackedAt| - 1] else s.writtenAt[s.beats.acked]
  }

  /** The timer stands exactly while a written heartbeat is outstanding, and for a full timeout
      from the last progress. */
  predicate TimerInv(s: State, timeout: int) {
    && Consistent(s.beats.clock)
    && (s.beats.clock == DISARMED <==> s.beats.acked == |s.writtenAt|)
    && (s.beats.acked < |s.writtenAt| ==>
          && (s.beats.clock.deadline.Some? ==> s.beats.clock.deadline.value == Progress(s) + timeout)
          && (s.beats.clock.buffered ==> Progress(s) + timeout <= s.now))
  }

  predicate TimeoutInv(s: State, timeout: int) {
    s.loop == Ended(AckTimeout) ==> s.beats.acked < |s.writtenAt| && Progress(s) + timeout <= s.now
  }

  predicate Good(s: State, timeout: int) {
    && CountInv(s) && AckInv(s) && Past(s.ackedAt, s.now) && Past(s.writtenAt, s.now)
    && (!s.loop.Ended? ==> TimerInv(s, timeout)) && TimeoutInv(s, timeout)
  }

  // ---------------------------------------------------------------- every step keeps them

  lemma CountStep(s: State, e: Event, timeout: int)
    requires CountInv(s) && Next(s, e, timeout).Some? && Next(s, e, timeout).value.begun < U64
    ensures CountInv(Next(s, e, timeout).value)
  {
  }

  lemma IncreasingMore(s: seq<nat>, next: nat)
    requires Increasing(s) && (s != [] ==> s[|s| - 1] < next)
    ensures Increasing(s + [next])
  {
  }

  lemma AckReceived(s: State, timeout: int)
    requires AckInv(s) && Next(s, Receive, timeout).Some?
    ensures AckInv(Next(s, Receive, timeout).value)
  {
    var t, accepted := Next(s, Receive, timeout).value, s.received[..|s.ackedAt|];
    if t.received != s.received {
      assert t.received[..|s.ackedAt|] == accepted;
      if t.ackedAt != s.ackedAt {
        assert t.received[..|t.ackedAt|] == accepted + [t.beats.acked];
        IncreasingMore(accepted, t.beats.acked);
      }
    }
  }

  lemma AckStep(s: State, e: Event, timeout: int)
    requires AckInv(s) && Next(s, e, timeout).Some?
    ensures AckInv(Next(s, e, timeout).value)
  {
    if e.Receive? {
      AckReceived(s, timeout);
    } else {
      assert Next(s, e, timeout).value.received == s.received && Next(s, e, timeout).value.ackedAt == s.ackedAt;
    }
  }

  lemma PastStep(s: State, e: Event, timeout: int)
    requires Past(s.ackedAt, s.now) && Past(s.writtenAt, s.now) && Next(s, e, timeout).Some?
    ensures var t := Next(s, e, timeout).value; Past(t.ackedAt, t.now) && Past(t.writtenAt, t.now)
  {
  }

  lemma TimerStep(s: State, e: Event, timeout: int)
    requires Good(s, timeout) && Next(s, e, timeout).Some? && Next(s, e, timeout).value.begun < U64
    requires !Next(s, e, timeout).value.loop.Ended?
    ensures TimerInv(Next(s, e, timeout).value, timeout)
  {
  }

  lemma TimeoutStep(s: State, e: Event, timeout: int)
    requires Good(s, timeout) && Next(s, e, timeout).Some?
    ensures TimeoutInv(Next(s, e, timeout).value, timeout)
  {
  }

  lemma GoodStep(s: State, e: Event, timeout: int)
    requires Good(s, timeout) && Next(s, e, timeout).Some? && Next(s, e, timeout).value.begun < U64
    ensures Good(Next(s, e, timeout).value, timeout)
  {
    CountStep(s, e, timeout);
    AckStep(s, e, timeout);
    PastStep(s, e, timeout);
    TimeoutStep(s, e, timeout);
    if !Next(s, e, timeout).value.loop.Ended? {
      TimerStep(s, e, timeout);
    }
  }

  // ---------------------------------------------------------------- main results

  lemma {:induction false} RunKeeps(s: State, events: seq<Event>, timeout: int)
    requires ReaderInv(s) && Good(s, timeout) && Run(s, events, timeout).Some?
    ensures var t := Run(s, events, timeout).value;
            t.stream == s.stream && ReaderInv(t) && (t.begun < U64 ==> Good(t, timeout))
  {
    if events != [] {
      var rest, e := events[..|events| - 1], events[|events| - 1];
      RunKeeps(s, rest, timeout);
      var t := Run(s, rest, timeout).value;
      ReaderStep(t, e, timeout);
      assert t.begun <= Next(t, e, timeout).value.begun;
      if Next(t, e, timeout).value.begun < U64 {
        GoodStep(t, e, timeout);
      }
    }
  }

  /** A state of some run in which fewer than 2^64 heartbeats have been sent. */
  ghost predicate Reachable(s: State, timeout: int) {
    && s.begun < U64
    && exists stream, now, renewing, events :: Run(Initial(stream, now, renewing), events, timeout) == Some(s)
  }

  lemma ReachableIsGood(s: State, timeout: int)
    requires Reachable(s, timeout)
    ensures ReaderInv(s) && Good(s, timeout)
  {
    var stream, now, renewing, events :| Run(Initial(stream, now, renewing), events, timeout) == Some(s);
    RunKeeps(Initial(stream, now, renewing), events, timeout);
  }

  /** A written heartbeat is unanswered, and for a full timeout nothing has been acknowledged. */
  predicate Silent(s: State, timeout: int) {
    && s.beats.acked < |s.writtenAt|
    && s.writtenAt[s.beats.acked] + timeout <= s.now
    && (forall i :: 0 <= i < |s.ackedAt| ==> s.ackedAt[i] + timeout <= s.now)
  }

  /** The loop can report a timeout exactly in silence: never on a stale firing, and never not,
      once the clock has come round. */
  lemma TimeoutExactlyInSilence(s: State, timeout: int)
    requires Reachable(s, timeout) && s.loop.Selecting?
    ensures (Next(s, TimerSelected, timeout).Some? || Next(s, Fire, timeout).Some?) <==> Silent(s, timeout)
    ensures Next(s, TimerSelected, timeout).Some? ==> Silent(s, timeout)
  {
    ReachableIsGood(s, timeout);
  }

  /** The timer runs or has fired exactly while something written is unacknowledged. */
  lemma TimerFollowsHeartbeats(s: State, timeout: int)
    requires Reachable(s, timeout) && s.loop.Selecting?
    ensures s.beats.acked <= s.beats.sent
    ensures s.beats.clock != DISARMED <==> s.beats.acked < s.beats.sent
  {
    ReachableIsGood(s, timeout);
  }

  lemma {:induction false} AcksOfPrefix(stream: seq<Frame>, position: nat)
    requires position <= |stream|
    ensures AcksOf(stream[..position]) <= AcksOf(stream)
  {
    if position == |stream| {
      assert stream[..position] == stream;
    } else {
      AcksOfPrefix(stream[..|stream| - 1], position);
      assert stream[..|stream| - 1][..position] == stream[..position];
    }
  }

  /** The loop receives the stream's acknowledgements in order, without gap or repetition; those
      it accepts rise strictly, and never beyond what had been written. */
  lemma AcksArriveInOrder(s: State, timeout: int)
    requires Reachable(s, timeout)
    ensures s.received <= AcksOf(s.stream)
    ensures |s.ackedAt| <= |s.received| && Increasing(s.received[..|s.ackedAt|])
    ensures forall i :: 0 <= i < |s.ackedAt| ==> s.received[i] <= |s.writtenAt|
  {
    ReachableIsGood(s, timeout);
    AcksOfPrefix(s.stream, s.position);
    forall i | 0 <= i < |s.ackedAt| ensures s.received[i] <= |s.writtenAt| {
      assert s.received[..|s.ackedAt|][i] <= s.received[..|s.ackedAt|][|s.ackedAt| - 1];
    }
  }

  // ---------------------------------------------------------------- why a connection ends

  predicate IsOrdinary(f: Frame) {
    f.Ack? || f.RenewalResponse?
  }

  /** The frame read last, in hand or handed over. */
  predicate LastRead(s: State, f: Frame) {
    0 < s.position <= |s.stream| && s.stream[s.position - 1] == f
  }

  predicate OnlyOrdinary(s: State)
    requires s.position <= |s.stream|
  {
    forall k | 0 <= k < s.position :: IsOrdinary(s.stream[k])
  }

  /** What is in hand is the frame read last, and before it only ordinary frames were read: after a
      GoAway or a faulty frame nothing more is. */
  predicate HandInv(s: State) {
    && s.position <= |s.stream|
    && (forall k | 0 <= k < s.position - 1 :: IsOrdinary(s.stream[k]))
    && match s.reader
       case Reading => OnlyOrdinary(s)
       case Handing(AckOf(sequence)) => LastRead(s, Ack(sequence))
       case Handing(RenewalOf) => LastRead(s, RenewalResponse)
       case Handing(AwayOf) => LastRead(s, GoAway)
       case Handing(FailureOf(ProtocolVersion)) => LastRead(s, WrongVersion)
       case Handing(FailureOf(UnexpectedFrame)) => LastRead(s, UnknownFrame)
       case Handing(FailureOf(ReadError)) => OnlyOrdinary(s)
       case Finished => true
  }

  predicate CauseInv(s: State)
    requires s.position <= |s.stream|
  {
    match s.loop
    case Ended(WentAway) => s.reader.Finished? && LastRead(s, GoAway)
    case Ended(ReadFailed(ProtocolVersion)) => s.reader.Finished? && LastRead(s, WrongVersion)
    case Ended(ReadFailed(UnexpectedFrame)) => s.reader.Finished? && LastRead(s, UnknownFrame)
    case Ended(ReadFailed(ReadError)) => s.reader.Finished? && OnlyOrdinary(s)
    case Ended(RenewalAnswered) => RenewalResponse in s.stream[..s.position]
    case Ended(RenewalUnexpected) => RenewalResponse in s.stream[..s.position]
    case Ended(AckInvalid) =>
      s.received != [] && !(s.beats.acked < s.received[|s.received| - 1] <= s.beats.sent)
    case _ => true
  }

  lemma HandStep(s: State, e: Event, timeout: int)
    requires HandInv(s) && Next(s, e, timeout).Some?
    ensures HandInv(Next(s, e, timeout).value)
  {
  }

  lemma CauseStep(s: State, e: Event, timeout: int)
    requires HandInv(s) && CauseInv(s) && Next(s, e, timeout).Some?
    ensures HandInv(Next(s, e, timeout).value) && CauseInv(Next(s, e, timeout).value)
  {
    HandStep(s, e, timeout);
    if e.Receive? {
      CauseTaken(s, timeout);
    }
  }

  lemma CauseTaken(s: State, timeout: int)
    requires HandInv(s) && Next(s, Receive, timeout).Some?
    ensures HandInv(Next(s, Receive, timeout).value) && CauseInv(Next(s, Receive, timeout).value)
  {
    HandStep(s, Receive, timeout);
    if s.reader.offer.RenewalOf? {
      assert s.stream[s.position - 1] == RenewalResponse;
    }
  }

  lemma {:induction false} RunHasCauses(s: State, events: seq<Event>, timeout: int)
    requires HandInv(s) && CauseInv(s) && Run(s, events, timeout).Some?
    ensures HandInv(Run(s, events, timeout).value) && CauseInv(Run(s, events, timeout).value)
  {
    if events != [] {
      var rest := events[..|events| - 1];
      RunHasCauses(s, rest, timeout);
      CauseStep(Run(s, rest, timeout).value, events[|events| - 1], timeout);
    }
  }

  /** A connection ends for what is on its stream: a GoAway, a wrong version or an unknown frame was
      the last thing read, a renewal's answer was among it, or the acknowledgement received last was
      none that was still due. */
  lemma EndingsHaveTheirCause(s: State, timeout: int)
    requires Reachable(s, timeout)
    ensures HandInv(s) && CauseInv(s)
  {
    var stream, now, renewing, events :| Run(Initial(stream, now, renewing), events, timeout) == Some(s);
    RunHasCauses(Initial(stream, now, renewing), events, timeout);
  }

  /** When each step can be taken: the loop writes, renews, times out and receives only between two
      writes, it waits for a renewal's answer without watching the timer, and the reader reads one
      frame at a time and lets go of it only when the loop takes it or has ended. */
  lemma EnabledExactly(s: State, e: Event, timeout: int)
    ensures Next(s, e, timeout).Some? <==> match e
      case Elapse(_) => true
      case Fire => s.beats.clock.deadline.Some? && s.beats.clock.deadline.value <= s.now
      case ReadFrame => s.reader == Reading && s.position < |s.stream|
      case ReadFails => s.reader == Reading
      case Abandon => s.reader.Handing? && s.loop.Ended?
      case Receive => s.reader.Handing? && s.loop in {Selecting, AwaitingRenewal}
      case BeginBeat => s.loop == Selecting
      case EndBeat => s.loop == Loop.Writing
      case WriteFails => s.loop == Loop.Writing
      case TimerSelected => s.loop == Selecting && s.beats.clock.buffered
      case BeginRenewal => s.loop == Selecting
      case RenewalTimesOut => s.loop == AwaitingRenewal
      case Leave => !s.loop.Ended?
  {
  }

  /** What the frame in hand makes of the loop. */
  predicate HandedOver(s: State, loop: Loop) {
    if s.reader == Handing(FailureOf(ReadError)) then loop == Ended(ReadFailed(ReadError))
    else 0 < s.position <= |s.stream| && match s.stream[s.position - 1]
      case Ack(sequence) =>
        if s.loop == AwaitingRenewal || s.beats.acked < sequence <= s.beats.sent then loop == s.loop
        else loop == Ended(AckInvalid)
      case RenewalResponse => loop == Ended(if s.loop == AwaitingRenewal then RenewalAnswered else RenewalUnexpected)
      case GoAway => loop == Ended(WentAway)
      case WrongVersion => loop == Ended(ReadFailed(ProtocolVersion))
      case UnknownFrame => loop == Ended(ReadFailed(UnexpectedFrame))
  }

  /** Where each step leads the loop.  What it takes from the reader ends it but for an
      acknowledgement that is due: an answer to a renewal ends it well exactly while it waits for one,
      and any acknowledgement is welcome then. */
  lemma LoopGoes(s: State, e: Event, timeout: int)
    requires HandInv(s) && Next(s, e, timeout).Some?
    ensures var loop := Next(s, e, timeout).value.loop; match e
      case BeginBeat => loop == Loop.Writing
      case EndBeat => loop == Selecting
      case WriteFails => loop == Ended(WriteFailed)
      case TimerSelected => loop == Ended(AckTimeout)
      case BeginRenewal => loop == AwaitingRenewal
      case RenewalTimesOut => loop == Ended(RenewalTimedOut)
      case Leave => loop == Ended(Left)
      case Receive => HandedOver(s, loop)
      case _ => loop == s.loop
  {
  }

  /** A connection that begins with a renewal sends no heartbeat and watches no timer: it ends with
      the answer, or for want of one. */
  lemma {:induction false} RenewalComesAlone(stream: seq<Frame>, now: int, events: seq<Event>, timeout: int)
    requires Run(Initial(stream, now, true), events, timeout).Some?
    ensures var s := Run(Initial(stream, now, true), events, timeout).value;
            && s.begun == 0 && s.ackedAt == [] && s.beats.clock == DISARMED
            && match s.loop
               case AwaitingRenewal => true
               case Ended(o) => o.RenewalAnswered? || o.RenewalTimedOut? || o.WentAway? || o.ReadFailed? || o.Left?
               case _ => false
  {
    if events != [] {
      RenewalComesAlone(stream, now, events[..|events| - 1], timeout);
    }
  }
}
