/** Heartbeat bookkeeping of one connection (pkg/agent/connection.go) and the timer helpers of
    pkg/agent/control_stream.go. */
module Heartbeat {
  import opened Options

  const U64: nat := 0x1_0000_0000_0000_0000

  // ---------------------------------------------------------------- the timer

  /** A timer that has fired keeps the firing in its channel until someone receives it. */
  datatype Clock = Clock(deadline: Option<int>, buffered: bool)

  const DISARMED := Clock(None, false)

  function ArmedAt(deadline: int): Clock {
    Clock(Some(deadline), false)
  }

  class Timer {
    var deadline: Option<int>
    var buffered: bool

    function State(): Clock
      reads this
    {
      Clock(deadline, buffered)
    }

    constructor (at: int)
      ensures State() == ArmedAt(at)
    {
      deadline, buffered := Some(at), false;
    }

    /** time.Timer.Stop: a firing that has happened already stays in the channel. */
    method Stop() returns (active: bool)
      modifies this
      ensures active == old(deadline).Some?
      ensures State() == Clock(None, old(buffered))
    {
      active := deadline.Some?;
      deadline := None;
    }

    /** The non-blocking receive. */
    method Drain()
      modifies this
      ensures State() == Clock(old(deadline), false)
    {
      if buffered {
        buffered := false;
      }
    }

    method Reset(at: int)
      modifies this
      ensures State() == Clock(Some(at), old(buffered))
    {
      deadline := Some(at);
    }
  }

  /** A timer is either running or has fired, never both. */
  predicate Consistent(c: Clock) {
    c.deadline.None? || !c.buffered
  }

  /** No stale firing survives, however the timer stood. */
  method StopTimer(timer: Timer)
    requires Consistent(timer.State())
    modifies timer
    ensures timer.State() == DISARMED
  {
    var active := timer.Stop();
    if !active {
      timer.Drain();
    }
  }

  method ResetTimer(timer: Timer, now: int, duration: int)
    requires Consistent(timer.State())
    modifies timer
    ensures timer.State() == ArmedAt(now + duration)
  {
    StopTimer(timer);
    timer.Reset(now + duration);
  }

  // ---------------------------------------------------------------- sequences

  /** Sequence numbers are 64 bits wide. */
  datatype Beats = Beats(sent: nat, acked: nat, clock: Clock)

  /** None is ErrHeartbeatAckInvalid. */
  function Acknowledged(b: Beats, sequence: nat, now: int, timeout: int): Option<Beats> {
    if sequence <= b.acked || sequence > b.sent then None
    else Some(b.(acked := sequence, clock := if sequence == b.sent then DISARMED else ArmedAt(now + timeout)))
  }

  function Begun(b: Beats): Beats {
    b.(sent := (b.sent + 1) % U64)
  }

  function Written(b: Beats, now: int, timeout: int): Beats {
    if b.sent == (b.acked + 1) % U64 then b.(clock := ArmedAt(now + timeout)) else b
  }

  /** The variables of runConnection's select loop. */
  class Connection {
    var sentSequence: nat
    var acknowledgedSequence: nat
    const acknowledgement: Timer
    const timeout: int

    ghost predicate Valid()
      reads this, acknowledgement
    {
      sentSequence < U64 && acknowledgedSequence < U64 && Consistent(acknowledgement.State())
    }

    function State(): Beats
      reads this, acknowledgement
    {
      Beats(sentSequence, acknowledgedSequence, acknowledgement.State())
    }

    constructor (now: int, heartbeatTimeout: int)
      ensures Valid() && fresh(acknowledgement) && timeout == heartbeatTimeout
      ensures State() == Beats(0, 0, DISARMED)
    {
      sentSequence, acknowledgedSequence := 0, 0;
      timeout := heartbeatTimeout;
      acknowledgement := new Timer(now + heartbeatTimeout);
      new;
      StopTimer(acknowledgement);
    }

    method OnAcknowledgement(sequence: nat, now: int) returns (valid: bool)
      requires Valid()
      modifies this, acknowledgement
      ensures Valid()
      ensures valid == Acknowledged(old(State()), sequence, now, timeout).Some?
      ensures State() == if valid then Acknowledged(old(State()), sequence, now, timeout).value else old(State())
    {
      if sequence <= acknowledgedSequence || sequence > sentSequence {
        return false;
      }
      acknowledgedSequence := sequence;
      if acknowledgedSequence == sentSequence {
        StopTimer(acknowledgement);
        return true;
      }
      ResetTimer(acknowledgement, now, timeout);
      return true;
    }

    method BeginHeartbeat()
      requires Valid()
      modifies this
      ensures Valid() && State() == Begun(old(State()))
    {
      sentSequence := (sentSequence + 1) % U64;
    }

    method HeartbeatWritten(now: int)
      requires Valid()
      modifies this, acknowledgement
      ensures Valid() && State() == Written(old(State()), now, timeout)
    {
      if sentSequence == (acknowledgedSequence + 1) % U64 {
        ResetTimer(acknowledgement, now, timeout);
      }
    }
  }
}
