/** The outer connection loop (pkg/agent/connection.go): renewals and retry intervals over any
    number of connections. */
module Reconnect {

  /** A connection attempt as the loop sees it. A renewal starts when the guard holds, the
      response is checked later, and the certificate then has a new expiry. */
  datatype Attempt =
    | Renewed(startedAt: int, checkedAt: int, expiresAt: int)
    | Failed
    | Clean

  datatype Config = Config(initial: int, maximum: int, renewBefore: int)

  /** The configuration check, as far as the loop depends on it. */
  predicate ValidConfig(c: Config) {
    0 < c.initial <= c.maximum
  }

  predicate RenewalRequired(expiresAt: int, now: int, renewBefore: int) {
    expiresAt - now <= renewBefore
  }

  predicate RenewalAccepted(expiresAt: int, now: int, renewBefore: int) {
    expiresAt > now + renewBefore
  }

  datatype State = State(expiresAt: int, interval: int)

  function Doubled(interval: int, maximum: int): int {
    if interval * 2 < maximum then interval * 2 else maximum
  }

  function After(c: Config, s: State, a: Attempt): State {
    match a
    case Renewed(_, _, expiresAt) => State(expiresAt, c.initial)
    case Failed => State(s.expiresAt, Doubled(s.interval, c.maximum))
    case Clean => s
  }

  /** retryDelay without a Retry-After; jitter, in millionths, is at most a fifth. */
  function Delay(interval: int, jitter: int, maximum: int): int
    requires 0 <= jitter <= 200_000
  {
    var delay := interval + interval * jitter / 1_000_000;
    if delay < maximum then delay else maximum
  }

  class ConnectionLoop {
    var expiresAt: int
    var interval: int
    const config: Config

    function Current(): State
      reads this
    {
      State(expiresAt, interval)
    }

    constructor (c: Config, identityExpiresAt: int)
      ensures config == c && Current() == State(identityExpiresAt, c.initial)
    {
      config := c;
      expiresAt, interval := identityExpiresAt, c.initial;
    }

    /** One turn; the delay is what the loop then waits for, zero where it does not wait. */
    method Turn(a: Attempt, jitter: int) returns (delay: int)
      requires ValidConfig(config) && 0 <= jitter <= 200_000
      modifies this
      ensures Current() == After(config, old(Current()), a)
      ensures delay == if a.Failed? then Delay(old(interval), jitter, config.maximum) else 0
    {
      match a
      case Renewed(_, _, newExpiry) =>
        expiresAt := newExpiry;
        interval := config.initial;
        return 0;
      case Clean =>
        return 0;
      case Failed =>
        delay := Delay(interval, jitter, config.maximum);
        interval := if interval * 2 < config.maximum then interval * 2 else config.maximum;
    }
  }

  // ---------------------------------------------------------------- runs

  /** What the guards of a connection let happen, from time `now` on. */
  predicate CanHappen(c: Config, s: State, now: int, a: Attempt) {
    a.Renewed? ==>
      && now <= a.startedAt <= a.checkedAt
      && RenewalRequired(s.expiresAt, a.startedAt, c.renewBefore)
      && RenewalAccepted(a.expiresAt, a.checkedAt, c.renewBefore)
  }

  function Clock(now: int, a: Attempt): int {
    if a.Renewed? then a.checkedAt else now
  }

  function StateAfter(c: Config, s: State, attempts: seq<Attempt>): State {
    if attempts == [] then s
    else After(c, StateAfter(c, s, attempts[..|attempts| - 1]), attempts[|attempts| - 1])
  }

  function ClockAfter(now: int, attempts: seq<Attempt>): int {
    if attempts == [] then now
    else Clock(ClockAfter(now, attempts[..|attempts| - 1]), attempts[|attempts| - 1])
  }

  predicate IsRun(c: Config, s: State, now: int, attempts: seq<Attempt>) {
    forall i :: 0 <= i < |attempts| ==>
      CanHappen(c, StateAfter(c, s, attempts[..i]), ClockAfter(now, attempts[..i]), attempts[i])
  }

  lemma PrefixIsRun(c: Config, s: State, now: int, attempts: seq<Attempt>, i: nat)
    requires IsRun(c, s, now, attempts) && i <= |attempts|
    ensures IsRun(c, s, now, attempts[..i])
  {
    assert forall k :: 0 <= k < i ==> attempts[..i][..k] == attempts[..k];
  }

  lemma LastCanHappen(c: Config, s: State, now: int, attempts: seq<Attempt>)
    requires IsRun(c, s, now, attempts) && attempts != []
    ensures var rest := attempts[..|attempts| - 1];
            && IsRun(c, s, now, rest)
            && CanHappen(c, StateAfter(c, s, rest), ClockAfter(now, rest), attempts[|attempts| - 1])
  {
    PrefixIsRun(c, s, now, attempts, |attempts| - 1);
  }

  function Renewals(attempts: seq<Attempt>): nat {
    if attempts == [] then 0
    else Renewals(attempts[..|attempts| - 1]) + if attempts[|attempts| - 1].Renewed? then 1 else 0
  }

  /** Once renewed, the identity is outside the renewal window at the moment it was checked. */
  lemma {:induction false} RunStaysAhead(c: Config, s: State, now: int, attempts: seq<Attempt>)
    requires IsRun(c, s, now, attempts)
    ensures now <= ClockAfter(now, attempts)
    ensures s.expiresAt <= StateAfter(c, s, attempts).expiresAt
    ensures Renewals(attempts) > 0 ==>
              !RenewalRequired(StateAfter(c, s, attempts).expiresAt, ClockAfter(now, attempts), c.renewBefore)
  {
    if attempts != [] {
      LastCanHappen(c, s, now, attempts);
      RunStaysAhead(c, s, now, attempts[..|attempts| - 1]);
    }
  }

  /** A renewal is remembered: later states expire no earlier, on a clock no earlier. */
  lemma {:induction false} RenewalHolds(c: Config, s: State, now: int, attempts: seq<Attempt>, i: nat)
    requires IsRun(c, s, now, attempts) && i < |attempts| && attempts[i].Renewed?
    ensures Renewals(attempts) > 0
    ensures attempts[i].checkedAt <= ClockAfter(now, attempts)
    ensures attempts[i].expiresAt <= StateAfter(c, s, attempts).expiresAt
  {
    var rest, last := attempts[..|attempts| - 1], attempts[|attempts| - 1];
    LastCanHappen(c, s, now, attempts);
    if i < |rest| {
      assert rest[i] == attempts[i];
      RenewalHolds(c, s, now, rest, i);
      if last.Renewed? {
        RunStaysAhead(c, s, now, rest);
      }
    }
  }

  /** Every renewal extends the identity it replaces, the first of a run included. */
  lemma RenewalExtends(c: Config, s: State, now: int, attempts: seq<Attempt>, i: nat)
    requires IsRun(c, s, now, attempts) && i < |attempts| && attempts[i].Renewed?
    ensures s.expiresAt <= StateAfter(c, s, attempts[..i]).expiresAt
         < attempts[i].expiresAt <= StateAfter(c, s, attempts).expiresAt
  {
    PrefixIsRun(c, s, now, attempts, i);
    RunStaysAhead(c, s, now, attempts[..i]);
    RenewalHolds(c, s, now, attempts, i);
    assert CanHappen(c, StateAfter(c, s, attempts[..i]), ClockAfter(now, attempts[..i]), attempts[i]);
  }

  /** After a renewal, the next one cannot start at the same instant, however many failures lie
      between, and it strictly extends the certificate's life again. */
  lemma RenewalsMoveTime(c: Config, s: State, now: int, attempts: seq<Attempt>, i: nat, j: nat)
    requires IsRun(c, s, now, attempts)
    requires i < j < |attempts| && attempts[i].Renewed? && attempts[j].Renewed?
    ensures attempts[i].checkedAt < attempts[j].startedAt
    ensures attempts[i].expiresAt < attempts[j].expiresAt
  {
    var before := attempts[..j];
    PrefixIsRun(c, s, now, attempts, j);
    RunStaysAhead(c, s, now, before);
    RenewalHolds(c, s, now, before, i);
    assert CanHappen(c, StateAfter(c, s, before), ClockAfter(now, before), attempts[j]);
  }

  // ---------------------------------------------------------------- the retry interval

  function Power(k: nat): nat {
    if k == 0 then 1 else 2 * Power(k - 1)
  }

  function Least(a: int, b: int): int {
    if a < b then a else b
  }

  /** The failures since the last renewal, or since the start. */
  function Failures(attempts: seq<Attempt>): nat {
    if attempts == [] then 0
    else match attempts[|attempts| - 1]
      case Renewed(_, _, _) => 0
      case Failed => Failures(attempts[..|attempts| - 1]) + 1
      case Clean => Failures(attempts[..|attempts| - 1])
  }

  /** The interval is the initial one, doubled for every failure since the last renewal, up to the
      maximum; the delay lies between it and a fifth more, and never above the maximum. */
  lemma {:induction false} IntervalIs(c: Config, expiresAt: int, attempts: seq<Attempt>)
    requires ValidConfig(c)
    ensures StateAfter(c, State(expiresAt, c.initial), attempts).interval
         == Least(c.initial * Power(Failures(attempts)), c.maximum)
  {
    if attempts != [] {
      IntervalIs(c, expiresAt, attempts[..|attempts| - 1]);
      var k := Failures(attempts[..|attempts| - 1]);
      assert c.initial * Power(k + 1) == 2 * (c.initial * Power(k));
    }
  }

  lemma DelayIsBounded(c: Config, interval: int, jitter: int)
    requires ValidConfig(c) && 0 < interval <= c.maximum && 0 <= jitter <= 200_000
    ensures interval <= Delay(interval, jitter, c.maximum) <= c.maximum
    ensures 5 * Delay(interval, jitter, c.maximum) <= 6 * interval
  {
    assert interval * jitter <= interval * 200_000;
  }
}
