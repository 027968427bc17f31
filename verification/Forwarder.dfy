/** Metrics forwarding (pkg/agent/metrics_ingest.go): the session that requests share. */
module Forwarder {
  import opened Options

  /** A session by its number in the order of creation. */
  datatype Ref = Ref(id: nat, connection: nat)

  /** What the mutex protects. */
  datatype Published = Published(connection: Option<nat>, session: Option<Ref>)

  function Attached(connection: nat): Published {
    Published(Some(connection), None)
  }

  const DETACHED := Published(None, None)

  /** A session opened on the attached connection. */
  function Opened(p: Published, id: nat): Published
    requires p.connection.Some?
  {
    p.(session := Some(Ref(id, p.connection.value)))
  }

  /** Only the caller's own session is cleared; another may have replaced it already. */
  function Discarded(p: Published, mine: Ref): Published {
    if p.session == Some(mine) then p.(session := None) else p
  }

  /** A published session belongs to the attached connection, and is not a future one. */
  predicate IsCurrent(p: Published, created: nat) {
    p.session.Some? ==> p.connection == Some(p.session.value.connection) && p.session.value.id < created
  }

  class Session {
    const connection: nat
    ghost const id: nat

    constructor (c: nat, ghost number: nat)
      ensures connection == c && id == number
    {
      connection, id := c, number;
    }

    ghost function View(): Ref {
      Ref(id, connection)
    }
  }

  datatype Acquired = Got(session: Session) | Unavailable | OpenFailed

  class MetricsIngestForwarder {
    var connection: Option<nat>
    var session: Session?
    /** Every session ever opened, in order. */
    ghost var created: seq<Session>

    ghost predicate Owns(s: Session)
      reads this
    {
      s.id < |created| && created[s.id] == s
    }

    ghost predicate Valid()
      reads this
    {
      (session != null ==> Owns(session)) && IsCurrent(State(), |created|)
    }

    ghost function State(): Published
      reads this
    {
      Published(connection, if session == null then None else Some(session.View()))
    }

    constructor ()
      ensures Valid() && State() == DETACHED && created == []
    {
      connection, session, created := None, null, [];
    }

    method Attach(established: nat)
      requires Valid()
      modifies this
      ensures Valid() && State() == Attached(established) && created == old(created)
    {
      connection := Some(established);
      session := null;
    }

    /** The session it returns, if any, is aborted outside the lock. */
    method Detach() returns (aborted: Session?)
      requires Valid()
      modifies this
      ensures Valid() && State() == DETACHED && created == old(created) && aborted == old(session)
    {
      aborted := session;
      connection := None;
      session := null;
    }

    /** `opens` says whether opening a Stream succeeds. */
    method Acquire(opens: bool) returns (result: Acquired)
      requires Valid()
      modifies this
      ensures Valid()
      ensures old(State()).session.Some? ==>
                State() == old(State()) && created == old(created) && result == Got(old(session))
      ensures old(State()).session.None? && old(State()).connection.Some? && opens ==>
                && State() == Opened(old(State()), old(|created|))
                && session != null && result == Got(session) && created == old(created) + [session]
      ensures old(State()).session.None? && (old(State()).connection.None? || !opens) ==>
                && State() == old(State()) && created == old(created)
                && result == if old(State()).connection.None? then Unavailable else OpenFailed
    {
      if session != null {
        return Got(session);
      }
      if connection == None {
        return Unavailable;
      }
      if !opens {
        return OpenFailed;
      }
      session := new Session(connection.value, |created|);
      created := created + [session];
      return Got(session);
    }

    method Discard(mine: Session)
      requires Valid() && Owns(mine)
      modifies this
      ensures Valid() && State() == Discarded(old(State()), mine.View()) && created == old(created)
    {
      if session == mine {
        session := null;
      }
    }
  }
}
