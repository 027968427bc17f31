/** Installing and uninstalling the metrics collector (pkg/agent/kubernetes_metrics_collector.go
    and kubernetes_metrics_targets.go): ordered writes to thirteen named objects, any of which
    may fail. A check and the write it guards are taken as one step. */
module Collector {
  import opened Options

  datatype Slot =
    | IngestSecret | CollectorAccount | CollectorRole | CollectorBinding | CollectorConfig | CollectorDeployment
    | KubeStateAccount | KubeStateRole | KubeStateBinding | KubeStateService | KubeStateDeployment
    | ExporterAccount | ExporterDaemonSet

  datatype Key = Named(slot: Slot) | Other(id: int)

  /** `request` is the request the object was rendered from; `exporter` says whether a scrape
      configuration lists the node exporter; `kept` is what a merging update keeps. */
  datatype Body =
    | Token(length: nat, value: int)
    | Rendered(slot: Slot, request: int, exporter: bool)
    | Foreign(id: int)

  datatype Object = Object(managed: bool, body: Body, kept: int)

  type Objects = map<Key, Object>

  datatype Read = Found(existing: Object) | Missing | ReadFailed

  datatype Written = Done | Exists | Absent | WriteFailed

  datatype Result = Success | Refused(slot: Slot) | Failed

  const MIN_TOKEN := 32

  // ---------------------------------------------------------------- the API server

  class ApiServer {
    var objects: Objects
    /** Whether any call has failed. */
    ghost var failed: bool
    /** The objects that have been updated in place. */
    ghost var updated: set<Key>

    method Get(key: Key) returns (r: Read)
      modifies this`failed
      ensures failed == (old(failed) || r.ReadFailed?)
      ensures r.Found? ==> key in objects && r.existing == objects[key]
      ensures r.Missing? ==> key !in objects
    {
      if * {
        r := ReadFailed;
        failed := true;
      } else {
        r := if key in objects then Found(objects[key]) else Missing;
      }
    }

    /** A failed write may have been carried out all the same. */
    method Create(key: Key, o: Object) returns (r: Written)
      modifies this
      ensures failed == (old(failed) || r.WriteFailed?)
      ensures updated == old(updated)
      ensures r.Done? ==> key !in old(objects) && objects == old(objects)[key := o]
      ensures r.Exists? ==> key in old(objects) && objects == old(objects)
      ensures r.WriteFailed? ==> objects == old(objects) || (key !in old(objects) && objects == old(objects)[key := o])
      ensures !r.Absent?
    {
      if * {
        failed := true;
        return WriteFailed;
      }
      if key in objects {
        return Exists;
      }
      objects := objects[key := o];
      if * {
        failed := true;
        return WriteFailed;
      }
      return Done;
    }

    method Update(key: Key, o: Object) returns (r: Written)
      modifies this
      ensures failed == (old(failed) || r.WriteFailed?)
      ensures updated == old(updated) + {key}
      ensures r.Done? ==> key in old(objects) && objects == old(objects)[key := o]
      ensures r.Absent? ==> key !in old(objects) && objects == old(objects)
      ensures r.WriteFailed? ==> objects == old(objects) || (key in old(objects) && objects == old(objects)[key := o])
      ensures !r.Exists?
    {
      updated := updated + {key};
      if * {
        failed := true;
        return WriteFailed;
      }
      if key !in objects {
        return Absent;
      }
      objects := objects[key := o];
      if * {
        failed := true;
        return WriteFailed;
      }
      return Done;
    }

    method Delete(key: Key) returns (r: Written)
      modifies this
      ensures failed == (old(failed) || r.WriteFailed?)
      ensures updated == old(updated)
      ensures r.Done? ==> key in old(objects) && objects == old(objects) - {key}
      ensures r.Absent? ==> key !in old(objects) && objects == old(objects)
      ensures r.WriteFailed? ==> objects == old(objects) || (key in old(objects) && objects == old(objects) - {key})
      ensures !r.Exists?
    {
      if * {
        failed := true;
        return WriteFailed;
      }
      if key !in objects {
        return Absent;
      }
      objects := objects - {key};
      if * {
        failed := true;
        return WriteFailed;
      }
      return Done;
    }
  }

  // ---------------------------------------------------------------- one object

  /** How an existing object is brought up to date. */
  datatype Style = Replaced | Recreated | Merged

  function StyleOf(slot: Slot): Style {
    if slot.CollectorBinding? || slot.KubeStateBinding? then Recreated
    else if slot.KubeStateService? then Merged
    else Replaced
  }

  function At(objects: Objects, key: Key): Option<Object> {
    if key in objects then Some(objects[key]) else None
  }

  /** The slot holds an object of ours with this body. */
  predicate Holds(objects: Objects, slot: Slot, body: Body) {
    At(objects, Named(slot)).Some? && At(objects, Named(slot)).value.managed
      && At(objects, Named(slot)).value.body == body
  }

  predicate IsForeign(objects: Objects, key: Key) {
    At(objects, key).Some? && !At(objects, key).value.managed
  }

  /** Nothing but `key` differs. */
  ghost predicate SameBut(before: Objects, after: Objects, key: Key) {
    forall k :: k != key ==> At(after, k) == At(before, k)
  }

  /** What one apply may do to the cluster: only its own slot changes, and never an object that
      is not ours; it ends up as it was, or ours with the wanted body, or absent, which only
      happens where it was absent or to a binding, which is recreated.  The Service keeps what the
      API Server gave it. */
  ghost predicate Touched(before: Objects, after: Objects, slot: Slot, body: Body) {
    var key := Named(slot);
    && SameBut(before, after, key)
    && (IsForeign(before, key) ==> At(after, key) == At(before, key))
    && (At(after, key) == At(before, key) || Holds(after, slot, body)
        || (key !in after && (slot.CollectorBinding? || slot.KubeStateBinding?)))
    && (At(after, key) != At(before, key) && key in after ==>
          after[key].kept == if slot.KubeStateService? && key in before then before[key].kept else 0)
  }

  method ApplyCollectorObject(api: ApiServer, slot: Slot, body: Body) returns (r: Result)
    modifies api
    ensures Touched(old(api.objects), api.objects, slot, body)
    ensures r.Success? ==> Holds(api.objects, slot, body)
    ensures (r.Failed? ==> api.failed) && (old(api.failed) ==> api.failed)
    ensures r.Refused? ==> r.slot == slot && IsForeign(old(api.objects), Named(slot)) && api.objects == old(api.objects)
    ensures slot.CollectorBinding? || slot.KubeStateBinding? ==> api.updated == old(api.updated)
  {
    var key, o := Named(slot), Object(true, body, 0);
    var current := api.Get(key);
    match current
    case ReadFailed =>
      return Failed;
    case Missing =>
      var created := api.Create(key, o);
      return if created.WriteFailed? then Failed else Success;
    case Found(existing) =>
      if !existing.managed {
        return Refused(slot);
      }
      match StyleOf(slot)
      case Replaced =>
        var updated := api.Update(key, o);
        return if updated.Done? then Success else Failed;
      case Recreated =>
        var deleted := api.Delete(key);
        if deleted.WriteFailed? {
          return Failed;
        }
        var created := api.Create(key, o);
        return if created.Done? then Success else Failed;
      case Merged =>
        var again := api.Get(key);
        if !again.Found? {
          return Failed;
        }
        var updated := api.Update(key, again.existing.(managed := true, body := body));
        return if updated.Done? then Success else Failed;
  }

  /** A usable credential is left alone, so installing twice does not invalidate it. */
  predicate HasToken(objects: Objects) {
    match At(objects, Named(IngestSecret))
    case Some(Object(managed, Token(length, _), _)) => managed && length >= 32
    case _ => false
  }

  method EnsureIngestSecret(api: ApiServer, token: Body) returns (r: Result)
    requires token.Token? && token.length >= 32
    modifies api
    ensures Touched(old(api.objects), api.objects, IngestSecret, token)
    ensures r.Success? ==> HasToken(api.objects)
    ensures r.Failed? ==> api.failed
    ensures HasToken(old(api.objects)) ==> api.objects == old(api.objects)
    ensures r.Refused? ==> r.slot == IngestSecret && IsForeign(old(api.objects), Named(IngestSecret))
    ensures r.Refused? ==> api.objects == old(api.objects)
  {
    var key, o := Named(IngestSecret), Object(true, token, 0);
    var current := api.Get(key);
    match current
    case ReadFailed =>
      return Failed;
    case Missing =>
      var created := api.Create(key, o);
      return if created.Done? then Success else Failed;
    case Found(existing) =>
      if !existing.managed {
        return Refused(IngestSecret);
      }
      if existing.body.Token? && existing.body.length >= MIN_TOKEN {
        return Success;
      }
      var updated := api.Update(key, o);
      return if updated.Done? then Success else Failed;
  }
}
