/**
 * The subscriber registry (primitive/backend/app/notifier.py): for each job
 * id, the set of WebSocket connections that want its messages. The registry
 * never keeps a job id whose set has become empty.
 *
 * A connection is identified by a number. The asyncio lock only serialises
 * the three operations, which are modelled as sequential methods.
 */
module Notification {

  /** A WebSocket connection. */
  type SocketId = nat

  type Registry = map<string, set<SocketId>>

  /** The invariant the registry keeps: no job id maps to an empty set. */
  predicate NoEmptySets(subs: Registry) {
    forall jobId | jobId in subs :: subs[jobId] != {}
  }

  /** `self._subscribers.get(job_id, set())`. */
  function Targets(subs: Registry, jobId: string): set<SocketId> {
    if jobId in subs then subs[jobId] else {}
  }

  /** The registry after `subscribe(job_id, ws)`. */
  function Subscribed(subs: Registry, jobId: string, ws: SocketId): Registry {
    subs[jobId := Targets(subs, jobId) + {ws}]
  }

  /** The registry after `unsubscribe(job_id, ws)`. */
  function Unsubscribed(subs: Registry, jobId: string, ws: SocketId): Registry {
    if jobId !in subs then subs
    else
      var rest := subs[jobId] - {ws};
      if rest == {} then subs - {jobId} else subs[jobId := rest]
  }

  /** Every job id other than `jobId` keeps its entry. */
  ghost predicate OthersUnchanged(before: Registry, after: Registry, jobId: string) {
    forall other | other != jobId :: (other in after <==> other in before) && (other in after ==> after[other] == before[other])
  }

  /** After subscribing, the socket is among the job's subscribers, which gained only it; other jobs keep theirs. */
  lemma SubscribeAdds(subs: Registry, jobId: string, ws: SocketId)
    ensures var r := Subscribed(subs, jobId, ws);
      && jobId in r && r[jobId] == Targets(subs, jobId) + {ws}
      && OthersUnchanged(subs, r, jobId)
  {
  }

  /** The container is a set: subscribing the same socket twice is subscribing it once. */
  lemma SubscribeIdempotent(subs: Registry, jobId: string, ws: SocketId)
    ensures Subscribed(Subscribed(subs, jobId, ws), jobId, ws) == Subscribed(subs, jobId, ws)
  {
    var once := Subscribed(subs, jobId, ws);
    assert Targets(once, jobId) + {ws} == Targets(once, jobId);
  }

  /** After unsubscribing, the socket is not a subscriber of the job; other jobs keep their sets. */
  lemma UnsubscribeRemoves(subs: Registry, jobId: string, ws: SocketId)
    ensures var r := Unsubscribed(subs, jobId, ws);
      && ws !in Targets(r, jobId)
      && Targets(r, jobId) == Targets(subs, jobId) - {ws}
      && OthersUnchanged(subs, r, jobId)
  {
  }

  /** Both operations keep the invariant. */
  lemma OperationsKeepNoEmptySets(subs: Registry, jobId: string, ws: SocketId)
    requires NoEmptySets(subs)
    ensures NoEmptySets(Subscribed(subs, jobId, ws))
    ensures NoEmptySets(Unsubscribed(subs, jobId, ws))
  {
  }

  /** Unsubscribing from an unknown job, or a socket that is not subscribed, changes nothing. */
  lemma UnsubscribeNonMemberNoOp(subs: Registry, jobId: string, ws: SocketId)
    requires NoEmptySets(subs)
    requires ws !in Targets(subs, jobId)
    ensures Unsubscribed(subs, jobId, ws) == subs
  {
    if jobId in subs {
      assert subs[jobId] - {ws} == subs[jobId];
      assert subs[jobId := subs[jobId]] == subs;
    }
  }

  /** Subscribing a new socket and unsubscribing it again restores the registry. */
  lemma UnsubscribeUndoesSubscribe(subs: Registry, jobId: string, ws: SocketId)
    requires NoEmptySets(subs)
    requires ws !in Targets(subs, jobId)
    ensures Unsubscribed(Subscribed(subs, jobId, ws), jobId, ws) == subs
  {
    var once := Subscribed(subs, jobId, ws);
    assert once[jobId] - {ws} == Targets(subs, jobId);
    if jobId in subs {
      assert once[jobId := subs[jobId]] == subs;
    } else {
      assert once - {jobId} == subs;
    }
  }

  class Notifier {
    var subscribers: Registry

    constructor ()
      ensures subscribers == map[] && NoEmptySets(subscribers)
    {
      subscribers := map[];
    }

    /** `setdefault(job_id, set()).add(ws)`. */
    method Subscribe(jobId: string, ws: SocketId)
      modifies this
      ensures subscribers == Subscribed(old(subscribers), jobId, ws)
      ensures NoEmptySets(old(subscribers)) ==> NoEmptySets(subscribers)
    {
      var sockets := if jobId in subscribers then subscribers[jobId] else {};
      subscribers := subscribers[jobId := sockets];
      subscribers := subscribers[jobId := subscribers[jobId] + {ws}];
      if NoEmptySets(old(subscribers)) {
        OperationsKeepNoEmptySets(old(subscribers), jobId, ws);
      }
    }

    /** `discard(ws)`, then `del` of the entry once its set is empty. */
    method Unsubscribe(jobId: string, ws: SocketId)
      modifies this
      ensures subscribers == Unsubscribed(old(subscribers), jobId, ws)
      ensures NoEmptySets(old(subscribers)) ==> NoEmptySets(subscribers)
    {
      if jobId in subscribers {
        subscribers := subscribers[jobId := subscribers[jobId] - {ws}];
        if subscribers[jobId] == {} {
          subscribers := subscribers - {jobId};
        }
      }
      if NoEmptySets(old(subscribers)) {
        OperationsKeepNoEmptySets(old(subscribers), jobId, ws);
      }
    }

    /**
     * `broadcast(job_id, data)`: a snapshot of the job's subscribers is
     * taken, then each is sent `data` in turn; `failing` are the
     * connections whose send raises. Every target is tried exactly once, a
     * failure is swallowed and stops nothing, and the registry is left as it
     * was: a failing connection stays subscribed.
     */
    method Broadcast(jobId: string, failing: set<SocketId>) returns (attempted: seq<SocketId>, delivered: set<SocketId>)
      ensures |attempted| == |Targets(subscribers, jobId)|
      ensures forall ws :: ws in attempted <==> ws in Targets(subscribers, jobId)
      ensures delivered == Targets(subscribers, jobId) - failing
    {
      var targets := Targets(subscribers, jobId);
      var rest := targets;
      attempted, delivered := [], {};
      while rest != {}
        invariant rest <= targets
        invariant forall ws :: ws in attempted <==> ws in targets - rest
        invariant |attempted| + |rest| == |targets|
        invariant delivered == (targets - rest) - failing
        decreases |rest|
      {
        var ws :| ws in rest;
        attempted := attempted + [ws];
        if ws !in failing {
          delivered := delivered + {ws};
        }
        rest := rest - {ws};
      }
    }
  }
}
