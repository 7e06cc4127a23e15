/** The informer's registry (pkg/informer/informer.go): one process-wide
    snapshot of the endpoint list, replaced wholesale by every value taken off the
    hand-off channel and served read-only on `GET /services`. The hand-off is
    modelled as a synchronous call to `Receive`. */
module Informer {
  import opened Wrappers
  import opened Snapshots

  /** A `gin` JSON reply: a status code and the top-level object. */
  datatype Response = Response(status: int, body: map<string, Snapshot>)

  /** What the consumer loop's `select` can see next: a value on the channel, or the context being done. */
  datatype Event = Update(snapshot: Snapshot) | Done

  /** The stored snapshot after `received` arrived in order, starting from `initial`. */
  function Latest(initial: Snapshot, received: seq<Snapshot>): (r: Snapshot)
    ensures r == initial || r in received
  {
    if received == [] then initial else received[|received| - 1]
  }

  /** The values the consumer loop takes: the updates before the first `Done`, in order. */
  function Delivered(events: seq<Event>): (r: seq<Snapshot>)
    ensures |r| <= |events|
  {
    if events == [] then []
    else match events[0]
      case Done => []
      case Update(s) => [s] + Delivered(events[1..])
  }

  /** Without a `Done`, every update is taken, in send order, and none is dropped. */
  lemma {:induction false} DeliveredAll(events: seq<Event>)
    requires forall k :: 0 <= k < |events| ==> events[k].Update?
    ensures |Delivered(events)| == |events|
    ensures forall k :: 0 <= k < |events| ==> Delivered(events)[k] == events[k].snapshot
  {
    if events != [] {
      DeliveredAll(events[1..]);
    }
  }

  /** Once the context is done, nothing sent afterwards is applied. */
  lemma {:induction false} DeliveredStopsAtDone(events: seq<Event>, k: nat)
    requires k < |events| && events[k] == Done
    ensures Delivered(events) == Delivered(events[..k])
  {
    if k > 0 {
      DeliveredStopsAtDone(events[1..], k - 1);
      assert events[1..][..k - 1] == events[..k][1..];
    }
  }

  lemma LatestCons(initial: Snapshot, s: Snapshot, rest: seq<Snapshot>)
    ensures Latest(initial, [s] + rest) == Latest(s, rest)
  {
  }

  /** `Start`'s own result: the router setup error, else the server's error, else success. */
  function StartResult(trustedProxiesErr: Option<string>, listenErr: Option<string>): (r: Option<string>)
    ensures r.None? <==> trustedProxiesErr.None? && listenErr.None?
    ensures trustedProxiesErr.Some? ==> r == trustedProxiesErr
    ensures trustedProxiesErr.None? ==> r == listenErr
  {
    if trustedProxiesErr.Some? then trustedProxiesErr else listenErr
  }

  class Registry {
    /** The `serviceList` global. */
    var serviceList: Snapshot
    /** Every value taken off the channel so far, in order. */
    ghost var received: seq<Snapshot>

    /** The stored list is the last value received, or the initial empty list. */
    ghost predicate Valid()
      reads this
    {
      serviceList == Latest(Empty, received)
    }

    constructor ()
      ensures Valid() && received == [] && serviceList == Empty
    {
      serviceList := Empty;
      received := [];
    }

    /** `case serviceList = <-i.commChan`: the stored list is replaced wholesale. */
    method Receive(snapshot: Snapshot)
      requires Valid()
      modifies this
      ensures Valid()
      ensures serviceList == snapshot
      ensures received == old(received) + [snapshot]
    {
      serviceList := snapshot;
      received := received + [snapshot];
    }

    /** `getServices`: status 200 and the current list under "services"; nothing changes. */
    method Query() returns (resp: Response)
      ensures resp.status == 200
      ensures resp.body.Keys == {"services"} && resp.body["services"] == serviceList
    {
      resp := Response(200, map["services" := serviceList]);
    }

    /** The consumer goroutine of `Informer.Start`: take values until the context is done. */
    method Consume(events: seq<Event>)
      requires Valid()
      modifies this
      ensures Valid()
      ensures received == old(received) + Delivered(events)
      ensures serviceList == Latest(old(serviceList), Delivered(events))
    {
      var rest := events;
      while rest != [] && rest[0].Update?
        invariant Valid()
        invariant old(received) + Delivered(events) == received + Delivered(rest)
        invariant Latest(old(serviceList), Delivered(events)) == Latest(serviceList, Delivered(rest))
        decreases |rest|
      {
        var s := rest[0].snapshot;
        LatestCons(serviceList, s, Delivered(rest[1..]));
        Receive(s);
        rest := rest[1..];
      }
    }
  }
}
