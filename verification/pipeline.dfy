/** The endpoint list end to end: what the reconciler publishes, the informer
    serves under "services", and a worker keeps after a successful poll. */
module Pipeline {
  import opened Wrappers
  import Sequences
  import Snapshots
  import Controller
  import Worker

  /** No published entry is empty: each holds at least the `.` and the `:` of `name.namespace:port`. */
  lemma {:induction false} EndpointsNonEmpty(services: seq<Controller.Service>)
    ensures forall k :: 0 <= k < |Controller.Endpoints(services)| ==> Controller.Endpoints(services)[k] != ""
  {
    if services != [] {
      var init := services[..|services| - 1];
      var svc := services[|services| - 1];
      EndpointsNonEmpty(init);
      Controller.PortEndpointsAreHttpPorts(svc, svc.ports);
      var own := Controller.PortEndpoints(svc, svc.ports);
      forall k | 0 <= k < |own| ensures own[k] != "" {
        assert |own[k]| >= 2;
      }
    }
  }

  /** A worker that fetches the informer's reply after a reconcile ends up with exactly the list
      the reconciler published: the empty-entry filter drops nothing, and a nil list stays nil. */
  lemma WorkerSeesPublished(cluster: seq<Controller.Service>)
    ensures Worker.Fetched(Worker.Reply(Worker.StatusOK, Worker.Decoded(Controller.Published(cluster))))
      == Ok(Controller.Published(cluster))
  {
    var entries := Controller.Endpoints(Controller.Selected(cluster));
    EndpointsNonEmpty(Controller.Selected(cluster));
    Sequences.FilterKeepsAll(entries, Worker.NonEmpty);
    assert Controller.Published(cluster).Entries() == entries;
  }

  /** Hence a worker's request pass after that poll sends one request per `http` port of the swarm
      services, to `http://name.namespace:port/data`, in listing order. */
  lemma WorkerRequestsPublished(cluster: seq<Controller.Service>, view: Snapshots.Snapshot, delivered: nat -> bool)
    ensures var after := Worker.AfterPoll(view, Worker.Reply(Worker.StatusOK, Worker.Decoded(Controller.Published(cluster))));
      var entries := Controller.Endpoints(Controller.Selected(cluster));
      var pass := Worker.Pass(after, delivered);
      |pass| == |entries| && forall k :: 0 <= k < |pass| ==> pass[k].url == Worker.DataUrl(entries[k])
  {
    WorkerSeesPublished(cluster);
  }
}
