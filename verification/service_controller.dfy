/** The service reconciler (internal/controller/service_controller.go): it lists
    the services labelled `app=swarm` and publishes one `"name.namespace:port"`
    entry for every port named `http`. */
module Controller {
  import opened Wrappers
  import opened Strconv
  import Strings
  import Sequences
  import Snapshots
  import Informer

  newtype int32 = x: int | -0x8000_0000 <= x < 0x8000_0000

  datatype ServicePort = ServicePort(name: string, port: int32)

  datatype Service = Service(name: string, namespace: string, labels: map<string, string>, ports: seq<ServicePort>)

  const AppLabelKey: string := "app"
  const AppLabel: string := "swarm"
  const HttpPortName: string := "http"

  /** Go's `labels[key]`: a missing key reads as the empty string. */
  function LabelValue(labels: map<string, string>, key: string): string {
    if key in labels then labels[key] else ""
  }

  /** The event filter built in `SetupWithManager`, and the selector the listing uses. */
  predicate IsSwarm(labels: map<string, string>) {
    LabelValue(labels, AppLabelKey) == AppLabel
  }

  /** The filter passes exactly the objects that carry the label `app` with value `swarm`. */
  lemma IsSwarmIff(labels: map<string, string>)
    ensures IsSwarm(labels) <==> AppLabelKey in labels && labels[AppLabelKey] == AppLabel
  {
  }

  /** `client.MatchingLabels{"app": appLabel}`: the services the listing returns, in cluster order. */
  function Selected(cluster: seq<Service>): (r: seq<Service>)
    ensures forall k :: 0 <= k < |r| ==> IsSwarm(r[k].labels)
  {
    Sequences.Filter(cluster, (s: Service) => IsSwarm(s.labels))
  }

  /** The exact, case-sensitive port-name test. */
  predicate IsHttp(p: ServicePort) {
    p.name == HttpPortName
  }

  /** One published entry: `service.Name + "." + service.Namespace + ":" + fmt.Sprint(port.Port)`. */
  function Endpoint(svc: Service, p: ServicePort): string {
    svc.name + "." + svc.namespace + ":" + Itoa(p.port as int)
  }

  /** The entries one service contributes, in port order. */
  function PortEndpoints(svc: Service, ports: seq<ServicePort>): seq<string> {
    if ports == [] then []
    else
      var p := ports[|ports| - 1];
      PortEndpoints(svc, ports[..|ports| - 1]) + (if IsHttp(p) then [Endpoint(svc, p)] else [])
  }

  /** The entries of a whole listing, in service order and then port order. */
  function Endpoints(services: seq<Service>): seq<string> {
    if services == [] then []
    else
      var svc := services[|services| - 1];
      Endpoints(services[..|services| - 1]) + PortEndpoints(svc, svc.ports)
  }

  /** One entry per `http` port, in port order: the entries are the `http` ports, formatted. */
  lemma {:induction false} PortEndpointsAreHttpPorts(svc: Service, ports: seq<ServicePort>)
    ensures |PortEndpoints(svc, ports)| == |Sequences.Filter(ports, IsHttp)|
    ensures forall k :: 0 <= k < |PortEndpoints(svc, ports)| ==>
      PortEndpoints(svc, ports)[k] == Endpoint(svc, Sequences.Filter(ports, IsHttp)[k])
  {
    if ports != [] {
      var init := ports[..|ports| - 1];
      PortEndpointsAreHttpPorts(svc, init);
      assert ports == init + [ports[|ports| - 1]];
      Sequences.FilterSnoc(init, ports[|ports| - 1], IsHttp);
    }
  }

  /** Ports none of which is named `http` give no entry. */
  lemma {:induction false} NoHttpPortEndpoints(svc: Service, ports: seq<ServicePort>)
    requires forall k :: 0 <= k < |ports| ==> !IsHttp(ports[k])
    ensures PortEndpoints(svc, ports) == []
  {
    if ports != [] {
      NoHttpPortEndpoints(svc, ports[..|ports| - 1]);
    }
  }

  /** A service with no port named exactly `http` contributes nothing. */
  lemma NoHttpPortNoEntry(services: seq<Service>, svc: Service)
    requires forall k :: 0 <= k < |svc.ports| ==> !IsHttp(svc.ports[k])
    ensures Endpoints(services + [svc]) == Endpoints(services)
  {
    NoHttpPortEndpoints(svc, svc.ports);
    assert (services + [svc])[..|services|] == services;
    assert Endpoints(services) + [] == Endpoints(services);
  }

  /** Service order is kept: the entries of a concatenated listing are concatenated. */
  lemma {:induction false} EndpointsAppend(a: seq<Service>, b: seq<Service>)
    ensures Endpoints(a + b) == Endpoints(a) + Endpoints(b)
  {
    if b == [] {
      assert a + b == a;
      assert Endpoints(a) + [] == Endpoints(a);
    } else {
      var init := b[..|b| - 1];
      var last := b[|b| - 1];
      var own := PortEndpoints(last, last.ports);
      EndpointsAppend(a, init);
      assert (a + b)[..|a + b| - 1] == a + init;
      assert (a + b)[|a + b| - 1] == last;
      assert Endpoints(a + b) == Endpoints(a + init) + own;
      assert Endpoints(b) == Endpoints(init) + own;
      assert (Endpoints(a) + Endpoints(init)) + own == Endpoints(a) + (Endpoints(init) + own);
    }
  }

  /** Port order is kept within a service. */
  lemma {:induction false} PortEndpointsAppend(svc: Service, a: seq<ServicePort>, b: seq<ServicePort>)
    ensures PortEndpoints(svc, a + b) == PortEndpoints(svc, a) + PortEndpoints(svc, b)
  {
    if b == [] {
      assert a + b == a;
      assert PortEndpoints(svc, a) + [] == PortEndpoints(svc, a);
    } else {
      var init := b[..|b| - 1];
      var last := b[|b| - 1];
      var own := if IsHttp(last) then [Endpoint(svc, last)] else [];
      PortEndpointsAppend(svc, a, init);
      assert (a + b)[..|a + b| - 1] == a + init;
      assert (a + b)[|a + b| - 1] == last;
      assert PortEndpoints(svc, a + b) == PortEndpoints(svc, a + init) + own;
      assert PortEndpoints(svc, b) == PortEndpoints(svc, init) + own;
      assert (PortEndpoints(svc, a) + PortEndpoints(svc, init)) + own
        == PortEndpoints(svc, a) + (PortEndpoints(svc, init) + own);
    }
  }

  /** The index of the last ':' in `s`, or -1. */
  function LastColon(s: string): (r: int)
    ensures -1 <= r < |s|
    ensures r >= 0 ==> s[r] == ':'
    ensures forall k :: r < k < |s| ==> s[k] != ':'
  {
    if s == [] then -1
    else if s[|s| - 1] == ':' then |s| - 1
    else LastColon(s[..|s| - 1])
  }

  /** Host and port of a `host:port` string, split at the last colon as `net.SplitHostPort` does. */
  function SplitHostPort(s: string): Option<(string, string)> {
    var i := LastColon(s);
    if i < 0 then None else Some((s[..i], s[i + 1..]))
  }

  /** The last colon of `host:port` is the one before the port when the port has none. */
  lemma {:induction false} LastColonBeforePort(host: string, port: string)
    requires ':' !in port
    ensures LastColon(host + ":" + port) == |host|
    decreases |port|
  {
    var e := host + ":" + port;
    if port == [] {
      assert e == host + [':'];
    } else {
      var init := port[..|port| - 1];
      assert port[|port| - 1] in port;
      LastColonBeforePort(host, init);
      assert e[..|e| - 1] == host + ":" + init;
    }
  }

  /** Format partner: an entry splits back into `name.namespace` and the port, which parses back. */
  lemma EndpointRoundTrip(svc: Service, p: ServicePort)
    ensures SplitHostPort(Endpoint(svc, p)) == Some((svc.name + "." + svc.namespace, Itoa(p.port as int)))
    ensures Atoi(Itoa(p.port as int)) == Some(p.port as int)
  {
    var host := svc.name + "." + svc.namespace;
    var digits := Itoa(p.port as int);
    var e := Endpoint(svc, p);
    assert e == host + ":" + digits;
    if ':' in digits {
      ItoaChars(p.port as int, ':');
    }
    LastColonBeforePort(host, digits);
    assert e[..|host|] == host;
    assert e[|host| + 1..] == digits;
    AtoiItoa(p.port as int);
  }

  /** The reconcile loop: the nested `for ... range` appending to `serviceNames`, which starts nil. */
  method ExtractEndpoints(services: seq<Service>) returns (serviceNames: Snapshots.Snapshot)
    ensures serviceNames == Snapshots.Built(Endpoints(services))
  {
    serviceNames := Snapshots.Null;
    for i := 0 to |services|
      invariant serviceNames == Snapshots.Built(Endpoints(services[..i]))
    {
      var service := services[i];
      for j := 0 to |service.ports|
        invariant serviceNames == Snapshots.Built(Endpoints(services[..i]) + PortEndpoints(service, service.ports[..j]))
      {
        var port := service.ports[j];
        assert service.ports[..j + 1][..j] == service.ports[..j];
        if port.name == HttpPortName {
          serviceNames := Snapshots.Append(serviceNames, Endpoint(service, port));
        }
      }
      assert service.ports[..|service.ports|] == service.ports;
      assert services[..i + 1][..i] == services[..i];
    }
    assert services[..|services|] == services;
  }

  /** What one successful reconcile publishes for the given cluster state. */
  function Published(cluster: seq<Service>): Snapshots.Snapshot {
    Snapshots.Built(Endpoints(Selected(cluster)))
  }

  /** The reconciler holds the sending end of the hand-off channel: here, the registry it feeds. */
  class ServiceReconciler {
    const commChan: Informer.Registry

    constructor (commChan: Informer.Registry)
      ensures this.commChan == commChan
    {
      this.commChan := commChan;
    }

    /** `Reconcile`: list the swarm services (`cluster` is the outcome of the listing call over
        the cluster's services), then publish one snapshot; a listing error is returned and nothing is published. */
    method Reconcile(cluster: Result<seq<Service>, string>) returns (err: Option<string>)
      requires commChan.Valid()
      modifies commChan
      ensures commChan.Valid()
      ensures cluster.Err? ==> err == Some(cluster.error) && unchanged(commChan)
      ensures cluster.Ok? ==> err.None?
      ensures cluster.Ok? ==> commChan.received == old(commChan.received) + [Published(cluster.value)]
    {
      if cluster.Err? {
        return Some(cluster.error);
      }
      var services := Selected(cluster.value);
      var serviceNames := ExtractEndpoints(services);
      commChan.Receive(serviceNames);
      return None;
    }
  }
}
