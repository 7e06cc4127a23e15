/** The worker (pkg/worker/worker.go): it polls the informer for the endpoint
    list, keeps the last list it fetched successfully, and in each request pass
    sends `GET /data` to every entry of that list in order. It also answers
    `GET /data` with its own identity. */
module Worker {
  import opened Wrappers
  import opened Strconv
  import Sequences
  import opened Snapshots

  /** What reading and decoding the body of a 200 reply gives. */
  datatype Body = ReadFailed(msg: string) | Malformed(msg: string) | Decoded(services: Snapshot)

  /** The outcome of `http.Get`: a transport error, or a reply with a status code and a body. */
  datatype HttpOutcome = TransportError(msg: string) | Reply(status: int, body: Body)

  const StatusOK: int := 200

  function NonOkMessage(status: int): string {
    "server returned non-200 status code: " + Itoa(status)
  }

  predicate NonEmpty(s: string) {
    s != ""
  }

  /** What `fetchServices` returns for a given reply: the decoded list with every
      empty entry dropped, or the error of the first step that failed. */
  function Fetched(resp: HttpOutcome): (r: Result<Snapshot, string>)
    ensures r.Ok? <==> resp.Reply? && resp.status == StatusOK && resp.body.Decoded?
    ensures resp.Reply? && resp.status != StatusOK ==> r == Err(NonOkMessage(resp.status))
    ensures r.Ok? ==> "" !in r.value.Entries()
    ensures r.Ok? ==> |r.value.Entries()| <= |resp.body.services.Entries()|
  {
    match resp
    case TransportError(msg) => Err(msg)
    case Reply(status, body) =>
      if status != StatusOK then Err(NonOkMessage(status))
      else match body
        case ReadFailed(msg) => Err(msg)
        case Malformed(msg) => Err(msg)
        case Decoded(services) => Ok(Built(Sequences.Filter(services.Entries(), NonEmpty)))
  }

  /** `fetchServices`, with its filtering loop. */
  method FetchServices(resp: HttpOutcome) returns (r: Result<Snapshot, string>)
    ensures r == Fetched(resp)
  {
    if resp.TransportError? {
      return Err(resp.msg);
    }
    if resp.status != StatusOK {
      return Err(NonOkMessage(resp.status));
    }
    match resp.body
    case ReadFailed(msg) => return Err(msg);
    case Malformed(msg) => return Err(msg);
    case Decoded(data) =>
      var decoded := data.Entries();
      var services := Null;
      for i := 0 to |decoded|
        invariant services == Built(Sequences.Filter(decoded[..i], NonEmpty))
      {
        Sequences.FilterPrefix(decoded, i, NonEmpty);
        if decoded[i] != "" {
          services := Append(services, decoded[i]);
        }
      }
      assert decoded[..|decoded|] == decoded;
      return Ok(services);
  }

  /** The fetched list is the decoded list minus its empty entries, in the original order:
      an entry is kept exactly when it was sent and is not empty. */
  lemma FetchedEntries(services: Snapshot, x: string)
    ensures Fetched(Reply(StatusOK, Decoded(services))).Ok?
    ensures x in Fetched(Reply(StatusOK, Decoded(services))).value.Entries() <==> x in services.Entries() && x != ""
  {
    Sequences.FilterMembership(services.Entries(), NonEmpty, x);
  }

  /** The URL a request pass sends to for one entry. */
  function DataUrl(entry: string): string {
    "http://" + entry + "/data"
  }

  /** Distinct entries are sent to distinct URLs. */
  lemma DataUrlInjective(a: string, b: string)
    requires DataUrl(a) == DataUrl(b)
    ensures a == b
  {
    assert a == DataUrl(a)[7..|DataUrl(a)| - 5];
    assert b == DataUrl(b)[7..|DataUrl(b)| - 5];
  }

  /** One request of a pass: where it went, and whether it got through (`http.Get` returned no error). */
  datatype Request = Request(url: string, delivered: bool)

  /** A pass over `view`: one request per entry, in order, whatever happens to the earlier ones.
      `delivered(k)` is the outcome of the pass's `k`-th request, each request having its own. */
  function Pass(view: Snapshot, delivered: nat -> bool): (r: seq<Request>)
    ensures |r| == |view.Entries()|
    ensures forall k :: 0 <= k < |r| ==> r[k].url == DataUrl(view.Entries()[k])
  {
    seq(|view.Entries()|, k requires 0 <= k < |view.Entries()| =>
      Request(DataUrl(view.Entries()[k]), delivered(k)))
  }

  /** The view after one poll: replaced by a successful fetch, kept after a failed one. */
  function AfterPoll(view: Snapshot, resp: HttpOutcome): (r: Snapshot)
    ensures Fetched(resp).Err? ==> r == view
    ensures Fetched(resp).Ok? ==> r == Fetched(resp).value
  {
    match Fetched(resp)
    case Ok(services) => services
    case Err(_) => view
  }

  /** What the two loops of `client` and `pollServiceList` can do next, taken one at a time. */
  datatype Step = Tick(resp: HttpOutcome) | RequestRound(delivered: nat -> bool) | Done

  /** The view and the passes after a sequence of steps; nothing happens after `Done`. */
  function ClientRun(view: Snapshot, steps: seq<Step>): (Snapshot, seq<seq<Request>>)
    decreases |steps|
  {
    if steps == [] then (view, [])
    else match steps[0]
      case Done => (view, [])
      case Tick(resp) => ClientRun(AfterPoll(view, resp), steps[1..])
      case RequestRound(delivered) =>
        var (v, passes) := ClientRun(view, steps[1..]);
        (v, [Pass(view, delivered)] + passes)
  }

  /** Once the context is done, neither loop does anything more. */
  lemma {:induction false} RunStopsAtDone(view: Snapshot, steps: seq<Step>, k: nat)
    requires k < |steps| && steps[k] == Done
    ensures ClientRun(view, steps) == ClientRun(view, steps[..k])
    decreases k
  {
    if k > 0 {
      assert steps[..k][1..] == steps[1..][..k - 1];
      match steps[0]
      case Done =>
      case Tick(resp) => RunStopsAtDone(AfterPoll(view, resp), steps[1..], k - 1);
      case RequestRound(_) => RunStopsAtDone(view, steps[1..], k - 1);
    }
  }

  /** Failed polls change nothing: a run of failed polls leaves the view as it was. */
  lemma {:induction false} FailedPollsKeepView(view: Snapshot, steps: seq<Step>)
    requires forall k :: 0 <= k < |steps| ==> steps[k].Tick? && Fetched(steps[k].resp).Err?
    ensures ClientRun(view, steps) == (view, [])
  {
    if steps != [] {
      FailedPollsKeepView(view, steps[1..]);
    }
  }

  /** The worker's local copy of the endpoint list (the `serviceList` global). */
  class WorkerView {
    var serviceList: Snapshot

    constructor ()
      ensures serviceList == Empty
    {
      serviceList := Empty;
    }

    /** One tick of `pollServiceList`: a successful fetch replaces the view wholesale, a failed one leaves it alone. */
    method Poll(resp: HttpOutcome)
      modifies this
      ensures serviceList == AfterPoll(old(serviceList), resp)
    {
      var newServices := FetchServices(resp);
      if newServices.Err? {
        return;
      }
      serviceList := newServices.value;
    }

    /** One `for _, service := range serviceList` pass of `client`: the view is read once, at the start;
        `delivered(k)` is whether the `k`-th request of the pass gets through. */
    method RequestPass(delivered: nat -> bool) returns (sent: seq<Request>)
      ensures |sent| == |serviceList.Entries()|
      ensures forall k :: 0 <= k < |sent| ==>
        sent[k] == Request(DataUrl(serviceList.Entries()[k]), delivered(k))
    {
      var services := serviceList.Entries();
      sent := [];
      for i := 0 to |services|
        invariant |sent| == i
        invariant forall k :: 0 <= k < i ==> sent[k] == Request(DataUrl(services[k]), delivered(k))
      {
        var url := DataUrl(services[i]);
        var ok := delivered(i);
        sent := sent + [Request(url, ok)];
        if !ok {
          continue;
        }
      }
    }

    /** The two loops of the worker client, interleaved one step at a time, until the context is done. */
    method Run(steps: seq<Step>) returns (passes: seq<seq<Request>>)
      modifies this
      ensures (serviceList, passes) == ClientRun(old(serviceList), steps)
    {
      var rest := steps;
      passes := [];
      while rest != [] && !rest[0].Done?
        invariant ClientRun(old(serviceList), steps).0 == ClientRun(serviceList, rest).0
        invariant ClientRun(old(serviceList), steps).1 == passes + ClientRun(serviceList, rest).1
        decreases |rest|
      {
        var step := rest[0];
        rest := rest[1..];
        if step.Tick? {
          Poll(step.resp);
        } else {
          var sent := RequestPass(step.delivered);
          assert sent == Pass(serviceList, step.delivered);
          passes := passes + [sent];
        }
      }
      assert ClientRun(serviceList, rest) == (serviceList, []);
      assert passes + [] == passes;
    }
  }

  /** `os.Getenv`: an unset variable reads as the empty string. */
  function Getenv(env: map<string, string>, key: string): string {
    if key in env then env[key] else ""
  }

  /** `getData`: exactly five fields, each read from its environment variable. */
  function GetData(env: map<string, string>): (r: map<string, string>)
    ensures r.Keys == {"clusterName", "podName", "podNamespace", "podIP", "nodeName"}
    ensures r["clusterName"] == Getenv(env, "CLUSTER_NAME") && r["podName"] == Getenv(env, "POD_NAME")
    ensures r["podNamespace"] == Getenv(env, "POD_NAMESPACE") && r["podIP"] == Getenv(env, "POD_IP")
    ensures r["nodeName"] == Getenv(env, "NODE_NAME")
  {
    map[
      "clusterName" := Getenv(env, "CLUSTER_NAME"),
      "podName" := Getenv(env, "POD_NAME"),
      "podNamespace" := Getenv(env, "POD_NAMESPACE"),
      "podIP" := Getenv(env, "POD_IP"),
      "nodeName" := Getenv(env, "NODE_NAME")]
  }
}
