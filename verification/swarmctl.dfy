/** The installer's commands (cmd/swarmctl/pkg/swarmctl/swarmctl.go): dumping the
    embedded templates, rendering worker manifests for a range of namespaces,
    selecting and confirming the target contexts, and applying the manifests to
    every selected context. Template parsing and rendering, the embedded files,
    the file system and stdin are inputs: a template is represented by the values
    it is executed with, and a rendering by its outcome. */
module Swarmctl {
  import opened Wrappers
  import opened Strings
  import opened Strconv
  import Util
  import K8sCtx
  import Sequences

  /** `InstallWorkerTelemetryValidArgs`: completions by the number of arguments already given. */
  function InstallWorkerTelemetryValidArgs(args: seq<string>): seq<string> {
    if |args| == 0 then ["1:1"]
    else if |args| == 1 then ["on", "off"]
    else []
  }

  /** The completions follow the command's usage `<start:end> (on|off)`: first a range that
      `ParseRange` accepts, then the two switch values, then nothing. */
  lemma ValidArgsFollowUsage(args: seq<string>)
    ensures var r := InstallWorkerTelemetryValidArgs(args);
      |args| == 0 ==> |r| == 1 && Util.ParseRange(r[0]) == Util.Range(1, 1, None)
    ensures |args| == 1 ==> InstallWorkerTelemetryValidArgs(args) == ["on", "off"]
    ensures |args| >= 2 ==> InstallWorkerTelemetryValidArgs(args) == []
  {
    Util.ParseRangeRoundTrip(1, 1);
    assert Itoa(1) + ":" + Itoa(1) == "1:1";
  }

  // ---------------------------------------------------------------------------
  // Dump
  // ---------------------------------------------------------------------------

  const DefaultComponents: seq<string> := ["informer", "worker"]

  /** The components `Dump` processes. */
  function DumpComponents(args: seq<string>): seq<string> {
    if |args| == 0 then DefaultComponents else args
  }

  /** Where `Dump` sends one component: the template text to stdout, or to `<dir>/<component>.goyaml`. */
  datatype Written = ToStdout(data: string) | ToFile(path: string, data: string)

  datatype DumpError = MkdirFailed(msg: string) | AssetMissing(component: string)

  function AssetPath(component: string): string {
    "assets/" + component + ".goyaml"
  }

  function Output(component: string, data: string, stdout: bool, swarmDir: string): Written {
    if stdout then ToStdout(data) else ToFile(swarmDir + "/" + component + ".goyaml", data)
  }

  /** The outputs of the loop over `components`, stopping at the first component without an
      embedded template. */
  function Dumped(components: seq<string>, stdout: bool, swarmDir: string, assets: map<string, string>)
    : (r: (seq<Written>, Option<DumpError>))
    ensures |r.0| <= |components|
    ensures r.1.None? <==> forall k :: 0 <= k < |components| ==> AssetPath(components[k]) in assets
    ensures r.1.None? ==> |r.0| == |components|
    ensures r.1.Some? ==> (|r.0| < |components| && r.1 == Some(AssetMissing(components[|r.0|])) &&
      AssetPath(components[|r.0|]) !in assets)
    ensures forall k :: 0 <= k < |r.0| ==>
      AssetPath(components[k]) in assets && r.0[k] == Output(components[k], assets[AssetPath(components[k])], stdout, swarmDir)
  {
    if components == [] then ([], None)
    else
      var c := components[0];
      if AssetPath(c) !in assets then ([], Some(AssetMissing(c)))
      else
        var rest := Dumped(components[1..], stdout, swarmDir, assets);
        assert forall k :: 1 <= k < |components| ==> components[1..][k - 1] == components[k];
        ([Output(c, assets[AssetPath(c)], stdout, swarmDir)] + rest.0, rest.1)
  }

  /** `Dump`: `mkdirErr` is the outcome of creating the directory, which only file output needs. */
  method Dump(args: seq<string>, stdout: bool, swarmDir: string, assets: map<string, string>,
              mkdirErr: Option<string>) returns (written: seq<Written>, err: Option<DumpError>)
    ensures !stdout && mkdirErr.Some? ==> written == [] && err == Some(MkdirFailed(mkdirErr.value))
    ensures stdout || mkdirErr.None? ==> (written, err) == Dumped(DumpComponents(args), stdout, swarmDir, assets)
  {
    var components := args;
    if |components| == 0 {
      components := DefaultComponents;
    }
    if !stdout && mkdirErr.Some? {
      return [], Some(MkdirFailed(mkdirErr.value));
    }
    written := [];
    for i := 0 to |components|
      invariant |written| == i
      invariant forall k :: 0 <= k < i ==>
        AssetPath(components[k]) in assets && written[k] == Output(components[k], assets[AssetPath(components[k])], stdout, swarmDir)
    {
      var c := components[i];
      if AssetPath(c) !in assets {
        ghost var d := Dumped(components, stdout, swarmDir, assets);
        assert d.1.Some? && |d.0| <= i;
        assert |d.0| == i;
        assert written == d.0 && components == DumpComponents(args);
        return written, Some(AssetMissing(c));
      }
      written := written + [Output(c, assets[AssetPath(c)], stdout, swarmDir)];
    }
    ghost var d := Dumped(components, stdout, swarmDir, assets);
    assert d.1.None? && |d.0| == |written|;
    assert written == d.0 && components == DumpComponents(args);
    return written, None;
  }

  /** With no arguments `Dump` writes the informer template and then the worker template. */
  lemma DumpDefault(stdout: bool, swarmDir: string, assets: map<string, string>)
    requires AssetPath("informer") in assets && AssetPath("worker") in assets
    ensures Dumped(DumpComponents([]), stdout, swarmDir, assets) ==
      ([Output("informer", assets[AssetPath("informer")], stdout, swarmDir),
        Output("worker", assets[AssetPath("worker")], stdout, swarmDir)], None)
  {
    var worker := Output("worker", assets[AssetPath("worker")], stdout, swarmDir);
    assert ["worker"][0] == "worker" && ["worker"][1..] == [] && [worker] + [] == [worker];
    assert Dumped(["worker"], stdout, swarmDir, assets) == ([worker], None);
    assert DefaultComponents[0] == "informer" && DefaultComponents[1..] == ["worker"];
    var informer := Output("informer", assets[AssetPath("informer")], stdout, swarmDir);
    assert [informer] + [worker] == [informer, worker];
  }

  // ---------------------------------------------------------------------------
  // Worker ranges
  // ---------------------------------------------------------------------------

  /** `fmt.Sprintf("service-%d", i)`. */
  function Namespace(i: int): string {
    "service-" + Itoa(i)
  }

  /** The namespaces of the loop `for i := start; i <= end; i++`, in loop order. */
  function Namespaces(start: int, end: int): (r: seq<string>)
    ensures |r| == if start <= end then end - start + 1 else 0
    ensures forall k :: 0 <= k < |r| ==> r[k] == Namespace(start + k)
  {
    if start > end then [] else seq(end - start + 1, k => Namespace(start + k))
  }

  /** Different loop indices give different namespaces. */
  lemma NamespaceInjective(a: int, b: int)
    ensures Namespace(a) == Namespace(b) ==> a == b
  {
    assert Namespace(a)[8..] == Itoa(a) && Namespace(b)[8..] == Itoa(b);
    if Itoa(a) == Itoa(b) {
      ItoaInjective(a, b);
    }
  }

  /** The namespaces of a range are pairwise distinct. */
  lemma NamespacesDistinct(start: int, end: int, j: nat, k: nat)
    requires j < k < |Namespaces(start, end)|
    ensures Namespaces(start, end)[j] != Namespaces(start, end)[k]
  {
    NamespaceInjective(start + j, start + k);
  }

  /** Each namespace reads back, after the `service-` prefix, as its loop index. */
  lemma NamespaceParses(i: int)
    requires MinInt64 <= i <= MaxInt64
    ensures HasPrefix(Namespace(i), "service-") && Atoi(Namespace(i)[8..]) == Some(i)
  {
    assert Namespace(i)[8..] == Itoa(i);
    AtoiItoa(i);
  }

  /** The loop `for i := start; i <= end; i++ { tmpl.Execute(..., values(namespace)) }`. */
  method RenderRange<V>(start: int, end: int, values: string -> V) returns (rendered: seq<V>)
    ensures |rendered| == |Namespaces(start, end)|
    ensures forall k :: 0 <= k < |rendered| ==> rendered[k] == values(Namespaces(start, end)[k])
  {
    rendered := [];
    var i := start;
    while i <= end
      invariant start <= i
      invariant if start <= end then i <= end + 1 else i == start
      invariant |rendered| == i - start
      invariant forall k :: 0 <= k < |rendered| ==> rendered[k] == values(Namespace(start + k))
      decreases end - i + 1
    {
      rendered := rendered + [values(Namespace(i))];
      i := i + 1;
    }
  }

  /** The namespaces a range command renders into, or the error it returns first: the range
      error, then the template error. */
  function RangeNamespaces(range: Result<(int, int), string>, templateErr: Option<string>)
    : (r: Result<seq<string>, string>)
    ensures r.Ok? <==> range.Ok? && templateErr.None?
    ensures r.Err? ==> r.error == if range.Err? then range.error else templateErr.value
  {
    match range
    case Err(msg) => Err(msg)
    case Ok((start, end)) =>
      if templateErr.Some? then Err(templateErr.value) else Ok(Namespaces(start, end))
  }

  /** `ParseRange`'s triple as a result. */
  function RangeOf(arg: string): Result<(int, int), string> {
    var r := Util.ParseRange(arg);
    if r.err.Some? then Err(r.err.value) else Ok((r.start, r.end))
  }

  /** The values the worker template is executed with. */
  datatype WorkerValues = WorkerValues(replicas: int, namespace: string, nodeSelector: string, version: string, imageTag: string)

  /** `GenerateWorker`: `flags` carries the flag values and the version, `templateErr` the outcome of
      parsing the template. A malformed range returns before the template is parsed; otherwise one
      manifest is rendered per namespace, with the flags unchanged and the namespace filled in. */
  method GenerateWorker(arg: string, flags: WorkerValues, templateErr: Option<string>) returns (r: Result<seq<WorkerValues>, string>)
    ensures var ns := RangeNamespaces(RangeOf(arg), templateErr);
      (ns.Err? ==> r == Err(ns.error)) &&
      (ns.Ok? ==> (r.Ok? && |r.value| == |ns.value| &&
        forall k :: 0 <= k < |ns.value| ==> r.value[k] == flags.(namespace := ns.value[k])))
  {
    var range := Util.ParseRange(arg);
    if range.err.Some? {
      return Err(range.err.value);
    }
    if templateErr.Some? {
      return Err(templateErr.value);
    }
    var rendered := RenderRange(range.start, range.end, (ns: string) => flags.(namespace := ns));
    return Ok(rendered);
  }

  /** A malformed range renders nothing and returns `ParseRange`'s error; a well-formed one renders
      into `service-<i>` for `i` from `start` to `end`, nothing when `start > end`. */
  lemma GenerateWorkerRange(arg: string)
    ensures var r := RangeNamespaces(RangeOf(arg), None);
      var p := Util.ParseRange(arg);
      (p.err.Some? ==> r == Err(p.err.value)) &&
      (p.err.None? ==> (r.Ok? && |r.value| == (if p.start <= p.end then p.end - p.start + 1 else 0) &&
        forall k :: 0 <= k < |r.value| ==> r.value[k] == Namespace(p.start + k)))
  {
  }

  /** The inline check of `GenerateWorkerTelemetry`: split on `:`, then convert both sides. */
  function InlineRange(arg: string): (r: Result<(int, int), string>) {
    var parts := Split(arg, ":");
    if |parts| != 2 then Err(Util.FormatError)
    else
      var start := Atoi(parts[0]);
      var end := Atoi(parts[1]);
      if start.None? || end.None? then Err(Util.IntegerError)
      else Ok((start.value, end.value))
  }

  /** The inline check accepts and rejects the same inputs as `ParseRange`, with the same messages. */
  lemma InlineRangeIsParseRange(arg: string)
    ensures InlineRange(arg) == RangeOf(arg)
    ensures InlineRange(arg).Err? ==> InlineRange(arg).error in {Util.FormatError, Util.IntegerError}
  {
  }

  /** The values the telemetry template is executed with. */
  datatype TelemetryValues = TelemetryValues(onOff: string, namespace: string)

  /** `GenerateWorkerTelemetry` as written: the command takes exactly one argument, and that one
      argument is both the range and the telemetry switch. */
  method GenerateWorkerTelemetryAsWritten(args: seq<string>, templateErr: Option<string>) returns (r: Result<seq<TelemetryValues>, string>)
    requires |args| == 1
    ensures var ns := RangeNamespaces(InlineRange(args[0]), templateErr);
      (ns.Err? ==> r == Err(ns.error)) &&
      (ns.Ok? ==> (r.Ok? && |r.value| == |ns.value| &&
        forall k :: 0 <= k < |ns.value| ==> r.value[k] == TelemetryValues(args[0], ns.value[k])))
  {
    var range := InlineRange(args[0]);
    if range.Err? {
      return Err(range.error);
    }
    if templateErr.Some? {
      return Err(templateErr.value);
    }
    var rendered := RenderRange(range.value.0, range.value.1, (ns: string) => TelemetryValues(args[0], ns));
    return Ok(rendered);
  }

  /** As written, whenever anything is rendered the switch is the range text, which holds a colon
      and so is never `on` or `off`; `1:1` renders into `service-1` with `OnOff: "1:1"`. */
  lemma TelemetrySwitchIsTheRange(arg: string, templateErr: Option<string>)
    ensures RangeNamespaces(InlineRange(arg), templateErr).Ok? ==> ':' in arg && arg != "on" && arg != "off"
  {
    InlineRangeIsParseRange(arg);
    Util.ParseRangeAccepts(arg);
    CountCharZero(arg, ':');
    assert "on"[0] != ':' && "on"[1] != ':' && "off"[0] != ':' && "off"[1] != ':' && "off"[2] != ':';
  }

  /** The range `1:1` as the only argument: one manifest, in `service-1`, with the switch `1:1`. */
  lemma TelemetryOneToOne()
    ensures RangeNamespaces(InlineRange("1:1"), None) == Ok(["service-1"])
  {
    var one := Itoa(1);
    assert one == "1";
    assert one + ":" + one == "1:1";
    TelemetrySwitchIsRequested(1, 1);
    assert Namespaces(1, 1) == [Namespace(1)];
    assert Namespace(1) == "service-1";
  }

  /** `GenerateWorkerTelemetry` as evidently intended, like `InstallWorkerTelemetry`: the range is
      the first argument and the switch the second. */
  method GenerateWorkerTelemetry(args: seq<string>, templateErr: Option<string>) returns (r: Result<seq<TelemetryValues>, string>)
    requires |args| == 2
    ensures var ns := RangeNamespaces(InlineRange(args[0]), templateErr);
      (ns.Err? ==> r == Err(ns.error)) &&
      (ns.Ok? ==> (r.Ok? && |r.value| == |ns.value| &&
        forall k :: 0 <= k < |ns.value| ==> r.value[k] == TelemetryValues(args[1], ns.value[k])))
  {
    var range := InlineRange(args[0]);
    if range.Err? {
      return Err(range.error);
    }
    if templateErr.Some? {
      return Err(templateErr.value);
    }
    var rendered := RenderRange(range.value.0, range.value.1, (ns: string) => TelemetryValues(args[1], ns));
    return Ok(rendered);
  }

  /** Corrected, any printed range `a:b` renders into the namespaces `service-a` to `service-b`, so
      the arguments `[a:b, on]` switch telemetry on in each of them. */
  lemma TelemetrySwitchIsRequested(a: int, b: int)
    requires MinInt64 <= a <= MaxInt64 && MinInt64 <= b <= MaxInt64
    ensures RangeNamespaces(InlineRange(Itoa(a) + ":" + Itoa(b)), None) == Ok(Namespaces(a, b))
  {
    InlineRangeIsParseRange(Itoa(a) + ":" + Itoa(b));
    Util.ParseRangeRoundTrip(a, b);
  }

  // ---------------------------------------------------------------------------
  // Contexts, confirmation and installation
  // ---------------------------------------------------------------------------

  /** The names `Install` stores before the first context that cannot be created, and that
      context's error. */
  function Created(names: seq<string>, newErr: string -> Option<string>): (r: (seq<string>, Option<string>))
    ensures |r.0| <= |names| && r.0 == names[..|r.0|]
    ensures forall k :: 0 <= k < |r.0| ==> newErr(names[k]).None?
    ensures r.1.None? ==> r.0 == names
    ensures r.1.Some? ==> |r.0| < |names| && r.1 == newErr(names[|r.0|])
  {
    if names == [] then ([], None)
    else if newErr(names[0]).Some? then ([], newErr(names[0]))
    else
      var rest := Created(names[1..], newErr);
      assert forall k :: 1 <= k <= |rest.0| ==> names[k] == names[1..][k - 1];
      ([names[0]] + rest.0, rest.1)
  }

  const ByUser: string := "by user"

  /** The rendering of the template for each namespace, in order. */
  function Renders(ns: seq<string>, render: string -> Result<seq<string>, string>): (r: seq<Result<seq<string>, string>>)
    ensures |r| == |ns| && forall k :: 0 <= k < |ns| ==> r[k] == render(ns[k])
  {
    seq(|ns|, k requires 0 <= k < |ns| => render(ns[k]))
  }

  /** The number of renderings before the first one that fails. */
  function Succeeded(renders: seq<Result<seq<string>, string>>): (n: nat)
    ensures n <= |renders|
    ensures forall k :: 0 <= k < n ==> renders[k].Ok?
    ensures n < |renders| ==> renders[n].Err?
  {
    if renders == [] || renders[0].Err? then 0 else 1 + Succeeded(renders[1..])
  }

  /** The documents of the successful renderings, one rendering after the other. */
  function Concat(renders: seq<Result<seq<string>, string>>): seq<string> {
    if renders == [] then []
    else (if renders[0].Ok? then renders[0].value else []) + Concat(renders[1..])
  }

  /** The documents one context receives: the CRDs, then the documents of each rendering in turn,
      up to the first rendering that fails, whose error is returned. */
  function Plan(crds: seq<string>, renders: seq<Result<seq<string>, string>>): (p: (seq<string>, Option<string>))
    ensures |crds| <= |p.0| && p.0[..|crds|] == crds
    ensures p.1.None? <==> forall k :: 0 <= k < |renders| ==> renders[k].Ok?
    decreases |renders|
  {
    if renders == [] then (crds, None)
    else match renders[0]
      case Err(msg) => (crds, Some(msg))
      case Ok(docs) =>
        var p := Plan(crds + docs, renders[1..]);
        assert forall k :: 1 <= k < |renders| ==> renders[1..][k - 1] == renders[k];
        assert p.0[..|crds|] == (crds + docs)[..|crds|];
        p
  }

  /** The plan is the CRDs followed by the documents of the renderings before the first failed one,
      in order, and its error is that rendering's. */
  lemma {:induction false} PlanDocuments(crds: seq<string>, renders: seq<Result<seq<string>, string>>)
    ensures var n := Succeeded(renders);
      var p := Plan(crds, renders);
      p.0 == crds + Concat(renders[..n]) &&
      p.1 == (if n < |renders| then Some(renders[n].error) else None)
    decreases |renders|
  {
    if renders == [] {
      assert renders[..0] == [];
    } else if renders[0].Err? {
      assert renders[..0] == [];
    } else {
      var docs := renders[0].value;
      var n := Succeeded(renders[1..]);
      PlanDocuments(crds + docs, renders[1..]);
      assert renders[..n + 1][0] == renders[0];
      assert renders[..n + 1][1..] == renders[1..][..n];
      assert Concat(renders[..n + 1]) == docs + Concat(renders[1..][..n]);
      Sequences.AppendAssoc(crds, docs, Concat(renders[1..][..n]));
      assert n < |renders[1..]| ==> renders[1..][n] == renders[n + 1];
    }
  }

  /** The body of the loop over the contexts in `InstallInformer`, `InstallWorker` and their
      telemetry variants: apply the CRDs, then render and apply each manifest; apply failures are
      reported (printed) and skipped, a rendering failure returns. `reported` holds the error of
      each applied document. */
  method InstallInto(ctx: K8sCtx.Context, crds: seq<string>, renders: seq<Result<seq<string>, string>>, api: K8sCtx.Api)
    returns (err: Option<string>, reported: seq<Option<K8sCtx.ApplyError>>)
    modifies ctx
    ensures var plan := Plan(crds, renders);
      var b := K8sCtx.AppliedAll(old(ctx.mapGV), plan.0, api);
      err == plan.1 && reported == b.errs && Installed(ctx, old(ctx.mapGV), old(ctx.applied), plan.0, api)
  {
    reported := ctx.ApplyAll(crds, api);
    ghost var done := crds;
    for j := 0 to |renders|
      invariant Plan(crds, renders) == Plan(done, renders[j..])
      invariant var b := K8sCtx.AppliedAll(old(ctx.mapGV), done, api);
        reported == b.errs && ctx.mapGV == b.cache && ctx.applied == old(ctx.applied) + b.applied
    {
      PlanStep(done, renders, j);
      match renders[j]
      case Err(msg) =>
        return Some(msg), reported;
      case Ok(docs) =>
        ghost var first := K8sCtx.AppliedAll(old(ctx.mapGV), done, api);
        var errs := ctx.ApplyAll(docs, api);
        K8sCtx.AppliedAllAppend(old(ctx.mapGV), done, docs, api);
        Sequences.AppendAssoc(old(ctx.applied), first.applied, K8sCtx.AppliedAll(first.cache, docs, api).applied);
        reported := reported + errs;
        done := done + docs;
    }
    assert renders[|renders|..] == [];
    return None, reported;
  }

  /** One step of the rendering loop: a failed rendering ends the plan, a successful one moves its
      documents into the applied part. */
  lemma PlanStep(done: seq<string>, renders: seq<Result<seq<string>, string>>, j: nat)
    requires j < |renders|
    ensures renders[j].Err? ==> Plan(done, renders[j..]) == (done, Some(renders[j].error))
    ensures renders[j].Ok? ==> Plan(done, renders[j..]) == Plan(done + renders[j].value, renders[j + 1..])
  {
    assert renders[j..][0] == renders[j] && renders[j..][1..] == renders[j + 1..];
  }

  /** A context that was sent `docs` on top of the given cache and log of accepted objects: it holds
      the cache and the accepted objects `AppliedAll` gives. */
  ghost predicate Installed(ctx: K8sCtx.Context, cache: map<string, seq<K8sCtx.APIResource>>,
                            log: seq<K8sCtx.Target>, docs: seq<string>, api: K8sCtx.Api)
    reads ctx
  {
    var b := K8sCtx.AppliedAll(cache, docs, api);
    ctx.mapGV == b.cache && ctx.applied == log + b.applied
  }

  /** A context still holding the given cache and log of accepted objects. */
  ghost predicate Untouched(ctx: K8sCtx.Context, cache: map<string, seq<K8sCtx.APIResource>>, log: seq<K8sCtx.Target>)
    reads ctx
  {
    ctx.mapGV == cache && ctx.applied == log
  }

  /** The selected contexts by name (`Contexts`), each with its own client state. */
  class Swarm {
    var contexts: map<string, K8sCtx.Context>

    /** Distinct names hold distinct contexts: each is created by its own `New`. */
    ghost predicate Valid()
      reads this
    {
      forall a, b :: a in contexts && b in contexts && a != b ==> contexts[a] != contexts[b]
    }

    constructor ()
      ensures contexts == map[] && Valid()
    {
      contexts := map[];
    }

    /** `Install`: select the contexts, create and store each one, then ask for confirmation.
        `newErr` is the outcome of `New` per context and `answer` the word read from stdin. */
    method Install(regex: string, config: Result<K8sCtx.Kubeconfig, string>, compileErr: Option<string>,
                   matches: string -> bool, newErr: string -> Option<string>, answer: Result<string, string>)
      returns (err: Option<string>)
      requires Valid()
      modifies this
      ensures Valid()
      ensures var m := K8sCtx.Matching(regex, config, compileErr, matches);
        m.Err? ==> err == Some(m.error) && contexts == old(contexts)
      ensures var m := K8sCtx.Matching(regex, config, compileErr, matches);
        m.Ok? ==>
          var stored := Created(m.value, newErr).0;
          (forall n :: n in contexts <==> n in old(contexts) || n in stored) &&
          (forall n :: n in stored ==> fresh(contexts[n]) && contexts[n].name == n && contexts[n].mapGV == map[] && contexts[n].applied == []) &&
          (forall n :: n in old(contexts) && n !in stored ==> contexts[n] == old(contexts[n]))
      ensures var m := K8sCtx.Matching(regex, config, compileErr, matches);
        m.Ok? ==>
          err == match Created(m.value, newErr).1
            case Some(e) => Some(e)
            case None => match answer
              case Err(e) => Some(e)
              case Ok(a) => if a == "y" then None else Some(ByUser)
    {
      var selected := K8sCtx.Filter(regex, config, compileErr, matches);
      if selected.Err? {
        return Some(selected.error);
      }
      err := CreateAll(selected.value, newErr);
      if err.Some? {
        return;
      }
      if answer.Err? {
        return Some(answer.error);
      }
      if answer.value != "y" {
        return Some(ByUser);
      }
      return None;
    }

    /** The loop of `Install` that creates a context per matched name with `New` and stores it,
        returning the first creation error. */
    method CreateAll(names: seq<string>, newErr: string -> Option<string>) returns (err: Option<string>)
      requires Valid()
      modifies this
      ensures Valid()
      ensures err == Created(names, newErr).1
      ensures var stored := Created(names, newErr).0;
        (forall n :: n in contexts <==> n in old(contexts) || n in stored) &&
        (forall n :: n in stored ==> fresh(contexts[n]) && contexts[n].name == n && contexts[n].mapGV == map[] && contexts[n].applied == []) &&
        (forall n :: n in old(contexts) && n !in stored ==> contexts[n] == old(contexts[n]))
    {
      for i := 0 to |names|
        invariant Valid()
        invariant forall k :: 0 <= k < i ==> newErr(names[k]).None?
        invariant forall n :: n in contexts <==> n in old(contexts) || n in names[..i]
        invariant forall n :: n in names[..i] ==> fresh(contexts[n]) && contexts[n].name == n && contexts[n].mapGV == map[] && contexts[n].applied == []
        invariant forall n :: n in old(contexts) && n !in names[..i] ==> contexts[n] == old(contexts[n])
      {
        var e := newErr(names[i]);
        if e.Some? {
          ghost var created := Created(names, newErr);
          assert created.1.Some? && |created.0| <= i;
          assert |created.0| == i;
          assert created.0 == names[..i];
          return e;
        }
        Store(names[i]);
        assert names[..i + 1] == names[..i] + [names[i]];
      }
      ghost var created := Created(names, newErr);
      assert created.1.None? && created.0 == names && names[..|names|] == names;
      return None;
    }

    /** `contexts[name] = ctx` for a newly created context. */
    method Store(name: string)
      requires Valid()
      modifies this
      ensures Valid()
      ensures contexts.Keys == old(contexts).Keys + {name}
      ensures fresh(contexts[name]) && contexts[name].name == name && contexts[name].mapGV == map[] && contexts[name].applied == []
      ensures forall n :: n in old(contexts) && n != name ==> contexts[n] == old(contexts[n])
    {
      var c := new K8sCtx.Context(name);
      contexts := contexts[name := c];
    }

    /** The loop over the stored contexts shared by the install commands: `order` is the order in
        which the map is ranged over, `api` the cluster behind each context. After a rendering
        failure the first context has received the documents before it and the command returns. */
    method InstallAll(order: seq<string>, crds: seq<string>, renders: seq<Result<seq<string>, string>>,
                      api: string -> K8sCtx.Api) returns (err: Option<string>)
      requires Valid()
      requires forall n :: n in order <==> n in contexts
      requires forall i, j :: 0 <= i < j < |order| ==> order[i] != order[j]
      modifies contexts.Values
      ensures err == if order == [] then None else Plan(crds, renders).1
      ensures var plan := Plan(crds, renders);
        forall n :: n in contexts ==>
          if plan.1.None? || (|order| > 0 && n == order[0])
          then Installed(contexts[n], old(contexts[n].mapGV), old(contexts[n].applied), plan.0, api(n))
          else Untouched(contexts[n], old(contexts[n].mapGV), old(contexts[n].applied))
    {
      var plan := Plan(crds, renders);
      ghost var done: set<string> := {};
      for i := 0 to |order|
        invariant plan.1.Some? ==> i == 0
        invariant forall k :: 0 <= k < i ==> order[k] in done
        invariant forall k :: i <= k < |order| ==> order[k] !in done
        invariant forall n :: n in contexts && n in done ==>
          Installed(contexts[n], old(contexts[n].mapGV), old(contexts[n].applied), plan.0, api(n))
        invariant forall n :: n in contexts && n !in done ==>
          Untouched(contexts[n], old(contexts[n].mapGV), old(contexts[n].applied))
      {
        var name := order[i];
        var ctx := contexts[name];
        assert forall n :: n in contexts && n != name ==> contexts[n] != ctx;
        assert Untouched(ctx, old(ctx.mapGV), old(ctx.applied));
        var reported;
        err, reported := InstallInto(ctx, crds, renders, api(name));
        done := done + {name};
        if err.Some? {
          return;
        }
      }
      return None;
    }

    /** `InstallWorker` (and `InstallWorkerTelemetry`, whose template values differ): parse the range,
        read the CRDs, parse the template, then install in every context, one rendering per
        namespace. `render` gives the rendering of the template for a namespace. A malformed range,
        unreadable CRDs or an unparsable template return before any context is touched. */
    method InstallWorker(arg: string, order: seq<string>, crdFile: Result<string, string>, templateErr: Option<string>,
                         render: string -> Result<seq<string>, string>, api: string -> K8sCtx.Api)
      returns (err: Option<string>)
      requires Valid()
      requires forall n :: n in order <==> n in contexts
      requires forall i, j :: 0 <= i < j < |order| ==> order[i] != order[j]
      modifies contexts.Values
      ensures var range := RangeOf(arg);
        range.Err? || crdFile.Err? || templateErr.Some? ==>
          (forall n :: n in contexts ==> Untouched(contexts[n], old(contexts[n].mapGV), old(contexts[n].applied))) &&
          err == (if range.Err? then Some(range.error) else if crdFile.Err? then Some(crdFile.error) else templateErr)
      ensures var range := RangeOf(arg);
        range.Ok? && crdFile.Ok? && templateErr.None? ==>
          var plan := Plan(Util.Documents(crdFile.value), Renders(Namespaces(range.value.0, range.value.1), render));
          err == (if order == [] then None else plan.1) &&
          forall n :: n in contexts ==>
            if plan.1.None? || (|order| > 0 && n == order[0])
            then Installed(contexts[n], old(contexts[n].mapGV), old(contexts[n].applied), plan.0, api(n))
            else Untouched(contexts[n], old(contexts[n].mapGV), old(contexts[n].applied))
    {
      var range := Util.ParseRange(arg);
      if range.err.Some? {
        return range.err;
      }
      if crdFile.Err? {
        return Some(crdFile.error);
      }
      if templateErr.Some? {
        return templateErr;
      }
      var crds := Util.SplitYAML(crdFile.value);
      var renders := RenderRange(range.start, range.end, render);
      assert renders == Renders(Namespaces(range.start, range.end), render);
      err := InstallAll(order, crds, renders, api);
    }

    /** `InstallInformer` (and `InstallInformerTelemetry`): the CRDs, then one rendering, in every context. */
    method InstallInformer(order: seq<string>, crdFile: Result<string, string>, templateErr: Option<string>,
                           rendered: Result<seq<string>, string>, api: string -> K8sCtx.Api)
      returns (err: Option<string>)
      requires Valid()
      requires forall n :: n in order <==> n in contexts
      requires forall i, j :: 0 <= i < j < |order| ==> order[i] != order[j]
      modifies contexts.Values
      ensures crdFile.Err? || templateErr.Some? ==>
        (forall n :: n in contexts ==> Untouched(contexts[n], old(contexts[n].mapGV), old(contexts[n].applied))) &&
        err == (if crdFile.Err? then Some(crdFile.error) else templateErr)
      ensures crdFile.Ok? && templateErr.None? ==>
        var plan := Plan(Util.Documents(crdFile.value), [rendered]);
        err == (if order == [] then None else plan.1) &&
        forall n :: n in contexts ==>
          if plan.1.None? || (|order| > 0 && n == order[0])
          then Installed(contexts[n], old(contexts[n].mapGV), old(contexts[n].applied), plan.0, api(n))
          else Untouched(contexts[n], old(contexts[n].mapGV), old(contexts[n].applied))
    {
      if crdFile.Err? {
        return Some(crdFile.error);
      }
      if templateErr.Some? {
        return templateErr;
      }
      var crds := Util.SplitYAML(crdFile.value);
      err := InstallAll(order, crds, [rendered], api);
    }
  }

  /** Renderings after a failed one change nothing, and later renderings only add documents at the
      end: the documents applied, and the errors reported for them, before a rendering stay the same
      whatever renderings follow. */
  lemma {:induction false} PlanExtends(crds: seq<string>, renders: seq<Result<seq<string>, string>>,
                                       more: seq<Result<seq<string>, string>>)
    ensures var p := Plan(crds, renders);
      var q := Plan(crds, renders + more);
      |p.0| <= |q.0| && q.0[..|p.0|] == p.0 && (p.1.Some? ==> q == p)
    decreases |renders|
  {
    if renders == [] {
      assert renders + more == more;
    } else {
      assert (renders + more)[0] == renders[0] && (renders + more)[1..] == renders[1..] + more;
      match renders[0]
      case Err(msg) =>
      case Ok(docs) => PlanExtends(crds + docs, renders[1..], more);
    }
  }

  /** So in every context the errors reported for the documents of a plan are a prefix of those
      reported once more renderings follow. */
  lemma ReportsExtend(cache: map<string, seq<K8sCtx.APIResource>>, crds: seq<string>,
                      renders: seq<Result<seq<string>, string>>, more: seq<Result<seq<string>, string>>, api: K8sCtx.Api)
    ensures var p := K8sCtx.AppliedAll(cache, Plan(crds, renders).0, api);
      var q := K8sCtx.AppliedAll(cache, Plan(crds, renders + more).0, api);
      |p.errs| <= |q.errs| && q.errs[..|p.errs|] == p.errs && |p.applied| <= |q.applied| && q.applied[..|p.applied|] == p.applied
  {
    var a := Plan(crds, renders).0;
    var c := Plan(crds, renders + more).0;
    PlanExtends(crds, renders, more);
    assert c == a + c[|a|..];
    K8sCtx.AppliedAllAppend(cache, a, c[|a|..], api);
  }
}
