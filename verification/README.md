# k-swarm in Dafny

k-swarm deploys a swarm of test services into Kubernetes clusters and lets them
talk to each other. It has three runtime parts and an installer:

- the **service reconciler** lists the services labelled `app=swarm` and publishes
  one `name.namespace:port` entry per port named `http`;
- the **informer** keeps the last published list and serves it on `GET /services`;
- each **worker** polls the informer, keeps the last list it fetched successfully, and
  sends `GET /data` to every entry in turn; it answers `GET /data` with its own identity;
- **swarmctl**, the installer, dumps the embedded templates, renders worker manifests
  for a range of namespaces `service-<start>` … `service-<end>`, selects kubeconfig
  contexts by regular expression, asks for confirmation, and server-side applies the
  manifests to every selected cluster through a per-cluster discovery cache.

The model has one module per source file, plus modules for the Go library behaviour
it relies on:

| file | module | models |
|---|---|---|
| `wrappers.dfy` | `Wrappers` | `Option` and `Result` |
| `sequences.dfy` | `Sequences` | the "append the elements that pass a test" loop |
| `strings.dfy` | `Strings` | Go's `strings.Split`, `TrimSpace` (with `unicode.IsSpace`), `ToLower`, `HasPrefix`, `Contains` |
| `strconv.dfy` | `Strconv` | `strconv.Itoa` and `strconv.Atoi` (64-bit range) |
| `snapshots.dfy` | `Snapshots` | a Go `[]string` that may be nil |
| `service_controller.dfy` | `Controller` | internal/controller/service_controller.go |
| `informer.dfy` | `Informer` | pkg/informer/informer.go |
| `worker.dfy` | `Worker` | pkg/worker/worker.go |
| `util.dfy` | `Util` | cmd/swarmctl/pkg/util/util.go |
| `k8sctx.dfy` | `K8sCtx` | cmd/swarmctl/pkg/k8sctx/k8sctx.go |
| `swarmctl.dfy` | `Swarmctl` | cmd/swarmctl/pkg/swarmctl/swarmctl.go |
| `cmd.dfy` | `Cmd` | cmd/swarmctl/cmd/cmd.go |
| `pipeline.dfy` | `Pipeline` | the endpoint list from reconciler to worker |

Objects whose fields the code updates in place are classes. These are the informer's
registry, the worker's view, the reconciler, a cluster context with its `MapGV`
discovery cache, the installer's map of stored contexts and the line reader used by
`YesOrNo`. Their methods are proved against specification functions: `Applied`,
`AppliedAll`, `Plan`, `Created`, `Ask`, `Fetched`, `ClientRun`, `Delivered` and
`Latest`. Everything outside the process is an input:

- the Kubernetes clients: the decoder, discovery and the apply patch, bundled as `K8sCtx.Api`;
- the kubeconfig;
- the regular-expression match test;
- template parsing and rendering outcomes;
- HTTP replies;
- the embedded files;
- stdin.

Go map iteration order is a given sequence.

## Model

| member | source | states |
|---|---|---|
| Strings.JoinSplit | cmd/swarmctl/pkg/util/util.go:100 | joining the pieces of `strings.Split` with the separator gives back the input |
| Strings.TrimSpaceEmpty | cmd/swarmctl/pkg/util/util.go:101 | `TrimSpace` leaves nothing exactly when the string is all white space |
| Strconv.AtoiItoa | cmd/swarmctl/pkg/util/util.go:139-140 | every 64-bit integer printed in decimal parses back to itself |
| Strconv.ItoaInjective | cmd/swarmctl/pkg/swarmctl/swarmctl.go:250 | distinct integers print differently |
| Snapshots.Built | internal/controller/service_controller.go:89-96 | appending entries one by one to a nil slice visits exactly those entries, and stays nil when there are none |
| Controller.IsSwarmIff | internal/controller/service_controller.go:53-55 | the event filter passes exactly the objects whose label `app` is `swarm`; a missing label reads as empty |
| Controller.Selected | internal/controller/service_controller.go:80 | every listed service carries `app=swarm` |
| Controller.PortEndpointsAreHttpPorts | internal/controller/service_controller.go:91-95 | a service contributes one entry per port named exactly `http`, in port order, formatted `name.namespace:port` |
| Controller.NoHttpPortNoEntry | internal/controller/service_controller.go:92 | a service without an `http` port adds nothing to the list |
| Controller.EndpointsAppend | internal/controller/service_controller.go:90-96 | entries keep the service order of the listing |
| Controller.PortEndpointsAppend | internal/controller/service_controller.go:91-95 | within a service, entries keep port order |
| Controller.EndpointRoundTrip | internal/controller/service_controller.go:93 | an entry splits at its last colon back into `name.namespace` and the port, and the port parses back |
| Controller.ExtractEndpoints | internal/controller/service_controller.go:89-96 | the nested loop yields exactly the formatted `http` ports, nil when there are none |
| Controller.ServiceReconciler.Reconcile | internal/controller/service_controller.go:73-101 | a listing error is returned and nothing is sent; otherwise exactly one list, the published one, is handed to the informer |
| Informer.Latest | pkg/informer/informer.go:175 | the stored list is the initial one or one of the received lists |
| Informer.DeliveredAll | pkg/informer/informer.go:172-182 | while the context is live, every value sent is taken, in send order |
| Informer.DeliveredStopsAtDone | pkg/informer/informer.go:177-179 | nothing sent after cancellation is taken |
| Informer.LatestCons | pkg/informer/informer.go:175 | each value replaces the previous one wholesale |
| Informer.StartResult | pkg/informer/informer.go:187-202 | `Start` fails with the proxy-setup error, else with the server's error, else succeeds |
| Informer.Registry.constructor | pkg/informer/informer.go:33 | the list starts as the non-nil empty slice |
| Informer.Registry.Receive | pkg/informer/informer.go:175 | the received list becomes the stored list |
| Informer.Registry.Query | pkg/informer/informer.go:209-213 | `GET /services` answers 200 with the stored list under `services` only, and changes nothing |
| Informer.Registry.Consume | pkg/informer/informer.go:172-182 | the consumer loop takes the updates before cancellation, in order, and keeps the last |
| Worker.Fetched | pkg/worker/worker.go:149-185 | a fetch succeeds exactly on a 200 reply with a decodable body; a non-200 status gives its message; the result has no empty entry |
| Worker.FetchServices | pkg/worker/worker.go:149-185 | the filtering loop computes `Fetched` |
| Worker.FetchedEntries | pkg/worker/worker.go:175-181 | an entry is kept exactly when it was sent and is not empty |
| Worker.DataUrlInjective | pkg/worker/worker.go:107 | distinct entries are requested at distinct URLs |
| Worker.Pass | pkg/worker/worker.go:104-112 | a pass sends one request per entry, in order, to `http://<entry>/data`, whatever happened to earlier ones; each request has its own outcome, so equal entries are requested twice |
| Worker.AfterPoll | pkg/worker/worker.go:130-137 | a successful poll replaces the view, a failed one keeps it |
| Worker.RunStopsAtDone | pkg/worker/worker.go:98-102 | after cancellation neither loop does anything |
| Worker.FailedPollsKeepView | pkg/worker/worker.go:133-136 | failed polls never change the view |
| Worker.WorkerView.constructor | pkg/worker/worker.go:29 | the view starts as the non-nil empty slice |
| Worker.WorkerView.Poll | pkg/worker/worker.go:130-137 | one tick of the poller leaves the view `AfterPoll` says |
| Worker.WorkerView.RequestPass | pkg/worker/worker.go:104-112 | one pass over the view read at its start |
| Worker.WorkerView.Run | pkg/worker/worker.go:93-143 | the interleaved poller and client end in the state and passes `ClientRun` gives |
| Worker.GetData | pkg/worker/worker.go:79-87 | `GET /data` answers exactly five fields, each from its environment variable, unset ones empty |
| Pipeline.EndpointsNonEmpty | internal/controller/service_controller.go:93 | no published entry is empty |
| Pipeline.WorkerSeesPublished | pkg/worker/worker.go:175-181 | after a poll of the informer, the worker holds exactly what the reconciler published: the empty-entry filter drops nothing |
| Pipeline.WorkerRequestsPublished | pkg/worker/worker.go:104-107 | the next pass requests `/data` from every `http` port of every swarm service, in listing order |
| Util.SplitYAML | cmd/swarmctl/pkg/util/util.go:96-108 | the loop returns the `---`-separated pieces that are not blank, untrimmed and in order |
| Util.SplitYAMLContent | cmd/swarmctl/pkg/util/util.go:101-102 | every returned document has a character that is not white space |
| Util.SplitYAMLPieces | cmd/swarmctl/pkg/util/util.go:100-104 | a document is returned exactly when it is a non-blank piece, and the pieces join back to the input |
| Util.SplitYAMLSingle | cmd/swarmctl/pkg/util/util.go:100-104 | input without `---` is one document, or none when blank |
| Util.ParseRange | cmd/swarmctl/pkg/util/util.go:130-147 | on failure `(0, 0)` and one of the two messages; on success two 64-bit integers |
| Util.ParseRangeAccepts | cmd/swarmctl/pkg/util/util.go:133-143 | success exactly when there is one colon and both sides are integers; the format message exactly for a wrong colon count |
| Util.ParseRangeRoundTrip | cmd/swarmctl/pkg/util/util.go:139-146 | `Itoa(a) + ":" + Itoa(b)` parses back to `(a, b)` |
| Util.ParseRangeUnordered | cmd/swarmctl/pkg/util/util.go:146 | `5:1` is accepted as it is |
| Util.Reader.ReadString | cmd/swarmctl/pkg/util/util.go:159 | the next line with its newline, or the rest and the reader's error |
| Util.Ask | cmd/swarmctl/pkg/util/util.go:156-172 | the answer is one of `y`, `yes`, empty, `n`, `no`; on a read error the answer is empty and the input is used up |
| Util.YesOrNo | cmd/swarmctl/pkg/util/util.go:153-173 | the loop returns what `Ask` says and leaves the rest unread |
| Util.NormalizeYes | cmd/swarmctl/pkg/util/util.go:165 | ` Yes \n` is trimmed and lower-cased to `yes` |
| Util.NormalizeMaybe | cmd/swarmctl/pkg/util/util.go:165-171 | `maybe` is not an answer |
| Util.AskFirstLine | cmd/swarmctl/pkg/util/util.go:159-168 | the first line decides when it is an answer and is skipped otherwise |
| Util.AskSkipsThenTakes | cmd/swarmctl/pkg/util/util.go:156-171 | an invalid line is skipped and the next valid one taken |
| Util.AskUnterminated | cmd/swarmctl/pkg/util/util.go:159-162 | input ending without a newline returns the read error, even if it holds an answer |
| K8sCtx.ParseGroupVersion | cmd/swarmctl/pkg/k8sctx/k8sctx.go:122-127 | a group/version string reads back when it has at most one slash |
| K8sCtx.GroupVersionRoundTrip | cmd/swarmctl/pkg/k8sctx/k8sctx.go:122-127 | the key is the bare version for the core group and `group/version` otherwise, and reads back as both |
| K8sCtx.GroupVersionInjective | cmd/swarmctl/pkg/k8sctx/k8sctx.go:122-130 | two documents share a cache entry exactly when group and version agree |
| K8sCtx.FirstOfKind | cmd/swarmctl/pkg/k8sctx/k8sctx.go:142-148 | the first resource of the kind, none before it |
| K8sCtx.FindResource | cmd/swarmctl/pkg/k8sctx/k8sctx.go:142-153 | the loop finds the first resource of the kind, or none |
| K8sCtx.EffectiveNamespace | cmd/swarmctl/pkg/k8sctx/k8sctx.go:163-166 | an empty namespace becomes `default`, any other is kept |
| K8sCtx.TargetFor | cmd/swarmctl/pkg/k8sctx/k8sctx.go:156-184 | exactly one patch path runs, namespaced exactly when the resource is |
| K8sCtx.Applied | cmd/swarmctl/pkg/k8sctx/k8sctx.go:108-188 | the cache only grows and keeps its entries; success means a patch was made and succeeded; a patch implies a decoded document whose key is cached |
| K8sCtx.AppliedCacheHit | cmd/swarmctl/pkg/k8sctx/k8sctx.go:130-133 | a cached group/version is reused without discovery |
| K8sCtx.AppliedCacheMiss | cmd/swarmctl/pkg/k8sctx/k8sctx.go:133-139 | a discovered list is stored; a failed discovery leaves the cache and returns its error |
| K8sCtx.AppliedTwiceDiscoversOnce | cmd/swarmctl/pkg/k8sctx/k8sctx.go:130-139 | a second apply of a document needs no discovery |
| K8sCtx.AppliedTarget | cmd/swarmctl/pkg/k8sctx/k8sctx.go:142-184 | a patch is made exactly when the kind is found, for the first such resource, and a failed patch reports the path's message |
| K8sCtx.AppliedAll | cmd/swarmctl/pkg/swarmctl/swarmctl.go:416-420 | every document is applied and has its own error entry; the cache only grows |
| K8sCtx.AppliedAllAccepts | cmd/swarmctl/pkg/k8sctx/k8sctx.go:171-187 | the cluster keeps at most one object per document, only objects whose patch succeeded, and one for every document exactly when no document reports an error |
| K8sCtx.AppliedAllAppend | cmd/swarmctl/pkg/swarmctl/swarmctl.go:585-619 | applying two lists in turn is applying their concatenation: same cache, errors and accepted objects |
| K8sCtx.AppliedAllEach | cmd/swarmctl/pkg/swarmctl/swarmctl.go:439-443 | each document's error is its own `ApplyYaml` result on the cache left by the documents before it |
| K8sCtx.Context.constructor | cmd/swarmctl/pkg/k8sctx/k8sctx.go:95-101 | a new context has an empty cache and nothing applied through it yet |
| K8sCtx.Context.ApplyYaml | cmd/swarmctl/pkg/k8sctx/k8sctx.go:108-188 | the new cache, the patch made and the error are those of `Applied`; a successful patch adds its target to the objects the cluster holds |
| K8sCtx.Context.ApplyAll | cmd/swarmctl/pkg/swarmctl/swarmctl.go:416-420 | the loop over documents ends with `AppliedAll`'s cache, errors and accepted objects |
| K8sCtx.Filter | cmd/swarmctl/pkg/k8sctx/k8sctx.go:216-249 | the loop computes `Matching` |
| K8sCtx.MatchingSelects | cmd/swarmctl/pkg/k8sctx/k8sctx.go:222-248 | an empty expression selects only the current context; a valid one exactly the matching contexts; an invalid one fails unless there are no contexts |
| K8sCtx.FirstMatch | cmd/swarmctl/pkg/k8sctx/k8sctx.go:299-300 | the leftmost line start where `^\s*kubernetes\s+(\S+)` matches, none before it |
| K8sCtx.ParseClusterDomainShape | cmd/swarmctl/pkg/k8sctx/k8sctx.go:299-316 | the result is empty, or the first directive's token, which contains a dot and has no surrounding space |
| K8sCtx.ParseDirective | cmd/swarmctl/pkg/k8sctx/k8sctx.go:299-316 | a leading `kubernetes <domain>` line yields the domain |
| K8sCtx.CorefileExample | cmd/swarmctl/pkg/k8sctx/k8sctx.go:281-282 | `kubernetes cluster.local in-addr.arpa …` yields `cluster.local` |
| K8sCtx.GetClusterDomainFallback | cmd/swarmctl/pkg/k8sctx/k8sctx.go:256-288 | the domain is never empty and contains a dot: the parsed one, or `cluster.local` on any failure |
| Swarmctl.ValidArgsFollowUsage | cmd/swarmctl/pkg/swarmctl/swarmctl.go:725-734 | `1:1` (a range `ParseRange` accepts) for no argument, `on`/`off` for one, nothing after |
| Swarmctl.Dumped | cmd/swarmctl/pkg/swarmctl/swarmctl.go:82-106 | outputs in component order up to the first missing template, which is the error |
| Swarmctl.Dump | cmd/swarmctl/pkg/swarmctl/swarmctl.go:61-109 | a directory error stops file output before anything is written; otherwise the loop yields `Dumped` |
| Swarmctl.DumpDefault | cmd/swarmctl/pkg/swarmctl/swarmctl.go:70-72 | with no arguments, the informer then the worker template |
| Swarmctl.Namespaces | cmd/swarmctl/pkg/swarmctl/swarmctl.go:239-255 | `service-<i>` for each `i` from start to end ascending, none when start > end |
| Swarmctl.NamespaceInjective | cmd/swarmctl/pkg/swarmctl/swarmctl.go:250 | different indices give different namespaces |
| Swarmctl.NamespacesDistinct | cmd/swarmctl/pkg/swarmctl/swarmctl.go:239-255 | the namespaces of a range are pairwise distinct |
| Swarmctl.NamespaceParses | cmd/swarmctl/pkg/swarmctl/swarmctl.go:250 | a namespace reads back, after `service-`, as its index |
| Swarmctl.RenderRange | cmd/swarmctl/pkg/swarmctl/swarmctl.go:239-255 | the loop renders once per namespace of the range, in order |
| Swarmctl.RangeNamespaces | cmd/swarmctl/pkg/swarmctl/swarmctl.go:226-236 | rendering happens exactly when the range and the template are valid; otherwise the first error |
| Swarmctl.GenerateWorker | cmd/swarmctl/pkg/swarmctl/swarmctl.go:216-259 | one manifest per namespace, flags unchanged; a malformed range fails before the template |
| Swarmctl.GenerateWorkerRange | cmd/swarmctl/pkg/swarmctl/swarmctl.go:227-255 | a malformed range renders nothing and returns `ParseRange`'s error; a valid one renders `end - start + 1` namespaces or none |
| Swarmctl.InlineRangeIsParseRange | cmd/swarmctl/pkg/swarmctl/swarmctl.go:283-294 | the inline check accepts and rejects what `ParseRange` does, with the same messages |
| Swarmctl.GenerateWorkerTelemetryAsWritten | cmd/swarmctl/pkg/swarmctl/swarmctl.go:278-317 | as written: the only argument is both range and switch |
| Swarmctl.TelemetrySwitchIsTheRange | cmd/swarmctl/pkg/swarmctl/swarmctl.go:306-312 | as written, anything rendered carries a switch with a colon, never `on` or `off` |
| Swarmctl.TelemetryOneToOne | cmd/swarmctl/pkg/swarmctl/swarmctl.go:303-312 | `1:1` renders into `service-1` only |
| Swarmctl.GenerateWorkerTelemetry | cmd/swarmctl/pkg/swarmctl/swarmctl.go:701-707 | corrected: the range is the first argument, the switch the second |
| Swarmctl.TelemetrySwitchIsRequested | cmd/swarmctl/pkg/swarmctl/swarmctl.go:284-294 | corrected, `a:b` renders into `service-a` … `service-b` |
| Swarmctl.Created | cmd/swarmctl/pkg/swarmctl/swarmctl.go:353-366 | contexts are stored in match order up to the first one that cannot be created, whose error is returned |
| Swarmctl.Plan | cmd/swarmctl/pkg/swarmctl/swarmctl.go:584-620 | the CRDs come first, and the plan succeeds exactly when every rendering does |
| Swarmctl.PlanDocuments | cmd/swarmctl/pkg/swarmctl/swarmctl.go:584-620 | the plan is the CRDs followed by the documents of each rendering, in namespace order, up to the first failed rendering, whose error it returns |
| Swarmctl.InstallInto | cmd/swarmctl/pkg/swarmctl/swarmctl.go:584-620 | one context is sent every document of the plan, including those before a failed rendering; the cache, the error reported for each document and the objects the cluster accepts are `AppliedAll`'s, and the rendering error is returned |
| Swarmctl.Swarm.Install | cmd/swarmctl/pkg/swarmctl/swarmctl.go:333-381 | a selection error changes nothing; each matched context is stored fresh under its name; it proceeds only on exactly `y`, other words give `by user` |
| Swarmctl.Swarm.CreateAll | cmd/swarmctl/pkg/swarmctl/swarmctl.go:353-366 | the loop stores a fresh context under each matched name, in order, up to the first that cannot be created, returns that error, and keeps the other stored contexts |
| Swarmctl.Swarm.Store | cmd/swarmctl/pkg/swarmctl/swarmctl.go:359-365 | the new context is stored under its name, others kept |
| Swarmctl.Swarm.InstallAll | cmd/swarmctl/pkg/swarmctl/swarmctl.go:579-621 | every context gets the cache and the accepted objects of applying the whole plan; after a rendering failure only the first context visited was touched, and the others hold what they held before |
| Swarmctl.Swarm.InstallWorker | cmd/swarmctl/pkg/swarmctl/swarmctl.go:550-625 | a malformed range, unreadable CRDs or a bad template return before any context is touched; otherwise every context is sent the CRDs, then one rendering per namespace, and accepts what `AppliedAll` says |
| Swarmctl.Swarm.InstallInformer | cmd/swarmctl/pkg/swarmctl/swarmctl.go:387-448 | every context is sent the CRDs, then the one rendering, and accepts what `AppliedAll` says, with the same early returns |
| Swarmctl.PlanExtends | cmd/swarmctl/pkg/swarmctl/swarmctl.go:598-613 | renderings after a failed one are never used, and later renderings only add documents after the earlier ones |
| Swarmctl.ReportsExtend | cmd/swarmctl/pkg/swarmctl/swarmctl.go:614-619 | the errors reported and the objects accepted for the documents of earlier renderings do not depend on later ones |
| Cmd.WithPrefix | cmd/swarmctl/cmd/cmd.go:279-284 | the completions are the listed contexts that pass the prefix test, in listing order, so every one starts with the word being completed |
| Cmd.ContextCompletion | cmd/swarmctl/cmd/cmd.go:270-288 | the listed contexts with the prefix, in listing order; a listing error is the error |
| Cmd.WithPrefixMembership | cmd/swarmctl/cmd/cmd.go:281-282 | a context is offered exactly when it is listed and has the prefix |
| Cmd.WithPrefixAppend | cmd/swarmctl/cmd/cmd.go:280-284 | completions keep listing order |
| Cmd.WithPrefixEmpty | cmd/swarmctl/cmd/cmd.go:281 | an empty word offers every context |
| Cmd.FirstInvalid | cmd/swarmctl/cmd/cmd.go:355-386 | the first changed flag that its check rejects, none when all pass |
| Cmd.ValidateFlags | cmd/swarmctl/cmd/cmd.go:355-389 | no set of changed flags is rejected, since every `*IsValid` helper accepts |
| Cmd.FixedCompletionsIgnoreInput | cmd/swarmctl/cmd/cmd.go:299-344 | the replicas, node-selector, image-tag and istio-revision lists do not depend on the input and never offer files |
| Cmd.ReplicasSuggestionIsDefault | cmd/swarmctl/cmd/cmd.go:300-302 | the one replica count offered is `1`, the flag's default, and parses as an integer |

## Left out

- Swarmctl.Swarm.InstallAll: the errors printed for each context are not returned. `InstallInto` returns them for one context, and every context's accepted objects are stated.
- Process bootstrap is not modelled: the controller manager, TLS, metrics, leader election, health checks and `os.Exit`. This covers pkg/informer/informer.go:50-141, `SetupWithManager` beyond its label filter, and cmd/main.go.
- The HTTP servers and clients are not modelled: routing, JSON encoding and decoding, and transport. A reply is an input datatype.
- Timers and sleeps are not modelled. Goroutines are a sequence of interleaved steps, one poll or one whole request pass at a time. The data race on the worker's `serviceList` is therefore not represented.
- The worker's `server` ignores a bind error (pkg/worker/worker.go:72), and so does the model. A bind failure is evidently meant to be fatal, but the code ignores it and the model follows the code.
- Request pass: a pass could be expected to see view updates made while it runs. Go's `range` reads the slice once, at the start of the pass, and the model follows the code.
- Kubernetes client construction (`New`, pkg k8sctx lines 67-93) is not modelled. Its outcome is the `newErr` input of `Install`.
- `List` is modelled only as its result. The kubeconfig's contexts are a given listing order, standing in for Go's random map order.
- The regular expression given to `Filter` is a given match test plus a compile error. Only the fixed CoreDNS pattern `(?m)^\s*kubernetes\s+(\S+)` is implemented, as a hand-written matcher.
- Template parsing and execution (`ParseTemplate`, `RenderTemplate`, `tmpl.Execute`) are not modelled. They are represented by the values a template is executed with, or by a rendering's documents or error.
- `GenerateInformer` and `GenerateInformerTelemetry` render a single template from the flag values and are not modelled separately.
- `InstallInformerTelemetry` and `InstallWorkerTelemetry` are covered by `Swarm.InstallInformer` and `Swarm.InstallWorker`, whose per-namespace rendering is a parameter.
- Swarmctl.Dump: write errors on stdout or on a file (pkg swarmctl lines 92-95 and 100-102) are not modelled, and neither is the success message. The directory error and a missing embedded template are modelled.
- Swarmctl.RenderRange: the int64 wrap-around of `i++` is not modelled. When `end` is the largest int64 the Go loop never ends; with unbounded integers the model renders the range and stops.
- Swarmctl.Swarm.Install: the root pre-run hook and `fmt.Scanln` are not modelled. The answer is the word read, or the scan error.
- Profiling, command grouping and flag registration are not modelled (cmd/swarmctl/cmd/cmd.go:32-125). The argument counts of the commands are used only for the finding below.
- Cmd.ContextCompletion: a listing error panics in the source. The model returns it as an error result.
- Util.Normalize: lower-cases ASCII letters only. Go's `strings.ToLower` maps no other character to one of `y`, `e`, `s`, `n`, `o`, so the accepted answers are the same.
- Strings.Split: modelled for a non-empty separator only, which is all the code uses.
- pkg/common/common.go (the flag pack) is not part of this model.

## Findings

| source | as written | input that shows it | evidently intended | confidence | as-written member | corrected member |
|---|---|---|---|---|---|---|
| cmd/swarmctl/pkg/swarmctl/swarmctl.go:310 | `GenerateWorkerTelemetry` takes exactly one argument (cmd/swarmctl/cmd/cmd.go:203). It uses that argument both as the range and as the `OnOff` value, so every rendered manifest carries the range text as its switch, which is never `on` or `off`. The completions `on`/`off` it offers are rejected as malformed ranges. | `swarmctl manifest generate worker telemetry 1:1` renders `service-1` with `OnOff: "1:1"` | like `InstallWorkerTelemetry` (swarmctl.go:705, cmd.go:259): two arguments, range then switch, `OnOff: args[1]` | medium, not executed | Swarmctl.GenerateWorkerTelemetryAsWritten, Swarmctl.TelemetrySwitchIsTheRange | Swarmctl.GenerateWorkerTelemetry, Swarmctl.TelemetrySwitchIsRequested |
