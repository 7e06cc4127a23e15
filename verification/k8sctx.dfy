/** The per-cluster client context of the installer (cmd/swarmctl/pkg/k8sctx/k8sctx.go):
    server-side apply of one decoded YAML document through a discovery cache,
    selection of kubeconfig contexts, and the cluster domain read from the
    CoreDNS Corefile. The Kubernetes clients are inputs: discovery is a function
    from a group/version to its resource list or an error, and the outcome of the
    apply patch is a given error or none. */
module K8sCtx {
  import opened Wrappers
  import opened Strings
  import Sequences

  /** The group, version and kind the YAML decoder reports for a document. */
  datatype GVK = GVK(group: string, version: string, kind: string)

  datatype GVR = GVR(group: string, version: string, resource: string)

  /** One entry of a discovery `APIResourceList`. */
  datatype APIResource = APIResource(name: string, kind: string, namespaced: bool)

  /** A decoded document: its type and the metadata the apply reads. */
  datatype Object = Object(gvk: GVK, name: string, namespace: string)

  /** The group/version string used as the discovery key: the bare version for the core group. */
  function GroupVersion(gvk: GVK): string {
    if gvk.group == "" then gvk.version else gvk.group + "/" + gvk.version
  }

  /** The reading of a group/version string back into its group and version
      (the rule of `schema.ParseGroupVersion`): no slash is the core group, one
      slash separates group and version, more slashes are malformed. */
  function ParseGroupVersion(gv: string): (r: Option<(string, string)>)
    ensures r.Some? <==> CountChar(gv, '/') <= 1
  {
    SplitCharCount(gv, '/');
    var parts := Split(gv, "/");
    if |parts| == 1 then Some(("", gv))
    else if |parts| == 2 then Some((parts[0], parts[1]))
    else None
  }

  /** The key built for a document reads back as its group and version. */
  lemma GroupVersionRoundTrip(gvk: GVK)
    requires '/' !in gvk.group && '/' !in gvk.version
    ensures ParseGroupVersion(GroupVersion(gvk)) == Some((gvk.group, gvk.version))
  {
    if gvk.group == "" {
      SplitCharAbsent(gvk.version, '/');
    } else {
      assert GroupVersion(gvk) == gvk.group + ['/'] + gvk.version;
      SplitCharAround(gvk.group, '/', gvk.version);
    }
  }

  /** Two documents share a cache entry exactly when they have the same group and version. */
  lemma GroupVersionInjective(a: GVK, b: GVK)
    requires '/' !in a.group && '/' !in a.version && '/' !in b.group && '/' !in b.version
    ensures GroupVersion(a) == GroupVersion(b) <==> a.group == b.group && a.version == b.version
  {
    GroupVersionRoundTrip(a);
    GroupVersionRoundTrip(b);
  }

  /** The index of the first resource of the given kind, if any. */
  function FirstOfKind(resources: seq<APIResource>, kind: string): (r: Option<nat>)
    ensures r.Some? ==> r.value < |resources| && resources[r.value].kind == kind
    ensures forall k :: 0 <= k < |resources| && (r.None? || k < r.value) ==> resources[k].kind != kind
  {
    if resources == [] then None
    else if resources[0].kind == kind then Some(0)
    else match FirstOfKind(resources[1..], kind)
      case None => None
      case Some(i) => Some(i + 1)
  }

  /** The loop in `ApplyYaml` that picks the resource for the document's kind. */
  method FindResource(resources: seq<APIResource>, kind: string) returns (resource: Option<APIResource>)
    ensures resource.None? <==> FirstOfKind(resources, kind).None?
    ensures resource.Some? ==> resource.value == resources[FirstOfKind(resources, kind).value]
  {
    resource := None;
    for i := 0 to |resources|
      invariant forall k :: 0 <= k < i ==> resources[k].kind != kind
    {
      if resources[i].kind == kind {
        resource := Some(resources[i]);
        return;
      }
    }
  }

  const DefaultNamespace: string := "default"

  /** The namespace a namespaced object is applied in. */
  function EffectiveNamespace(namespace: string): (r: string)
    ensures r != ""
    ensures namespace != "" ==> r == namespace
  {
    if namespace == "" then DefaultNamespace else namespace
  }

  /** The one patch request `ApplyYaml` issues: cluster-wide, or inside a namespace. */
  datatype Target = ClusterScoped(gvr: GVR, name: string) | InNamespace(gvr: GVR, namespace: string, name: string)

  /** Where a document is applied once its resource is known. */
  function TargetFor(obj: Object, res: APIResource): (t: Target)
    ensures t.gvr == GVR(obj.gvk.group, obj.gvk.version, res.name) && t.name == obj.name
    ensures t.InNamespace? <==> res.namespaced
    ensures t.InNamespace? ==> t.namespace == EffectiveNamespace(obj.namespace)
  {
    var gvr := GVR(obj.gvk.group, obj.gvk.version, res.name);
    if res.namespaced then InNamespace(gvr, EffectiveNamespace(obj.namespace), obj.name)
    else ClusterScoped(gvr, obj.name)
  }

  /** The errors `ApplyYaml` returns, one constructor per return statement. */
  datatype ApplyError =
    | DecodeFailed(msg: string)
    | DiscoveryFailed(groupVersion: string, msg: string)
    | ResourceTypeNotFound
    | CreateFailed(name: string, gvr: GVR, msg: string)
    | ApplyFailed(name: string, gvr: GVR, msg: string)

  /** The collaborators `ApplyYaml` calls: the YAML decoder, the discovery client (a resource list
      or an error per group/version) and the server-side apply patch (an error or none per request). */
  datatype Api = Api(decode: string -> Result<Object, string>,
                     discover: string -> Result<seq<APIResource>, string>,
                     patch: Target -> Option<string>)

  /** The new discovery cache, the patch request made (if any) and the returned error. */
  datatype Outcome = Outcome(cache: map<string, seq<APIResource>>, target: Option<Target>, err: Option<ApplyError>)

  /** `ApplyYaml` on one document, given the cache before the call. */
  function Applied(cache: map<string, seq<APIResource>>, doc: string, api: Api): (o: Outcome)
    ensures cache.Keys <= o.cache.Keys && forall gv :: gv in cache ==> o.cache[gv] == cache[gv]
    ensures o.err.None? ==> o.target.Some? && api.patch(o.target.value).None?
    ensures o.target.Some? ==> api.decode(doc).Ok? && GroupVersion(api.decode(doc).value.gvk) in o.cache
  {
    match api.decode(doc)
    case Err(msg) => Outcome(cache, None, Some(DecodeFailed(msg)))
    case Ok(obj) =>
      var gv := GroupVersion(obj.gvk);
      var listed := if gv in cache then Ok(cache[gv]) else api.discover(gv);
      match listed
      case Err(msg) => Outcome(cache, None, Some(DiscoveryFailed(gv, msg)))
      case Ok(resources) =>
        var stored := cache[gv := resources];
        match FirstOfKind(resources, obj.gvk.kind)
        case None => Outcome(stored, None, Some(ResourceTypeNotFound))
        case Some(i) =>
          var t := TargetFor(obj, resources[i]);
          var err := match api.patch(t)
            case None => None
            case Some(msg) => Some(if t.InNamespace? then ApplyFailed(obj.name, t.gvr, msg) else CreateFailed(obj.name, t.gvr, msg));
          Outcome(stored, Some(t), err)
  }

  /** A cached group/version is reused: discovery is not consulted and the cache stays as it is. */
  lemma AppliedCacheHit(cache: map<string, seq<APIResource>>, doc: string, api: Api,
                        discover: string -> Result<seq<APIResource>, string>)
    requires api.decode(doc).Ok? && GroupVersion(api.decode(doc).value.gvk) in cache
    ensures Applied(cache, doc, api) == Applied(cache, doc, api.(discover := discover))
    ensures Applied(cache, doc, api).cache == cache
  {
  }

  /** An uncached group/version is discovered: a success is stored, a failure leaves the cache
      unchanged and returns the discovery error without a patch. */
  lemma AppliedCacheMiss(cache: map<string, seq<APIResource>>, doc: string, api: Api)
    requires api.decode(doc).Ok? && GroupVersion(api.decode(doc).value.gvk) !in cache
    ensures var gv := GroupVersion(api.decode(doc).value.gvk);
      var o := Applied(cache, doc, api);
      match api.discover(gv)
      case Ok(resources) => o.cache == cache[gv := resources]
      case Err(msg) => o.cache == cache && o.target.None? && o.err == Some(DiscoveryFailed(gv, msg))
  {
  }

  /** Once a document's group/version was discovered, applying it again needs no discovery. */
  lemma AppliedTwiceDiscoversOnce(cache: map<string, seq<APIResource>>, doc: string, api: Api,
                                  discover: string -> Result<seq<APIResource>, string>)
    requires api.decode(doc).Ok? && api.discover(GroupVersion(api.decode(doc).value.gvk)).Ok?
    ensures var first := Applied(cache, doc, api);
      Applied(first.cache, doc, api.(discover := discover)).cache == first.cache
  {
  }

  /** A patch is issued exactly when the kind is found, for the first resource of that kind, on
      the path the resource's scope selects; the error is the patch error under that path's message. */
  lemma AppliedTarget(cache: map<string, seq<APIResource>>, doc: string, api: Api)
    requires api.decode(doc).Ok?
    ensures var o := Applied(cache, doc, api);
      var obj := api.decode(doc).value;
      var gv := GroupVersion(obj.gvk);
      o.target.Some? <==> gv in o.cache && FirstOfKind(o.cache[gv], obj.gvk.kind).Some?
    ensures var o := Applied(cache, doc, api);
      var obj := api.decode(doc).value;
      var gv := GroupVersion(obj.gvk);
      o.target.Some? ==>
        var res := o.cache[gv][FirstOfKind(o.cache[gv], obj.gvk.kind).value];
        var t := o.target.value;
        t == TargetFor(obj, res) && (t.InNamespace? <==> res.namespaced) &&
        (api.patch(t).Some? ==>
          o.err == Some(if res.namespaced then ApplyFailed(obj.name, t.gvr, api.patch(t).value)
                        else CreateFailed(obj.name, t.gvr, api.patch(t).value)))
  {
  }

  /** After `ApplyYaml` on each of `docs` in turn: the cache, the error of each document, and the
      objects the cluster accepted, in order. */
  datatype Batch = Batch(cache: map<string, seq<APIResource>>, errs: seq<Option<ApplyError>>, applied: seq<Target>)

  /** The loops that apply every document and print the failures: every document is applied,
      whatever happened to the ones before it. */
  function AppliedAll(cache: map<string, seq<APIResource>>, docs: seq<string>, api: Api): (b: Batch)
    ensures |b.errs| == |docs|
    ensures cache.Keys <= b.cache.Keys && forall gv :: gv in cache ==> b.cache[gv] == cache[gv]
  {
    if docs == [] then Batch(cache, [], [])
    else
      var prev := AppliedAll(cache, docs[..|docs| - 1], api);
      var o := Applied(prev.cache, docs[|docs| - 1], api);
      Batch(o.cache, prev.errs + [o.err], prev.applied + Accepted(o))
  }

  /** The cluster accepts at most one object per document, only objects whose patch succeeded, and
      one for every document exactly when no document reported an error. */
  lemma {:induction false} AppliedAllAccepts(cache: map<string, seq<APIResource>>, docs: seq<string>, api: Api)
    ensures var b := AppliedAll(cache, docs, api);
      |b.applied| <= |docs| &&
      (forall k :: 0 <= k < |b.applied| ==> api.patch(b.applied[k]).None?) &&
      (|b.applied| == |docs| <==> forall k :: 0 <= k < |docs| ==> b.errs[k].None?)
  {
    if docs != [] {
      var n := |docs| - 1;
      AppliedAllAccepts(cache, docs[..n], api);
      var prev := AppliedAll(cache, docs[..n], api);
      var o := Applied(prev.cache, docs[n], api);
      var b := AppliedAll(cache, docs, api);
      assert b.errs == prev.errs + [o.err];
      assert forall k :: 0 <= k < n ==> b.errs[k] == prev.errs[k];
      assert b.errs[n] == o.err;
    }
  }

  /** The object a single apply leaves in the cluster: its target when the patch succeeded. */
  function Accepted(o: Outcome): (r: seq<Target>)
    requires o.err.None? ==> o.target.Some?
  {
    if o.err.None? then [o.target.value] else []
  }

  /** One more document: the step of `AppliedAll`. */
  lemma AppliedAllSnoc(cache: map<string, seq<APIResource>>, docs: seq<string>, doc: string, api: Api)
    ensures var prev := AppliedAll(cache, docs, api);
      var o := Applied(prev.cache, doc, api);
      AppliedAll(cache, docs + [doc], api) == Batch(o.cache, prev.errs + [o.err], prev.applied + Accepted(o))
  {
    assert (docs + [doc])[..|docs|] == docs;
  }

  /** Applying two lists in turn is applying their concatenation. */
  lemma {:induction false} AppliedAllAppend(cache: map<string, seq<APIResource>>, a: seq<string>, b: seq<string>, api: Api)
    ensures var first := AppliedAll(cache, a, api);
      var second := AppliedAll(first.cache, b, api);
      AppliedAll(cache, a + b, api) == Batch(second.cache, first.errs + second.errs, first.applied + second.applied)
  {
    if b == [] {
      assert a + b == a;
    } else {
      var init := b[..|b| - 1];
      var x := b[|b| - 1];
      assert b == init + [x];
      assert a + b == (a + init) + [x];
      AppliedAllAppend(cache, a, init, api);
      var first := AppliedAll(cache, a, api);
      var mid := AppliedAll(first.cache, init, api);
      var o := Applied(mid.cache, x, api);
      AppliedAllSnoc(cache, a + init, x, api);
      AppliedAllSnoc(first.cache, init, x, api);
      Sequences.AppendAssoc(first.errs, mid.errs, [o.err]);
      Sequences.AppendAssoc(first.applied, mid.applied, Accepted(o));
    }
  }

  /** The error reported for each document is what `ApplyYaml` returns for it on the cache left by
      the documents before it. */
  lemma {:induction false} AppliedAllEach(cache: map<string, seq<APIResource>>, docs: seq<string>, api: Api, k: nat)
    requires k < |docs|
    ensures AppliedAll(cache, docs, api).errs[k] == Applied(AppliedAll(cache, docs[..k], api).cache, docs[k], api).err
  {
    var n := |docs| - 1;
    if k < n {
      AppliedAllEach(cache, docs[..n], api, k);
      assert docs[..n][..k] == docs[..k];
    } else {
      assert docs[..n] == docs[..k];
    }
  }

  /** A kubeconfig cluster context: its name and its discovery cache `MapGV`. The objects the
      cluster has accepted through it are kept as a ghost log. */
  class Context {
    const name: string
    var mapGV: map<string, seq<APIResource>>
    ghost var applied: seq<Target>

    /** `New` once the clients are built: the cache starts empty. */
    constructor (name: string)
      ensures this.name == name && mapGV == map[] && applied == []
    {
      this.name := name;
      mapGV := map[];
      applied := [];
    }

    /** `ApplyYaml`: returns the patch request it made, if any, and its error. */
    method ApplyYaml(doc: string, api: Api) returns (target: Option<Target>, err: Option<ApplyError>)
      modifies this
      ensures var o := Applied(old(mapGV), doc, api);
        mapGV == o.cache && target == o.target && err == o.err && applied == old(applied) + Accepted(o)
    {
      var decoded := api.decode(doc);
      if decoded.Err? {
        return None, Some(DecodeFailed(decoded.error));
      }
      var obj := decoded.value;
      var gv := GroupVersion(obj.gvk);
      var resources: seq<APIResource>;
      if gv in mapGV {
        resources := mapGV[gv];
      } else {
        var listed := api.discover(gv);
        if listed.Err? {
          return None, Some(DiscoveryFailed(gv, listed.error));
        }
        resources := listed.value;
        mapGV := mapGV[gv := resources];
      }
      var resource := FindResource(resources, obj.gvk.kind);
      if resource.None? {
        return None, Some(ResourceTypeNotFound);
      }
      var t := TargetFor(obj, resource.value);
      target := Some(t);
      var patchErr := api.patch(t);
      if patchErr.None? {
        err := None;
        applied := applied + [t];
      } else if !resource.value.namespaced {
        err := Some(CreateFailed(obj.name, t.gvr, patchErr.value));
      } else {
        err := Some(ApplyFailed(obj.name, t.gvr, patchErr.value));
      }
    }

    /** `for _, doc := range docs { if err := c.ApplyYaml(doc); err != nil { print } }`:
        returns the error of each document. */
    method ApplyAll(docs: seq<string>, api: Api) returns (errs: seq<Option<ApplyError>>)
      modifies this
      ensures var b := AppliedAll(old(mapGV), docs, api);
        mapGV == b.cache && errs == b.errs && applied == old(applied) + b.applied
    {
      errs := [];
      for i := 0 to |docs|
        invariant var b := AppliedAll(old(mapGV), docs[..i], api);
          mapGV == b.cache && errs == b.errs && applied == old(applied) + b.applied
      {
        assert docs[..i + 1][..i] == docs[..i];
        var _, err := ApplyYaml(docs[i], api);
        errs := errs + [err];
      }
      assert docs[..|docs|] == docs;
    }
  }

  /** The loaded kubeconfig: its current context and its context names in listing order. */
  datatype Kubeconfig = Kubeconfig(currentContext: string, contexts: seq<string>)

  /** What `Filter` returns: with an empty expression, the current context; otherwise the listed
      contexts the expression matches, in listing order. `compileErr` is the error
      `regexp.MatchString` reports for an invalid expression and `matches` the match test of a
      valid one. */
  function Matching(regex: string, config: Result<Kubeconfig, string>, compileErr: Option<string>,
                    matches: string -> bool): (r: Result<seq<string>, string>)
  {
    if config.Err? then Err(config.error)
    else if regex == "" then Ok([config.value.currentContext])
    else if compileErr.Some? then
      if config.value.contexts == [] then Ok([]) else Err(compileErr.value)
    else Ok(Sequences.Filter(config.value.contexts, matches))
  }

  /** `Filter`, with its matching loop. */
  method Filter(regex: string, config: Result<Kubeconfig, string>, compileErr: Option<string>,
                matches: string -> bool) returns (r: Result<seq<string>, string>)
    ensures r == Matching(regex, config, compileErr, matches)
  {
    if regex == "" {
      if config.Err? {
        return Err(config.error);
      }
      return Ok([config.value.currentContext]);
    }
    if config.Err? {
      return Err(config.error);
    }
    var contexts := config.value.contexts;
    var matching: seq<string> := [];
    for i := 0 to |contexts|
      invariant compileErr.None? ==> matching == Sequences.Filter(contexts[..i], matches)
      invariant compileErr.Some? ==> matching == [] && i == 0
    {
      if compileErr.Some? {
        return Err(compileErr.value);
      }
      Sequences.FilterPrefix(contexts, i, matches);
      if matches(contexts[i]) {
        matching := matching + [contexts[i]];
      }
    }
    assert contexts[..|contexts|] == contexts;
    return Ok(matching);
  }

  /** With an empty expression only the current context is selected; with a valid one, exactly
      the listed contexts that match, in listing order; an invalid one fails unless there is
      nothing to match against. */
  lemma {:induction false} MatchingSelects(regex: string, config: Result<Kubeconfig, string>, compileErr: Option<string>,
                                           matches: string -> bool, name: string)
    requires config.Ok?
    ensures regex == "" ==> Matching(regex, config, compileErr, matches) == Ok([config.value.currentContext])
    ensures regex != "" && compileErr.None? ==>
      var r := Matching(regex, config, compileErr, matches);
      r.Ok? && (name in r.value <==> name in config.value.contexts && matches(name))
    ensures regex != "" && compileErr.Some? ==>
      (Matching(regex, config, compileErr, matches).Ok? <==> config.value.contexts == [])
  {
    Sequences.FilterMembership(config.value.contexts, matches, name);
  }

  /** RE2's `\s`: tab, newline, form feed, carriage return and space. */
  predicate ReSpace(c: char) {
    c == '\t' || c == '\n' || c == '\U{0C}' || c == '\r' || c == ' '
  }

  /** The end of the run of `\s` characters that starts at `i`. */
  function SkipSpaces(s: string, i: nat): (j: nat)
    requires i <= |s|
    ensures i <= j <= |s| && (j == |s| || !ReSpace(s[j]))
    ensures forall k :: i <= k < j ==> ReSpace(s[k])
    decreases |s| - i
  {
    if i < |s| && ReSpace(s[i]) then SkipSpaces(s, i + 1) else i
  }

  /** The end of the run of `\S` characters that starts at `i`. */
  function SkipToken(s: string, i: nat): (j: nat)
    requires i <= |s|
    ensures i <= j <= |s| && (j == |s| || ReSpace(s[j]))
    ensures forall k :: i <= k < j ==> !ReSpace(s[k])
    decreases |s| - i
  {
    if i < |s| && !ReSpace(s[i]) then SkipToken(s, i + 1) else i
  }

  /** In multi-line mode `^` matches at the start of the text and after every newline. */
  predicate LineStart(s: string, p: nat) {
    p == 0 || (p <= |s| && s[p - 1] == '\n')
  }

  const Directive: string := "kubernetes"

  /** The capture of `^\s*kubernetes\s+(\S+)` for a match that starts at `p`, if one does.
      Every quantifier is greedy and any shorter choice leaves a space where a letter is
      needed, so the leftmost-first match takes whole runs of spaces and the whole token. */
  function MatchAt(s: string, p: nat): (r: Option<string>)
    requires p <= |s|
    ensures r.Some? ==> r.value != [] && forall k :: 0 <= k < |r.value| ==> !ReSpace(r.value[k])
  {
    var q := SkipSpaces(s, p);
    if !OccursAt(s, Directive, q) then None
    else
      var a := q + |Directive|;
      var b := SkipSpaces(s, a);
      if b == a || b == |s| then None
      else
        var e := SkipToken(s, b);
        assert forall k :: 0 <= k < e - b ==> s[b..e][k] == s[b + k];
        Some(s[b..e])
  }

  /** The leftmost match at or after `from`. */
  function FirstMatch(s: string, from: nat): (r: Option<nat>)
    requires from <= |s|
    ensures r.Some? ==> from <= r.value <= |s| && LineStart(s, r.value) && MatchAt(s, r.value).Some?
    ensures forall p :: from <= p <= |s| && (r.None? || p < r.value) && LineStart(s, p) ==> MatchAt(s, p).None?
    decreases |s| - from
  {
    if LineStart(s, from) && MatchAt(s, from).Some? then Some(from)
    else if from == |s| then None
    else FirstMatch(s, from + 1)
  }

  /** `parseClusterDomainFromCorefile`: the token after the first `kubernetes` directive,
      trimmed, when it contains a dot; the empty string otherwise. */
  function ParseClusterDomain(corefile: string): (r: string)
  {
    match FirstMatch(corefile, 0)
    case None => ""
    case Some(p) =>
      var token := MatchAt(corefile, p).value;
      if !Contains(token, ".") then "" else TrimSpace(token)
  }

  /** The parsed domain is empty, or it is the trimmed token of the first directive, contains a dot
      and neither starts nor ends with white space. */
  lemma ParseClusterDomainShape(corefile: string)
    ensures var r := ParseClusterDomain(corefile);
      r == "" || ('.' in r && !IsSpace(r[0]) && !IsSpace(r[|r| - 1]))
    ensures var r := ParseClusterDomain(corefile);
      r != "" ==> FirstMatch(corefile, 0).Some? && r == TrimSpace(MatchAt(corefile, FirstMatch(corefile, 0).value).value)
    ensures FirstMatch(corefile, 0).None? ==> ParseClusterDomain(corefile) == ""
  {
    match FirstMatch(corefile, 0)
    case None =>
    case Some(p) =>
      var token := MatchAt(corefile, p).value;
      TokenDomain(token);
  }

  /** The domain taken from a token: empty without a dot, else trimmed and still holding the dot. */
  lemma TokenDomain(token: string)
    ensures var r := if !Contains(token, ".") then "" else TrimSpace(token);
      r == "" || ('.' in r && !IsSpace(r[0]) && !IsSpace(r[|r| - 1]))
  {
    if Contains(token, ".") {
      DottedTrim(token);
      var r := TrimSpace(token);
      assert r != [];
      assert !IsSpace(r[0]) && !IsSpace(r[|r| - 1]);
    }
  }

  /** A token holding a dot still holds it once trimmed. */
  lemma DottedTrim(token: string)
    requires Contains(token, ".")
    ensures '.' in TrimSpace(token)
  {
    ContainsChar(token, '.');
    var i :| 0 <= i < |token| && token[i] == '.';
    TrimSpaceKeeps(token, i);
  }

  /** A directive line `kubernetes <domain> ...` at the top of the Corefile yields its domain. */
  lemma ParseDirective(domain: string, rest: string)
    requires '.' in domain && forall k :: 0 <= k < |domain| ==> !IsSpace(domain[k])
    requires rest == [] || ReSpace(rest[0])
    ensures ParseClusterDomain(Directive + " " + domain + rest) == domain
  {
    var s := Directive + " " + domain + rest;
    DirectiveMatch(domain, rest);
    assert FirstMatch(s, 0) == Some(0);
    ContainsChar(domain, '.');
    TrimSpaceUnchanged(domain);
  }

  /** The pattern matches at the start of such a line and captures the domain. */
  lemma DirectiveMatch(domain: string, rest: string)
    requires domain != [] && forall k :: 0 <= k < |domain| ==> !IsSpace(domain[k])
    requires rest == [] || ReSpace(rest[0])
    ensures MatchAt(Directive + " " + domain + rest, 0) == Some(domain)
  {
    var s := Directive + " " + domain + rest;
    var n := |Directive|;
    assert s[..n] == Directive && s[n] == ' ';
    assert forall k :: 0 <= k < |domain| ==> s[n + 1 + k] == domain[k];
    assert SkipSpaces(s, 0) == 0;
    assert OccursAt(s, Directive, 0);
    assert SkipSpaces(s, n + 1) == n + 1;
    assert SkipSpaces(s, n) == n + 1;
    var e := SkipToken(s, n + 1);
    assert e == n + 1 + |domain| by {
      forall k | n + 1 <= k < n + 1 + |domain| ensures !ReSpace(s[k]) {
        assert s[k] == domain[k - n - 1];
      }
      if |rest| > 0 {
        assert s[n + 1 + |domain|] == rest[0];
      }
    }
    assert s[n + 1..e] == domain;
  }

  /** The example of the source comment: `kubernetes cluster.local in-addr.arpa ip6.arpa {` and
      any other line that continues `kubernetes cluster.local` with a space, or ends there. */
  lemma CorefileExample(rest: string)
    requires rest == [] || ReSpace(rest[0])
    ensures ParseClusterDomain("kubernetes cluster.local" + rest) == "cluster.local"
  {
    var domain := "cluster.local";
    assert forall k :: 0 <= k < |domain| ==> !IsSpace(domain[k]);
    assert domain[7] == '.';
    assert Directive + " " + domain == "kubernetes cluster.local";
    ParseDirective(domain, rest);
  }

  const DefaultDomain: string := "cluster.local"

  /** `GetClusterDomain`: `data` is the `data` map of the `kube-system/coredns` ConfigMap, or
      `None` when the get fails or the field is missing or not a map of strings. */
  function GetClusterDomain(data: Option<map<string, string>>): string {
    if data.None? || "Corefile" !in data.value then DefaultDomain
    else
      var domain := ParseClusterDomain(data.value["Corefile"]);
      if domain == "" then DefaultDomain else domain
  }

  /** The cluster domain is never empty and always contains a dot: it is the parsed domain when
      there is one, and `cluster.local` on every failure. */
  lemma GetClusterDomainFallback(data: Option<map<string, string>>)
    ensures var r := GetClusterDomain(data);
      r != "" && '.' in r
    ensures var r := GetClusterDomain(data);
      if data.Some? && "Corefile" in data.value && ParseClusterDomain(data.value["Corefile"]) != ""
      then r == ParseClusterDomain(data.value["Corefile"])
      else r == DefaultDomain
  {
    assert DefaultDomain[7] == '.';
    if data.Some? && "Corefile" in data.value {
      ParseClusterDomainShape(data.value["Corefile"]);
    }
  }
}
