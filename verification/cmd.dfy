/** The command tree's own helpers (cmd/swarmctl/cmd/cmd.go): shell completion of the
    `--context` flag by prefix, the fixed completion lists of the other flags, and the
    pre-run flag validation shared by the generate and install commands. */
module Cmd {
  import opened Wrappers
  import opened Strings
  import opened Strconv
  import Sequences

  /** cobra's directive returned with every completion list here: do not fall back to file names. */
  datatype ShellCompDirective = NoFileComp

  /** The completion test: the context name starts with the word typed so far. */
  function PrefixTest(prefix: string): string -> bool {
    c => HasPrefix(c, prefix)
  }

  /** The listed contexts that start with `prefix`, in listing order. */
  function WithPrefix(contexts: seq<string>, prefix: string): (r: seq<string>)
    ensures forall k :: 0 <= k < |r| ==> HasPrefix(r[k], prefix)
  {
    Sequences.Filter(contexts, PrefixTest(prefix))
  }

  /** `contextCompletion`: `listing` is what `k8sctx.List` returns. A listing error panics; it is
      modelled as an error result. */
  method ContextCompletion(listing: Result<seq<string>, string>, toComplete: string)
    returns (completions: Result<seq<string>, string>, directive: ShellCompDirective)
    ensures listing.Err? ==> completions == Err(listing.error)
    ensures listing.Ok? ==> completions == Ok(WithPrefix(listing.value, toComplete))
    ensures directive == NoFileComp
  {
    if listing.Err? {
      return Err(listing.error), NoFileComp;
    }
    var contexts := listing.value;
    var selected: seq<string> := [];
    for i := 0 to |contexts|
      invariant selected == WithPrefix(contexts[..i], toComplete)
    {
      Sequences.FilterPrefix(contexts, i, PrefixTest(toComplete));
      if HasPrefix(contexts[i], toComplete) {
        selected := selected + [contexts[i]];
      }
    }
    assert contexts[..|contexts|] == contexts;
    return Ok(selected), NoFileComp;
  }

  /** Every listed context with the prefix is offered, and nothing else. */
  lemma WithPrefixMembership(contexts: seq<string>, prefix: string, name: string)
    ensures name in WithPrefix(contexts, prefix) <==> name in contexts && HasPrefix(name, prefix)
  {
    Sequences.FilterMembership(contexts, PrefixTest(prefix), name);
  }

  /** Selection keeps listing order: the completions of two listings one after the other are the
      completions of the first followed by those of the second. */
  lemma WithPrefixAppend(a: seq<string>, b: seq<string>, prefix: string)
    ensures WithPrefix(a + b, prefix) == WithPrefix(a, prefix) + WithPrefix(b, prefix)
  {
    Sequences.FilterAppend(a, b, PrefixTest(prefix));
  }

  /** An empty word to complete offers every listed context. */
  lemma WithPrefixEmpty(contexts: seq<string>)
    ensures WithPrefix(contexts, "") == contexts
  {
    Sequences.FilterKeepsAll(contexts, PrefixTest(""));
  }

  /** The flags whose values the pre-run hook checks, in the order it checks them. */
  const CheckedFlags: seq<string> := ["context", "replicas", "node-selector", "image-tag", "istio-revision"]

  /** The `*IsValid` helpers: each accepts whatever value the flag has. */
  predicate ContextIsValid() { true }
  predicate ReplicasIsValid() { true }
  predicate NodeSelectorIsValid() { true }
  predicate ImageTagIsValid() { true }
  predicate IstioRevisionIsValid() { true }

  /** Whether the helper for a checked flag accepts it. */
  predicate FlagIsValid(flag: string) {
    match flag
    case "context" => ContextIsValid()
    case "replicas" => ReplicasIsValid()
    case "node-selector" => NodeSelectorIsValid()
    case "image-tag" => ImageTagIsValid()
    case "istio-revision" => IstioRevisionIsValid()
    case _ => true
  }

  /** The first flag among `flags` that was set on the command line and that `valid` rejects. */
  function FirstInvalid(flags: seq<string>, changed: set<string>, valid: string -> bool): (r: Option<string>)
    ensures r.Some? ==> r.value in flags && r.value in changed && !valid(r.value)
    ensures r.None? <==> forall k :: 0 <= k < |flags| ==> flags[k] !in changed || valid(flags[k])
  {
    if flags == [] then None
    else if flags[0] in changed && !valid(flags[0]) then Some(flags[0])
    else
      var rest := FirstInvalid(flags[1..], changed, valid);
      assert forall k :: 1 <= k < |flags| ==> flags[1..][k - 1] == flags[k];
      rest
  }

  /** `validateFlags`: for each changed flag, in order, the error `invalid <flag>` when its helper
      rejects it. `changed` is the set of flags given on the command line. As every helper
      accepts, no set of flags is rejected. */
  function ValidateFlags(changed: set<string>): (r: Option<string>)
    ensures r.None?
  {
    match FirstInvalid(CheckedFlags, changed, FlagIsValid)
    case Some(flag) => Some("invalid " + flag)
    case None => None
  }

  /** The fixed completion lists of `--replicas`, `--node-selector`, `--image-tag` and `--istio-revision`. */
  function ReplicasCompletion(args: seq<string>, toComplete: string): (r: (seq<string>, ShellCompDirective)) {
    (["1"], NoFileComp)
  }

  function NodeSelectorCompletion(args: seq<string>, toComplete: string): (r: (seq<string>, ShellCompDirective)) {
    (["{key1: value1, key2: value2}"], NoFileComp)
  }

  function ImageTagCompletion(args: seq<string>, toComplete: string): (r: (seq<string>, ShellCompDirective)) {
    (["main", "pr-xx"], NoFileComp)
  }

  function IstioRevisionCompletion(args: seq<string>, toComplete: string): (r: (seq<string>, ShellCompDirective)) {
    (["1-19-x", "1-20-x", "1-21-x"], NoFileComp)
  }

  /** The default of the `--replicas` flag on the generate and install commands. */
  const DefaultReplicas: int := 1

  /** The fixed lists do not depend on what is typed, unlike the context completion, and never
      offer file names. */
  lemma FixedCompletionsIgnoreInput(a1: seq<string>, t1: string, a2: seq<string>, t2: string)
    ensures ReplicasCompletion(a1, t1) == ReplicasCompletion(a2, t2)
    ensures NodeSelectorCompletion(a1, t1) == NodeSelectorCompletion(a2, t2)
    ensures ImageTagCompletion(a1, t1) == ImageTagCompletion(a2, t2)
    ensures IstioRevisionCompletion(a1, t1) == IstioRevisionCompletion(a2, t2)
    ensures ReplicasCompletion(a1, t1).1 == NoFileComp && IstioRevisionCompletion(a1, t1).1 == NoFileComp
  {
  }

  /** The one replica count offered is the flag's default, and it parses as an integer. */
  lemma ReplicasSuggestionIsDefault(args: seq<string>, toComplete: string)
    ensures |ReplicasCompletion(args, toComplete).0| == 1
    ensures Atoi(ReplicasCompletion(args, toComplete).0[0]) == Some(DefaultReplicas)
  {
    AtoiItoa(1);
    assert Itoa(1) == "1";
  }
}
