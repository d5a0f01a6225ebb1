// renderResourceSet and renderManifests of internal/controller/trainer_controller.go: what is
// rendered from the persistent work directories is what a fresh copy of the templates renders.
module Render {
  import opened Dependencies
  import opened OperandRewrite
  import opened Outcome
  import opened Params
  import opened TlsOperand
  import opened TlsPolicy
  import opened Unstructured
  import opened WorkDir

  // What a directory looks like to kustomize: the parameters, if there is a file of them, and
  // the other files.
  type DirectoryView = (Option<Result<Entries>>, map<string, string>)

  // The libraries. Kustomize renders a directory into a namespace, empty for none.
  datatype Libraries = Libraries(
    codec: Codec,
    tables: Tables,
    kustomize: (DirectoryView, string) -> Result<seq<Fields>>)

  datatype ResourceSet = ResourceSet(
    template: Tree,
    paramMap: map<string, string>,
    statics: Entries,
    namespace: string,
    filterConfigMaps: bool,
    operandTLS: bool)

  function PassOf(env: map<string, string>, rs: ResourceSet): Pass {
    Pass(Overrides(rs.paramMap, env), rs.statics)
  }

  // The parameters that rendering the set may write.
  function OwnedKeys(env: map<string, string>, rs: ResourceSet): set<string> {
    PassOf(env, rs).overrides.Keys + rs.statics.Keys
  }

  // The steps after kustomize.
  function Finish(libs: Libraries, profile: Profile, rs: ResourceSet, rendered: seq<Fields>): Result<seq<Fields>> {
    var items := if rs.filterConfigMaps then WithoutConfigMaps(rendered) else rendered;
    if !rs.operandTLS then Success(items)
    else
      match Translated(libs.tables, profile)
      case Failure(e) => Failure(e)
      case Success(opts) => Apply(libs.codec, opts, items)
  }

  // The rendering of a fresh copy of the template: it depends on nothing that went before, and
  // fails if the parameters of the template cannot be read.
  function FreshRender(
    libs: Libraries, env: map<string, string>, profile: Profile, rs: ResourceSet
  ): Result<seq<Fields>> {
    if !Readable(rs.template) then Failure("resolving params")
    else
    match libs.kustomize(FreshView(rs.template, PassOf(env, rs)), rs.namespace)
    case Failure(e) => Failure(e)
    case Success(rendered) => Finish(libs, profile, rs, rendered)
  }

  // The work directory is still empty or agrees with the template.
  ghost predicate Ready(env: map<string, string>, rs: ResourceSet, tree: Tree) {
    IsEmpty(tree) || Agrees(rs.template, tree, OwnedKeys(env, rs))
  }

  ghost predicate SafeEntries(env: map<string, string>, rs: ResourceSet) {
    AllLineSafe(Overrides(rs.paramMap, env)) && AllLineSafe(rs.statics)
  }

  // What a rendering may do to the directory: from state `ready` on it agrees with the template,
  // and before that it is being copied.
  ghost predicate Kept(keys: set<string>, template: Tree, before: Tree, from: nat, ready: nat, states: seq<Tree>) {
    && from <= ready <= |states| && ready > 0
    && states[ready - 1] == Overlay(before, template)
    && AllPartCopied(before, template, from, states[..ready])
    && AllAgree(template, keys, ready, states)
  }

  // `copied` tells that the template copy is complete, `skipped` that there was nothing to copy.
  // From the complete copy on every state agrees with the template, whatever fails and wherever
  // the process dies, and a pass that succeeds renders what a fresh copy renders.
  method RenderResourceSet(libs: Libraries, env: map<string, string>, profile: Profile, disk: Disk, rs: ResourceSet)
    returns (r: Result<seq<Fields>>, copied: bool, ghost skipped: bool, ghost ready: nat)
    requires disk.Valid() && Ready(env, rs, disk.tree) && SafeEntries(env, rs)
    modifies disk
    ensures disk.Valid() && old(disk.states) <= disk.states && disk.faults >= old(disk.faults)
    ensures r.Success? ==> copied && r == FreshRender(libs, env, profile, rs)
    ensures copied ==> Agrees(rs.template, disk.tree, OwnedKeys(env, rs))
    ensures skipped ==> copied && AllAgree(rs.template, OwnedKeys(env, rs), |old(disk.states)|, disk.states)
    ensures !skipped ==> IsEmpty(old(disk.tree)) || disk.faults > old(disk.faults)
    ensures !skipped && copied ==>
      Kept(OwnedKeys(env, rs), rs.template, old(disk.tree), |old(disk.states)|, ready, disk.states)
    ensures !copied ==>
      && disk.faults > old(disk.faults)
      && AllPartCopied(old(disk.tree), rs.template, |old(disk.states)|, disk.states)
    // Without faults it fails only where the rendering of a fresh copy does.
    ensures disk.faults == old(disk.faults) ==>
      (r.Success? <==> FreshRender(libs, env, profile, rs).Success?)
  {
    copied, skipped := EnsureWorkDir(disk, rs.template);
    ready := |disk.states|;
    if !copied {
      return Failure("preparing work directory"), copied, skipped, ready;
    }
    TemplateAgrees(rs.template, old(disk.tree), OwnedKeys(env, rs));
    r := RenderCopied(libs, env, profile, disk, rs);
  }

  // The steps after the template copy.
  method RenderCopied(libs: Libraries, env: map<string, string>, profile: Profile, disk: Disk, rs: ResourceSet)
    returns (r: Result<seq<Fields>>)
    requires disk.Valid() && Agrees(rs.template, disk.tree, OwnedKeys(env, rs)) && SafeEntries(env, rs)
    modifies disk
    ensures disk.Valid() && old(disk.states) <= disk.states && disk.faults >= old(disk.faults)
    ensures Agrees(rs.template, disk.tree, OwnedKeys(env, rs))
    ensures AllAgree(rs.template, OwnedKeys(env, rs), |old(disk.states)|, disk.states)
    ensures r.Success? ==> r == FreshRender(libs, env, profile, rs)
    ensures disk.faults == old(disk.faults) ==>
      (r.Success? <==> FreshRender(libs, env, profile, rs).Success?)
  {
    ghost var start, from, pass := disk.tree, |disk.states|, PassOf(env, rs);
    var ok := PrepareParams(disk, rs.paramMap, env, rs.statics);
    PrepareAllAgree(rs.template, start, disk.tree, pass, OwnedKeys(env, rs), from, disk.states);
    if !ok {
      return Failure("resolving params");
    }
    PreparedView(rs.template, start, disk.tree, pass);
    var rendered := libs.kustomize(View(disk.tree), rs.namespace);
    if rendered.Failure? {
      return Failure("rendering");
    }
    r := FinishItems(libs, profile, rs, rendered.value);
  }

  method FinishItems(libs: Libraries, profile: Profile, rs: ResourceSet, rendered: seq<Fields>)
    returns (r: Result<seq<Fields>>)
    ensures r.Success? <==> Finish(libs, profile, rs, rendered).Success?
    ensures r.Success? ==> r == Finish(libs, profile, rs, rendered)
  {
    var list := rendered;
    if rs.filterConfigMaps {
      list := FilterConfigMaps(list);
    }
    if rs.operandTLS {
      var items := new Fields[|list|](i requires 0 <= i < |list| => list[i]);
      assert items[..] == list;
      var ok := ApplyOperandTLSOptions(libs.codec, libs.tables, items, profile);
      if !ok {
        return Failure("applying operand TLS options");
      }
      return Success(items[..]);
    }
    return Success(list);
  }

  // --- renderManifests ---

  // Which environment variable overrides which parameter, by resource set.
  datatype ParamMaps = ParamMaps(
    manifests: map<string, string>, runtimes: map<string, string>, imageStreams: map<string, string>)

  const NAMESPACE_PARAM := "operator-namespace"

  datatype Templates = Templates(manifests: Tree, runtimes: Tree, imageStreams: Tree, params: ParamMaps)

  function ManifestsSet(templates: Templates, namespace: string): ResourceSet {
    ResourceSet(
      templates.manifests, templates.params.manifests, map[NAMESPACE_PARAM := namespace], namespace, false, true)
  }

  function RuntimesSet(templates: Templates): ResourceSet {
    ResourceSet(templates.runtimes, templates.params.runtimes, map[], "", true, false)
  }

  function ImageStreamsSet(templates: Templates, namespace: string): ResourceSet {
    ResourceSet(templates.imageStreams, templates.params.imageStreams, map[], namespace, true, false)
  }

  // The whole rendering from fresh copies of the templates.
  function FreshManifests(
    libs: Libraries, env: map<string, string>, profile: Profile, templates: Templates,
    namespace: string, cluster: ClusterType
  ): Result<seq<Fields>> {
    var manifests := FreshRender(libs, env, profile, ManifestsSet(templates, namespace));
    var runtimes := FreshRender(libs, env, profile, RuntimesSet(templates));
    var imageStreams :=
      if cluster.OpenShift? then FreshRender(libs, env, profile, ImageStreamsSet(templates, namespace))
      else Success([]);
    if manifests.Failure? then manifests
    else if runtimes.Failure? then runtimes
    else if imageStreams.Failure? then imageStreams
    else Success(manifests.value + runtimes.value + imageStreams.value)
  }

  // The three work directories.
  datatype WorkDirs = WorkDirs(manifests: Disk, runtimes: Disk, imageStreams: Disk) {
    ghost function Faults(): nat
      reads manifests, runtimes, imageStreams
    {
      manifests.faults + runtimes.faults + imageStreams.faults
    }

    ghost predicate Valid()
      reads manifests, runtimes, imageStreams
    {
      && manifests != runtimes && manifests != imageStreams && runtimes != imageStreams
      && manifests.Valid() && runtimes.Valid() && imageStreams.Valid()
    }

    // The namespace may change from pass to pass: the keys a pass writes do not depend on it.
    ghost predicate Usable(env: map<string, string>, templates: Templates)
      reads manifests, runtimes, imageStreams
    {
      && Ready(env, ManifestsSet(templates, ""), manifests.tree)
      && Ready(env, RuntimesSet(templates), runtimes.tree)
      && Ready(env, ImageStreamsSet(templates, ""), imageStreams.tree)
    }
  }

  // The image overrides and the namespace are line-safe.
  ghost predicate SafeInputs(env: map<string, string>, templates: Templates, namespace: string) {
    && SafeEntries(env, ManifestsSet(templates, namespace))
    && SafeEntries(env, RuntimesSet(templates))
    && SafeEntries(env, ImageStreamsSet(templates, namespace))
  }

  lemma SameKeys(env: map<string, string>, templates: Templates, namespace: string)
    ensures OwnedKeys(env, ManifestsSet(templates, namespace)) == OwnedKeys(env, ManifestsSet(templates, ""))
    ensures OwnedKeys(env, ImageStreamsSet(templates, namespace)) == OwnedKeys(env, ImageStreamsSet(templates, ""))
  {
  }

  // Which directories got a copy of their template.
  datatype Copies = Copies(manifests: bool, runtimes: bool, imageStreams: bool)

  // A directory gets a copy only if it was empty or looking at it failed. Without one, every
  // state since `from` agrees with the template.
  ghost predicate Tended(
    env: map<string, string>, rs: ResourceSet, copied: bool, before: Tree, faults: nat, from: nat, disk: Disk)
    reads disk
  {
    if copied then IsEmpty(before) || disk.faults > faults
    else AllAgree(rs.template, OwnedKeys(env, rs), from, disk.states)
  }

  // One turn of the loop over the resource sets.
  method RenderOne(libs: Libraries, env: map<string, string>, profile: Profile, disk: Disk, rs: ResourceSet)
    returns (r: Result<seq<Fields>>, intact: bool, ghost copied: bool)
    requires disk.Valid() && Ready(env, rs, disk.tree) && SafeEntries(env, rs)
    modifies disk
    ensures disk.Valid() && disk.faults >= old(disk.faults)
    ensures if intact then Ready(env, rs, disk.tree) else r.Failure? && disk.faults > old(disk.faults)
    ensures Tended(env, rs, copied, old(disk.tree), old(disk.faults), |old(disk.states)|, disk)
    ensures r.Success? ==> r == FreshRender(libs, env, profile, rs)
    ensures disk.faults == old(disk.faults) ==>
      (r.Success? <==> FreshRender(libs, env, profile, rs).Success?)
  {
    ghost var skipped, ready;
    r, intact, skipped, ready := RenderResourceSet(libs, env, profile, disk, rs);
    copied := !skipped;
  }

  // `intact` tells that no template copy was cut short, and `copies` which directories got a
  // copy. In the others every state on the way agrees with the template.
  method RenderManifests(
    libs: Libraries, env: map<string, string>, profile: Profile, templates: Templates, namespace: string,
    cluster: Result<ClusterType>, dirs: WorkDirs)
    returns (r: Result<seq<Fields>>, intact: bool, ghost copies: Copies)
    requires dirs.Valid() && dirs.Usable(env, templates) && SafeInputs(env, templates, namespace)
    modifies dirs.manifests, dirs.runtimes, dirs.imageStreams
    ensures dirs.Valid() && dirs.Faults() >= old(dirs.Faults())
    ensures if intact then dirs.Usable(env, templates) else dirs.Faults() > old(dirs.Faults())
    ensures Tended(
      env, ManifestsSet(templates, namespace), copies.manifests,
      old(dirs.manifests.tree), old(dirs.manifests.faults), |old(dirs.manifests.states)|, dirs.manifests)
    ensures Tended(
      env, RuntimesSet(templates), copies.runtimes,
      old(dirs.runtimes.tree), old(dirs.runtimes.faults), |old(dirs.runtimes.states)|, dirs.runtimes)
    ensures Tended(
      env, ImageStreamsSet(templates, namespace), copies.imageStreams,
      old(dirs.imageStreams.tree), old(dirs.imageStreams.faults), |old(dirs.imageStreams.states)|, dirs.imageStreams)
    ensures r.Success? ==> intact && cluster.Success?
    ensures r.Success? ==> r == FreshManifests(libs, env, profile, templates, namespace, cluster.value)
    ensures dirs.Faults() == old(dirs.Faults()) && cluster.Success? ==>
      (r.Success? <==> FreshManifests(libs, env, profile, templates, namespace, cluster.value).Success?)
  {
    intact, copies := true, Copies(false, false, false);
    if cluster.Failure? {
      return Failure("failed to detect cluster type"), intact, copies;
    }
    SameKeys(env, templates, namespace);
    ghost var copied;
    var manifests;
    manifests, intact, copied := RenderOne(libs, env, profile, dirs.manifests, ManifestsSet(templates, namespace));
    copies := copies.(manifests := copied);
    if manifests.Failure? {
      return manifests, intact, copies;
    }
    var runtimes;
    runtimes, intact, copied := RenderOne(libs, env, profile, dirs.runtimes, RuntimesSet(templates));
    copies := copies.(runtimes := copied);
    if runtimes.Failure? {
      return runtimes, intact, copies;
    }
    var imageStreams: Result<seq<Fields>> := Success([]);
    if cluster.value.OpenShift? {
      imageStreams, intact, copied :=
        RenderOne(libs, env, profile, dirs.imageStreams, ImageStreamsSet(templates, namespace));
      copies := copies.(imageStreams := copied);
      if imageStreams.Failure? {
        return imageStreams, intact, copies;
      }
    }
    return Success(manifests.value + runtimes.value + imageStreams.value), intact, copies;
  }

  // --- Policy changes ---

  // What a process that starts now makes of the policy last seen.
  function ResolveNow(platform: Platform, events: seq<Event>): Result<Resolved>
    requires events != []
  {
    var last := events[|events| - 1];
    Resolve(platform, Observed(last.profile, last.adherence))
  }

  // While a watched process is not shutting down, it uses the profile that it would use if it
  // started now.
  lemma RendersCurrentPolicy(platform: Platform, load: Load, events: seq<Event>)
    requires events != [] && Resolve(platform, load).Success? && Resolve(platform, load).value.watchable
    requires !ShutdownRequested(Resolve(platform, load).value, events)
    ensures ResolveNow(platform, events).Success?
    ensures ResolveNow(platform, events).value.effectiveProfile == Resolve(platform, load).value.effectiveProfile
  {
    NeverStale(platform, load, events);
    var i := |events| - 1;
    assert events[..i + 1] == events;
    var resolved := Resolve(platform, load).value;
    assert ShutdownRequested(resolved, events[..i + 1]) || UpToDate(platform, resolved, events[i]);
  }

  // --- The whole rendering, in terms of kustomize ---

  // What kustomize makes of a template, in a namespace, with these entries written over its parameters.
  ghost predicate Kustomized(
    libs: Libraries, template: Tree, entries: Entries, namespace: string, items: seq<Fields>)
  {
    match template.params
    case None => libs.kustomize((None, template.others), namespace) == Success(items)
    case Some(text) =>
      && Read(text).Success?
      && libs.kustomize((Some(Success(Read(text).value + entries)), template.others), namespace) == Success(items)
  }

  // The steps of a rendering: the options for the operand, the operand's items as kustomize makes them and
  // as they are rewritten, and the items of the other two templates.
  datatype Parts = Parts(
    opts: TlsOptions, operand: seq<Fields>, rewritten: seq<Fields>, runtimes: seq<Fields>, imageStreams: seq<Fields>)

  ghost predicate RenderedBy(
    libs: Libraries, env: map<string, string>, profile: Profile, templates: Templates,
    namespace: string, cluster: ClusterType, parts: Parts)
  {
    var params := templates.params;
    && Translated(libs.tables, profile) == Success(parts.opts)
    && Kustomized(
         libs, templates.manifests,
         Overrides(params.manifests, env) + map["operator-namespace" := namespace], namespace, parts.operand)
    && Apply(libs.codec, parts.opts, parts.operand) == Success(parts.rewritten)
    && Kustomized(libs, templates.runtimes, Overrides(params.runtimes, env), "", parts.runtimes)
    && if cluster == OpenShift then
         Kustomized(libs, templates.imageStreams, Overrides(params.imageStreams, env), namespace, parts.imageStreams)
       else parts.imageStreams == []
  }

  lemma KustomizedIff(libs: Libraries, env: map<string, string>, rs: ResourceSet, items: seq<Fields>)
    ensures Kustomized(libs, rs.template, Overrides(rs.paramMap, env) + rs.statics, rs.namespace, items) <==>
      && Readable(rs.template)
      && libs.kustomize(FreshView(rs.template, PassOf(env, rs)), rs.namespace) == Success(items)
  {
    if rs.template.params.Some? && Readable(rs.template) {
      AddTwice(Read(rs.template.params.value).value, Overrides(rs.paramMap, env), rs.statics);
    }
  }

  // A fresh copy renders to some items exactly if kustomize does and the steps after it succeed on its.
  lemma FreshRenderIff(
    libs: Libraries, env: map<string, string>, profile: Profile, rs: ResourceSet, entries: Entries, result: seq<Fields>)
    requires entries == Overrides(rs.paramMap, env) + rs.statics
    ensures FreshRender(libs, env, profile, rs) == Success(result) <==>
      exists items ::
        && Kustomized(libs, rs.template, entries, rs.namespace, items)
        && Finish(libs, profile, rs, items) == Success(result)
  {
    if Readable(rs.template) {
      match libs.kustomize(FreshView(rs.template, PassOf(env, rs)), rs.namespace) {
        case Success(items) =>
          KustomizedIff(libs, env, rs, items);
        case Failure(_) =>
      }
    }
    forall items
      ensures Kustomized(libs, rs.template, entries, rs.namespace, items) <==>
        Readable(rs.template) &&
        libs.kustomize(FreshView(rs.template, PassOf(env, rs)), rs.namespace) == Success(items)
    {
      KustomizedIff(libs, env, rs, items);
    }
  }

  // The operand's items come first and have its TLS options written into them; the items of the
  // training runtimes, rendered without a namespace, and on OpenShift those of the image streams
  // follow, without their ConfigMaps. Each template is rendered with the overrides of its own
  // parameters, and the operand's with the namespace. The rendering fails exactly if one of these
  // steps does.
  lemma FreshManifestsAre(
    libs: Libraries, env: map<string, string>, profile: Profile, templates: Templates,
    namespace: string, cluster: ClusterType, result: seq<Fields>)
    ensures FreshManifests(libs, env, profile, templates, namespace, cluster) == Success(result) <==>
      exists parts ::
        && RenderedBy(libs, env, profile, templates, namespace, cluster, parts)
        && result ==
           parts.rewritten + WithoutConfigMaps(parts.runtimes) + WithoutConfigMaps(parts.imageStreams)
  {
    if FreshManifests(libs, env, profile, templates, namespace, cluster) == Success(result) {
      var parts := PartsOf(libs, env, profile, templates, namespace, cluster, result);
    }
    if parts :|
      && RenderedBy(libs, env, profile, templates, namespace, cluster, parts)
      && result == parts.rewritten + WithoutConfigMaps(parts.runtimes) + WithoutConfigMaps(parts.imageStreams)
    {
      PartsRender(libs, env, profile, templates, namespace, cluster, parts);
    }
  }

  lemma NoStatics(entries: Entries)
    ensures entries + map[] == entries
  {
  }

  lemma PartsOf(
    libs: Libraries, env: map<string, string>, profile: Profile, templates: Templates,
    namespace: string, cluster: ClusterType, result: seq<Fields>) returns (parts: Parts)
    requires FreshManifests(libs, env, profile, templates, namespace, cluster) == Success(result)
    ensures RenderedBy(libs, env, profile, templates, namespace, cluster, parts)
    ensures result == parts.rewritten + WithoutConfigMaps(parts.runtimes) + WithoutConfigMaps(parts.imageStreams)
  {
    var set1, set2 := ManifestsSet(templates, namespace), RuntimesSet(templates);
    var set3 := ImageStreamsSet(templates, namespace);
    var a := FreshRender(libs, env, profile, set1).value;
    var b := FreshRender(libs, env, profile, set2).value;
    NoStatics(Overrides(set2.paramMap, env));
    NoStatics(Overrides(set3.paramMap, env));
    FreshRenderIff(libs, env, profile, set1, Overrides(set1.paramMap, env) + set1.statics, a);
    FreshRenderIff(libs, env, profile, set2, Overrides(set2.paramMap, env), b);
    var operand :| Kustomized(libs, set1.template, Overrides(set1.paramMap, env) + set1.statics, namespace, operand)
      && Finish(libs, profile, set1, operand) == Success(a);
    var runtimes :| Kustomized(libs, set2.template, Overrides(set2.paramMap, env), "", runtimes)
      && Finish(libs, profile, set2, runtimes) == Success(b);
    var imageStreams: seq<Fields> := [];
    if cluster == OpenShift {
      var c := FreshRender(libs, env, profile, set3).value;
      FreshRenderIff(libs, env, profile, set3, Overrides(set3.paramMap, env), c);
      imageStreams :| Kustomized(libs, set3.template, Overrides(set3.paramMap, env), namespace, imageStreams)
        && Finish(libs, profile, set3, imageStreams) == Success(c);
    }
    parts := Parts(Translated(libs.tables, profile).value, operand, a, runtimes, imageStreams);
  }

  lemma PartsRender(
    libs: Libraries, env: map<string, string>, profile: Profile, templates: Templates,
    namespace: string, cluster: ClusterType, parts: Parts)
    requires RenderedBy(libs, env, profile, templates, namespace, cluster, parts)
    ensures FreshManifests(libs, env, profile, templates, namespace, cluster) ==
      Success(parts.rewritten + WithoutConfigMaps(parts.runtimes) + WithoutConfigMaps(parts.imageStreams))
  {
    var set1, set2 := ManifestsSet(templates, namespace), RuntimesSet(templates);
    var set3 := ImageStreamsSet(templates, namespace);
    NoStatics(Overrides(set2.paramMap, env));
    NoStatics(Overrides(set3.paramMap, env));
    KustomizedIff(libs, env, set1, parts.operand);
    KustomizedIff(libs, env, set2, parts.runtimes);
    if cluster == OpenShift {
      KustomizedIff(libs, env, set3, parts.imageStreams);
    }
  }

  // --- Rolling the operand ---

  function PodTemplate(item: Fields): Lookup<Value> {
    Nested(item, ["spec", "template"])
  }

  // Two renderings of one template under two profiles, with a configuration for the operand in it: the
  // pod templates of its Deployment are the same exactly when the profiles translate to the same
  // options.
  lemma RollsExactlyOnTranslation(
    libs: Libraries, env: map<string, string>, a: Profile, b: Profile, templates: Templates,
    namespace: string, cluster: ClusterType, operand: seq<Fields>, config: nat, raw: string, i: nat)
    requires libs.codec.Lawful()
    requires FreshManifests(libs, env, a, templates, namespace, cluster).Success?
    requires FreshManifests(libs, env, b, templates, namespace, cluster).Success?
    requires Kustomized(
      libs, templates.manifests,
      Overrides(templates.params.manifests, env) + map["operator-namespace" := namespace], namespace, operand)
    requires config < |operand| && Configured(operand[config], raw)
    requires i < |operand| && ControllerDeployment(operand[i])
    ensures |FreshManifests(libs, env, a, templates, namespace, cluster).value| >= |operand|
    ensures |FreshManifests(libs, env, b, templates, namespace, cluster).value| >= |operand|
    ensures
      PodTemplate(FreshManifests(libs, env, a, templates, namespace, cluster).value[i]) ==
      PodTemplate(FreshManifests(libs, env, b, templates, namespace, cluster).value[i])
      <==> Translated(libs.tables, a) == Translated(libs.tables, b)
  {
    var pa := PartsOf(
      libs, env, a, templates, namespace, cluster, FreshManifests(libs, env, a, templates, namespace, cluster).value);
    var pb := PartsOf(
      libs, env, b, templates, namespace, cluster, FreshManifests(libs, env, b, templates, namespace, cluster).value);
    assert pa.operand == operand && pb.operand == operand;
    ConfiguredIs(operand[config], raw);
    IdentityIs(operand[i]);
    assert operand[config] in operand;
    RollsExactlyOnChange(libs.codec, pa.opts, pb.opts, operand, i);
  }

  // The pod templates that a watched process renders, against those that a process would render
  // that starts now: they differ exactly when the profiles in force translate differently, and
  // then this process is shutting down.
  lemma RollsWithPolicy(
    platform: Platform, load: Load, events: seq<Event>,
    libs: Libraries, env: map<string, string>, templates: Templates,
    namespace: string, cluster: ClusterType, operand: seq<Fields>, config: nat, raw: string, i: nat)
    requires events != [] && Resolve(platform, load).Success? && Resolve(platform, load).value.watchable
    requires ResolveNow(platform, events).Success?
    requires libs.codec.Lawful()
    requires FreshManifests(
      libs, env, Resolve(platform, load).value.effectiveProfile, templates, namespace, cluster).Success?
    requires FreshManifests(
      libs, env, ResolveNow(platform, events).value.effectiveProfile, templates, namespace, cluster).Success?
    requires Kustomized(
      libs, templates.manifests,
      Overrides(templates.params.manifests, env) + map["operator-namespace" := namespace], namespace, operand)
    requires config < |operand| && Configured(operand[config], raw)
    requires i < |operand| && ControllerDeployment(operand[i])
    ensures
      var mine := Resolve(platform, load).value.effectiveProfile;
      var now := ResolveNow(platform, events).value.effectiveProfile;
      var a := FreshManifests(libs, env, mine, templates, namespace, cluster).value;
      var b := FreshManifests(libs, env, now, templates, namespace, cluster).value;
      && |a| >= |operand| && |b| >= |operand|
      && (PodTemplate(a[i]) != PodTemplate(b[i]) <==> Translated(libs.tables, mine) != Translated(libs.tables, now))
      && (PodTemplate(a[i]) != PodTemplate(b[i]) ==> ShutdownRequested(Resolve(platform, load).value, events))
  {
    var mine := Resolve(platform, load).value.effectiveProfile;
    var now := ResolveNow(platform, events).value.effectiveProfile;
    RollsExactlyOnTranslation(libs, env, mine, now, templates, namespace, cluster, operand, config, raw, i);
    if !ShutdownRequested(Resolve(platform, load).value, events) {
      RendersCurrentPolicy(platform, load, events);
    }
  }
}
