// The action pipeline that NewReconciler of internal/controller/trainer_controller.go registers:
// the actions run in order and a pass stops at the first error.
module Reconcile {
  import opened Applying
  import opened Cluster
  import opened Dependencies
  import opened Deploy
  import opened Outcome
  import opened Pipeline
  import opened Releases
  import opened Render
  import opened Runtimes
  import opened TlsPolicy
  import opened WorkDir
  import Unstructured

  // What is fixed for a process. `identify` reads the identity and the immutable fields off a
  // rendered item.
  datatype Config<!V> = Config(
    libs: Libraries,
    env: map<string, string>,
    profile: Profile,
    templates: Templates,
    parse: string -> Option<V>,
    identify: Unstructured.Fields -> Resource)

  // What one pass meets: the answers to the dependency check, the cluster type at rendering
  // time, the namespace of the Trainer, the release inputs and what garbage collection reaches.
  datatype Inputs = Inputs(
    facts: Facts,
    cluster: Result<ClusterType>,
    namespace: string,
    releases: Releases.Inputs,
    reach: Id -> bool)

  // The label that renderOverlay has kustomize set on every item.
  function WithLabel(r: Resource): Resource {
    r.(labels := r.labels[PART_OF_LABEL := PART_OF_TRAINER])
  }

  function Identified(identify: Unstructured.Fields -> Resource, items: seq<Unstructured.Fields>): seq<Resource> {
    seq(|items|, i requires 0 <= i < |items| => WithLabel(identify(items[i])))
  }

  // What fresh copies of the templates render to.
  function Wanted<V>(config: Config<V>, inputs: Inputs): Result<seq<Resource>> {
    if inputs.cluster.Failure? then Failure(inputs.cluster.error)
    else
      match FreshManifests(
        config.libs, config.env, config.profile, config.templates, inputs.namespace, inputs.cluster.value)
      case Failure(e) => Failure(e)
      case Success(items) => Success(Identified(config.identify, items))
  }

  function SpecOf<V>(config: Config<V>, inputs: Inputs): Spec<V> {
    Spec(inputs.facts, config.parse, inputs.releases, Wanted(config, inputs), inputs.reach)
  }

  // What a pass deploys: item by item what the templates render to in its namespace and cluster, each
  // under its own identity and with the operator's label.
  lemma WantedAre<V>(config: Config<V>, inputs: Inputs)
    ensures Wanted(config, inputs).Success? <==>
      inputs.cluster.Success? && FreshManifests(
        config.libs, config.env, config.profile, config.templates, inputs.namespace, inputs.cluster.value).Success?
    ensures Wanted(config, inputs).Success? ==>
      var items := FreshManifests(
        config.libs, config.env, config.profile, config.templates, inputs.namespace, inputs.cluster.value).value;
      var list := Wanted(config, inputs).value;
      && |list| == |items| && AllLabelled(list)
      && forall i | 0 <= i < |items| ::
           var r := config.identify(items[i]);
           list[i] == r.(labels := r.labels["platform.opendatahub.io/part-of" := "trainer"])
  {
  }

  // --- The world ---

  // The calls of the actions that are not modelled further: they fail or do not.
  class Outside {
    ghost var faults: nat

    constructor ()
      ensures faults == 0
    {
      faults := 0;
    }

    method Call() returns (ok: bool)
      modifies this
      ensures faults == old(faults) + if ok then 0 else 1
    {
      ok := *;
      if !ok {
        faults := faults + 1;
      }
    }
  }

  // The parts of the world that a pass works on.
  datatype World<!V> = World(
    conditions: Conditions,
    status: Status<V>,
    dirs: WorkDirs,
    store: Store,
    server: ApiServer,
    outside: Outside)
  {
    ghost function Faults(): nat
      reads dirs.manifests, dirs.runtimes, dirs.imageStreams, store, server, outside
    {
      dirs.Faults() + ApplyFaults(store, server) + store.deleteFailures + outside.faults
    }

    // The state of a pass that has rendered these resources.
    ghost function Now(rendered: seq<Resource>): State<V>
      reads conditions, status, dirs.manifests, dirs.runtimes, dirs.imageStreams, store, server, outside
    {
      State(conditions.degraded, status.releases, status.process, rendered, LiveOf(store, server), Faults())
    }
  }

  ghost predicate Ready<V>(config: Config<V>, world: World<V>)
    reads world.dirs.manifests, world.dirs.runtimes, world.dirs.imageStreams, world.server
  {
    world.dirs.Valid() && world.dirs.Usable(config.env, config.templates) && world.server.Valid()
  }

  // A process that starts with empty work directories is ready, whatever it finds in the cluster.
  method NewWorld<V>(
    config: Config<V>, releases: seq<Release>, process: Process<V>, live: Live)
    returns (world: World<V>)
    requires Settled(live.runtimes) && forall k <- live.runtimes :: k.kind in live.installed
    ensures Ready(config, world) && world.Now([]) == State(Unknown, releases, process, [], live, 0)
  {
    var conditions := new Conditions(Unknown);
    var status := new Status(releases, process);
    var manifests := new Disk(EMPTY);
    var runtimesDir := new Disk(EMPTY);
    var imageStreams := new Disk(EMPTY);
    var store := new Store(live.store);
    var server := new ApiServer(live.installed, live.runtimes);
    var outside := new Outside();
    world := World(conditions, status, WorkDirs(manifests, runtimesDir, imageStreams), store, server, outside);
  }

  const EMPTY := Tree(None, None, map[])

  // --- The actions ---

  method Check<V>(config: Config<V>, world: World<V>, inputs: Inputs, ghost rendered: seq<Resource>)
    returns (ok: bool)
    modifies world.conditions
    ensures Step(
      SpecOf(config, inputs), CheckDependenciesAction, old(world.Now(rendered)), world.Now(rendered), ok)
  {
    ok := CheckDependencies(world.conditions, inputs.facts);
  }

  method UpdateReleases<V>(config: Config<V>, world: World<V>, inputs: Inputs, ghost rendered: seq<Resource>)
    returns (ok: bool)
    modifies world.status
    ensures Step(SpecOf(config, inputs), UpdateReleasesAction, old(world.Now(rendered)), world.Now(rendered), ok)
  {
    ok := world.status.UpdateReleases(config.parse, inputs.releases);
  }

  method CallOutside<V>(
    config: Config<V>, world: World<V>, inputs: Inputs, action: Action, ghost rendered: seq<Resource>)
    returns (ok: bool)
    requires action in {EnsureNamespaceAction, DeploymentsStatusAction}
    modifies world.outside
    ensures Step(SpecOf(config, inputs), action, old(world.Now(rendered)), world.Now(rendered), ok)
  {
    ok := world.outside.Call();
  }

  // `intact` tells that no template copy was cut short.
  method RenderAll<V>(config: Config<V>, world: World<V>, inputs: Inputs, ghost rendered: seq<Resource>)
    returns (ok: bool, rendered': seq<Resource>, intact: bool)
    requires Ready(config, world) && SafeInputs(config.env, config.templates, inputs.namespace)
    modifies world.dirs.manifests, world.dirs.runtimes, world.dirs.imageStreams
    ensures if intact then Ready(config, world) else !ok && world.Faults() > old(world.Faults())
    ensures Step(SpecOf(config, inputs), RenderManifestsAction, old(world.Now(rendered)), world.Now(rendered'), ok)
  {
    var items;
    ghost var copies;
    items, intact, copies := RenderManifests(
      config.libs, config.env, config.profile, config.templates, inputs.namespace, inputs.cluster, world.dirs);
    if items.Failure? {
      return false, [], intact;
    }
    return true, Identified(config.identify, items.value), intact;
  }

  method DeployAll<V>(config: Config<V>, world: World<V>, inputs: Inputs, rendered: seq<Resource>)
    returns (ok: bool)
    requires world.server.Valid()
    modifies world.store, world.server`objects, world.server`installed, world.server`failures
    ensures world.server.Valid()
    ensures Step(SpecOf(config, inputs), DeployAction, old(world.Now(rendered)), world.Now(rendered), ok)
  {
    var err;
    ghost var applied, deleted;
    err, applied, deleted := DeployWithRecovery(world.store, world.server, rendered);
    ok := err.None?;
    assert Deploying(
      old(LiveOf(world.store, world.server)), rendered, applied, deleted, ok, world.Faults() == old(world.Faults()),
      LiveOf(world.store, world.server));
  }

  method CollectAll<V>(config: Config<V>, world: World<V>, inputs: Inputs, rendered: seq<Resource>)
    returns (ok: bool)
    modifies world.store
    ensures Step(SpecOf(config, inputs), GarbageCollectionAction, old(world.Now(rendered)), world.Now(rendered), ok)
  {
    ghost var removed;
    ok, removed := CollectGarbage(world.store, rendered, inputs.reach);
    assert Collecting(old(world.store.objects), rendered, inputs.reach, removed, ok, world.store.objects);
  }

  method StripAll<V>(config: Config<V>, world: World<V>, inputs: Inputs, ghost rendered: seq<Resource>)
    returns (ok: bool)
    requires world.server.Valid()
    modifies world.server`objects, world.server`updates, world.server`failures
    ensures world.server.Valid()
    ensures Step(
      SpecOf(config, inputs), StripRuntimeFinalizersAction, old(world.Now(rendered)), world.Now(rendered), ok)
  {
    ghost var done;
    ok, done := RemoveRuntimeFinalizers(world.server);
    assert Pipeline.Stripping(old(world.server.objects), done, ok, world.server.objects);
  }

  // One action, by its place in the registered order.
  method Act<V>(config: Config<V>, world: World<V>, inputs: Inputs, action: Action, rendered: seq<Resource>)
    returns (ok: bool, rendered': seq<Resource>, intact: bool)
    requires Ready(config, world) && SafeInputs(config.env, config.templates, inputs.namespace)
    modifies world.conditions, world.status, world.dirs.manifests, world.dirs.runtimes, world.dirs.imageStreams,
             world.store, world.server, world.outside
    ensures if intact then Ready(config, world) else !ok && world.Faults() > old(world.Faults())
    ensures Step(SpecOf(config, inputs), action, old(world.Now(rendered)), world.Now(rendered'), ok)
  {
    rendered', intact := rendered, true;
    match action {
      case CheckDependenciesAction =>
        ok := Check(config, world, inputs, rendered);
      case UpdateReleasesAction =>
        ok := UpdateReleases(config, world, inputs, rendered);
      case RenderManifestsAction =>
        ok, rendered', intact := RenderAll(config, world, inputs, rendered);
      case DeployAction =>
        ok := DeployAll(config, world, inputs, rendered);
      case StripRuntimeFinalizersAction =>
        ok := StripAll(config, world, inputs, rendered);
      case GarbageCollectionAction =>
        ok := CollectAll(config, world, inputs, rendered);
      case EnsureNamespaceAction | DeploymentsStatusAction =>
        ok := CallOutside(config, world, inputs, action, rendered);
    }
  }

  // --- A pass ---

  // `trace` lists the states before, between and after the actions that ran.
  method RunPass<V>(config: Config<V>, world: World<V>, inputs: Inputs)
    returns (ok: bool, intact: bool, ghost trace: seq<State<V>>)
    requires Ready(config, world) && SafeInputs(config.env, config.templates, inputs.namespace)
    modifies world.conditions, world.status, world.dirs.manifests, world.dirs.runtimes, world.dirs.imageStreams,
             world.store, world.server, world.outside
    ensures IsPass(SpecOf(config, inputs), trace, ok)
    ensures trace[0] == old(world.Now([])) && Next(Last(trace)) == world.Now([])
    ensures if intact then Ready(config, world) else !ok && !Calm(trace)
  {
    var rendered: seq<Resource> := [];
    ok, intact, trace := true, true, [world.Now([])];
    for i := 0 to |ACTIONS|
      invariant Ready(config, world) && ok && intact
      invariant |trace| == i + 1 && Steps(SpecOf(config, inputs), trace, true)
      invariant trace[0] == old(world.Now([])) && Last(trace) == world.Now(rendered)
    {
      ghost var before := trace;
      ok, rendered, intact := Act(config, world, inputs, ACTIONS[i], rendered);
      StepsSnoc(SpecOf(config, inputs), before, world.Now(rendered), ok);
      trace := before + [world.Now(rendered)];
      StepsFramed(SpecOf(config, inputs), trace, ok, 0, i);
      if !ok {
        return;
      }
    }
  }

  // --- Runs of passes ---

  // Each pass of the run was one with these inputs.
  ghost predicate Answers<V>(config: Config<V>, records: seq<Record<V>>, passes: seq<Inputs>) {
    && |records| <= |passes|
    && forall i | 0 <= i < |records| :: records[i].spec == SpecOf(config, passes[i])
  }

  method RecordPass<V>(config: Config<V>, world: World<V>, inputs: Inputs)
    returns (ok: bool, intact: bool, ghost record: Record<V>)
    requires Ready(config, world) && SafeInputs(config.env, config.templates, inputs.namespace)
    modifies world.conditions, world.status, world.dirs.manifests, world.dirs.runtimes, world.dirs.imageStreams,
             world.store, world.server, world.outside
    ensures record.spec == SpecOf(config, inputs) && record.ok == ok && Leads(record, old(world.Now([])), world.Now([]))
    ensures if intact then Ready(config, world) else world.Faults() > old(world.Faults())
    ensures world.Faults() >= old(world.Faults())
  {
    ghost var trace;
    ok, intact, trace := RunPass(config, world, inputs);
    record := Record(SpecOf(config, inputs), trace, ok);
    StepsFramed(record.spec, trace, ok, 0, |trace| - 1);
  }

  lemma AnswersSnoc<V>(config: Config<V>, records: seq<Record<V>>, passes: seq<Inputs>, record: Record<V>)
    requires Answers(config, records, passes) && |records| < |passes|
    requires record.spec == SpecOf(config, passes[|records|])
    ensures Answers(config, records + [record], passes)
  {
  }

  // Two passes: if the dependencies are met, the templates render to a deployable list and nothing
  // fails, the second succeeds wherever the first started. Of all that the collector reaches
  // exactly the rendering is left, and no managed training runtime has a legacy finalizer; if
  // none of the list was about to go, all of them are there as rendered.
  method Converge<V>(config: Config<V>, world: World<V>, inputs: Inputs)
    returns (first: bool, second: bool)
    requires Ready(config, world) && SafeInputs(config.env, config.templates, inputs.namespace)
    requires Wanted(config, inputs).Success? && Eligible(SpecOf(config, inputs), Wanted(config, inputs).value)
    requires Deployable(LiveOf(world.store, world.server), Wanted(config, inputs).value)
    modifies world.conditions, world.status, world.dirs.manifests, world.dirs.runtimes, world.dirs.imageStreams,
             world.store, world.server, world.outside
    ensures world.Faults() == old(world.Faults()) ==>
      var list := Wanted(config, inputs).value;
      && (first <==> Acceptable(old(world.store.objects), list))
      && second && Ready(config, world)
      && world.store.objects == Swept(old(world.store.objects), list, inputs.reach)
      && Holders(world.server.objects) == {}
      && (Doomed(old(world.server.objects), list) == {} ==> Wears(world.server.objects, list))
      && world.conditions.degraded == False("DependenciesAvailable")
  {
    ghost var start := world.Now([]);
    var intact;
    ghost var one, two;
    second := false;
    first, intact, one := RecordPass(config, world, inputs);
    ghost var middle := world.Now([]);
    if !intact {
      return;
    }
    second, intact, two := RecordPass(config, world, inputs);
    if middle.faults == start.faults == world.Faults() {
      WantedAre(config, inputs);
      TwoPasses(one, two, start, middle, world.Now([]), Wanted(config, inputs).value, inputs.reach);
    }
  }

  // Passes over a changing cluster, until the template copy of a pass is cut short.
  method RunPasses<V>(config: Config<V>, world: World<V>, passes: seq<Inputs>)
    returns (intact: bool, ghost states: seq<State<V>>, ghost records: seq<Record<V>>)
    requires Ready(config, world)
    requires forall inputs <- passes :: SafeInputs(config.env, config.templates, inputs.namespace)
    modifies world.conditions, world.status, world.dirs.manifests, world.dirs.runtimes, world.dirs.imageStreams,
             world.store, world.server, world.outside
    ensures IsRun(states, records) && Answers(config, records, passes)
    ensures states[0] == old(world.Now([])) && Last(states) == world.Now([])
    ensures if intact then |records| == |passes| && Ready(config, world)
            else records != [] && Last(states).faults > states[0].faults
  {
    intact, states, records := true, [world.Now([])], [];
    for i := 0 to |passes|
      invariant Ready(config, world) && intact
      invariant IsRun(states, records) && Answers(config, records, passes) && |records| == i
      invariant states[0] == old(world.Now([])) && Last(states) == world.Now([])
      invariant states[0].faults <= Last(states).faults
    {
      assert passes[i] in passes;
      ghost var record;
      var ok;
      ok, intact, record := RecordPass(config, world, passes[i]);
      RunSnoc(states, records, record, world.Now([]));
      AnswersSnoc(config, records, passes, record);
      states, records := states + [world.Now([])], records + [record];
      if !intact {
        return;
      }
    }
  }
}
