// What the actions of NewReconciler in internal/controller/trainer_controller.go do to the state
// they work on, and what follows for a pass and for runs of passes.
module Pipeline {
  import opened Applying
  import opened Cluster
  import opened Dependencies
  import opened Deploy
  import opened Outcome
  import opened Releases
  import opened Runtimes
  import opened Sequences

  datatype Action =
    | CheckDependenciesAction
    | EnsureNamespaceAction
    | UpdateReleasesAction
    | RenderManifestsAction
    | DeployAction
    | DeploymentsStatusAction
    | StripRuntimeFinalizersAction
    | GarbageCollectionAction

  // The registered order.
  const ACTIONS := [
    CheckDependenciesAction, EnsureNamespaceAction, UpdateReleasesAction, RenderManifestsAction,
    DeployAction, DeploymentsStatusAction, StripRuntimeFinalizersAction, GarbageCollectionAction]

  // What the actions work on: the Degraded condition, the releases in the status and in the
  // process, the resources rendered by this pass, and the cluster. `faults` counts the calls
  // that failed without the cluster's state being the reason.
  datatype State<V> = State(
    degraded: Degraded,
    releases: seq<Release>,
    process: Process<V>,
    rendered: seq<Resource>,
    live: Live,
    faults: nat)

  // What one pass meets: the answers to the dependency check, the release inputs, what fresh
  // copies of the templates render to, and the objects within the reach of garbage collection.
  datatype Spec<!V> = Spec(
    facts: Facts,
    parse: string -> Option<V>,
    releases: Releases.Inputs,
    wanted: Result<seq<Resource>>,
    reach: Id -> bool)

  // --- The actions ---

  // The release list and the process release after updateReleases.
  function Released<V>(spec: Spec<V>, before: State<V>): State<V> {
    before.(
      releases := UpsertAll(before.releases, Updates(spec.parse, spec.releases)),
      process :=
        if Advances(spec.parse, spec.releases).Some? then Process(PLATFORM, Advances(spec.parse, spec.releases).value)
        else before.process)
  }

  ghost predicate DeployedTo(before: Live, resources: seq<Resource>, ok: bool, calm: bool, after: Live) {
    exists applied, deleted :: Deploying(before, resources, applied, deleted, ok, calm, after)
  }

  // A removal of the legacy finalizer from some managed objects, from all of them on success.
  ghost predicate Stripping(before: Objects, done: set<Key>, ok: bool, after: Objects) {
    && done <= ManagedKeys(before)
    && after == StripOn(before, done)
    && (ok ==> done == ManagedKeys(before))
  }

  ghost predicate StrippedTo(before: Objects, ok: bool, after: Objects) {
    exists done :: Stripping(before, done, ok, after)
  }

  ghost predicate CollectedTo(
    before: Stored, resources: seq<Resource>, reach: Id -> bool, ok: bool, after: Stored)
  {
    exists removed :: Collecting(before, resources, reach, removed, ok, after)
  }

  // One action; it is calm if it meets no fault. What a failed rendering leaves is open: the pass
  // ends there and nothing reads it.
  ghost predicate Step<V>(spec: Spec<V>, action: Action, before: State<V>, after: State<V>, ok: bool) {
    var calm := after.faults == before.faults;
    && after.faults >= before.faults
    && match action
       case CheckDependenciesAction =>
         && after == before.(degraded := after.degraded)
         && ok == DependenciesMet(spec.facts)
         && if ok then after.degraded == False("DependenciesAvailable") else after.degraded.True?
       case UpdateReleasesAction =>
         after == Released(spec, before) && ok == spec.releases.platform.Success?
       case RenderManifestsAction =>
         && after == before.(rendered := after.rendered, faults := after.faults)
         && (ok ==> spec.wanted == Success(after.rendered))
         && (calm ==> (ok <==> spec.wanted.Success?))
       case DeployAction =>
         && after == before.(live := after.live, faults := after.faults)
         && DeployedTo(before.live, before.rendered, ok, calm, after.live)
       case StripRuntimeFinalizersAction =>
         && after == before.(live := before.live.(runtimes := after.live.runtimes), faults := after.faults)
         && (calm ==> ok)
         && StrippedTo(before.live.runtimes, ok, after.live.runtimes)
       case GarbageCollectionAction =>
         && after == before.(live := before.live.(store := after.live.store), faults := after.faults)
         && (calm ==> ok)
         && CollectedTo(before.live.store, before.rendered, spec.reach, ok, after.live.store)
       case EnsureNamespaceAction | DeploymentsStatusAction =>
         after == before.(faults := after.faults) && (calm ==> ok)
  }

  // --- A pass ---

  function Last<T>(s: seq<T>): T
    requires s != []
  {
    s[|s| - 1]
  }

  // The first |trace| - 1 actions one after the other; `ok` tells whether the last one succeeded.
  ghost predicate Steps<V>(spec: Spec<V>, trace: seq<State<V>>, ok: bool) {
    && 1 <= |trace| <= |ACTIONS| + 1
    && trace[0].rendered == []
    && forall i | 0 <= i < |trace| - 1 :: Step(spec, ACTIONS[i], trace[i], trace[i + 1], ok || i < |trace| - 2)
  }

  // A pass ends at the first action that fails.
  ghost predicate IsPass<V>(spec: Spec<V>, trace: seq<State<V>>, ok: bool) {
    Steps(spec, trace, ok) && |trace| >= 2 && (ok ==> |trace| == |ACTIONS| + 1)
  }

  lemma StepsSnoc<V>(spec: Spec<V>, trace: seq<State<V>>, after: State<V>, ok: bool)
    requires Steps(spec, trace, true) && |trace| <= |ACTIONS|
    requires Step(spec, ACTIONS[|trace| - 1], Last(trace), after, ok)
    ensures Steps(spec, trace + [after], ok)
  {
  }

  // Whether a pass came to an action.
  predicate Reached<V>(action: Action, trace: seq<State<V>>)
    requires |trace| <= |ACTIONS| + 1
  {
    Between(action, 0, |trace| - 1)
  }

  predicate Between(action: Action, i: nat, j: int)
    requires j <= |ACTIONS|
  {
    exists k | i <= k < j :: ACTIONS[k] == action
  }

  // Each part of the state is the business of one action.
  ghost predicate Framed<V>(before: State<V>, after: State<V>, i: nat, j: int)
    requires j <= |ACTIONS|
  {
    && after.faults >= before.faults
    && (!Between(CheckDependenciesAction, i, j) ==> after.degraded == before.degraded)
    && (!Between(UpdateReleasesAction, i, j) ==> after.releases == before.releases && after.process == before.process)
    && (!Between(RenderManifestsAction, i, j) ==> after.rendered == before.rendered)
    && (!Between(DeployAction, i, j) ==> after.live.installed == before.live.installed)
    && (!Between(DeployAction, i, j) && !Between(GarbageCollectionAction, i, j) ==>
          after.live.store == before.live.store)
    && (!Between(DeployAction, i, j) && !Between(StripRuntimeFinalizersAction, i, j) ==>
          after.live.runtimes == before.live.runtimes)
  }

  lemma StepFrame<V>(spec: Spec<V>, action: Action, before: State<V>, after: State<V>, ok: bool)
    requires Step(spec, action, before, after, ok)
    ensures after.faults >= before.faults
    ensures action != CheckDependenciesAction ==> after.degraded == before.degraded
    ensures action != UpdateReleasesAction ==> after.releases == before.releases && after.process == before.process
    ensures action != RenderManifestsAction ==> after.rendered == before.rendered
    ensures action != DeployAction ==> after.live.installed == before.live.installed
    ensures action != DeployAction && action != GarbageCollectionAction ==> after.live.store == before.live.store
    ensures action != DeployAction && action != StripRuntimeFinalizersAction ==>
      after.live.runtimes == before.live.runtimes
  {
  }

  lemma StepFramed<V>(spec: Spec<V>, i: nat, before: State<V>, after: State<V>, ok: bool)
    requires i < |ACTIONS| && Step(spec, ACTIONS[i], before, after, ok)
    ensures Framed(before, after, i, i + 1)
  {
    StepFrame(spec, ACTIONS[i], before, after, ok);
    assert Between(ACTIONS[i], i, i + 1);
  }

  lemma {:induction false} StepsFramed<V>(spec: Spec<V>, trace: seq<State<V>>, ok: bool, i: nat, j: nat)
    requires Steps(spec, trace, ok) && i <= j < |trace|
    ensures Framed(trace[i], trace[j], i, j)
    decreases j - i
  {
    if i < j {
      StepsFramed(spec, trace, ok, i, j - 1);
      assert forall a | !Between(a, i, j) :: !Between(a, i, j - 1) && ACTIONS[j - 1] != a;
      StepFramed(spec, j - 1, trace[j - 1], trace[j], ok || j - 1 < |trace| - 2);
    }
  }

  lemma ReachedAt<V>(p: nat, trace: seq<State<V>>)
    requires p < |ACTIONS| && 1 <= |trace| <= |ACTIONS| + 1
    ensures Reached(ACTIONS[p], trace) <==> p < |trace| - 1
  {
  }

  lemma Once(p: nat, n: int)
    requires p < |ACTIONS| && n <= |ACTIONS|
    ensures !Between(ACTIONS[p], 0, p) && !Between(ACTIONS[p], p + 1, n)
  {
  }

  // The one action that minds a part of the state, and the frames before and after it.
  lemma Around<V>(spec: Spec<V>, trace: seq<State<V>>, ok: bool, p: nat)
    requires IsPass(spec, trace, ok) && p < |trace| - 1
    ensures Framed(trace[0], trace[p], 0, p)
    ensures Step(spec, ACTIONS[p], trace[p], trace[p + 1], ok || p < |trace| - 2)
    ensures Framed(trace[p + 1], Last(trace), p + 1, |trace| - 1)
    ensures !Between(ACTIONS[p], 0, p) && !Between(ACTIONS[p], p + 1, |trace| - 1)
  {
    Once(p, |trace| - 1);
    StepsFramed(spec, trace, ok, 0, p);
    StepsFramed(spec, trace, ok, p + 1, |trace| - 1);
  }

  // Each action comes after the one it builds on, and a pass that succeeds has come to all of them.
  lemma ActionOrder<V>(spec: Spec<V>, trace: seq<State<V>>, ok: bool)
    requires IsPass(spec, trace, ok)
    ensures Reached(CheckDependenciesAction, trace)
    ensures Reached(EnsureNamespaceAction, trace) ==> trace[1] == trace[0].(degraded := trace[1].degraded)
    ensures Reached(UpdateReleasesAction, trace) ==> Reached(EnsureNamespaceAction, trace)
    ensures Reached(RenderManifestsAction, trace) ==> Reached(UpdateReleasesAction, trace)
    ensures Reached(DeployAction, trace) ==> Reached(RenderManifestsAction, trace)
    ensures Reached(DeploymentsStatusAction, trace) ==> Reached(DeployAction, trace)
    ensures Reached(StripRuntimeFinalizersAction, trace) ==> Reached(DeploymentsStatusAction, trace)
    ensures Reached(GarbageCollectionAction, trace) ==> Reached(StripRuntimeFinalizersAction, trace)
    ensures ok ==> Reached(GarbageCollectionAction, trace)
  {
    ReachedAt(0, trace);
    ReachedAt(1, trace);
    ReachedAt(2, trace);
    ReachedAt(3, trace);
    ReachedAt(4, trace);
    ReachedAt(5, trace);
    ReachedAt(6, trace);
    ReachedAt(7, trace);
    Around(spec, trace, ok, 0);
  }

  // --- What a pass means ---

  // A pass goes on exactly if the dependencies are met; the Degraded condition tells.
  lemma Gate<V>(spec: Spec<V>, trace: seq<State<V>>, ok: bool)
    requires IsPass(spec, trace, ok)
    ensures DependenciesMet(spec.facts) <==> |trace| > 2
    ensures DependenciesMet(spec.facts) ==>
      forall i | 0 < i < |trace| :: trace[i].degraded == False("DependenciesAvailable")
    ensures !DependenciesMet(spec.facts) ==>
      && !ok && Last(trace).degraded.True?
      && Last(trace) == trace[0].(degraded := Last(trace).degraded)
  {
    Around(spec, trace, ok, 0);
    forall i | 0 < i < |trace|
      ensures trace[i].degraded == trace[1].degraded
    {
      StepsFramed(spec, trace, ok, 1, i);
    }
  }

  lemma PassReleases<V>(spec: Spec<V>, trace: seq<State<V>>, ok: bool)
    requires IsPass(spec, trace, ok)
    ensures
      var after := if Reached(UpdateReleasesAction, trace) then Released(spec, trace[0]) else trace[0];
      Last(trace).releases == after.releases && Last(trace).process == after.process
  {
    ReachedAt(2, trace);
    if |trace| > 3 {
      Around(spec, trace, ok, 2);
    } else {
      StepsFramed(spec, trace, ok, 0, |trace| - 1);
    }
  }

  // What is deployed is what fresh copies of the templates render to. Up to the deploy action the
  // cluster is as it was. One that fails has applied a prefix of the resources and deleted nothing
  // but Deployments of theirs; one that succeeds met a list that can be applied.
  lemma PassDeploys<V>(spec: Spec<V>, trace: seq<State<V>>, ok: bool)
    requires IsPass(spec, trace, ok)
    ensures !Reached(DeployAction, trace) ==> Last(trace).live == trace[0].live
    ensures Reached(DeployAction, trace) ==> DependenciesMet(spec.facts) && spec.wanted.Success?
    ensures Reached(DeployAction, trace) && !Reached(DeploymentsStatusAction, trace) ==>
      DeployedTo(trace[0].live, spec.wanted.value, false, Calm(trace), Last(trace).live)
    ensures Reached(DeploymentsStatusAction, trace) ==>
      spec.wanted.Success? && ApplyAll(trace[0].live, spec.wanted.value).Some?
  {
    ReachedAt(4, trace);
    ReachedAt(5, trace);
    Gate(spec, trace, ok);
    if |trace| > 5 {
      DeployAt(spec, trace, ok);
    } else {
      StepsFramed(spec, trace, ok, 0, |trace| - 1);
    }
  }

  // What the deploy action has done, the fifth in order.
  lemma DeployAt<V>(spec: Spec<V>, trace: seq<State<V>>, ok: bool)
    requires IsPass(spec, trace, ok) && |trace| > 5
    ensures spec.wanted.Success?
    ensures DeployedTo(trace[0].live, spec.wanted.value, |trace| > 6, Calm(trace), trace[5].live)
    ensures |trace| > 6 ==>
      && ApplyAll(trace[0].live, spec.wanted.value).Some?
      && trace[5].live == After(trace[0].live, spec.wanted.value)
  {
    RenderedAt(spec, trace, ok);
    Around(spec, trace, ok, 4);
    var calm := trace[5].faults == trace[4].faults;
    DeployedCalm(trace[0].live, spec.wanted.value, |trace| > 6, calm, Calm(trace), trace[5].live);
  }

  lemma StripAt<V>(spec: Spec<V>, trace: seq<State<V>>, ok: bool)
    requires IsPass(spec, trace, ok) && |trace| > 6
    ensures
      if |trace| > 7 then StrippedTo(trace[5].live.runtimes, |trace| > 8, Last(trace).live.runtimes)
      else Last(trace).live.runtimes == trace[5].live.runtimes
    ensures Last(trace).live.installed == trace[5].live.installed
  {
    Around(spec, trace, ok, 4);
    if |trace| > 7 {
      StepsFramed(spec, trace, ok, 5, 6);
      Around(spec, trace, ok, 6);
    }
  }

  lemma RenderedStays<V>(spec: Spec<V>, trace: seq<State<V>>, ok: bool)
    requires IsPass(spec, trace, ok) && |trace| > 8
    ensures trace[7].rendered == trace[4].rendered
  {
    StepsFramed(spec, trace, ok, 4, 7);
  }

  lemma CollectAt<V>(spec: Spec<V>, trace: seq<State<V>>, ok: bool)
    requires IsPass(spec, trace, ok) && |trace| > 6 && spec.wanted.Success?
    ensures
      if |trace| > 8 then CollectedTo(trace[5].live.store, spec.wanted.value, spec.reach, ok, Last(trace).live.store)
      else Last(trace).live.store == trace[5].live.store
  {
    StepsFramed(spec, trace, ok, 5, if |trace| > 8 then 7 else |trace| - 1);
    if |trace| > 8 {
      RenderedAt(spec, trace, ok);
      RenderedStays(spec, trace, ok);
      Around(spec, trace, ok, 7);
    }
  }

  // A pass that meets no fault.
  ghost predicate Calm<V>(trace: seq<State<V>>)
    requires trace != []
  {
    Last(trace).faults == trace[0].faults
  }

  lemma DeployedCalm(
    before: Live, resources: seq<Resource>, ok: bool, calm: bool, calmer: bool, after: Live)
    requires DeployedTo(before, resources, ok, calm, after) && (calmer ==> calm)
    ensures DeployedTo(before, resources, ok, calmer, after)
    ensures ok ==> ApplyAll(before, resources).Some? && after == After(before, resources)
  {
    var applied: nat, deleted :| Deploying(before, resources, applied, deleted, ok, calm, after);
    assert Deploying(before, resources, applied, deleted, ok, calmer, after);
    if ok {
      DeployedWhole(before, resources, applied, deleted, calm, after);
      ApplyAllIff(before, resources);
    }
  }

  // Past a successful deploy action the training runtimes are dressed as the list renders them, and
  // stripped as far as the pass came; the kinds that the list defines are installed.
  lemma PassStrips<V>(spec: Spec<V>, trace: seq<State<V>>, ok: bool)
    requires IsPass(spec, trace, ok) && Reached(DeploymentsStatusAction, trace)
    ensures spec.wanted.Success?
    ensures
      var dressed := Dress(trace[0].live.runtimes, spec.wanted.value);
      if Reached(StripRuntimeFinalizersAction, trace) then
        StrippedTo(dressed, Reached(GarbageCollectionAction, trace), Last(trace).live.runtimes)
      else Last(trace).live.runtimes == dressed
    ensures Reached(GarbageCollectionAction, trace) ==>
      && Last(trace).live.runtimes == Upkept(trace[0].live.runtimes, spec.wanted.value)
      && Holders(Last(trace).live.runtimes) == {}
    ensures Last(trace).live.installed == trace[0].live.installed + Defined(spec.wanted.value)
  {
    ReachedAt(5, trace);
    ReachedAt(6, trace);
    ReachedAt(7, trace);
    DeployAt(spec, trace, ok);
    StripAt(spec, trace, ok);
    if |trace| > 7 {
      StrippedWhole(Dress(trace[0].live.runtimes, spec.wanted.value), |trace| > 8, Last(trace).live.runtimes);
    }
  }

  lemma StrippedWhole(before: Objects, ok: bool, after: Objects)
    requires StrippedTo(before, ok, after)
    ensures ok ==> after == StripOn(before, ManagedKeys(before)) && Holders(after) == {}
  {
    var done :| Stripping(before, done, ok, after);
    StripHolders(before, done);
  }

  // Past a successful deploy action the store holds the rendering; garbage collection then removes
  // stale objects and nothing else, all of them if the pass succeeds.
  lemma PassCollects<V>(spec: Spec<V>, trace: seq<State<V>>, ok: bool)
    requires IsPass(spec, trace, ok) && Reached(DeploymentsStatusAction, trace)
    ensures spec.wanted.Success?
    ensures
      var applied := trace[0].live.store + Rendered(spec.wanted.value);
      if Reached(GarbageCollectionAction, trace) then
        CollectedTo(applied, spec.wanted.value, spec.reach, ok, Last(trace).live.store)
      else Last(trace).live.store == applied
    ensures ok ==> Last(trace).live.store == Swept(trace[0].live.store, spec.wanted.value, spec.reach)
  {
    ReachedAt(5, trace);
    ReachedAt(7, trace);
    DeployAt(spec, trace, ok);
    CollectAt(spec, trace, ok);
  }

  // However a pass ends, it removes no training runtime that stays and no foreign finalizer, and it
  // creates or changes none but those that it deploys.
  lemma PassRuntimes<V>(spec: Spec<V>, trace: seq<State<V>>, ok: bool, key: Key)
    requires IsPass(spec, trace, ok)
    ensures Preserved(trace[0].live.runtimes, Last(trace).live.runtimes, key)
    ensures
      || SameCoat(trace[0].live.runtimes, Last(trace).live.runtimes, key)
      || (Reached(DeployAction, trace) && spec.wanted.Success? && key in RuntimeKeys(spec.wanted.value))
  {
    PassDeploys(spec, trace, ok);
    if Reached(DeployAction, trace) && !Reached(DeploymentsStatusAction, trace) {
      DeployedRuntimes(trace[0].live, spec.wanted.value, Calm(trace), Last(trace).live, key);
    } else if Reached(DeployAction, trace) {
      PassStrips(spec, trace, ok);
      DressKeeps(trace[0].live.runtimes, spec.wanted.value, key);
      var dressed := Dress(trace[0].live.runtimes, spec.wanted.value);
      if Reached(StripRuntimeFinalizersAction, trace) {
        StrippedKeeps(dressed, Reached(GarbageCollectionAction, trace), Last(trace).live.runtimes, key);
      }
    }
  }

  lemma StrippedKeeps(before: Objects, ok: bool, after: Objects, key: Key)
    requires StrippedTo(before, ok, after)
    ensures Preserved(before, after, key) && SameCoat(before, after, key)
  {
    var done :| Stripping(before, done, ok, after);
    StripKeeps(before, done, key);
  }

  lemma DeployedRuntimes(before: Live, resources: seq<Resource>, calm: bool, after: Live, key: Key)
    requires DeployedTo(before, resources, false, calm, after)
    ensures Preserved(before.runtimes, after.runtimes, key)
    ensures key !in RuntimeKeys(resources) ==> SameCoat(before.runtimes, after.runtimes, key)
  {
    var applied: nat, deleted :| Deploying(before, resources, applied, deleted, false, calm, after);
    ApplyAllIff(before, resources[..applied]);
    DressKeeps(before.runtimes, resources[..applied], key);
    assert RuntimeKeys(resources[..applied]) <= RuntimeKeys(resources);
  }

  // --- When a pass succeeds ---

  lemma CalmFailure<V>(spec: Spec<V>, i: nat, before: State<V>, after: State<V>)
    requires i < |ACTIONS| && Step(spec, ACTIONS[i], before, after, false) && after.faults == before.faults
    ensures
      || (i == 0 && !DependenciesMet(spec.facts)) || (i == 2 && spec.releases.platform.Failure?)
      || (i == 3 && spec.wanted.Failure?) || (i == 4 && ApplyAll(before.live, before.rendered).None?)
  {
    if ACTIONS[i] == DeployAction {
      var applied: nat, deleted :|
        Deploying(before.live, before.rendered, applied, deleted, false, true, after.live);
      CalmDeploys(before.live, before.rendered, applied, deleted, false, after.live);
    }
  }

  // The platform version can be read and the list is what the templates render to.
  ghost predicate Eligible<V>(spec: Spec<V>, list: seq<Resource>) {
    DependenciesMet(spec.facts) && spec.releases.platform.Success? && spec.wanted == Success(list)
  }

  lemma WholePass<V>(spec: Spec<V>, trace: seq<State<V>>)
    requires IsPass(spec, trace, true)
    ensures spec.wanted.Success? && Eligible(spec, spec.wanted.value)
    ensures ApplyAll(trace[0].live, spec.wanted.value).Some?
    ensures Last(trace).degraded == False("DependenciesAvailable")
    ensures Last(trace).releases == Released(spec, trace[0]).releases
    ensures Last(trace).process == Released(spec, trace[0]).process
    ensures Last(trace).rendered == spec.wanted.value
    ensures Last(trace).live == Goal(trace[0].live, spec.wanted.value, spec.reach)
  {
    Gate(spec, trace, true);
    PassReleases(spec, trace, true);
    PassDeploys(spec, trace, true);
    ReachedAt(2, trace);
    ReachedAt(5, trace);
    ReachedAt(7, trace);
    PassStrips(spec, trace, true);
    PassCollects(spec, trace, true);
    Around(spec, trace, true, 2);
    Around(spec, trace, true, 3);
  }

  // Where a successful pass takes the cluster.
  ghost function Goal(live: Live, list: seq<Resource>, reach: Id -> bool): Live {
    Live(Swept(live.store, list, reach), Upkept(live.runtimes, list), live.installed + Defined(list))
  }

  // Without faults a pass succeeds exactly if the dependencies are met, the platform version can
  // be read, the templates render, and the rendering can be applied: it conflicts neither with the
  // store nor in itself, and its training runtimes follow the definitions of their kinds.
  lemma CalmSucceedsIff<V>(spec: Spec<V>, trace: seq<State<V>>, ok: bool)
    requires IsPass(spec, trace, ok) && Calm(trace)
    ensures ok <==>
      && DependenciesMet(spec.facts) && spec.releases.platform.Success? && spec.wanted.Success?
      && Acceptable(trace[0].live.store, spec.wanted.value) && Consistent(spec.wanted.value)
      && Installable(trace[0].live.installed, spec.wanted.value)
    ensures !ok && spec.wanted.Success? && Eligible(spec, spec.wanted.value) ==>
      Reached(DeployAction, trace) && !Reached(DeploymentsStatusAction, trace)
  {
    if spec.wanted.Success? {
      ApplyAllIff(trace[0].live, spec.wanted.value);
    }
    if ok {
      WholePass(spec, trace);
    } else {
      CalmStops(spec, trace);
      ReachedAt(4, trace);
      ReachedAt(5, trace);
    }
  }

  // Where a fault-free pass can stop.
  lemma CalmStops<V>(spec: Spec<V>, trace: seq<State<V>>)
    requires IsPass(spec, trace, false) && Calm(trace)
    ensures
      || !DependenciesMet(spec.facts) || spec.releases.platform.Failure? || spec.wanted.Failure?
      || (|trace| == 6 && ApplyAll(trace[0].live, spec.wanted.value).None?)
  {
    var i := |trace| - 2;
    Around(spec, trace, false, i);
    CalmFailure(spec, i, trace[i], trace[i + 1]);
    if i == 4 {
      RenderedAt(spec, trace, false);
    }
  }

  // What the deploy action meets: the cluster as it was, and the list to deploy.
  lemma RenderedAt<V>(spec: Spec<V>, trace: seq<State<V>>, ok: bool)
    requires IsPass(spec, trace, ok) && |trace| > 5
    ensures spec.wanted == Success(trace[4].rendered) && trace[4].live == trace[0].live
  {
    Around(spec, trace, ok, 3);
    StepsFramed(spec, trace, ok, 0, 4);
  }

  // The list can be applied to some store.
  ghost predicate Deployable(live: Live, list: seq<Resource>) {
    Consistent(list) && Installable(live.installed, list)
  }

  // A fault-free pass over a deployable list succeeds exactly if the store accepts it. If not, the
  // Deployments in the way are gone, the next one does, and it leads where this one would have.
  lemma CalmPass<V>(spec: Spec<V>, trace: seq<State<V>>, ok: bool, list: seq<Resource>)
    requires IsPass(spec, trace, ok) && Calm(trace) && Eligible(spec, list) && Deployable(trace[0].live, list)
    ensures ok <==> Acceptable(trace[0].live.store, list)
    ensures Acceptable(Last(trace).live.store, list) && Deployable(Last(trace).live, list)
    ensures if ok then Last(trace).live == Goal(trace[0].live, list, spec.reach)
            else Goal(Last(trace).live, list, spec.reach) == Goal(trace[0].live, list, spec.reach)
    ensures !ok ==> Doomed(Last(trace).live.runtimes, list) == Doomed(trace[0].live.runtimes, list)
  {
    CalmSucceedsIff(spec, trace, ok);
    if ok {
      WholePass(spec, trace);
      GoalAccepts(trace[0].live, list, spec.reach);
    } else {
      PassDeploys(spec, trace, ok);
      Recovered(trace[0].live, list, spec.reach, Last(trace).live);
    }
  }

  lemma GoalAccepts(live: Live, list: seq<Resource>, reach: Id -> bool)
    requires Deployable(live, list)
    ensures Acceptable(Goal(live, list, reach).store, list) && Deployable(Goal(live, list, reach), list)
  {
    SweptTwice(live.store, list, reach);
    AcceptableAfter(Swept(live.store, list, reach), list);
    assert list[..|list|] == list;
    InstalledAfter(live.installed, list, |list|);
  }

  lemma Recovered(before: Live, list: seq<Resource>, reach: Id -> bool, after: Live)
    requires DeployedTo(before, list, false, true, after) && Deployable(before, list)
    ensures Acceptable(after.store, list) && Deployable(after, list)
    ensures Goal(after, list, reach) == Goal(before, list, reach)
    ensures Doomed(after.runtimes, list) == Doomed(before.runtimes, list)
  {
    var applied: nat, deleted :| Deploying(before, list, applied, deleted, false, true, after);
    NextDeploys(before, list, applied, deleted, after);
    LeftoversOverwritten(before, list, applied, deleted, false, true, after);
    ApplyAllIff(before, list[..applied]);
    DoomedDressed(before.runtimes, list[..applied], list);
    var a, b := After(after, list), After(before, list);
    assert a.store == b.store && a.runtimes == b.runtimes && a.installed == b.installed;
  }

  lemma DoomedDressed(runtimes: Objects, part: seq<Resource>, list: seq<Resource>)
    ensures Doomed(Dress(runtimes, part), list) == Doomed(runtimes, list)
  {
    forall k
      ensures k in Doomed(Dress(runtimes, part), list) <==> k in Doomed(runtimes, list)
    {
      CoatEntries(part, k);
    }
  }

  // The state at the start of the next pass.
  function Next<V>(state: State<V>): State<V> {
    state.(rendered := [])
  }

  // A pass after a successful one with the same inputs: without faults it succeeds as well. It leaves
  // everything as it is exactly if no training runtime of the list was doomed at first: those
  // went when they were stripped and come back only now.
  lemma SteadyPass<V>(spec: Spec<V>, trace: seq<State<V>>, trace': seq<State<V>>, ok': bool)
    requires IsPass(spec, trace, true) && IsPass(spec, trace', ok')
    requires trace'[0] == Next(Last(trace)) && Calm(trace')
    requires UniqueNames(trace[0].releases) && Settled(trace[0].live.runtimes)
    requires spec.wanted.Success? ==> AllLabelled(spec.wanted.value)
    ensures ok' && spec.wanted.Success?
    ensures
      var runtimes := Upkept(Last(trace).live.runtimes, spec.wanted.value);
      Last(trace') == Last(trace).(live := Last(trace).live.(runtimes := runtimes))
    ensures Last(trace') == Last(trace) <==> Doomed(trace[0].live.runtimes, spec.wanted.value) == {}
  {
    WholePass(spec, trace);
    var list, live := spec.wanted.value, trace[0].live;
    ApplyAllIff(live, list);
    GoalAccepts(live, list, spec.reach);
    CalmSucceedsIff(spec, trace', ok');
    WholePass(spec, trace');
    Releases.RepeatedPass(spec.parse, trace[0].releases, spec.releases);
    SweptTwice(live.store, list, spec.reach);
    UpkeptTwice(live.runtimes, list);
    assert live.installed + Defined(list) + Defined(list) == live.installed + Defined(list);
  }

  // --- Runs of passes ---

  datatype Record<!V> = Record(spec: Spec<V>, trace: seq<State<V>>, ok: bool)

  // A run: `states` are those before, between and after its passes.
  ghost predicate IsRun<V>(states: seq<State<V>>, records: seq<Record<V>>) {
    && |states| == |records| + 1
    && forall i | 0 <= i < |records| :: Leads(records[i], states[i], states[i + 1])
  }

  ghost predicate Leads<V>(record: Record<V>, before: State<V>, after: State<V>) {
    && IsPass(record.spec, record.trace, record.ok)
    && record.trace[0] == before && after == Next(Last(record.trace))
  }

  lemma RunSnoc<V>(states: seq<State<V>>, records: seq<Record<V>>, record: Record<V>, after: State<V>)
    requires IsRun(states, records) && Leads(record, Last(states), after)
    ensures IsRun(states + [after], records + [record])
  {
  }

  lemma RunInit<V>(states: seq<State<V>>, records: seq<Record<V>>)
    requires IsRun(states, records) && records != []
    ensures IsRun(states[..|records|], records[..|records| - 1])
    ensures Leads(Last(records), states[|records| - 1], states[|records|])
  {
  }

  // The pass came to its deploy action, with the Degraded condition cleared since its own
  // dependency check.
  ghost predicate Deploys<V>(record: Record<V>) {
    && IsPass(record.spec, record.trace, record.ok) && Reached(DeployAction, record.trace)
    && DependenciesMet(record.spec.facts) && record.spec.wanted.Success?
    && forall i | 0 < i < |record.trace| :: record.trace[i].degraded == False("DependenciesAvailable")
  }

  // An object is as it was.
  predicate Kept(before: Stored, after: Stored, id: Id) {
    (id in before <==> id in after) && (id in before ==> before[id] == after[id])
  }

  // An object is as the list renders it, or deleted as a Deployment of the list.
  predicate Put(list: seq<Resource>, after: Stored, id: Id) {
    if id in after then after[id] in list else id in DeploymentIds(list)
  }

  // An object has been collected: the pass came to garbage collection, which reaches the object,
  // and does not render it; the object was there before, with the label.
  ghost predicate Collects<V>(record: Record<V>, id: Id) {
    && Deploys(record) && Reached(GarbageCollectionAction, record.trace)
    && record.spec.reach(id) && id !in Rendered(record.spec.wanted.value)
    && id in record.trace[0].live.store && Labelled(record.trace[0].live.store[id])
  }

  // What has become of an object of the store.
  ghost predicate Accounted<V>(records: seq<Record<V>>, before: Stored, after: Stored, id: Id) {
    || Kept(before, after, id)
    || (exists r <- records :: Deploys(r) && Put(r.spec.wanted.value, after, id))
    || (id !in after && exists r <- records :: Collects(r, id))
  }

  lemma DeployedEntry(before: Live, list: seq<Resource>, ok: bool, calm: bool, after: Live, id: Id)
    requires DeployedTo(before, list, ok, calm, after)
    ensures Kept(before.store, after.store, id) || Put(list, after.store, id)
  {
    var applied: nat, deleted :| Deploying(before, list, applied, deleted, ok, calm, after);
    ApplyAllIff(before, list[..applied]);
    RenderedEntries(list[..applied], id);
  }

  lemma CollectedEntry(
    before: Stored, list: seq<Resource>, reach: Id -> bool, ok: bool, after: Stored, id: Id)
    requires CollectedTo(before + Rendered(list), list, reach, ok, after)
    ensures
      || Kept(before, after, id) || Put(list, after, id)
      || (id !in after && id !in Rendered(list) && id in before && Labelled(before[id]) && reach(id))
  {
    RenderedEntries(list, id);
  }

  lemma PassAccounted<V>(record: Record<V>, before: State<V>, after: State<V>, id: Id)
    requires Leads(record, before, after)
    ensures
      || Kept(before.live.store, after.live.store, id)
      || (Deploys(record) && Put(record.spec.wanted.value, after.live.store, id))
      || (id !in after.live.store && Collects(record, id))
  {
    var spec, trace := record.spec, record.trace;
    PassDeploys(spec, trace, record.ok);
    Gate(spec, trace, record.ok);
    ReachedAt(4, trace);
    ReachedAt(5, trace);
    ReachedAt(7, trace);
    if Reached(DeploymentsStatusAction, trace) {
      PassCollects(spec, trace, record.ok);
      RenderedEntries(spec.wanted.value, id);
      if Reached(GarbageCollectionAction, trace) {
        CollectedEntry(before.live.store, spec.wanted.value, spec.reach, record.ok, after.live.store, id);
      }
    } else if Reached(DeployAction, trace) {
      DeployedEntry(before.live, spec.wanted.value, false, Calm(trace), after.live, id);
    }
  }

  // Over every run each object of the store is accounted for.
  lemma {:induction false} StoreOverRuns<V>(states: seq<State<V>>, records: seq<Record<V>>, id: Id)
    requires IsRun(states, records)
    ensures Accounted(records, states[0].live.store, states[|records|].live.store, id)
    decreases |records|
  {
    var n := |records|;
    if n > 0 {
      RunInit(states, records);
      var init, last := records[..n - 1], records[n - 1];
      StoreOverRuns(states[..n], init, id);
      PassAccounted(last, states[n - 1], states[n], id);
      assert records == init + [last];
      Snoc(init, last);
    }
  }

  // Over every run, however its passes end, no training runtime is removed that waits for a foreign
  // finalizer or is not being deleted, and no foreign finalizer either; one is created or changed
  // only by a pass that deploys it.
  lemma {:induction false} RuntimesOverRuns<V>(states: seq<State<V>>, records: seq<Record<V>>, key: Key)
    requires IsRun(states, records)
    ensures Preserved(states[0].live.runtimes, states[|records|].live.runtimes, key)
    ensures
      || SameCoat(states[0].live.runtimes, states[|records|].live.runtimes, key)
      || exists r <- records :: Deploys(r) && key in RuntimeKeys(r.spec.wanted.value)
    decreases |records|
  {
    var n := |records|;
    if n > 0 {
      RunInit(states, records);
      var init, last := records[..n - 1], records[n - 1];
      RuntimesOverRuns(states[..n], init, key);
      PassRuntimes(last.spec, last.trace, last.ok, key);
      Gate(last.spec, last.trace, last.ok);
      assert records == init + [last];
      Snoc(init, last);
    }
  }

  // --- Settling ---

  ghost predicate CalmRecord<V>(record: Record<V>, list: seq<Resource>, reach: Id -> bool) {
    record.trace != [] && Calm(record.trace) && Eligible(record.spec, list) && record.spec.reach == reach
  }

  // What a fault-free pass over a deployable list does to the cluster.
  ghost predicate Moves(before: Live, after: Live, ok: bool, list: seq<Resource>, reach: Id -> bool) {
    && Fit(before, list) && Fit(after, list) && Acceptable(after.store, list)
    && (ok <==> Acceptable(before.store, list))
    && if ok then after == Goal(before, list, reach)
       else Goal(after, list, reach) == Goal(before, list, reach)
  }

  ghost predicate Fit(live: Live, list: seq<Resource>) {
    Deployable(live, list) && AllLabelled(list) && Settled(live.runtimes)
  }

  lemma {:induction false} RowMoves<V>(
    states: seq<State<V>>, records: seq<Record<V>>, list: seq<Resource>, reach: Id -> bool, i: nat, j: nat)
    requires IsRun(states, records) && i <= j < |records|
    requires Fit(states[i].live, list) && forall k | i <= k <= j :: CalmRecord(records[k], list, reach)
    ensures Moves(states[j].live, states[j + 1].live, records[j].ok, list, reach)
    decreases j
  {
    if j > i {
      RowMoves(states, records, list, reach, i, j - 1);
    }
    RecordMoves(records[j], states[j], states[j + 1], list, reach);
  }

  lemma RecordMoves<V>(record: Record<V>, before: State<V>, after: State<V>, list: seq<Resource>, reach: Id -> bool)
    requires Leads(record, before, after) && CalmRecord(record, list, reach) && Fit(before.live, list)
    ensures Moves(before.live, after.live, record.ok, list, reach)
  {
    CalmLeads(record, before, after, list, reach);
  }

  ghost predicate Row(lives: seq<Live>, oks: seq<bool>, list: seq<Resource>, reach: Id -> bool) {
    && |lives| == |oks| + 1
    && forall k {:trigger oks[k]} | 0 <= k < |oks| :: Moves(lives[k], lives[k + 1], oks[k], list, reach)
  }

  lemma RowMove(lives: seq<Live>, oks: seq<bool>, list: seq<Resource>, reach: Id -> bool, i: nat)
    requires Row(lives, oks, list, reach) && i < |oks|
    ensures Moves(lives[i], lives[i + 1], oks[i], list, reach)
  {
  }

  lemma {:induction false} RowSwept(lives: seq<Live>, oks: seq<bool>, list: seq<Resource>, reach: Id -> bool, j: nat)
    requires Row(lives, oks, list, reach) && j < |lives|
    ensures SweptAlike(lives[0], lives[j], list, reach)
  {
    if j > 0 {
      var i := j - 1;
      RowSwept(lives, oks, list, reach, i);
      RowMove(lives, oks, list, reach, i);
      MoveSwept(lives[0], lives[i], lives[i + 1], oks[i], list, reach);
    }
  }

  ghost predicate SweptAlike(a: Live, b: Live, list: seq<Resource>, reach: Id -> bool) {
    Swept(a.store, list, reach) == Swept(b.store, list, reach)
  }

  lemma MoveSwept(start: Live, before: Live, after: Live, ok: bool, list: seq<Resource>, reach: Id -> bool)
    requires SweptAlike(start, before, list, reach) && Moves(before, after, ok, list, reach)
    ensures SweptAlike(start, after, list, reach)
    ensures ok ==> after.store == Swept(start.store, list, reach)
    ensures ok ==> Holders(after.runtimes) == {} && Doomed(after.runtimes, list) == {}
  {
    SweptTwice(before.store, list, reach);
    GoalSettles(before, list, reach);
  }

  lemma MovesOn(a: Live, b: Live, c: Live, before: bool, ok: bool, list: seq<Resource>, reach: Id -> bool)
    requires Moves(a, b, before, list, reach) && Moves(b, c, ok, list, reach)
    ensures ok
    ensures before ==> Wears(c.runtimes, list) && Goal(c, list, reach) == c
  {
    GoalSettles(a, list, reach);
    GoalSettles(b, list, reach);
  }

  lemma RowSettles(lives: seq<Live>, oks: seq<bool>, list: seq<Resource>, reach: Id -> bool)
    requires Row(lives, oks, list, reach) && oks != []
    ensures SettledAfter(lives[0], Last(lives), Last(oks), |oks|, list, reach)
  {
    var n := |oks|;
    RowSwept(lives, oks, list, reach, n - 1);
    MoveSwept(lives[0], lives[n - 1], lives[n], oks[n - 1], list, reach);
    if n > 1 {
      MovesOn(lives[n - 2], lives[n - 1], lives[n], oks[n - 2], oks[n - 1], list, reach);
    }
    if n > 2 {
      MovesOn(lives[n - 3], lives[n - 2], lives[n - 1], oks[n - 3], oks[n - 2], list, reach);
    }
  }

  // The cluster after n passes of such a row.
  ghost predicate SettledAfter(start: Live, now: Live, ok: bool, n: nat, list: seq<Resource>, reach: Id -> bool) {
    && (ok <==> n > 1 || Acceptable(start.store, list))
    && (ok ==>
          && now.store == Swept(start.store, list, reach)
          && Holders(now.runtimes) == {} && Doomed(now.runtimes, list) == {})
    && (n > 2 ==> Wears(now.runtimes, list) && Goal(now, list, reach) == now)
  }

  // Whatever a run has led to, in a row of fault-free passes over one deployable list all from the
  // second on succeed. They leave of all the collector reaches exactly the rendering, and no
  // managed training runtime with a legacy finalizer. From the third on every rendered training
  // runtime is there as rendered, and a further pass would change nothing of the cluster.
  lemma Settles<V>(
    states: seq<State<V>>, records: seq<Record<V>>, list: seq<Resource>, reach: Id -> bool, i: nat, j: nat)
    requires IsRun(states, records) && i < j <= |records|
    requires Fit(states[i].live, list) && forall k | i <= k < j :: CalmRecord(records[k], list, reach)
    ensures SettledAfter(states[i].live, states[j].live, records[j - 1].ok, j - i, list, reach)
  {
    forall k | i <= k < j
      ensures Moves(states[k].live, states[k + 1].live, records[k].ok, list, reach)
    {
      RowMoves(states, records, list, reach, i, k);
    }
    StatesSettle(states, records, list, reach, i, j);
  }

  lemma StatesSettle<V>(
    states: seq<State<V>>, records: seq<Record<V>>, list: seq<Resource>, reach: Id -> bool, i: nat, j: nat)
    requires |states| == |records| + 1 && i < j <= |records|
    requires forall k {:trigger records[k]} | i <= k < j ::
      Moves(states[k].live, states[k + 1].live, records[k].ok, list, reach)
    ensures SettledAfter(states[i].live, states[j].live, records[j - 1].ok, j - i, list, reach)
  {
    var lives, oks := LivesOf(states, i, j), OksOf(records, i, j);
    forall k | 0 <= k < |oks|
      ensures Moves(lives[k], lives[k + 1], oks[k], list, reach)
    {
      assert oks[k] == records[i + k].ok;
    }
    RowSettles(lives, oks, list, reach);
  }

  ghost function LivesOf<V>(states: seq<State<V>>, i: nat, j: nat): (lives: seq<Live>)
    requires i <= j < |states|
    ensures |lives| == j - i + 1 && forall k | 0 <= k <= j - i :: lives[k] == states[i + k].live
  {
    if i == j then [states[i].live] else LivesOf(states, i, j - 1) + [states[j].live]
  }

  ghost function OksOf<V>(records: seq<Record<V>>, i: nat, j: nat): (oks: seq<bool>)
    requires i <= j <= |records|
    ensures |oks| == j - i && forall k | 0 <= k < j - i :: oks[k] == records[i + k].ok
  {
    if i == j then [] else OksOf(records, i, j - 1) + [records[j - 1].ok]
  }

  // One such pass.
  lemma CalmLeads<V>(record: Record<V>, before: State<V>, after: State<V>, list: seq<Resource>, reach: Id -> bool)
    requires Leads(record, before, after) && CalmRecord(record, list, reach)
    requires Deployable(before.live, list) && Settled(before.live.runtimes)
    ensures Acceptable(after.live.store, list) && Deployable(after.live, list) && Settled(after.live.runtimes)
    ensures record.ok <==> Acceptable(before.live.store, list)
    ensures if record.ok then after.live == Goal(before.live, list, reach)
            else Goal(after.live, list, reach) == Goal(before.live, list, reach)
    ensures !record.ok ==> Doomed(after.live.runtimes, list) == Doomed(before.live.runtimes, list)
  {
    CalmPass(record.spec, record.trace, record.ok, list);
    PassSettled(record.spec, record.trace, record.ok);
  }

  // Where a successful pass leads.
  lemma GoalSettles(live: Live, list: seq<Resource>, reach: Id -> bool)
    requires AllLabelled(list) && Settled(live.runtimes)
    ensures
      var goal := Goal(live, list, reach);
      && Swept(goal.store, list, reach) == goal.store
      && Holders(goal.runtimes) == {} && Doomed(goal.runtimes, list) == {}
      && (Doomed(live.runtimes, list) == {} ==> Wears(goal.runtimes, list) && Goal(goal, list, reach) == goal)
  {
    SweptTwice(live.store, list, reach);
    SettledUpkept(live.runtimes, list);
    UpkeptKeys(live.runtimes, list);
    UpkeptTwice(live.runtimes, list);
    UpkeptWhole(live.runtimes, list);
    assert live.installed + Defined(list) + Defined(list) == live.installed + Defined(list);
  }

  // No action leaves a terminating training runtime without a finalizer.
  lemma PassSettled<V>(spec: Spec<V>, trace: seq<State<V>>, ok: bool)
    requires IsPass(spec, trace, ok) && Settled(trace[0].live.runtimes)
    ensures Settled(Last(trace).live.runtimes)
  {
    PassDeploys(spec, trace, ok);
    if Reached(DeployAction, trace) && !Reached(DeploymentsStatusAction, trace) {
      var list := spec.wanted.value;
      var applied: nat, deleted :|
        Deploying(trace[0].live, list, applied, deleted, false, Calm(trace), Last(trace).live);
      ApplyAllIff(trace[0].live, list[..applied]);
      SettledDressed(trace[0].live.runtimes, list[..applied]);
    } else if Reached(DeployAction, trace) {
      PassStrips(spec, trace, ok);
      SettledDressed(trace[0].live.runtimes, spec.wanted.value);
    }
  }

  // Two such passes.
  lemma TwoPasses<V>(
    first: Record<V>, second: Record<V>, a: State<V>, b: State<V>, c: State<V>, list: seq<Resource>, reach: Id -> bool)
    requires Leads(first, a, b) && Leads(second, b, c)
    requires CalmRecord(first, list, reach) && CalmRecord(second, list, reach)
    requires Fit(a.live, list)
    ensures first.ok <==> Acceptable(a.live.store, list)
    ensures second.ok && c.degraded == False("DependenciesAvailable")
    ensures c.live.store == Swept(a.live.store, list, reach) && Holders(c.live.runtimes) == {}
    ensures Doomed(a.live.runtimes, list) == {} ==> Wears(c.live.runtimes, list)
  {
    CalmLeads(first, a, b, list, reach);
    CalmLeads(second, b, c, list, reach);
    GoalSettles(a.live, list, reach);
    GoalSettles(b.live, list, reach);
    Gate(second.spec, second.trace, second.ok);
  }

  // --- The version handshake over runs ---

  // The release inputs of the passes that came to updateReleases.
  function ReleasePasses<V>(records: seq<Record<V>>): seq<Releases.Inputs>
    requires forall r <- records :: |r.trace| <= |ACTIONS| + 1
  {
    if records == [] then []
    else
      var last := records[|records| - 1];
      ReleasePasses(records[..|records| - 1]) +
      if Reached(UpdateReleasesAction, last.trace) then [last.spec.releases] else []
  }

  ghost predicate ParsesBy<V>(parse: string -> Option<V>, records: seq<Record<V>>) {
    forall r <- records :: r.spec.parse == parse && |r.trace| <= |ACTIONS| + 1
  }

  lemma ReleaseSnoc<V>(
    spec: Spec<V>, lists: seq<seq<Release>>, processes: seq<Process<V>>, passes: seq<Releases.Inputs>, before: State<V>)
    requires Releases.Run(spec.parse, lists, passes) && ProcessRun(spec.parse, processes, passes)
    requires Last(lists) == before.releases && Last(processes) == before.process
    ensures Releases.Run(spec.parse, lists + [Released(spec, before).releases], passes + [spec.releases])
    ensures ProcessRun(spec.parse, processes + [Released(spec, before).process], passes + [spec.releases])
  {
  }

  lemma ReleaseMore<V>(
    record: Record<V>, lists: seq<seq<Release>>, processes: seq<Process<V>>, passes: seq<Releases.Inputs>,
    before: State<V>, after: State<V>)
    returns (lists': seq<seq<Release>>, processes': seq<Process<V>>)
    requires Releases.Run(record.spec.parse, lists, passes) && ProcessRun(record.spec.parse, processes, passes)
    requires Last(lists) == before.releases && Last(processes) == before.process && Leads(record, before, after)
    ensures
      var passes' := passes + if Reached(UpdateReleasesAction, record.trace) then [record.spec.releases] else [];
      Releases.Run(record.spec.parse, lists', passes') && ProcessRun(record.spec.parse, processes', passes')
    ensures lists'[0] == lists[0] && processes'[0] == processes[0]
    ensures Last(lists') == after.releases && Last(processes') == after.process
  {
    PassReleases(record.spec, record.trace, record.ok);
    if Reached(UpdateReleasesAction, record.trace) {
      ReleaseSnoc(record.spec, lists, processes, passes, before);
      return lists + [after.releases], processes + [after.process];
    }
    assert passes + [] == passes;
    return lists, processes;
  }

  // A run of passes is a run of release updates by those of them that came to it.
  lemma {:induction false} ReleaseRun<V>(parse: string -> Option<V>, states: seq<State<V>>, records: seq<Record<V>>)
    returns (lists: seq<seq<Release>>, processes: seq<Process<V>>)
    requires IsRun(states, records) && ParsesBy(parse, records)
    ensures Releases.Run(parse, lists, ReleasePasses(records)) && ProcessRun(parse, processes, ReleasePasses(records))
    ensures lists[0] == states[0].releases && processes[0] == states[0].process
    ensures Last(lists) == states[|records|].releases && Last(processes) == states[|records|].process
    decreases |records|
  {
    var n := |records|;
    if n == 0 {
      return [states[0].releases], [states[0].process];
    }
    RunInit(states, records);
    lists, processes := ReleaseRun(parse, states[..n], records[..n - 1]);
    var last := records[n - 1];
    assert last in records;
    lists, processes := ReleaseMore(last, lists, processes, ReleasePasses(records[..n - 1]), states[n - 1], states[n]);
  }

  // Over every run of passes, wherever each one ended: the version in the status is that of the
  // last pass that came to the update with a parsable version, and the process stamps its parse.
  lemma VersionOverPasses<V>(parse: string -> Option<V>, states: seq<State<V>>, records: seq<Record<V>>)
    requires IsRun(states, records) && ParsesBy(parse, records) && NoPlatformInMetadata(ReleasePasses(records))
    ensures
      var first, last, passes := states[0], states[|records|], ReleasePasses(records);
      && CurrentVersion(last.releases) == LastVersion(parse, passes, CurrentVersion(first.releases))
      && if SomeAdvance(parse, passes) then
           last.process.name == "platform" && parse(CurrentVersion(last.releases)) == Some(last.process.version)
         else last.process == first.process
  {
    var lists, processes := ReleaseRun(parse, states, records);
    HandshakeOverRuns(parse, lists, processes, ReleasePasses(records));
  }
}
