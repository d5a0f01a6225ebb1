// Applying a list of rendered resources to the cluster in order, as the deploy action that
// internal/controller/trainer_controller.go registers does.
module Applying {
  import opened Cluster
  import opened Outcome
  import opened Sequences

  datatype Id = Id(apiVersion: string, kind: string, namespace: string, name: string)

  // `immutable` stands for the fields the API server refuses to change, `rest` for the others.
  datatype Resource = Resource(id: Id, labels: map<string, string>, immutable: string, rest: string)

  type Stored = map<Id, Resource>

  // The cluster: the training runtimes, the kinds of them that are installed, and in `store` all
  // other objects.
  datatype Live = Live(store: Stored, runtimes: Objects, installed: set<Kind>)

  // --- Kinds ---

  const RUNTIME_API := "trainer.kubeflow.org/v1alpha1"

  predicate IsDeployment(r: Resource) {
    r.id.kind == "Deployment"
  }

  function RuntimeKind(id: Id): Option<Kind> {
    if id.apiVersion != RUNTIME_API then None
    else if id.kind == "ClusterTrainingRuntime" then Some(ClusterTrainingRuntime)
    else if id.kind == "TrainingRuntime" then Some(TrainingRuntime)
    else None
  }

  function RuntimeKey(id: Id): Option<Key> {
    match RuntimeKind(id)
    case None => None
    case Some(kind) => Some(Key(kind, id.namespace, id.name))
  }

  // The kinds that an object defines.
  function Defines(id: Id): set<Kind> {
    if RuntimeKind(id).Some? || id.kind != "CustomResourceDefinition" then {}
    else if id.name == "clustertrainingruntimes.trainer.kubeflow.org" then {ClusterTrainingRuntime}
    else if id.name == "trainingruntimes.trainer.kubeflow.org" then {TrainingRuntime}
    else {}
  }

  // Carries the label that garbage collection selects by.
  predicate Labelled(r: Resource) {
    PART_OF_LABEL in r.labels && r.labels[PART_OF_LABEL] == PART_OF_TRAINER
  }

  ghost predicate AllLabelled(resources: seq<Resource>) {
    forall r <- resources :: Labelled(r)
  }

  // --- Applying ---

  // The server rejects a change of an immutable field; only Deployments have such fields.
  predicate Rejected(store: Stored, r: Resource) {
    IsDeployment(r) && r.id in store && store[r.id].immutable != r.immutable
  }

  // The server accepts the resource.
  predicate Accepted(live: Live, r: Resource) {
    match RuntimeKey(r.id)
    case Some(key) => key.kind in live.installed
    case None => !Rejected(live.store, r)
  }

  function CoatOf(r: Resource): Coat {
    Coat(r.labels, r.rest)
  }

  function Applied(live: Live, r: Resource): Live {
    match RuntimeKey(r.id)
    case Some(key) => live.(runtimes := live.runtimes[key := Dressed(live.runtimes, key, CoatOf(r))])
    case None => live.(store := live.store[r.id := r], installed := live.installed + Defines(r.id))
  }

  // The cluster after the resources have been applied in order, unless one is not accepted.
  function ApplyAll(live: Live, resources: seq<Resource>): Option<Live> {
    if resources == [] then Some(live)
    else
      var last := resources[|resources| - 1];
      match ApplyAll(live, resources[..|resources| - 1])
      case None => None
      case Some(before) => if Accepted(before, last) then Some(Applied(before, last)) else None
  }

  lemma {:induction false} FailureSticks(live: Live, resources: seq<Resource>, i: nat)
    requires i <= |resources| && ApplyAll(live, resources[..i]).None?
    ensures ApplyAll(live, resources).None?
  {
    if i == |resources| {
      assert resources[..i] == resources;
    } else {
      assert resources[..|resources| - 1][..i] == resources[..i];
      FailureSticks(live, resources[..|resources| - 1], i);
    }
  }

  // --- What a list renders ---

  // The last rendering of each object that is not a training runtime.
  function Rendered(resources: seq<Resource>): Stored {
    if resources == [] then map[]
    else
      var last := resources[|resources| - 1];
      var before := Rendered(resources[..|resources| - 1]);
      if RuntimeKey(last.id).Some? then before else before[last.id := last]
  }

  lemma {:induction false} RenderedEntries(resources: seq<Resource>, id: Id)
    ensures id in Rendered(resources) <==> RuntimeKey(id).None? && exists r <- resources :: r.id == id
    ensures id in Rendered(resources) ==> Rendered(resources)[id] in resources && Rendered(resources)[id].id == id
  {
    if resources != [] {
      var init, last := resources[..|resources| - 1], resources[|resources| - 1];
      assert resources == init + [last];
      Snoc(init, last);
      RenderedEntries(init, id);
    }
  }

  // The training runtimes in a list.
  function RuntimeKeys(resources: seq<Resource>): set<Key> {
    set r <- resources | RuntimeKey(r.id).Some? :: RuntimeKey(r.id).value
  }

  // All that a list sets of a training runtime, later renderings over earlier ones.
  function CoatFor(resources: seq<Resource>, key: Key): Option<Coat> {
    if resources == [] then None
    else
      var last := resources[|resources| - 1];
      var before := CoatFor(resources[..|resources| - 1], key);
      if RuntimeKey(last.id) != Some(key) then before
      else if before.None? then Some(CoatOf(last))
      else Some(Coat(before.value.labels + last.labels, last.rest))
  }

  lemma {:induction false} CoatEntries(resources: seq<Resource>, key: Key)
    ensures key in RuntimeKeys(resources) <==> CoatFor(resources, key).Some?
    ensures key in RuntimeKeys(resources) && AllLabelled(resources) ==>
      var labels := CoatFor(resources, key).value.labels;
      PART_OF_LABEL in labels && labels[PART_OF_LABEL] == PART_OF_TRAINER
  {
    if resources != [] {
      var init, last := resources[..|resources| - 1], resources[|resources| - 1];
      assert resources == init + [last];
      Snoc(init, last);
      CoatEntries(init, key);
    }
  }

  // The training runtimes with all that the list sets of them.
  function Dress(runtimes: Objects, resources: seq<Resource>): Objects {
    map k | k in runtimes.Keys + RuntimeKeys(resources) ::
      CoatEntries(resources, k);
      match CoatFor(resources, k)
      case Some(coat) => Dressed(runtimes, k, coat)
      case None => runtimes[k]
  }

  lemma DressedTwice(runtimes: Objects, key: Key, a: Coat, b: Coat)
    ensures Dressed(runtimes[key := Dressed(runtimes, key, a)], key, b) ==
            Dressed(runtimes, key, Coat(a.labels + b.labels, b.body))
  {
    if key in runtimes {
      assert runtimes[key].labels + a.labels + b.labels == runtimes[key].labels + (a.labels + b.labels);
    }
  }

  lemma RuntimeKeysSnoc(init: seq<Resource>, last: Resource)
    ensures RuntimeKeys(init + [last]) ==
      RuntimeKeys(init) + if RuntimeKey(last.id).Some? then {RuntimeKey(last.id).value} else {}
  {
    Snoc(init, last);
  }

  lemma DressSnoc(runtimes: Objects, init: seq<Resource>, last: Resource)
    ensures Dress(runtimes, init + [last]) ==
      match RuntimeKey(last.id)
      case None => Dress(runtimes, init)
      case Some(key) => Dress(runtimes, init)[key := Dressed(Dress(runtimes, init), key, CoatOf(last))]
  {
    Snoc(init, last);
    RuntimeKeysSnoc(init, last);
    if RuntimeKey(last.id).Some? {
      DressLast(runtimes, init, last, RuntimeKey(last.id).value);
    }
  }

  lemma DressLast(runtimes: Objects, init: seq<Resource>, last: Resource, key: Key)
    requires RuntimeKey(last.id) == Some(key)
    ensures CoatFor(init + [last], key).Some?
    ensures Dressed(runtimes, key, CoatFor(init + [last], key).value) ==
            Dressed(Dress(runtimes, init), key, CoatOf(last))
  {
    Snoc(init, last);
    CoatEntries(init, key);
    if key in RuntimeKeys(init) {
      DressedTwice(runtimes, key, CoatFor(init, key).value, CoatOf(last));
    }
  }

  // --- When a list can be applied ---

  // No Deployment of the list differs in its immutable fields from the stored one.
  ghost predicate Acceptable(store: Stored, resources: seq<Resource>) {
    forall r <- resources :: !Rejected(store, r)
  }

  // Deployments that the list renders twice have the same immutable fields.
  ghost predicate Consistent(resources: seq<Resource>) {
    forall r, s | r in resources && s in resources && IsDeployment(r) && r.id == s.id :: r.immutable == s.immutable
  }

  // The kinds that the list defines.
  function Defined(resources: seq<Resource>): set<Kind> {
    if resources == [] then {}
    else Defined(resources[..|resources| - 1]) + Defines(resources[|resources| - 1].id)
  }

  // Each training runtime of the list has a kind that is installed or defined earlier in the list.
  ghost predicate Installable(installed: set<Kind>, resources: seq<Resource>) {
    forall i | 0 <= i < |resources| && RuntimeKind(resources[i].id).Some? ::
      RuntimeKind(resources[i].id).value in installed + Defined(resources[..i])
  }

  lemma InstallableSnoc(installed: set<Kind>, init: seq<Resource>, last: Resource)
    ensures Installable(installed, init + [last]) <==>
      && Installable(installed, init)
      && (RuntimeKind(last.id).Some? ==> RuntimeKind(last.id).value in installed + Defined(init))
  {
    var all := init + [last];
    Snoc(init, last);
    assert forall i | 0 <= i < |init| :: all[i] == init[i] && all[..i] == init[..i];
    if Installable(installed, all) {
      assert RuntimeKind(all[|init|].id).Some? ==>
        RuntimeKind(all[|init|].id).value in installed + Defined(all[..|init|]);
      forall i | 0 <= i < |init| && RuntimeKind(init[i].id).Some?
        ensures RuntimeKind(init[i].id).value in installed + Defined(init[..i])
      {
        assert RuntimeKind(all[i].id).Some?;
      }
    }
  }

  // The cluster with all that the list sets of it.
  ghost function After(live: Live, resources: seq<Resource>): Live {
    Live(live.store + Rendered(resources), Dress(live.runtimes, resources), live.installed + Defined(resources))
  }

  // A list can be applied exactly when the store accepts it, it is consistent in itself, and its
  // training runtimes follow the definitions of their kinds. Then the cluster agrees with it.
  lemma {:induction false} ApplyAllIff(live: Live, resources: seq<Resource>)
    ensures ApplyAll(live, resources).Some? <==>
      Acceptable(live.store, resources) && Consistent(resources) && Installable(live.installed, resources)
    ensures ApplyAll(live, resources).Some? ==> ApplyAll(live, resources).value == After(live, resources)
  {
    if resources == [] {
      AfterNone(live);
    } else {
      var init, last := resources[..|resources| - 1], resources[|resources| - 1];
      assert resources == init + [last];
      ApplyAllIff(live, init);
      Snoc(init, last);
      InstallableSnoc(live.installed, init, last);
      if ApplyAll(live, init).Some? {
        AppliedLast(live, init, last);
        LastAccepted(live, init, last);
      }
    }
  }

  lemma AfterNone(live: Live)
    ensures After(live, []) == live
  {
    assert Dress(live.runtimes, []) == live.runtimes;
  }

  lemma AppliedLast(live: Live, init: seq<Resource>, last: Resource)
    ensures Applied(After(live, init), last) == After(live, init + [last])
  {
    DressSnoc(live.runtimes, init, last);
    Snoc(init, last);
    assert live.installed + Defined(init) + Defines(last.id) == live.installed + (Defined(init) + Defines(last.id));
    WrittenLast(live.store, Rendered(init), last.id, last);
  }

  lemma WrittenLast<K, T>(a: map<K, T>, b: map<K, T>, key: K, value: T)
    ensures (a + b)[key := value] == a + b[key := value]
  {
  }

  lemma LastAccepted(live: Live, init: seq<Resource>, last: Resource)
    requires Acceptable(live.store, init) && Consistent(init)
    ensures Accepted(After(live, init), last) <==>
      && Acceptable(live.store, init + [last]) && Consistent(init + [last])
      && (RuntimeKind(last.id).Some? ==> RuntimeKind(last.id).value in live.installed + Defined(init))
  {
    LastRejected(live.store, init, last);
    if RuntimeKind(last.id).Some? {
      assert !IsDeployment(last);
    }
  }

  // The last resource is rejected exactly if it conflicts with the store or within the list.
  lemma LastRejected(store: Stored, init: seq<Resource>, last: Resource)
    requires Acceptable(store, init) && Consistent(init)
    ensures !Rejected(store + Rendered(init), last) <==>
      Acceptable(store, init + [last]) && Consistent(init + [last])
  {
    Snoc(init, last);
    var all := init + [last];
    RenderedEntries(init, last.id);
    if last.id in Rendered(init) {
      var r := Rendered(init)[last.id];
      assert r in all && last in all;
    } else if IsDeployment(last) {
      assert forall r <- init :: r.id != last.id;
    }
  }

  // --- Applying a list again ---

  lemma {:induction false} DefinedGrows(resources: seq<Resource>, n: nat)
    requires n <= |resources|
    ensures Defined(resources[..n]) <= Defined(resources)
  {
    if n == |resources| {
      assert resources[..n] == resources;
    } else {
      assert resources[..|resources| - 1][..n] == resources[..n];
      DefinedGrows(resources[..|resources| - 1], n);
    }
  }

  lemma LabelsOver(a: map<string, string>, b: map<string, string>, c: map<string, string>)
    requires b == a + b
    ensures b + c == a + (b + c)
  {
    assert a + b + c == a + (b + c);
  }

  lemma {:induction false} CoatGrows(resources: seq<Resource>, n: nat, key: Key)
    requires n <= |resources| && CoatFor(resources[..n], key).Some?
    ensures CoatFor(resources, key).Some?
    ensures CoatFor(resources, key).value.labels ==
            CoatFor(resources[..n], key).value.labels + CoatFor(resources, key).value.labels
  {
    if n == |resources| {
      assert resources[..n] == resources;
    } else {
      var init, last := resources[..|resources| - 1], resources[|resources| - 1];
      assert init[..n] == resources[..n];
      CoatGrows(init, n, key);
      LabelsOver(CoatFor(resources[..n], key).value.labels, CoatFor(init, key).value.labels, last.labels);
    }
  }

  // A prefix of the list leaves no trace once the whole list is applied.
  lemma DressAgain(runtimes: Objects, resources: seq<Resource>, n: nat)
    requires n <= |resources|
    ensures Dress(Dress(runtimes, resources[..n]), resources) == Dress(runtimes, resources)
  {
    var prefix := resources[..n];
    var once, twice := Dress(runtimes, resources), Dress(Dress(runtimes, prefix), resources);
    forall k
      ensures (k in once <==> k in twice) && (k in once ==> once[k] == twice[k])
    {
      DressAgainAt(runtimes, resources, n, k);
    }
  }

  lemma DressAgainAt(runtimes: Objects, resources: seq<Resource>, n: nat, k: Key)
    requires n <= |resources|
    ensures
      var once, twice := Dress(runtimes, resources), Dress(Dress(runtimes, resources[..n]), resources);
      (k in once <==> k in twice) && (k in once ==> once[k] == twice[k])
  {
    var prefix := resources[..n];
    CoatEntries(prefix, k);
    CoatEntries(resources, k);
    if k in RuntimeKeys(prefix) {
      CoatGrows(resources, n, k);
      DressedTwice(runtimes, k, CoatFor(prefix, k).value, CoatFor(resources, k).value);
    }
  }

  lemma InstalledAfter(installed: set<Kind>, resources: seq<Resource>, n: nat)
    requires n <= |resources| && Installable(installed, resources[..n])
    ensures Installable(installed + Defined(resources[..n]), resources) <==> Installable(installed, resources)
  {
    var prefix := resources[..n];
    forall i | 0 <= i < |resources| && RuntimeKind(resources[i].id).Some?
      ensures RuntimeKind(resources[i].id).value in installed + Defined(prefix) + Defined(resources[..i])
              <==> RuntimeKind(resources[i].id).value in installed + Defined(resources[..i])
    {
      if i < n {
        assert prefix[i] == resources[i] && prefix[..i] == resources[..i];
      } else {
        assert resources[..i][..n] == prefix;
        DefinedGrows(resources[..i], n);
      }
    }
  }

  lemma AcceptableAfter(store: Stored, resources: seq<Resource>)
    requires Consistent(resources)
    ensures Acceptable(store + Rendered(resources), resources)
  {
    forall r | r in resources
      ensures !Rejected(store + Rendered(resources), r)
    {
      RenderedEntries(resources, r.id);
    }
  }

  // --- The operator's own kinds ---

  // On a cluster without the definitions, a list of a definition and a training runtime of that kind
  // can be applied in this order, and the runtime alone cannot.
  lemma FirstDeployment(defined: Resource, r: Resource)
    requires defined.id.kind == "CustomResourceDefinition"
    requires r.id.apiVersion == "trainer.kubeflow.org/v1alpha1" && r.id.apiVersion != defined.id.apiVersion
    requires
      || (r.id.kind == "ClusterTrainingRuntime" && defined.id.name == "clustertrainingruntimes.trainer.kubeflow.org")
      || (r.id.kind == "TrainingRuntime" && defined.id.name == "trainingruntimes.trainer.kubeflow.org")
    ensures ApplyAll(Live(map[], map[], {}), [defined, r]).Some? && ApplyAll(Live(map[], map[], {}), [r]).None?
    ensures
      var runtimes := ApplyAll(Live(map[], map[], {}), [defined, r]).value.runtimes;
      |runtimes| == 1 && forall k <- runtimes ::
        k.namespace == r.id.namespace && k.name == r.id.name &&
        runtimes[k] == Object(r.labels, [], false, r.rest)
  {
    var none := Live(map[], map[], {});
    assert [defined, r][..1] == [defined] && [defined][..0] == [] && [r][..0] == [];
    assert ApplyAll(none, [defined]) == Some(Applied(none, defined));
  }
}
