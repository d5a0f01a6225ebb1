// withImmutableFieldRecovery of internal/controller/trainer_controller.go around the deploy
// action, and the garbage collection that the same file registers.
module Deploy {
  import opened Applying
  import opened Cluster
  import opened Outcome
  import opened Sequences
  import opened Text

  const IMMUTABLE_TEXT := "field is immutable"

  // isImmutableFieldError
  predicate IsImmutableFieldError(err: Option<string>) {
    err.Some? && Contains(err.value, IMMUTABLE_TEXT)
  }

  const REJECTION := "spec.selector: Invalid value: field is immutable"
  const NO_MATCH := "no matches for kind"

  // What the server says to a resource that it does not accept.
  function Refusal(r: Resource): string {
    if RuntimeKey(r.id).Some? then NO_MATCH else REJECTION
  }

  lemma ImmutableIff(err: Option<string>)
    ensures IsImmutableFieldError(err) <==>
      err.Some? && exists before, after :: err.value == before + "field is immutable" + after
  {
    if err.Some? {
      ContainsIff(err.value, IMMUTABLE_TEXT);
    }
  }

  lemma RefusalIsRecognized(r: Resource)
    ensures IsImmutableFieldError(Some(Refusal(r))) <==> RuntimeKey(r.id).None?
  {
    if RuntimeKey(r.id).None? {
      var i := |"spec.selector: Invalid value: "|;
      assert REJECTION[i..] == IMMUTABLE_TEXT;
      assert HasPrefix(REJECTION[i..], IMMUTABLE_TEXT);
    } else {
      assert IMMUTABLE_TEXT[0] == 'f';
      forall i | 0 <= i <= |NO_MATCH|
        ensures !HasPrefix(NO_MATCH[i..], IMMUTABLE_TEXT)
      {
        assert i < 2 ==> NO_MATCH[i..][0] != 'f';
        assert i >= 2 ==> |NO_MATCH[i..]| < |IMMUTABLE_TEXT|;
      }
    }
  }

  // --- The store ---

  // The objects that are not training runtimes. `failures` and `deleteFailures` count the
  // applications that failed for any reason but a refusal, with arbitrary messages, and the
  // deletions that failed. `lastError` is the last error an application returned.
  class Store {
    var objects: Stored
    ghost var failures: nat
    ghost var deleteFailures: nat
    ghost var lastError: Option<string>

    constructor (objects: Stored)
      ensures this.objects == objects && failures == 0 && deleteFailures == 0 && lastError == None
    {
      this.objects := objects;
      failures, deleteFailures, lastError := 0, 0, None;
    }

    // Server-side apply
    method Apply(r: Resource) returns (err: Option<string>)
      modifies this
      ensures deleteFailures == old(deleteFailures) && (err.Some? ==> lastError == err)
      ensures objects == if err.None? then old(objects)[r.id := r] else old(objects)
      ensures failures == old(failures) ==> err == if Rejected(old(objects), r) then Some(REJECTION) else None
      ensures failures >= old(failures)
      ensures err.None? ==> !Rejected(old(objects), r) && failures == old(failures)
    {
      if * {
        failures := failures + 1;
        var message: string := *;
        lastError := Some(message);
        return Some(message);
      }
      if Rejected(objects, r) {
        lastError := Some(REJECTION);
        return Some(REJECTION);
      }
      objects := objects[r.id := r];
      return None;
    }

    // Deletion in the background; an object that is not there counts as deleted.
    method Delete(id: Id) returns (ok: bool)
      modifies this
      ensures failures == old(failures) && lastError == old(lastError)
      ensures objects == if ok then old(objects) - {id} else old(objects)
      ensures deleteFailures == old(deleteFailures) + if ok then 0 else 1
    {
      ok := *;
      if ok {
        objects := objects - {id};
      } else {
        deleteFailures := deleteFailures + 1;
      }
    }
  }

  ghost function LiveOf(store: Store, server: ApiServer): Live
    reads store, server
  {
    Live(store.objects, server.objects, server.installed)
  }

  // The applications that failed for any reason but a refusal.
  ghost function ApplyFaults(store: Store, server: ApiServer): nat
    reads store, server
  {
    store.failures + server.failures
  }

  // --- The deploy action ---

  method Apply(store: Store, server: ApiServer, r: Resource) returns (err: Option<string>)
    requires server.Valid()
    modifies store, server`objects, server`installed, server`failures
    ensures server.Valid() && server.updates == old(server.updates)
    ensures store.deleteFailures == old(store.deleteFailures) && (err.Some? ==> store.lastError == err)
    ensures ApplyFaults(store, server) >= old(ApplyFaults(store, server))
    ensures err.None? ==> Accepted(old(LiveOf(store, server)), r)
    ensures LiveOf(store, server) ==
      if err.None? then Applied(old(LiveOf(store, server)), r) else old(LiveOf(store, server))
    ensures ApplyFaults(store, server) == old(ApplyFaults(store, server)) ==>
      err == if Accepted(old(LiveOf(store, server)), r) then None else Some(Refusal(r))
  {
    var key := RuntimeKey(r.id);
    if key.None? {
      err := store.Apply(r);
      if err.None? {
        server.Install(Defines(r.id));
      }
      return;
    }
    if key.value.kind !in server.installed {
      store.lastError := Some(NO_MATCH);
      return Some(NO_MATCH);
    }
    var ok := server.Apply(key.value, CoatOf(r));
    if !ok {
      var message: string := *;
      store.lastError := Some(message);
      return Some(message);
    }
    return None;
  }

  // The action stops at the first error; `applied` counts the resources applied before it.
  method DeployAction(store: Store, server: ApiServer, resources: seq<Resource>)
    returns (err: Option<string>, ghost applied: nat)
    requires server.Valid()
    modifies store, server`objects, server`installed, server`failures
    ensures server.Valid() && server.updates == old(server.updates)
    ensures applied <= |resources|
    ensures ApplyAll(old(LiveOf(store, server)), resources[..applied]) == Some(LiveOf(store, server))
    ensures if err.None? then applied == |resources| else applied < |resources| && err == store.lastError
    ensures ApplyFaults(store, server) >= old(ApplyFaults(store, server))
    ensures store.deleteFailures == old(store.deleteFailures)
    ensures ApplyFaults(store, server) == old(ApplyFaults(store, server)) && err.Some? ==>
      !Accepted(LiveOf(store, server), resources[applied]) && err == Some(Refusal(resources[applied]))
  {
    for i := 0 to |resources|
      invariant server.Valid() && server.updates == old(server.updates)
      invariant ApplyAll(old(LiveOf(store, server)), resources[..i]) == Some(LiveOf(store, server))
      invariant ApplyFaults(store, server) >= old(ApplyFaults(store, server))
      invariant store.deleteFailures == old(store.deleteFailures)
    {
      assert resources[..i + 1][..i] == resources[..i];
      err := Apply(store, server, resources[i]);
      applied := i;
      if err.Some? {
        return;
      }
    }
    assert resources[..|resources|] == resources;
    return None, |resources|;
  }

  // --- withImmutableFieldRecovery ---

  function DeploymentIds(resources: seq<Resource>): set<Id> {
    set r <- resources | IsDeployment(r) :: r.id
  }

  lemma DeploymentIdsAre(resources: seq<Resource>, id: Id)
    ensures id in DeploymentIds(resources) <==> id.kind == "Deployment" && exists r <- resources :: r.id == id
  {
    if r :| r in resources && r.id == id && id.kind == "Deployment" {
      assert IsDeployment(r);
    }
  }

  // A deploy action that applied a prefix of the resources and then deleted some of their
  // Deployments: all of them when a Deployment was rejected and nothing else went wrong, and
  // none when the kind of a training runtime was missing.
  ghost predicate Deploying(
    before: Live, resources: seq<Resource>, applied: nat, deleted: set<Id>, ok: bool, calm: bool, after: Live)
  {
    && applied <= |resources| && ApplyAll(before, resources[..applied]).Some?
    && var mid := ApplyAll(before, resources[..applied]).value;
    && after == mid.(store := mid.store - deleted)
    && deleted <= DeploymentIds(resources)
    && (ok ==> applied == |resources| && deleted == {})
    && (calm && !ok ==>
          && applied < |resources| && !Accepted(mid, resources[applied])
          && deleted == if RuntimeKey(resources[applied].id).None? then DeploymentIds(resources) else {})
  }

  // The error of the deploy action is handed on. If it speaks of an immutable field, Deployments
  // of the rendered list are deleted, all of them unless a deletion fails, and nothing else is.
  method DeployWithRecovery(store: Store, server: ApiServer, resources: seq<Resource>)
    returns (err: Option<string>, ghost applied: nat, ghost deleted: set<Id>)
    requires server.Valid()
    modifies store, server`objects, server`installed, server`failures
    ensures server.Valid() && server.updates == old(server.updates)
    ensures ApplyFaults(store, server) >= old(ApplyFaults(store, server))
    ensures store.deleteFailures >= old(store.deleteFailures)
    ensures err.Some? ==> err == store.lastError
    ensures !IsImmutableFieldError(err) ==> deleted == {}
    ensures IsImmutableFieldError(err) && store.deleteFailures == old(store.deleteFailures) ==>
      deleted == DeploymentIds(resources)
    ensures Deploying(
      old(LiveOf(store, server)), resources, applied, deleted, err.None?,
      ApplyFaults(store, server) + store.deleteFailures == old(ApplyFaults(store, server) + store.deleteFailures),
      LiveOf(store, server))
  {
    err, applied := DeployAction(store, server, resources);
    deleted := {};
    if err.Some? {
      RefusalIsRecognized(resources[applied]);
    }
    if err.Some? && IsImmutableFieldError(err) {
      deleted := DeleteDeployments(store, resources);
    }
  }

  // The loop of the recovery. A deletion that fails does not stop it.
  method DeleteDeployments(store: Store, resources: seq<Resource>) returns (ghost deleted: set<Id>)
    modifies store
    ensures store.objects == old(store.objects) - deleted && deleted <= DeploymentIds(resources)
    ensures store.failures == old(store.failures) && store.lastError == old(store.lastError)
    ensures store.deleteFailures >= old(store.deleteFailures)
    ensures store.deleteFailures == old(store.deleteFailures) ==> deleted == DeploymentIds(resources)
  {
    deleted := {};
    for i := 0 to |resources|
      invariant store.objects == old(store.objects) - deleted
      invariant deleted <= DeploymentIds(resources[..i])
      invariant store.failures == old(store.failures) && store.lastError == old(store.lastError)
      invariant store.deleteFailures >= old(store.deleteFailures)
      invariant store.deleteFailures == old(store.deleteFailures) ==> deleted == DeploymentIds(resources[..i])
    {
      assert resources[..i + 1] == resources[..i] + [resources[i]];
      Snoc(resources[..i], resources[i]);
      if resources[i].id.kind != "Deployment" {
        continue;
      }
      var ok := store.Delete(resources[i].id);
      if ok {
        deleted := deleted + {resources[i].id};
      }
    }
    assert resources[..|resources|] == resources;
  }

  // --- One deploy action after another ---

  lemma DeployedWhole(
    before: Live, resources: seq<Resource>, applied: nat, deleted: set<Id>, calm: bool, after: Live)
    requires Deploying(before, resources, applied, deleted, true, calm, after)
    ensures Acceptable(before.store, resources) && Consistent(resources) && Installable(before.installed, resources)
    ensures after == After(before, resources)
  {
    assert resources[..applied] == resources;
    ApplyAllIff(before, resources);
    assert after.store == ApplyAll(before, resources).value.store;
  }

  // A fault-free deploy action succeeds exactly when the whole list can be applied.
  lemma CalmDeploys(
    before: Live, resources: seq<Resource>, applied: nat, deleted: set<Id>, ok: bool, after: Live)
    requires Deploying(before, resources, applied, deleted, ok, true, after)
    ensures ok <==> ApplyAll(before, resources).Some?
  {
    if ok {
      assert resources[..applied] == resources;
    } else {
      assert resources[..applied + 1][..applied] == resources[..applied];
      FailureSticks(before, resources, applied + 1);
    }
  }

  // What a cut short deploy action leaves behind, a whole one overwrites.
  lemma LeftoversOverwritten(
    before: Live, resources: seq<Resource>, applied: nat, deleted: set<Id>, ok: bool, calm: bool, after: Live)
    requires Deploying(before, resources, applied, deleted, ok, calm, after)
    ensures After(after, resources) == After(before, resources)
    ensures Installable(after.installed, resources) <==> Installable(before.installed, resources)
  {
    var prefix := resources[..applied];
    ApplyAllIff(before, prefix);
    InstalledAfter(before.installed, resources, applied);
    DefinedGrows(resources, applied);
    DressAgain(before.runtimes, resources, applied);
    StoreOverwritten(before.store, resources, applied, deleted);
  }

  lemma StoreOverwritten(store: Stored, resources: seq<Resource>, applied: nat, deleted: set<Id>)
    requires applied <= |resources| && deleted <= DeploymentIds(resources)
    ensures store + Rendered(resources[..applied]) - deleted + Rendered(resources) == store + Rendered(resources)
  {
    var prefix := resources[..applied];
    forall id
      ensures id in Rendered(prefix) || id in deleted ==> id in Rendered(resources)
    {
      RenderedEntries(prefix, id);
      RenderedEntries(resources, id);
      assert resources == prefix + resources[applied..];
    }
    Overwritten(store, Rendered(prefix), deleted, Rendered(resources));
  }

  lemma Overwritten<K, T>(base: map<K, T>, part: map<K, T>, deleted: set<K>, whole: map<K, T>)
    requires part.Keys <= whole.Keys && deleted <= whole.Keys
    ensures base + part - deleted + whole == base + whole
  {
  }

  // After a fault-free deploy action that failed, one over the same list succeeds exactly when the
  // list is consistent and its training runtimes follow their definitions.
  lemma NextDeploys(before: Live, resources: seq<Resource>, applied: nat, deleted: set<Id>, after: Live)
    requires Deploying(before, resources, applied, deleted, false, true, after)
    ensures ApplyAll(after, resources).Some? <==>
      Consistent(resources) && Installable(before.installed, resources)
    ensures Consistent(resources) && Installable(before.installed, resources) ==> Acceptable(after.store, resources)
  {
    LeftoversOverwritten(before, resources, applied, deleted, false, true, after);
    ApplyAllIff(after, resources);
    ApplyAllIff(before, resources[..applied]);
    if RuntimeKey(resources[applied].id).None? {
      GoneAreAccepted(after.store, resources);
    } else {
      assert RuntimeKind(resources[applied].id).Some?;
      assert !Installable(before.installed, resources);
    }
  }

  // Without its Deployments the store accepts a list.
  lemma GoneAreAccepted(store: Stored, resources: seq<Resource>)
    requires store.Keys !! DeploymentIds(resources)
    ensures Acceptable(store, resources)
  {
    forall r | r in resources
      ensures !Rejected(store, r)
    {
      if IsDeployment(r) {
        assert r.id in DeploymentIds(resources);
      }
    }
  }

  lemma AppliedTwice(before: Live, resources: seq<Resource>)
    requires ApplyAll(before, resources).Some?
    ensures ApplyAll(After(before, resources), resources) == Some(After(before, resources))
  {
    var after := After(before, resources);
    assert resources[..|resources|] == resources;
    ApplyAllIff(before, resources);
    ApplyAllIff(after, resources);
    AcceptableAfter(before.store, resources);
    InstalledAfter(before.installed, resources, |resources|);
    DressAgain(before.runtimes, resources, |resources|);
    assert after.store + Rendered(resources) == after.store;
  }

  // Two deploy actions over one list: without faults the second succeeds exactly when the list is
  // consistent and its training runtimes follow their definitions, whatever the first one met,
  // and leaves the cluster in agreement with the list.
  method RecoverInTwoPasses(store: Store, server: ApiServer, resources: seq<Resource>)
    returns (first: Option<string>, second: Option<string>)
    requires server.Valid()
    modifies store, server`objects, server`installed, server`failures
    ensures server.Valid()
    ensures
      ApplyFaults(store, server) + store.deleteFailures == old(ApplyFaults(store, server) + store.deleteFailures) ==>
        var live := old(LiveOf(store, server));
        && (first.None? <==> ApplyAll(live, resources).Some?)
        && (second.None? <==> Consistent(resources) && Installable(live.installed, resources))
        && (second.None? ==> LiveOf(store, server) == After(live, resources))
  {
    ghost var applied, deleted;
    ghost var start := LiveOf(store, server);
    ghost var faults := ApplyFaults(store, server) + store.deleteFailures;
    first, applied, deleted := DeployWithRecovery(store, server, resources);
    ghost var middle := LiveOf(store, server);
    ghost var calm := ApplyFaults(store, server) + store.deleteFailures == faults;
    ghost var applied', deleted';
    second, applied', deleted' := DeployWithRecovery(store, server, resources);
    if ApplyFaults(store, server) + store.deleteFailures == faults {
      TwoDeploys(
        start, middle, LiveOf(store, server), resources,
        applied, deleted, first.None?, applied', deleted', second.None?);
    }
  }

  lemma TwoDeploys(
    start: Live, middle: Live, end: Live, resources: seq<Resource>,
    applied: nat, deleted: set<Id>, first: bool, applied': nat, deleted': set<Id>, second: bool)
    requires Deploying(start, resources, applied, deleted, first, true, middle)
    requires Deploying(middle, resources, applied', deleted', second, true, end)
    ensures first <==> ApplyAll(start, resources).Some?
    ensures second <==> Consistent(resources) && Installable(start.installed, resources)
    ensures second ==> end == After(start, resources)
  {
    CalmDeploys(start, resources, applied, deleted, first, middle);
    CalmDeploys(middle, resources, applied', deleted', second, end);
    LeftoversOverwritten(start, resources, applied, deleted, first, true, middle);
    if first {
      DeployedWhole(start, resources, applied, deleted, true, middle);
      AppliedTwice(start, resources);
    } else {
      NextDeploys(start, resources, applied, deleted, middle);
    }
    if second {
      DeployedWhole(middle, resources, applied', deleted', true, end);
    }
  }

  // --- Garbage collection ---

  // What is labelled and within the collector's reach but not rendered any more. The training
  // runtimes are marked unremovable.
  function Stale(store: Stored, resources: seq<Resource>, reach: Id -> bool): set<Id> {
    set id <- store | Labelled(store[id]) && reach(id) && RuntimeKey(id).None? && id !in Rendered(resources)
  }

  // The store after a deploy action and a garbage collection.
  function Swept(store: Stored, resources: seq<Resource>, reach: Id -> bool): Stored {
    store + Rendered(resources) - Stale(store + Rendered(resources), resources, reach)
  }

  ghost predicate Collecting(
    before: Stored, resources: seq<Resource>, reach: Id -> bool, removed: set<Id>, ok: bool, after: Stored)
  {
    && removed <= Stale(before, resources, reach)
    && after == before - removed
    && (ok ==> removed == Stale(before, resources, reach))
  }

  method CollectGarbage(store: Store, resources: seq<Resource>, reach: Id -> bool)
    returns (ok: bool, ghost removed: set<Id>)
    modifies store
    ensures store.failures == old(store.failures)
    ensures Collecting(old(store.objects), resources, reach, removed, ok, store.objects)
    ensures if ok then store.deleteFailures == old(store.deleteFailures)
            else store.deleteFailures > old(store.deleteFailures)
  {
    ok, removed := DeleteEach(store, Stale(store.objects, resources, reach));
  }

  method DeleteEach(store: Store, ids: set<Id>) returns (ok: bool, ghost removed: set<Id>)
    modifies store
    ensures store.failures == old(store.failures)
    ensures store.objects == old(store.objects) - removed && removed <= ids
    ensures if ok then removed == ids && store.deleteFailures == old(store.deleteFailures)
            else store.deleteFailures > old(store.deleteFailures)
  {
    var remaining := ids;
    removed := {};
    while remaining != {}
      invariant removed + remaining == ids && store.objects == old(store.objects) - removed
      invariant store.failures == old(store.failures) && store.deleteFailures == old(store.deleteFailures)
      decreases |remaining|
    {
      var id :| id in remaining;
      ok := store.Delete(id);
      if !ok {
        return;
      }
      removed, remaining := removed + {id}, remaining - {id};
    }
    ok := true;
  }

  // Of what the collector reaches, exactly the rendering is left, whatever the store held; of all
  // else the rendered and the unrendered objects stand side by side.
  lemma SweptIs(store: Stored, resources: seq<Resource>, reach: Id -> bool, id: Id)
    ensures id in Rendered(resources) ==>
      id in Swept(store, resources, reach) && Swept(store, resources, reach)[id] == Rendered(resources)[id]
    ensures id !in Rendered(resources) ==>
      (id in Swept(store, resources, reach) <==>
       id in store && !(PartOfTrainer(store[id].labels) && reach(id) && RuntimeKey(id).None?))
    ensures id !in Rendered(resources) && id in Swept(store, resources, reach) ==>
      Swept(store, resources, reach)[id] == store[id]
  {
  }

  // A second sweep finds nothing to do.
  lemma SweptTwice(store: Stored, resources: seq<Resource>, reach: Id -> bool)
    ensures
      var once := Swept(store, resources, reach);
      once + Rendered(resources) == once && Stale(once, resources, reach) == {} &&
      Swept(once, resources, reach) == once
  {
    var once := Swept(store, resources, reach);
    assert once + Rendered(resources) == once;
    assert Stale(once, resources, reach) == {};
  }

  // --- cleanup ---

  // Without failures the training runtimes come to their end state and no labelled object within
  // the collector's reach is left. Whatever fails, nothing unlabelled is touched, and success
  // means that no holder and no such object is left.
  method Cleanup(store: Store, server: ApiServer, reach: Id -> bool) returns (ok: bool)
    requires server.Valid()
    modifies store, server`objects, server`updates, server`failures
    ensures server.Valid() && server.failures >= old(server.failures)
    ensures server.failures == old(server.failures) ==> server.objects == EndState(old(server.objects))
    ensures ok ==> Holders(server.objects) == {} && store.objects == Swept(old(store.objects), [], reach)
    ensures !ok ==> server.failures > old(server.failures) || store.deleteFailures > old(store.deleteFailures)
    ensures store.objects.Keys <= old(store.objects).Keys
    ensures forall id <- old(store.objects) | !(PartOfTrainer(old(store.objects)[id].labels) && reach(id)) ::
      id in store.objects
    ensures forall id <- store.objects :: store.objects[id] == old(store.objects)[id]
    ensures forall k <- old(server.objects) | !PartOfTrainer(old(server.objects[k]).labels) ::
      k in server.objects && server.objects[k] == old(server.objects[k])
  {
    ok := CleanupRuntimes(server);
    if !ok {
      return;
    }
    assert store.objects + Rendered([]) == store.objects;
    ghost var removed;
    ok, removed := CollectGarbage(store, [], reach);
  }
}
