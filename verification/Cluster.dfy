// removeRuntimeFinalizers, cleanupTrainerResources and cleanup of
// internal/controller/trainer_controller.go, over the training runtimes of an API server.
module Cluster {
  import opened Sequences

  datatype Kind = ClusterTrainingRuntime | TrainingRuntime

  datatype Key = Key(kind: Kind, namespace: string, name: string)

  // `terminating` stands for a deletion timestamp, `body` for everything else in the object.
  datatype Object = Object(labels: map<string, string>, finalizers: seq<string>, terminating: bool, body: string)

  type Objects = map<Key, Object>

  const PART_OF_LABEL := "platform.opendatahub.io/part-of"
  const PART_OF_TRAINER := "trainer"
  const LEGACY_FINALIZER := "trainer.kubeflow.org/resource-in-use"

  // Matches the label selector of both loops.
  predicate Managed(o: Object) {
    PART_OF_LABEL in o.labels && o.labels[PART_OF_LABEL] == PART_OF_TRAINER
  }

  // --- The API server ---

  datatype ListResult = Items(items: seq<(Key, Object)>) | NotFound | Failed

  // `items` lists the managed objects of a kind, once each, in any order.
  ghost predicate Lists(items: seq<(Key, Object)>, objects: Objects, kind: Kind) {
    ListsExcept(items, objects, kind, {})
  }

  ghost predicate ListsExcept(items: seq<(Key, Object)>, objects: Objects, kind: Kind, remaining: set<Key>) {
    && (forall i, j | 0 <= i < j < |items| :: items[i].0 != items[j].0)
    && (forall item <- items ::
          item.0 in objects - remaining && objects[item.0] == item.1 && item.0.kind == kind && Managed(item.1))
    && (forall k <- objects - remaining | k.kind == kind && Managed(objects[k]) :: exists item <- items :: item.0 == k)
  }

  lemma ListOneMore(items: seq<(Key, Object)>, objects: Objects, kind: Kind, remaining: set<Key>, key: Key)
    requires ListsExcept(items, objects, kind, remaining) && key in remaining
    requires key in objects && key.kind == kind && Managed(objects[key])
    ensures ListsExcept(items + [(key, objects[key])], objects, kind, remaining - {key})
  {
    var items' := items + [(key, objects[key])];
    Snoc(items, (key, objects[key]));
    assert items'[|items|] in items';
    forall k | k in objects - (remaining - {key}) && k.kind == kind && Managed(objects[k])
      ensures exists item <- items' :: item.0 == k
    {
      if k != key {
        var item :| item in items && item.0 == k;
        assert item in items';
      }
    }
  }

  // Writing an object: a terminating object goes when its last finalizer does.
  function Written(objects: Objects, key: Key, o: Object): Objects {
    if o.terminating && o.finalizers == [] then objects - {key} else objects[key := o]
  }

  // Deleting an object: it goes at once if it has no finalizer and is marked otherwise.
  function Deleted(objects: Objects, key: Key): Objects
    requires key in objects
  {
    Written(objects, key, objects[key].(terminating := true))
  }

  // What an application sets of an object.
  datatype Coat = Coat(labels: map<string, string>, body: string)

  // Applying to an object keeps its other labels, its finalizers and its deletion timestamp. A
  // new object has no finalizers.
  function Dressed(objects: Objects, key: Key, coat: Coat): Object {
    if key in objects then objects[key].(labels := objects[key].labels + coat.labels, body := coat.body)
    else Object(coat.labels, [], false, coat.body)
  }

  // The server keeps no terminating object without a finalizer.
  ghost predicate Settled(objects: Objects) {
    forall k <- objects :: objects[k].terminating ==> objects[k].finalizers != []
  }

  // `updates` counts the successful updates and `failures` the calls that failed on an
  // installed API.
  class ApiServer {
    var installed: set<Kind>
    var objects: Objects
    ghost var updates: nat
    ghost var failures: nat

    ghost predicate Valid()
      reads this
    {
      Settled(objects) && forall k <- objects :: k.kind in installed
    }

    constructor (installed: set<Kind>, objects: Objects)
      requires Settled(objects) && forall k <- objects :: k.kind in installed
      ensures Valid() && this.installed == installed && this.objects == objects
      ensures updates == 0 && failures == 0
    {
      this.installed, this.objects := installed, objects;
      updates, failures := 0, 0;
    }

    method List(kind: Kind) returns (r: ListResult)
      requires Valid()
      modifies this`failures
      ensures failures >= old(failures)
      ensures match r
        case Items(items) => kind in installed && Lists(items, objects, kind)
        case NotFound => kind !in installed
        case Failed => failures > old(failures)
    {
      if kind !in installed {
        return NotFound;
      }
      if * {
        failures := failures + 1;
        return Failed;
      }
      var items: seq<(Key, Object)> := [];
      var remaining := set k <- objects | k.kind == kind && Managed(objects[k]);
      while remaining != {}
        invariant failures == old(failures)
        invariant forall k <- remaining :: k in objects && k.kind == kind && Managed(objects[k])
        invariant ListsExcept(items, objects, kind, remaining)
        decreases |remaining|
      {
        var k :| k in remaining;
        ListOneMore(items, objects, kind, remaining, k);
        remaining := remaining - {k};
        items := items + [(k, objects[k])];
      }
      return Items(items);
    }

    // Only finalizers of a terminating object may change; the loops change nothing else.
    method Update(key: Key, o: Object) returns (ok: bool)
      requires Valid() && key in objects && o.terminating == objects[key].terminating
      modifies this`objects, this`updates, this`failures
      ensures Valid()
      ensures objects == if ok then Written(old(objects), key, o) else old(objects)
      ensures updates == old(updates) + if ok then 1 else 0
      ensures failures == old(failures) + if ok then 0 else 1
    {
      ok := *;
      if ok {
        objects, updates := Written(objects, key, o), updates + 1;
      } else {
        failures := failures + 1;
      }
    }

    // Server-side apply
    method Apply(key: Key, coat: Coat) returns (ok: bool)
      requires Valid() && key.kind in installed
      modifies this`objects, this`failures
      ensures Valid()
      ensures objects == if ok then old(objects)[key := Dressed(old(objects), key, coat)] else old(objects)
      ensures failures == old(failures) + if ok then 0 else 1
    {
      ok := *;
      if ok {
        objects := objects[key := Dressed(objects, key, coat)];
      } else {
        failures := failures + 1;
      }
    }

    // The definitions of kinds have been applied.
    method Install(kinds: set<Kind>)
      requires Valid()
      modifies this`installed
      ensures Valid() && installed == old(installed) + kinds
    {
      installed := installed + kinds;
    }

    method Delete(key: Key) returns (ok: bool)
      requires Valid() && key in objects
      modifies this`objects, this`failures
      ensures Valid()
      ensures objects == if ok then Deleted(old(objects), key) else old(objects)
      ensures failures == old(failures) + if ok then 0 else 1
    {
      ok := *;
      if ok {
        objects := Deleted(objects, key);
      } else {
        failures := failures + 1;
      }
    }
  }

  // --- filterFinalizer ---

  function Without(finalizers: seq<string>, toRemove: string): seq<string> {
    if finalizers == [] then []
    else
      var last := finalizers[|finalizers| - 1];
      Without(finalizers[..|finalizers| - 1], toRemove) + if last != toRemove then [last] else []
  }

  method FilterFinalizer(finalizers: seq<string>, toRemove: string) returns (result: seq<string>)
    ensures result == Without(finalizers, toRemove)
  {
    result := [];
    for i := 0 to |finalizers|
      invariant result == Without(finalizers[..i], toRemove)
    {
      assert finalizers[..i + 1][..i] == finalizers[..i];
      if finalizers[i] != toRemove {
        result := result + [finalizers[i]];
      }
    }
    assert finalizers[..|finalizers|] == finalizers;
  }

  // Filtering keeps the other finalizers, each as often and in the order it stood, and changes
  // the length exactly when the one to remove was there.
  lemma {:induction false} WithoutIs(finalizers: seq<string>, toRemove: string)
    ensures toRemove !in Without(finalizers, toRemove)
    ensures multiset(Without(finalizers, toRemove)) == multiset(finalizers)[toRemove := 0]
    ensures |Without(finalizers, toRemove)| <= |finalizers|
    ensures toRemove !in finalizers <==> |Without(finalizers, toRemove)| == |finalizers|
    ensures toRemove !in finalizers ==> Without(finalizers, toRemove) == finalizers
  {
    if finalizers != [] {
      var init, last := finalizers[..|finalizers| - 1], finalizers[|finalizers| - 1];
      WithoutIs(init, toRemove);
      assert finalizers == init + [last];
    }
  }

  lemma {:induction false} WithoutConcat(a: seq<string>, b: seq<string>, toRemove: string)
    ensures Without(a + b, toRemove) == Without(a, toRemove) + Without(b, toRemove)
    decreases |b|
  {
    if b == [] {
      assert a + b == a;
    } else {
      var init := b[..|b| - 1];
      assert (a + b)[..|a + b| - 1] == a + init;
      WithoutConcat(a, init, toRemove);
    }
  }

  predicate HoldsLegacy(o: Object) {
    LEGACY_FINALIZER in o.finalizers
  }

  // The foreign finalizers.
  function Retained(finalizers: seq<string>): seq<string> {
    Without(finalizers, LEGACY_FINALIZER)
  }

  // --- What the loops do to the objects ---

  function Stripped(o: Object): Object {
    o.(finalizers := Retained(o.finalizers))
  }

  // A terminating object whose only finalizers are legacy ones does not survive stripping.
  predicate GoesWhenStripped(o: Object) {
    o.terminating && Retained(o.finalizers) == []
  }

  function StripOn(objects: Objects, keys: set<Key>): Objects {
    map k | k in objects && !(k in keys && GoesWhenStripped(objects[k])) ::
      if k in keys then Stripped(objects[k]) else objects[k]
  }

  function DeleteOn(objects: Objects, keys: set<Key>): Objects {
    map k | k in objects && !(k in keys && objects[k].finalizers == []) ::
      if k in keys then objects[k].(terminating := true) else objects[k]
  }

  function ManagedKeys(objects: Objects): set<Key> {
    set k <- objects | Managed(objects[k])
  }

  // The managed objects that still hold the legacy finalizer.
  function Holders(objects: Objects): set<Key> {
    set k <- objects | Managed(objects[k]) && HoldsLegacy(objects[k])
  }

  lemma StripStep(objects: Objects, keys: set<Key>, key: Key)
    requires key in objects && key !in keys
    ensures key in StripOn(objects, keys) && StripOn(objects, keys)[key] == objects[key]
    ensures Written(StripOn(objects, keys), key, Stripped(objects[key])) == StripOn(objects, keys + {key})
  {
  }

  lemma SkipStep(objects: Objects, keys: set<Key>, key: Key)
    requires key in objects && key !in keys && !HoldsLegacy(objects[key])
    requires objects[key].terminating ==> objects[key].finalizers != []
    ensures StripOn(objects, keys + {key}) == StripOn(objects, keys)
  {
    WithoutIs(objects[key].finalizers, LEGACY_FINALIZER);
    StripSame(objects, keys, key);
  }

  lemma StripSame(objects: Objects, keys: set<Key>, key: Key)
    requires key in objects && Stripped(objects[key]) == objects[key] && !GoesWhenStripped(objects[key])
    ensures StripOn(objects, keys + {key}) == StripOn(objects, keys)
  {
  }

  lemma StripNone(objects: Objects)
    ensures StripOn(objects, {}) == objects
  {
  }

  // Stripping removes exactly the stripped keys from the holders.
  lemma StripHolders(objects: Objects, keys: set<Key>)
    ensures Holders(StripOn(objects, keys)) == Holders(objects) - keys
  {
    forall k | k in objects
      ensures !HoldsLegacy(Stripped(objects[k]))
    {
      WithoutIs(objects[k].finalizers, LEGACY_FINALIZER);
    }
  }

  // --- removeRuntimeFinalizers ---

  // What the loop over one resource maintains: the objects dealt with are stripped, and every
  // update so far has taken one holder away.
  ghost predicate Stripping(server: ApiServer, start: Objects, done: set<Key>, updates: nat)
    reads server
  {
    && server.Valid()
    && done <= ManagedKeys(start)
    && server.objects == StripOn(start, done)
    && server.updates + |Holders(server.objects)| == updates + |Holders(start)|
  }

  // The body of the loop over the items.
  method StripItem(
    server: ApiServer, key: Key, o: Object, ghost start: Objects, ghost done: set<Key>, ghost updates: nat)
    returns (ok: bool)
    requires Stripping(server, start, done, updates)
    requires key in start && start[key] == o && Managed(o) && key !in done
    modifies server`objects, server`updates, server`failures
    ensures Stripping(server, start, if ok then done + {key} else done, updates)
    ensures if ok then server.failures == old(server.failures) else server.failures > old(server.failures)
  {
    StripStep(start, done, key);
    WithoutIs(o.finalizers, LEGACY_FINALIZER);
    var retained := FilterFinalizer(o.finalizers, LEGACY_FINALIZER);
    if |retained| == |o.finalizers| {
      SkipStep(start, done, key);
      return true;
    }
    HoldersStep(start, done, key);
    ok := server.Update(key, o.(finalizers := retained));
  }

  function KeysOf(items: seq<(Key, Object)>): set<Key> {
    set item <- items :: item.0
  }

  lemma KeysOfSnoc(items: seq<(Key, Object)>, i: nat)
    requires i < |items|
    requires forall j, k | 0 <= j < k < |items| :: items[j].0 != items[k].0
    ensures items[i].0 !in KeysOf(items[..i])
    ensures KeysOf(items[..i + 1]) == KeysOf(items[..i]) + {items[i].0}
  {
    assert items[..i + 1] == items[..i] + [items[i]];
    Snoc(items[..i], items[i]);
  }

  // Objects of a kind that has not been dealt with are listed as they were at the start.
  lemma ListsStart(items: seq<(Key, Object)>, start: Objects, done: set<Key>, kind: Kind)
    requires Lists(items, StripOn(start, done), kind) && forall k <- done :: k.kind != kind
    ensures Lists(items, start, kind)
  {
    forall k | k in start && k.kind == kind && Managed(start[k])
      ensures exists item <- items :: item.0 == k
    {
      assert k in StripOn(start, done);
    }
  }

  lemma ListsAll(items: seq<(Key, Object)>, start: Objects, kind: Kind)
    requires Lists(items, start, kind)
    ensures KeysOf(items) == set k <- ManagedKeys(start) | k.kind == kind
  {
    forall k | k in ManagedKeys(start) && k.kind == kind
      ensures k in KeysOf(items)
    {
      var item :| item in items && item.0 == k;
    }
  }

  method StripItems(
    server: ApiServer, items: seq<(Key, Object)>, kind: Kind,
    ghost start: Objects, ghost done: set<Key>, ghost updates: nat)
    returns (ok: bool, ghost done': set<Key>)
    requires Stripping(server, start, done, updates)
    requires Lists(items, start, kind) && forall k <- done :: k.kind != kind
    modifies server`objects, server`updates, server`failures
    ensures Stripping(server, start, done', updates)
    ensures done <= done' <= done + KeysOf(items)
    ensures if ok then done' == done + KeysOf(items) else server.failures > old(server.failures)
    ensures server.failures >= old(server.failures)
  {
    ok, done' := true, done;
    for i := 0 to |items|
      invariant Stripping(server, start, done', updates)
      invariant done' == done + KeysOf(items[..i])
      invariant server.failures == old(server.failures)
    {
      assert items[i] in items;
      KeysOfSnoc(items, i);
      ok := StripItem(server, items[i].0, items[i].1, start, done', updates);
      if !ok {
        assert KeysOf(items[..i]) <= KeysOf(items);
        return;
      }
      done' := done' + {items[i].0};
    }
    assert items[..|items|] == items;
    ok := true;
  }

  method StripKind(server: ApiServer, kind: Kind, ghost start: Objects, ghost done: set<Key>, ghost updates: nat)
    returns (ok: bool, ghost done': set<Key>)
    requires Stripping(server, start, done, updates)
    requires forall k <- done :: k.kind != kind
    modifies server`objects, server`updates, server`failures
    ensures Stripping(server, start, done', updates)
    ensures done <= done' && forall k <- done' - done :: k.kind == kind
    ensures server.failures >= old(server.failures)
    ensures if ok then forall k <- ManagedKeys(start) | k.kind == kind :: k in done' || kind !in server.installed
            else server.failures > old(server.failures)
  {
    var listed := server.List(kind);
    match listed {
      case NotFound =>
        return true, done;
      case Failed =>
        return false, done;
      case Items(items) =>
        ListsStart(items, start, done, kind);
        ListsAll(items, start, kind);
        ok, done' := StripItems(server, items, kind, start, done, updates);
    }
  }

  lemma HoldersStep(start: Objects, done: set<Key>, key: Key)
    requires key in start && key !in done && Managed(start[key]) && HoldsLegacy(start[key])
    ensures |Holders(StripOn(start, done + {key}))| + 1 == |Holders(StripOn(start, done))|
  {
    StripHolders(start, done);
    StripHolders(start, done + {key});
    assert Holders(start) - done == Holders(start) - (done + {key}) + {key};
  }

  method RemoveRuntimeFinalizers(server: ApiServer) returns (ok: bool, ghost done: set<Key>)
    requires server.Valid()
    modifies server`objects, server`updates, server`failures
    ensures server.Valid() && server.failures >= old(server.failures)
    // Whatever fails, some managed objects have been stripped and nothing else has changed.
    ensures done <= ManagedKeys(old(server.objects))
    ensures server.objects == StripOn(old(server.objects), done)
    // Every successful update takes away exactly one holder.
    ensures server.updates + |Holders(server.objects)| == old(server.updates + |Holders(server.objects)|)
    ensures ok ==> done == ManagedKeys(old(server.objects)) && Holders(server.objects) == {}
    ensures !ok ==> server.failures > old(server.failures)
  {
    ghost var start, updates := server.objects, server.updates;
    StripNone(start);
    ok, done := StripKind(server, ClusterTrainingRuntime, start, {}, updates);
    if ok {
      ok, done := StripKind(server, TrainingRuntime, start, done, updates);
    }
    StripHolders(start, done);
    if ok {
      BothKinds(start, done, server.installed);
    }
  }

  lemma BothKinds(objects: Objects, done: set<Key>, installed: set<Kind>)
    requires done <= ManagedKeys(objects) && forall k <- objects :: k.kind in installed
    requires forall k <- ManagedKeys(objects) | k.kind == ClusterTrainingRuntime ::
      k in done || ClusterTrainingRuntime !in installed
    requires forall k <- ManagedKeys(objects) | k.kind == TrainingRuntime ::
      k in done || TrainingRuntime !in installed
    ensures done == ManagedKeys(objects)
  {
    forall k | k in ManagedKeys(objects)
      ensures k in done
    {
      assert k.kind == ClusterTrainingRuntime || k.kind == TrainingRuntime;
    }
  }

  // A call after a successful one therefore makes no update.
  lemma NothingToStrip(objects: Objects, keys: set<Key>)
    requires Holders(objects) == {} && keys <= ManagedKeys(objects) && Settled(objects)
    ensures StripOn(objects, keys) == objects
  {
    forall k | k in keys
      ensures Stripped(objects[k]) == objects[k]
    {
      assert k !in Holders(objects);
      WithoutIs(objects[k].finalizers, LEGACY_FINALIZER);
    }
  }

  // One call, as seen from outside: what it stripped and whether it succeeded.
  datatype Call = Call(ok: bool, done: set<Key>)

  ghost predicate CallStep(before: Objects, count: nat, call: Call, after: Objects, count': nat) {
    && Settled(before) && call.done <= ManagedKeys(before)
    && after == StripOn(before, call.done)
    && count' + |Holders(after)| == count + |Holders(before)|
    && (call.ok ==> Holders(after) == {})
  }

  // The states and update counts of a run of calls.
  ghost predicate Calls(trace: seq<Objects>, counts: seq<nat>, calls: seq<Call>) {
    && |trace| == |counts| == |calls| + 1
    && forall i | 0 <= i < |calls| :: CallStep(trace[i], counts[i], calls[i], trace[i + 1], counts[i + 1])
  }

  // Any number of calls, failing in any pattern. The holders only ever shrink, one for each
  // successful update; a call that succeeds leaves none, and the calls after it change nothing.
  lemma {:induction false} RetryProgress(trace: seq<Objects>, counts: seq<nat>, calls: seq<Call>, i: nat, j: nat)
    requires Calls(trace, counts, calls) && i <= j <= |calls|
    ensures Holders(trace[j]) <= Holders(trace[i])
    ensures counts[j] + |Holders(trace[j])| == counts[i] + |Holders(trace[i])|
    ensures i < j && calls[i].ok ==> Holders(trace[j]) == {} && trace[j] == trace[i + 1] && counts[j] == counts[i + 1]
    decreases j
  {
    if i < j {
      RetryProgress(trace, counts, calls, i, j - 1);
      CallProgress(trace[j - 1], counts[j - 1], calls[j - 1], trace[j], counts[j]);
    }
  }

  lemma CallProgress(before: Objects, count: nat, call: Call, after: Objects, count': nat)
    requires CallStep(before, count, call, after, count')
    ensures Holders(after) <= Holders(before)
    ensures count' + |Holders(after)| == count + |Holders(before)|
    ensures call.ok ==> Holders(after) == {}
    ensures Holders(before) == {} ==> after == before && count' == count
  {
    StripHolders(before, call.done);
    if Holders(before) == {} {
      NothingToStrip(before, call.done);
    }
  }

  method Retry(server: ApiServer, n: nat)
    returns (ghost trace: seq<Objects>, ghost counts: seq<nat>, ghost calls: seq<Call>)
    requires server.Valid()
    modifies server`objects, server`updates, server`failures
    ensures server.Valid()
    ensures Calls(trace, counts, calls) && |calls| == n
    ensures trace[0] == old(server.objects) && counts[0] == old(server.updates)
    ensures trace[n] == server.objects && counts[n] == server.updates
  {
    trace, counts, calls := [server.objects], [server.updates], [];
    for i := 0 to n
      invariant server.Valid()
      invariant Calls(trace, counts, calls) && |calls| == i
      invariant trace[0] == old(server.objects) && counts[0] == old(server.updates)
      invariant trace[i] == server.objects && counts[i] == server.updates
    {
      var ok, done := RemoveRuntimeFinalizers(server);
      assert CallStep(trace[i], counts[i], Call(ok, done), server.objects, server.updates);
      trace, counts, calls := trace + [server.objects], counts + [server.updates], calls + [Call(ok, done)];
    }
  }

  // --- cleanupTrainerResources ---

  lemma DeleteStep(objects: Objects, keys: set<Key>, key: Key)
    requires key in objects && key !in keys
    ensures key in DeleteOn(objects, keys) && DeleteOn(objects, keys)[key] == objects[key]
    ensures Deleted(DeleteOn(objects, keys), key) == DeleteOn(objects, keys + {key})
    ensures objects[key].terminating && objects[key].finalizers != [] ==>
      DeleteOn(objects, keys + {key}) == DeleteOn(objects, keys)
  {
  }

  lemma DeleteNone(objects: Objects)
    ensures DeleteOn(objects, {}) == objects
  {
  }

  lemma ListsUndeleted(items: seq<(Key, Object)>, start: Objects, done: set<Key>, kind: Kind)
    requires Lists(items, DeleteOn(start, done), kind) && forall k <- done :: k.kind != kind
    ensures Lists(items, start, kind)
  {
    forall k | k in start && k.kind == kind && Managed(start[k])
      ensures exists item <- items :: item.0 == k
    {
      assert k in DeleteOn(start, done);
    }
  }

  ghost predicate Deleting(server: ApiServer, start: Objects, done: set<Key>)
    reads server
  {
    server.Valid() && done <= ManagedKeys(start) && server.objects == DeleteOn(start, done)
  }

  // The body of the loop over the items.
  method DeleteItem(server: ApiServer, key: Key, o: Object, ghost start: Objects, ghost done: set<Key>)
    returns (deleted: bool)
    requires Deleting(server, start, done)
    requires key in start && start[key] == o && Managed(o) && key !in done
    modifies server`objects, server`failures
    ensures Deleting(server, start, if deleted then done + {key} else done)
    ensures server.failures == old(server.failures) + if deleted then 0 else 1
  {
    DeleteStep(start, done, key);
    if o.terminating {
      return true;
    }
    deleted := server.Delete(key);
  }

  // Failures are logged and skipped.
  method DeleteItems(
    server: ApiServer, items: seq<(Key, Object)>, kind: Kind, ghost start: Objects, ghost done: set<Key>)
    returns (ghost done': set<Key>)
    requires Deleting(server, start, done)
    requires Lists(items, start, kind) && forall k <- done :: k.kind != kind
    modifies server`objects, server`failures
    ensures Deleting(server, start, done')
    ensures done <= done' <= done + KeysOf(items)
    ensures server.failures >= old(server.failures)
    ensures server.failures == old(server.failures) ==> done' == done + KeysOf(items)
  {
    done' := done;
    for i := 0 to |items|
      invariant Deleting(server, start, done')
      invariant done <= done' <= done + KeysOf(items[..i])
      invariant server.failures >= old(server.failures)
      invariant server.failures == old(server.failures) ==> done' == done + KeysOf(items[..i])
    {
      assert items[i] in items;
      KeysOfSnoc(items, i);
      var deleted := DeleteItem(server, items[i].0, items[i].1, start, done');
      if deleted {
        done' := done' + {items[i].0};
      }
    }
    assert items[..|items|] == items;
  }

  method DeleteKind(server: ApiServer, kind: Kind, ghost start: Objects, ghost done: set<Key>)
    returns (ghost done': set<Key>)
    requires Deleting(server, start, done)
    requires forall k <- done :: k.kind != kind
    modifies server`objects, server`failures
    ensures Deleting(server, start, done')
    ensures done <= done' && forall k <- done' - done :: k.kind == kind
    ensures server.failures >= old(server.failures)
    ensures server.failures == old(server.failures) ==>
      forall k <- ManagedKeys(start) | k.kind == kind :: k in done' || kind !in server.installed
  {
    done' := done;
    var listed := server.List(kind);
    if listed.Items? {
      ListsUndeleted(listed.items, start, done, kind);
      ListsAll(listed.items, start, kind);
      done' := DeleteItems(server, listed.items, kind, start, done);
    }
  }

  method CleanupTrainerResources(server: ApiServer) returns (ghost done: set<Key>)
    requires server.Valid()
    modifies server`objects, server`failures
    ensures server.Valid() && server.failures >= old(server.failures)
    ensures done <= ManagedKeys(old(server.objects))
    ensures server.objects == DeleteOn(old(server.objects), done)
    ensures server.failures == old(server.failures) ==> done == ManagedKeys(old(server.objects))
  {
    ghost var start := server.objects;
    DeleteNone(start);
    done := DeleteKind(server, ClusterTrainingRuntime, start, {});
    done := DeleteKind(server, TrainingRuntime, start, done);
    if server.failures == old(server.failures) {
      BothKinds(start, done, server.installed);
    }
  }

  // --- cleanup ---

  // What cleanup is for: of the managed objects only those with a foreign finalizer are left,
  // all terminating, with their foreign finalizers in order; the other objects are untouched.
  function EndState(objects: Objects): Objects {
    map k | k in objects && (Managed(objects[k]) ==> Retained(objects[k].finalizers) != []) ::
      if Managed(objects[k]) then Stripped(objects[k]).(terminating := true) else objects[k]
  }

  lemma StripThenDelete(objects: Objects)
    requires Settled(objects)
    ensures
      var stripped := StripOn(objects, ManagedKeys(objects));
      DeleteOn(stripped, ManagedKeys(stripped)) == EndState(objects)
  {
    var stripped := StripOn(objects, ManagedKeys(objects));
    forall k | k in stripped
      ensures k in ManagedKeys(stripped) <==> k in ManagedKeys(objects)
    {
    }
  }

  // The label of the operator.
  predicate PartOfTrainer(labels: map<string, string>) {
    "platform.opendatahub.io/part-of" in labels && labels["platform.opendatahub.io/part-of"] == "trainer"
  }

  // A labelled object is left exactly when it carries a finalizer other than the legacy one, and is
  // then terminating with its other finalizers, each as often as before; any other is untouched.
  lemma LeftBehind(objects: Objects, k: Key)
    requires k in objects
    ensures PartOfTrainer(objects[k].labels) ==>
      && (k in EndState(objects) <==> exists f <- objects[k].finalizers :: f != "trainer.kubeflow.org/resource-in-use")
      && (k in EndState(objects) ==>
            && EndState(objects)[k].terminating
            && multiset(EndState(objects)[k].finalizers) ==
               multiset(objects[k].finalizers)["trainer.kubeflow.org/resource-in-use" := 0]
            && EndState(objects)[k].labels == objects[k].labels && EndState(objects)[k].body == objects[k].body)
    ensures !PartOfTrainer(objects[k].labels) ==> k in EndState(objects) && EndState(objects)[k] == objects[k]
    ensures EndState(objects).Keys <= objects.Keys
  {
    var finalizers := objects[k].finalizers;
    WithoutIs(finalizers, LEGACY_FINALIZER);
    if f :| f in finalizers && f != LEGACY_FINALIZER {
      assert f in multiset(finalizers);
      assert f in multiset(Retained(finalizers));
    }
    if Retained(finalizers) != [] {
      var f := Retained(finalizers)[0];
      assert f in multiset(Retained(finalizers));
      assert f in finalizers && f != LEGACY_FINALIZER;
    }
  }

  // No holder is left exactly if no labelled object has the legacy finalizer.
  lemma HoldersIff(objects: Objects)
    ensures Holders(objects) == {} <==>
      forall k <- objects | PartOfTrainer(objects[k].labels) ::
        "trainer.kubeflow.org/resource-in-use" !in objects[k].finalizers
  {
    if k :| k in Holders(objects) {
      assert PartOfTrainer(objects[k].labels);
    }
    if k :| k in objects && PartOfTrainer(objects[k].labels) && LEGACY_FINALIZER in objects[k].finalizers {
      assert k in Holders(objects);
    }
  }

  // Stripping takes the legacy finalizer and nothing else from each of the objects, which go if they
  // are terminating and have no other.
  lemma StripOnIs(objects: Objects, keys: set<Key>, k: Key)
    requires k in objects
    ensures k !in keys ==> k in StripOn(objects, keys) && StripOn(objects, keys)[k] == objects[k]
    ensures k in keys ==>
      (k !in StripOn(objects, keys) <==>
       objects[k].terminating && forall f <- objects[k].finalizers :: f == "trainer.kubeflow.org/resource-in-use")
    ensures k in keys && k in StripOn(objects, keys) ==>
      var after := StripOn(objects, keys)[k];
      && multiset(after.finalizers) == multiset(objects[k].finalizers)["trainer.kubeflow.org/resource-in-use" := 0]
      && after == objects[k].(finalizers := after.finalizers)
  {
    var finalizers := objects[k].finalizers;
    WithoutIs(finalizers, LEGACY_FINALIZER);
    if f :| f in finalizers && f != LEGACY_FINALIZER {
      assert f in multiset(finalizers);
      assert f in multiset(Retained(finalizers));
    }
    if Retained(finalizers) != [] {
      var f := Retained(finalizers)[0];
      assert f in multiset(Retained(finalizers));
      assert f in finalizers && f != LEGACY_FINALIZER;
    }
  }

  // What cleanup does before garbage collection; only a failed removal of the finalizer ends it.
  method CleanupRuntimes(server: ApiServer) returns (ok: bool)
    requires server.Valid()
    modifies server`objects, server`updates, server`failures
    ensures server.Valid()
    ensures server.failures >= old(server.failures)
    ensures server.failures == old(server.failures) ==> ok && server.objects == EndState(old(server.objects))
    ensures ok ==> Holders(server.objects) == {}
    ensures forall k <- old(server.objects) | !PartOfTrainer(old(server.objects[k]).labels) ::
      k in server.objects && server.objects[k] == old(server.objects[k])
  {
    ghost var done;
    ok, done := RemoveRuntimeFinalizers(server);
    if !ok {
      return;
    }
    ghost var stripped := server.objects;
    StripThenDelete(old(server.objects));
    done := CleanupTrainerResources(server);
    DeleteHolders(stripped, done);
  }

  lemma DeleteHolders(objects: Objects, keys: set<Key>)
    ensures Holders(DeleteOn(objects, keys)) <= Holders(objects)
  {
  }
}
