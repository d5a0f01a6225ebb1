// What applying a rendered list and stripping the legacy finalizer do to the training runtimes.
module Runtimes {
  import opened Applying
  import opened Cluster
  import opened Outcome

  // The runtime is not about to go: only a deletion that waits for nothing but legacy finalizers
  // makes it go.
  predicate Stays(o: Object) {
    o.terminating ==> Retained(o.finalizers) != []
  }

  // A runtime that stays is still there, with the same foreign finalizers in their order, and is
  // terminating if it was.
  ghost predicate Preserved(before: Objects, after: Objects, key: Key) {
    key in before && Stays(before[key]) ==>
      && key in after
      && Retained(after[key].finalizers) == Retained(before[key].finalizers)
      && after[key].terminating == before[key].terminating
  }

  // Nothing has been applied to the key.
  ghost predicate SameCoat(before: Objects, after: Objects, key: Key) {
    key in after ==> key in before && after[key].labels == before[key].labels && after[key].body == before[key].body
  }

  lemma DressKeeps(before: Objects, resources: seq<Resource>, key: Key)
    ensures Preserved(before, Dress(before, resources), key)
    ensures key !in RuntimeKeys(resources) ==> SameCoat(before, Dress(before, resources), key)
  {
    CoatEntries(resources, key);
  }

  lemma RetainedTwice(finalizers: seq<string>)
    ensures Retained(Retained(finalizers)) == Retained(finalizers)
  {
    WithoutIs(finalizers, LEGACY_FINALIZER);
    WithoutIs(Retained(finalizers), LEGACY_FINALIZER);
  }

  lemma StripKeeps(before: Objects, keys: set<Key>, key: Key)
    ensures Preserved(before, StripOn(before, keys), key) && SameCoat(before, StripOn(before, keys), key)
  {
    if key in before {
      RetainedTwice(before[key].finalizers);
    }
  }

  // --- Applying and stripping ---

  // The training runtimes of the list that go when they are stripped.
  function Doomed(runtimes: Objects, resources: seq<Resource>): set<Key> {
    set k <- runtimes | k in RuntimeKeys(resources) && !Stays(runtimes[k])
  }

  // The training runtimes after the list has been applied and the finalizer removed.
  function Upkept(runtimes: Objects, resources: seq<Resource>): Objects {
    StripOn(Dress(runtimes, resources), ManagedKeys(Dress(runtimes, resources)))
  }

  lemma DressAt(runtimes: Objects, resources: seq<Resource>, k: Key)
    requires k in RuntimeKeys(resources) && AllLabelled(resources)
    ensures k in Dress(runtimes, resources) && Managed(Dress(runtimes, resources)[k])
    ensures GoesWhenStripped(Dress(runtimes, resources)[k]) <==> k in Doomed(runtimes, resources)
  {
    CoatEntries(resources, k);
  }

  // The rendered runtimes are there afterwards except for the doomed ones, and none is doomed
  // any more.
  lemma UpkeptKeys(runtimes: Objects, resources: seq<Resource>)
    requires AllLabelled(resources)
    ensures RuntimeKeys(resources) * Upkept(runtimes, resources).Keys ==
            RuntimeKeys(resources) - Doomed(runtimes, resources)
    ensures Doomed(Upkept(runtimes, resources), resources) == {}
  {
    forall k | k in RuntimeKeys(resources)
      ensures k in Upkept(runtimes, resources) <==> k !in Doomed(runtimes, resources)
      ensures k in Upkept(runtimes, resources) ==> Stays(Upkept(runtimes, resources)[k])
    {
      DressAt(runtimes, resources, k);
      RetainedTwice(Dress(runtimes, resources)[k].finalizers);
    }
  }

  // Every rendered runtime is there with all that the list sets of it.
  ghost predicate Wears(runtimes: Objects, resources: seq<Resource>) {
    forall k <- RuntimeKeys(resources) ::
      && k in runtimes && CoatFor(resources, k).Some?
      && Dressed(runtimes, k, CoatFor(resources, k).value) == runtimes[k]
  }

  lemma WearsIff(runtimes: Objects, resources: seq<Resource>)
    ensures Wears(runtimes, resources) <==> Dress(runtimes, resources) == runtimes
  {
    if Dress(runtimes, resources) == runtimes {
      forall k | k in RuntimeKeys(resources)
        ensures k in runtimes && CoatFor(resources, k).Some?
        ensures Dressed(runtimes, k, CoatFor(resources, k).value) == runtimes[k]
      {
        CoatEntries(resources, k);
        assert k in Dress(runtimes, resources);
      }
    } else if Wears(runtimes, resources) {
      forall k
        ensures k in Dress(runtimes, resources) <==> k in runtimes
        ensures k in runtimes ==> Dress(runtimes, resources)[k] == runtimes[k]
      {
        CoatEntries(resources, k);
      }
    }
  }

  lemma DressedAgain(runtimes: Objects, key: Key, coat: Coat, after: Objects)
    requires key in after
    requires after[key].labels == Dressed(runtimes, key, coat).labels && after[key].body == coat.body
    ensures Dressed(after, key, coat) == after[key]
  {
    if key in runtimes {
      assert runtimes[key].labels + coat.labels + coat.labels == runtimes[key].labels + coat.labels;
    }
  }

  lemma UpkeptWears(runtimes: Objects, resources: seq<Resource>)
    ensures Wears(Upkept(runtimes, resources), resources) <==>
      RuntimeKeys(resources) <= Upkept(runtimes, resources).Keys
  {
    var after := Upkept(runtimes, resources);
    if RuntimeKeys(resources) <= after.Keys {
      forall k | k in RuntimeKeys(resources)
        ensures k in after && CoatFor(resources, k).Some?
        ensures Dressed(after, k, CoatFor(resources, k).value) == after[k]
      {
        CoatEntries(resources, k);
        StripKeeps(Dress(runtimes, resources), ManagedKeys(Dress(runtimes, resources)), k);
        DressedAgain(runtimes, k, CoatFor(resources, k).value, after);
      }
    }
  }

  lemma SettledUpkept(runtimes: Objects, resources: seq<Resource>)
    requires Settled(runtimes)
    ensures Settled(Upkept(runtimes, resources)) && Holders(Upkept(runtimes, resources)) == {}
  {
    SettledDressed(runtimes, resources);
    StripHolders(Dress(runtimes, resources), ManagedKeys(Dress(runtimes, resources)));
  }

  lemma SettledDressed(runtimes: Objects, resources: seq<Resource>)
    requires Settled(runtimes)
    ensures Settled(Dress(runtimes, resources))
  {
    forall k | k in Dress(runtimes, resources)
      ensures Dress(runtimes, resources)[k].terminating ==> Dress(runtimes, resources)[k].finalizers != []
    {
      CoatEntries(resources, k);
    }
  }

  // The rendered runtimes are all there as rendered exactly if none was doomed.
  lemma UpkeptWhole(runtimes: Objects, resources: seq<Resource>)
    requires AllLabelled(resources)
    ensures Wears(Upkept(runtimes, resources), resources) <==> Doomed(runtimes, resources) == {}
  {
    UpkeptKeys(runtimes, resources);
    UpkeptWears(runtimes, resources);
    var keys, there := RuntimeKeys(resources), Upkept(runtimes, resources).Keys;
    assert Doomed(runtimes, resources) <= keys;
    assert keys <= there <==> keys * there == keys;
  }

  // Doing both a second time changes nothing exactly if no rendered runtime was doomed at first.
  lemma UpkeptTwice(runtimes: Objects, resources: seq<Resource>)
    requires Settled(runtimes) && AllLabelled(resources)
    ensures Upkept(Upkept(runtimes, resources), resources) == Upkept(runtimes, resources) <==>
      Doomed(runtimes, resources) == {}
  {
    var once := Upkept(runtimes, resources);
    UpkeptKeys(runtimes, resources);
    UpkeptKeys(once, resources);
    UpkeptWears(runtimes, resources);
    SettledUpkept(runtimes, resources);
    if Doomed(runtimes, resources) == {} {
      assert RuntimeKeys(resources) * once.Keys == RuntimeKeys(resources);
      WearsIff(once, resources);
      NothingToStrip(once, ManagedKeys(once));
    } else {
      var k :| k in Doomed(runtimes, resources);
      assert k in RuntimeKeys(resources) - Doomed(once, resources);
    }
  }

  // A rendered runtime under deletion that holds just the legacy finalizer goes and comes back.
  lemma ComesBack(key: Key, o: Object, r: Resource)
    requires RuntimeKey(r.id) == Some(key) && Labelled(r)
    requires o.terminating && o.finalizers == [LEGACY_FINALIZER]
    ensures Upkept(map[key := o], [r]) == map[]
    ensures Upkept(map[], [r]) == map[key := Object(r.labels, [], false, r.rest)]
  {
    assert AllLabelled([r]);
    RuntimeKeysSnoc([], r);
    assert [] + [r] == [r];
    assert RuntimeKeys([r]) == {key};
    assert CoatFor([r], key) == Some(CoatOf(r));
    assert LEGACY_FINALIZER in o.finalizers;
    WithoutIs(o.finalizers, LEGACY_FINALIZER);
    assert Retained([]) == [];
    var dressed := Dress(map[], [r]);
    assert dressed == map[key := Object(r.labels, [], false, r.rest)];
    assert ManagedKeys(dressed) == {key};
    DressAt(map[key := o], [r], key);
    assert Dress(map[key := o], [r]).Keys == {key};
  }
}
