// updateReleases, appendOrUpdateRelease and currentPlatformVersion of
// internal/controller/trainer_controller.go.
module Releases {
  import opened Outcome
  import opened Sequences

  datatype Release = Release(name: string, version: string, repoURL: string)

  const PLATFORM := "platform"

  // --- appendOrUpdateRelease ---

  // The first entry of that name is replaced; without one the release goes to the end.
  function Upsert(releases: seq<Release>, release: Release): seq<Release> {
    if releases == [] then [release]
    else if releases[0].name == release.name then [release] + releases[1..]
    else [releases[0]] + Upsert(releases[1..], release)
  }

  method AppendOrUpdateRelease(releases: seq<Release>, release: Release) returns (r: seq<Release>)
    ensures r == Upsert(releases, release)
  {
    for i := 0 to |releases|
      invariant forall j | 0 <= j < i :: releases[j].name != release.name
    {
      if releases[i].name == release.name {
        UpsertAt(releases, release, i);
        return releases[i := release];
      }
    }
    UpsertAt(releases, release, |releases|);
    return releases + [release];
  }

  lemma {:induction false} UpsertAt(releases: seq<Release>, release: Release, i: nat)
    requires i <= |releases| && forall j | 0 <= j < i :: releases[j].name != release.name
    ensures i == |releases| ==> Upsert(releases, release) == releases + [release]
    ensures i < |releases| && releases[i].name == release.name ==>
      Upsert(releases, release) == releases[i := release]
  {
    if i > 0 {
      UpsertAt(releases[1..], release, i - 1);
    }
  }

  function UpsertAll(releases: seq<Release>, updates: seq<Release>): seq<Release> {
    if updates == [] then releases
    else Upsert(UpsertAll(releases, updates[..|updates| - 1]), updates[|updates| - 1])
  }

  // --- The list as a map ---

  function Names(releases: seq<Release>): seq<string> {
    seq(|releases|, i requires 0 <= i < |releases| => releases[i].name)
  }

  // What the list-map key of the CRD requires.
  ghost predicate UniqueNames(releases: seq<Release>) {
    forall i, j | 0 <= i < j < |releases| :: releases[i].name != releases[j].name
  }

  function AsMap(releases: seq<Release>): map<string, Release> {
    if releases == [] then map[] else AsMap(releases[1..])[releases[0].name := releases[0]]
  }

  lemma {:induction false} AsMapEntry(releases: seq<Release>, i: nat)
    requires UniqueNames(releases) && i < |releases|
    ensures releases[i].name in AsMap(releases) && AsMap(releases)[releases[i].name] == releases[i]
  {
    if i > 0 {
      assert releases[0].name != releases[i].name;
      AsMapEntry(releases[1..], i - 1);
    }
  }

  lemma {:induction false} UpsertNames(releases: seq<Release>, release: Release)
    ensures Names(Upsert(releases, release)) ==
      if release.name in Names(releases) then Names(releases) else Names(releases) + [release.name]
  {
    if releases != [] {
      assert Names(releases) == [releases[0].name] + Names(releases[1..]);
      if releases[0].name != release.name {
        UpsertNames(releases[1..], release);
        assert Names(Upsert(releases, release)) == [releases[0].name] + Names(Upsert(releases[1..], release));
      }
    }
  }

  lemma {:induction false} UpsertMap(releases: seq<Release>, release: Release)
    ensures AsMap(Upsert(releases, release)) == AsMap(releases)[release.name := release]
  {
    if releases != [] {
      if releases[0].name == release.name {
        assert Upsert(releases, release)[1..] == releases[1..];
      } else {
        UpsertMap(releases[1..], release);
        assert Upsert(releases, release)[1..] == Upsert(releases[1..], release);
        var rest := AsMap(releases[1..]);
        assert rest[release.name := release][releases[0].name := releases[0]] ==
               rest[releases[0].name := releases[0]][release.name := release];
      }
    }
  }

  // The updates written over a map in order.
  function Over(entries: map<string, Release>, updates: seq<Release>): map<string, Release> {
    if updates == [] then entries
    else
      var last := updates[|updates| - 1];
      Over(entries, updates[..|updates| - 1])[last.name := last]
  }

  // A run of updates refines the same writes to a map: unique names stay unique, no entry
  // moves, and the list read as a map is the old map with the updates written over it.
  lemma {:induction false} UpsertAllRefines(releases: seq<Release>, updates: seq<Release>)
    requires UniqueNames(releases)
    ensures
      var after := UpsertAll(releases, updates);
      && UniqueNames(after)
      && Names(releases) <= Names(after)
      && AsMap(after) == Over(AsMap(releases), updates)
      && (forall update <- updates :: update.name in Names(after))
  {
    if updates != [] {
      var init, last := updates[..|updates| - 1], updates[|updates| - 1];
      UpsertAllRefines(releases, init);
      var before := UpsertAll(releases, init);
      UpsertMap(before, last);
      UpsertUnique(before, last);
    }
    UpsertAllNames(releases, updates);
  }

  lemma UpsertUnique(releases: seq<Release>, release: Release)
    requires UniqueNames(releases)
    ensures UniqueNames(Upsert(releases, release))
  {
    UpsertNames(releases, release);
    NamesUnique(releases);
    NamesUnique(Upsert(releases, release));
  }

  lemma {:induction false} UpsertAllNames(releases: seq<Release>, updates: seq<Release>)
    ensures Names(releases) <= Names(UpsertAll(releases, updates))
    ensures forall update <- updates :: update.name in Names(UpsertAll(releases, updates))
  {
    if updates != [] {
      var init, last := updates[..|updates| - 1], updates[|updates| - 1];
      UpsertAllNames(releases, init);
      UpsertName(UpsertAll(releases, init), last);
      assert updates == init + [last];
      Snoc(init, last);
    }
  }

  lemma UpsertName(releases: seq<Release>, release: Release)
    ensures Names(releases) <= Names(Upsert(releases, release))
    ensures release.name in Names(Upsert(releases, release))
    ensures forall name <- Names(releases) :: name in Names(Upsert(releases, release))
  {
    UpsertNames(releases, release);
    Snoc(Names(releases), release.name);
    assert (Names(releases) + [release.name])[|releases|] == release.name;
  }

  lemma NamesUnique(releases: seq<Release>)
    ensures UniqueNames(releases) <==>
      forall i, j | 0 <= i < j < |releases| :: Names(releases)[i] != Names(releases)[j]
  {
    assert forall i | 0 <= i < |releases| :: releases[i].name == Names(releases)[i];
  }

  // A list with unique names is determined by their order and the map.
  lemma ListDetermined(a: seq<Release>, b: seq<Release>)
    requires UniqueNames(a) && UniqueNames(b)
    requires Names(a) == Names(b) && AsMap(a) == AsMap(b)
    ensures a == b
  {
    assert |a| == |Names(a)| == |b|;
    forall i | 0 <= i < |a|
      ensures a[i] == b[i]
    {
      AsMapEntry(a, i);
      AsMapEntry(b, i);
      assert Names(a)[i] == a[i].name && Names(b)[i] == b[i].name;
    }
  }

  lemma {:induction false} OverEntry(
    entries: map<string, Release>, other: map<string, Release>, updates: seq<Release>, name: string)
    ensures (exists update <- updates :: update.name == name) ==>
      && name in Over(entries, updates) && name in Over(other, updates)
      && Over(entries, updates)[name] == Over(other, updates)[name]
    ensures !(exists update <- updates :: update.name == name) ==>
      && (name in Over(entries, updates) <==> name in entries)
      && (name in entries ==> Over(entries, updates)[name] == entries[name])
  {
    if updates != [] {
      var init, last := updates[..|updates| - 1], updates[|updates| - 1];
      assert updates == init + [last];
      Snoc(init, last);
      OverEntry(entries, other, init, name);
    }
  }

  lemma OverTwice(entries: map<string, Release>, updates: seq<Release>)
    ensures Over(Over(entries, updates), updates) == Over(entries, updates)
  {
    var once := Over(entries, updates);
    forall name
      ensures name in Over(once, updates) <==> name in once
      ensures name in once ==> Over(once, updates)[name] == once[name]
    {
      OverEntry(once, entries, updates, name);
      OverEntry(entries, entries, updates, name);
    }
  }

  lemma {:induction false} KnownNamesStay(releases: seq<Release>, updates: seq<Release>)
    requires forall update <- updates :: update.name in Names(releases)
    ensures Names(UpsertAll(releases, updates)) == Names(releases)
  {
    if updates != [] {
      var init, last := updates[..|updates| - 1], updates[|updates| - 1];
      assert updates == init + [last];
      Snoc(init, last);
      KnownNamesStay(releases, init);
      UpsertNames(UpsertAll(releases, init), last);
    }
  }

  lemma UpsertAllTwice(releases: seq<Release>, updates: seq<Release>)
    requires UniqueNames(releases)
    ensures UpsertAll(UpsertAll(releases, updates), updates) == UpsertAll(releases, updates)
  {
    var once := UpsertAll(releases, updates);
    UpsertAllRefines(releases, updates);
    UpsertAllRefines(once, updates);
    OverTwice(AsMap(releases), updates);
    KnownNamesStay(once, updates);
    ListDetermined(UpsertAll(once, updates), once);
  }

  lemma {:induction false} UpsertAllConcat(releases: seq<Release>, a: seq<Release>, b: seq<Release>)
    ensures UpsertAll(releases, a + b) == UpsertAll(UpsertAll(releases, a), b)
    decreases |b|
  {
    if b == [] {
      assert a + b == a;
    } else {
      assert (a + b)[..|a + b| - 1] == a + b[..|b| - 1];
      UpsertAllConcat(releases, a, b[..|b| - 1]);
    }
  }

  // --- updateReleases ---

  // What one pass reads: the releases of component_metadata.yaml, and the platform version in
  // the platform ConfigMap, empty when that is absent.
  datatype Inputs = Inputs(metadata: Result<seq<Release>>, platform: Result<string>)

  // The release that the reconciler stamps on what it deploys.
  datatype Process<V> = Process(name: string, version: V)

  // The platform version a pass advances to, if any.
  function Advances<V>(parse: string -> Option<V>, inputs: Inputs): Option<V> {
    if inputs.platform.Failure? || inputs.platform.value == "" then None else parse(inputs.platform.value)
  }

  // The pass reads a platform version that can be parsed.
  predicate ReadsVersion<V>(parse: string -> Option<V>, inputs: Inputs) {
    inputs.platform.Success? && inputs.platform.value != "" && parse(inputs.platform.value).Some?
  }

  // Everything a pass writes to the list, in order.
  function Updates<V>(parse: string -> Option<V>, inputs: Inputs): seq<Release> {
    (if inputs.metadata.Success? then inputs.metadata.value else []) +
    (if Advances(parse, inputs).Some? then [Release(PLATFORM, inputs.platform.value, "")] else [])
  }

  function CurrentVersion(releases: seq<Release>): string {
    if releases == [] then ""
    else if releases[0].name == PLATFORM then releases[0].version
    else CurrentVersion(releases[1..])
  }

  method CurrentPlatformVersion(releases: seq<Release>) returns (version: string)
    ensures version == CurrentVersion(releases)
  {
    for i := 0 to |releases|
      invariant CurrentVersion(releases) == CurrentVersion(releases[i..])
    {
      if releases[i].name == PLATFORM {
        return releases[i].version;
      }
    }
    return "";
  }

  // The Trainer's status and the reconciler's release, which passes update in place.
  class Status<V> {
    var releases: seq<Release>
    var process: Process<V>

    constructor (releases: seq<Release>, process: Process<V>)
      ensures this.releases == releases && this.process == process
    {
      this.releases, this.process := releases, process;
    }

    method UpdateReleases(parse: string -> Option<V>, inputs: Inputs) returns (ok: bool)
      modifies this
      ensures ok <==> inputs.platform.Success?
      ensures releases == UpsertAll(old(releases), Updates(parse, inputs))
      ensures process ==
        if ReadsVersion(parse, inputs) then Process("platform", parse(inputs.platform.value).value) else old(process)
    {
      ghost var written: seq<Release> := [];
      if inputs.metadata.Success? {
        var metadata := inputs.metadata.value;
        for i := 0 to |metadata|
          invariant releases == UpsertAll(old(releases), metadata[..i]) && process == old(process)
        {
          assert metadata[..i + 1][..i] == metadata[..i];
          releases := AppendOrUpdateRelease(releases, metadata[i]);
        }
        assert metadata[..|metadata|] == metadata;
        written := metadata;
      }
      assert written + [] == written;
      if inputs.platform.Failure? {
        return false;
      }
      var platformVersion := inputs.platform.value;
      if platformVersion != "" {
        var parsed := parse(platformVersion);
        if parsed.Some? {
          var release := Release(PLATFORM, platformVersion, "");
          Snoc(written, release);
          releases := AppendOrUpdateRelease(releases, release);
          process := Process(PLATFORM, parsed.value);
        }
      }
      return true;
    }
  }

  // --- Runs of passes ---

  function AllUpdates<V>(parse: string -> Option<V>, passes: seq<Inputs>): seq<Release> {
    if passes == [] then [] else AllUpdates(parse, passes[..|passes| - 1]) + Updates(parse, passes[|passes| - 1])
  }

  // The lists that the status holds before, between and after the passes.
  ghost predicate Run<V>(parse: string -> Option<V>, lists: seq<seq<Release>>, passes: seq<Inputs>) {
    && |lists| == |passes| + 1
    && forall i | 0 <= i < |passes| :: lists[i + 1] == UpsertAll(lists[i], Updates(parse, passes[i]))
  }

  lemma {:induction false} RunIsUpserts<V>(parse: string -> Option<V>, lists: seq<seq<Release>>, passes: seq<Inputs>)
    requires Run(parse, lists, passes)
    ensures lists[|passes|] == UpsertAll(lists[0], AllUpdates(parse, passes))
    decreases |passes|
  {
    var n := |passes|;
    if n > 0 {
      RunIsUpserts(parse, lists[..n], passes[..n - 1]);
      UpsertAllConcat(lists[0], AllUpdates(parse, passes[..n - 1]), Updates(parse, passes[n - 1]));
    }
  }

  lemma RunRefinesMap<V>(parse: string -> Option<V>, lists: seq<seq<Release>>, passes: seq<Inputs>)
    requires Run(parse, lists, passes) && UniqueNames(lists[0])
    ensures UniqueNames(lists[|passes|])
    ensures Names(lists[0]) <= Names(lists[|passes|])
    ensures AsMap(lists[|passes|]) == Over(AsMap(lists[0]), AllUpdates(parse, passes))
  {
    RunIsUpserts(parse, lists, passes);
    UpsertAllRefines(lists[0], AllUpdates(parse, passes));
  }

  // Repeating a pass changes nothing.
  lemma RepeatedPass<V>(parse: string -> Option<V>, releases: seq<Release>, inputs: Inputs)
    requires UniqueNames(releases)
    ensures
      var once := UpsertAll(releases, Updates(parse, inputs));
      UpsertAll(once, Updates(parse, inputs)) == once
  {
    UpsertAllTwice(releases, Updates(parse, inputs));
  }

  // The last update of that name.
  ghost predicate LastOf(updates: seq<Release>, i: int, name: string) {
    0 <= i < |updates| && updates[i].name == name && forall j | i < j < |updates| :: updates[j].name != name
  }

  lemma {:induction false} OverAt(entries: map<string, Release>, updates: seq<Release>, i: int, name: string)
    requires LastOf(updates, i, name)
    ensures name in Over(entries, updates) && Over(entries, updates)[name] == updates[i]
  {
    var n := |updates| - 1;
    if i < n {
      OverAt(entries, updates[..n], i, name);
    }
  }

  // The entry of the name is the last of the metadata if they can be read and name it, and else as
  // it was.
  ghost predicate ByMetadata(
    before: map<string, Release>, after: map<string, Release>, metadata: Result<seq<Release>>, name: string)
  {
    && (forall i | metadata.Success? && LastOf(metadata.value, i, name) ::
          name in after && after[name] == metadata.value[i])
    && ((metadata.Failure? || forall release <- metadata.value :: release.name != name) ==>
          && (name in after <==> name in before)
          && (name in after ==> after[name] == before[name]))
  }

  lemma OverByMetadata(before: map<string, Release>, metadata: Result<seq<Release>>, name: string)
    ensures ByMetadata(before, Over(before, if metadata.Success? then metadata.value else []), metadata, name)
  {
    if metadata.Success? {
      forall i | LastOf(metadata.value, i, name)
        ensures name in Over(before, metadata.value) && Over(before, metadata.value)[name] == metadata.value[i]
      {
        OverAt(before, metadata.value, i, name);
      }
      OverEntry(before, before, metadata.value, name);
    }
  }

  // What a pass makes of the entry of a name: the platform's is that of the version read, if one is
  // read that can be parsed; any other is that of the metadata.
  lemma PassMeans<V>(parse: string -> Option<V>, releases: seq<Release>, inputs: Inputs, name: string)
    requires UniqueNames(releases)
    ensures
      var after := UpsertAll(releases, Updates(parse, inputs));
      var advances := inputs.platform.Success? && inputs.platform.value != "" && parse(inputs.platform.value).Some?;
      && UniqueNames(after) && Names(releases) <= Names(after)
      && if name == "platform" && advances then
           "platform" in AsMap(after) && AsMap(after)["platform"] == Release("platform", inputs.platform.value, "")
         else ByMetadata(AsMap(releases), AsMap(after), inputs.metadata, name)
  {
    var metadata := if inputs.metadata.Success? then inputs.metadata.value else [];
    UpsertAllRefines(releases, Updates(parse, inputs));
    OverByMetadata(AsMap(releases), inputs.metadata, name);
    if ReadsVersion(parse, inputs) {
      var release := Release(PLATFORM, inputs.platform.value, "");
      OverSnoc(AsMap(releases), metadata, release);
      assert Updates(parse, inputs) == metadata + [release];
      ByMetadataElse(AsMap(releases), Over(AsMap(releases), metadata), inputs.metadata, release, name);
    } else {
      assert Updates(parse, inputs) == metadata;
    }
  }

  lemma OverSnoc(entries: map<string, Release>, init: seq<Release>, last: Release)
    ensures Over(entries, init + [last]) == Over(entries, init)[last.name := last]
  {
    Snoc(init, last);
  }

  lemma ByMetadataElse(
    before: map<string, Release>, after: map<string, Release>, metadata: Result<seq<Release>>, release: Release,
    name: string)
    requires ByMetadata(before, after, metadata, name)
    ensures name != release.name ==> ByMetadata(before, after[release.name := release], metadata, name)
  {
  }

  // The current version is that of the platform's entry, and empty if there is none.
  lemma {:induction false} CurrentVersionIs(releases: seq<Release>)
    ensures CurrentVersion(releases) ==
      if "platform" in AsMap(releases) then AsMap(releases)["platform"].version else ""
  {
    if releases != [] {
      CurrentVersionIs(releases[1..]);
    }
  }

  lemma {:induction false} AsMapKeys(releases: seq<Release>, name: string)
    ensures name in AsMap(releases) <==> name in Names(releases)
  {
    if releases != [] {
      AsMapKeys(releases[1..], name);
      assert Names(releases) == [releases[0].name] + Names(releases[1..]);
    }
  }

  // --- The version handshake ---

  lemma {:induction false} UpsertVersion(releases: seq<Release>, release: Release)
    ensures CurrentVersion(Upsert(releases, release)) ==
      if release.name == PLATFORM then release.version else CurrentVersion(releases)
  {
    if releases != [] && releases[0].name != release.name {
      UpsertVersion(releases[1..], release);
    }
  }

  lemma {:induction false} UpsertAllVersion(releases: seq<Release>, updates: seq<Release>)
    requires forall update <- updates :: update.name != PLATFORM
    ensures CurrentVersion(UpsertAll(releases, updates)) == CurrentVersion(releases)
  {
    if updates != [] {
      var init, last := updates[..|updates| - 1], updates[|updates| - 1];
      assert updates == init + [last];
      Snoc(init, last);
      UpsertAllVersion(releases, init);
      UpsertVersion(UpsertAll(releases, init), last);
    }
  }

  // A pass that reads a parsable version makes it the current one, whatever the metadata says;
  // any other pass keeps the current one if no metadata release bears the platform's name.
  lemma Handshake<V>(parse: string -> Option<V>, releases: seq<Release>, inputs: Inputs)
    ensures
      var after := UpsertAll(releases, Updates(parse, inputs));
      && (inputs.platform.Success? && inputs.platform.value != "" && parse(inputs.platform.value).Some? ==>
            CurrentVersion(after) == inputs.platform.value)
      && (!(inputs.platform.Success? && inputs.platform.value != "" && parse(inputs.platform.value).Some?) &&
          (inputs.metadata.Success? ==> forall release <- inputs.metadata.value :: release.name != "platform") ==>
            CurrentVersion(after) == CurrentVersion(releases))
  {
    var metadata := if inputs.metadata.Success? then inputs.metadata.value else [];
    if Advances(parse, inputs).Some? {
      var release := Release(PLATFORM, inputs.platform.value, "");
      UpsertAllConcat(releases, metadata, [release]);
      assert [release][..0] == [];
      UpsertVersion(UpsertAll(releases, metadata), release);
    } else {
      assert Updates(parse, inputs) == metadata;
      if forall release <- metadata :: release.name != PLATFORM {
        UpsertAllVersion(releases, metadata);
      }
    }
  }

  // The version of the last pass that advanced, or the initial one.
  function LastVersion<V>(parse: string -> Option<V>, passes: seq<Inputs>, initial: string): string {
    if passes == [] then initial
    else
      var last := passes[|passes| - 1];
      if ReadsVersion(parse, last) then last.platform.value
      else LastVersion(parse, passes[..|passes| - 1], initial)
  }

  // The releases that the process holds before, between and after the passes.
  ghost predicate ProcessRun<V>(parse: string -> Option<V>, processes: seq<Process<V>>, passes: seq<Inputs>) {
    && |processes| == |passes| + 1
    && forall i | 0 <= i < |passes| :: processes[i + 1] ==
         if ReadsVersion(parse, passes[i]) then Process("platform", parse(passes[i].platform.value).value)
         else processes[i]
  }

  ghost predicate NoPlatformInMetadata(passes: seq<Inputs>) {
    forall pass <- passes | pass.metadata.Success? ::
      forall release <- pass.metadata.value :: release.name != "platform"
  }

  ghost predicate SomeAdvance<V>(parse: string -> Option<V>, passes: seq<Inputs>) {
    exists pass <- passes :: ReadsVersion(parse, pass)
  }

  lemma {:induction false} VersionOverRuns<V>(parse: string -> Option<V>, lists: seq<seq<Release>>, passes: seq<Inputs>)
    requires Run(parse, lists, passes) && NoPlatformInMetadata(passes)
    ensures CurrentVersion(lists[|passes|]) == LastVersion(parse, passes, CurrentVersion(lists[0]))
    decreases |passes|
  {
    var n := |passes|;
    if n > 0 {
      VersionOverRuns(parse, lists[..n], passes[..n - 1]);
      assert passes[n - 1] in passes;
      Handshake(parse, lists[n - 1], passes[n - 1]);
    }
  }

  lemma {:induction false} ProcessOverRuns<V>(
    parse: string -> Option<V>, processes: seq<Process<V>>, passes: seq<Inputs>, initial: string)
    requires ProcessRun(parse, processes, passes)
    ensures
      var process := processes[|passes|];
      if SomeAdvance(parse, passes) then
        process.name == "platform" && parse(LastVersion(parse, passes, initial)) == Some(process.version)
      else
        process == processes[0]
    decreases |passes|
  {
    var n := |passes|;
    if n > 0 {
      var init, last := passes[..n - 1], passes[n - 1];
      assert passes == init + [last];
      Snoc(init, last);
      ProcessOverRuns(parse, processes[..n], init, initial);
    }
  }

  // Over every run the current version is that of the last pass that advanced. Once one has,
  // the process bears the platform's name and the parse of the current version; until then it
  // holds its first release.
  lemma HandshakeOverRuns<V>(
    parse: string -> Option<V>, lists: seq<seq<Release>>, processes: seq<Process<V>>, passes: seq<Inputs>)
    requires Run(parse, lists, passes) && ProcessRun(parse, processes, passes) && NoPlatformInMetadata(passes)
    ensures CurrentVersion(lists[|passes|]) == LastVersion(parse, passes, CurrentVersion(lists[0]))
    ensures
      var process := processes[|passes|];
      if SomeAdvance(parse, passes) then
        process.name == "platform" && parse(CurrentVersion(lists[|passes|])) == Some(process.version)
      else
        process == processes[0]
  {
    VersionOverRuns(parse, lists, passes);
    ProcessOverRuns(parse, processes, passes, CurrentVersion(lists[0]));
  }
}
