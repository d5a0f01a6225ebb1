// The persistent work directory: writeParams, applyParamOverrides and applyStaticParams of
// internal/controller/params.go, ensureWorkDir of internal/controller/manifests.go, and the
// claim that editing the directory in place is as good as starting from a fresh copy.
module WorkDir {
  import opened Outcome
  import opened Params

  // One directory below the work directory: the text of params.env, that of the temporary
  // file params.env.tmp, and every other file by path.
  datatype Tree = Tree(params: Option<string>, temp: Option<string>, others: map<string, string>)

  // --- The disk ---

  // Every operation may fail, a write after any part of it. `states` lists every state between
  // operations, in order; a crash in the middle of a write leaves what a failed write leaves. `faults`
  // counts the failed operations.
  class Disk {
    var tree: Tree
    ghost var states: seq<Tree>
    ghost var faults: nat

    ghost predicate Valid()
      reads this
    {
      states != [] && states[|states| - 1] == tree
    }

    constructor (tree: Tree)
      ensures Valid() && this.tree == tree && states == [tree] && faults == 0
    {
      this.tree, states, faults := tree, [tree], 0;
    }

    // os.Create on the temporary file
    method CreateTemp() returns (ok: bool)
      requires Valid()
      modifies this
      ensures Valid() && states == old(states) + [tree]
      ensures tree == if ok then old(tree).(temp := Some("")) else old(tree)
      ensures faults == old(faults) + if ok then 0 else 1
    {
      ok := *;
      if ok {
        tree := tree.(temp := Some(""));
      } else {
        faults := faults + 1;
      }
      states := states + [tree];
    }

    // A write to the temporary file: on failure any prefix of the chunk may have arrived.
    method AppendTemp(chunk: string) returns (ok: bool)
      requires Valid() && tree.temp.Some?
      modifies this
      ensures Valid() && states == old(states) + [tree]
      ensures exists n | 0 <= n <= |chunk| :: tree == old(tree).(temp := Some(old(tree).temp.value + chunk[..n]))
      ensures ok ==> tree == old(tree).(temp := Some(old(tree).temp.value + chunk))
      ensures faults == old(faults) + if ok then 0 else 1
    {
      ok := *;
      var n := |chunk|;
      if !ok {
        n :| 0 <= n <= |chunk|;
        faults := faults + 1;
      }
      assert ok ==> chunk[..n] == chunk;
      tree := tree.(temp := Some(tree.temp.value + chunk[..n]));
      states := states + [tree];
    }

    // Close on the temporary file
    method CloseTemp() returns (ok: bool)
      requires Valid()
      modifies this`faults
      ensures Valid() && faults == old(faults) + if ok then 0 else 1
    {
      ok := *;
      if !ok {
        faults := faults + 1;
      }
    }

    // Stat, open and read of params.env, or ReadDir
    method Look() returns (ok: bool)
      requires Valid()
      modifies this`faults
      ensures Valid() && faults == old(faults) + if ok then 0 else 1
    {
      ok := *;
      if !ok {
        faults := faults + 1;
      }
    }

    // os.Remove on the temporary file
    method RemoveTemp()
      requires Valid()
      modifies this
      ensures Valid() && states == old(states) + [tree]
      ensures tree == old(tree) || tree == old(tree).(temp := None)
      ensures faults >= old(faults)
    {
      if * {
        tree := tree.(temp := None);
      } else {
        faults := faults + 1;
      }
      states := states + [tree];
    }

    // copyFile. It truncates the target first, so a failure may leave any prefix of the text.
    method CopyFile(file: File, text: string) returns (ok: bool)
      requires Valid()
      modifies this
      ensures Valid() && states == old(states) + [tree]
      ensures exists n | 0 <= n <= |text| :: tree == Put(old(tree), file, text[..n])
      ensures ok ==> tree == Put(old(tree), file, text)
      ensures faults == old(faults) + if ok then 0 else 1
    {
      ok := *;
      var n := |text|;
      if !ok {
        n :| 0 <= n <= |text|;
        faults := faults + 1;
      }
      assert ok ==> text[..n] == text;
      tree := Put(tree, file, text[..n]);
      states := states + [tree];
    }

    // os.Rename of the temporary file to params.env, which is atomic
    method RenameTemp() returns (ok: bool)
      requires Valid() && tree.temp.Some?
      modifies this
      ensures Valid() && states == old(states) + [tree]
      ensures tree == if ok then old(tree).(params := old(tree).temp, temp := None) else old(tree)
      ensures faults == old(faults) + if ok then 0 else 1
    {
      ok := *;
      if ok {
        tree := tree.(params := tree.temp, temp := None);
      } else {
        faults := faults + 1;
      }
      states := states + [tree];
    }
  }

  datatype File = ParamsEnv | ParamsTemp | Other(name: string)

  function Put(tree: Tree, file: File, text: string): Tree {
    match file
    case ParamsEnv => tree.(params := Some(text))
    case ParamsTemp => tree.(temp := Some(text))
    case Other(name) => tree.(others := tree.others[name := text])
  }

  // --- What an update may do to the tree ---

  // At most the temporary file differs.
  ghost predicate Untouched(before: Tree, after: Tree) {
    after == before.(temp := after.temp)
  }

  // params.env holds all of `params`, in some order; the temporary file is gone.
  ghost predicate Replaced(before: Tree, after: Tree, params: Entries) {
    && after.params.Some? && Prints(after.params.value, params)
    && after == before.(params := after.params, temp := None)
  }

  // An update of params.env with `values` that ran to completion.
  ghost predicate Updated(before: Tree, after: Tree, values: Entries) {
    match before.params
    case None => after == before
    case Some(text) => Read(text).Success? && Replaced(before, after, Read(text).value + values)
  }

  // Any state such an update may leave behind, whether it completes, fails or crashes.
  ghost predicate UpdateStep(before: Tree, after: Tree, values: Entries) {
    Untouched(before, after) || Updated(before, after, values)
  }

  ghost predicate AllUntouched(before: Tree, from: nat, states: seq<Tree>) {
    forall i | from <= i < |states| :: Untouched(before, states[i])
  }

  // Every state reached on the way holds the whole old or the whole new params.env.
  ghost predicate OldOrNew(before: Tree, params: Entries, from: nat, states: seq<Tree>) {
    forall i | from <= i < |states| :: Untouched(before, states[i]) || Replaced(before, states[i], params)
  }

  // --- writeParams ---

  // The buffered writer over the temporary file: `pending` has been accepted but not written.
  // A write may push any part of it out.
  method BufferedWrite(disk: Disk, pending: string, chunk: string) returns (pending': string, ok: bool)
    requires disk.Valid() && disk.tree.temp.Some?
    modifies disk
    ensures disk.Valid() && old(disk.states) <= disk.states
    ensures disk.tree.temp.Some? && Untouched(old(disk.tree), disk.tree)
    ensures AllUntouched(old(disk.tree), |old(disk.states)|, disk.states)
    ensures ok ==> disk.tree.temp.value + pending' == (old(disk.tree).temp.value + pending) + chunk
    ensures disk.faults == old(disk.faults) + if ok then 0 else 1
  {
    pending', ok := pending + chunk, true;
    if * {
      var n :| 0 <= n <= |pending'|;
      assert pending'[..n] + pending'[n..] == pending';
      ok := disk.AppendTemp(pending'[..n]);
      pending' := pending'[n..];
    }
  }

  // The loop of writeParams, up to the flush: every entry once, in any order.
  method WriteLines(disk: Disk, params: Entries) returns (ok: bool)
    requires disk.Valid() && disk.tree.temp == Some("")
    modifies disk
    ensures disk.Valid() && old(disk.states) <= disk.states
    ensures disk.tree.temp.Some? && Untouched(old(disk.tree), disk.tree)
    ensures AllUntouched(old(disk.tree), |old(disk.states)|, disk.states)
    ensures ok ==> Prints(disk.tree.temp.value, params)
    ensures disk.faults == old(disk.faults) + if ok then 0 else 1
  {
    ok := true;
    var pending := "";
    var remaining := params.Keys;
    PrintsNone(params);
    while remaining != {}
      invariant remaining <= params.Keys
      invariant disk.Valid() && old(disk.states) <= disk.states
      invariant disk.tree.temp.Some? && Untouched(old(disk.tree), disk.tree)
      invariant AllUntouched(old(disk.tree), |old(disk.states)|, disk.states)
      invariant PrintsExcept(disk.tree.temp.value + pending, params, remaining)
      invariant disk.faults == old(disk.faults)
      decreases |remaining|
    {
      var key :| key in remaining;
      PrintsOneMore(disk.tree.temp.value + pending, params, remaining, key);
      remaining := remaining - {key};
      pending, ok := BufferedWrite(disk, pending, EntryLine(key, params[key]) + "\n");
      if !ok {
        return;
      }
    }
    PrintsAll(disk.tree.temp.value + pending, params);
    ok := disk.AppendTemp(pending);
  }

  method WriteParams(disk: Disk, params: Entries) returns (ok: bool)
    requires disk.Valid()
    modifies disk
    ensures disk.Valid() && old(disk.states) <= disk.states
    ensures if ok then Replaced(old(disk.tree), disk.tree, params) else Untouched(old(disk.tree), disk.tree)
    ensures OldOrNew(old(disk.tree), params, |old(disk.states)|, disk.states)
    ensures if ok then disk.faults == old(disk.faults) else disk.faults > old(disk.faults)
  {
    ok := disk.CreateTemp();
    if !ok {
      return;
    }
    ok := WriteLines(disk, params);
    if ok {
      ok := disk.CloseTemp();
    }
    if !ok {
      disk.RemoveTemp();
      return;
    }
    ok := disk.RenameTemp();
  }

  // --- applyParamOverrides and applyStaticParams ---

  function Getenv(env: map<string, string>, name: string): string {
    if name in env then env[name] else ""
  }

  // The entries that the environment contributes: unset and empty variables contribute none.
  function Overrides(paramMap: map<string, string>, env: map<string, string>): Entries {
    map key | key in paramMap && Getenv(env, paramMap[key]) != "" :: Getenv(env, paramMap[key])
  }

  predicate Readable(tree: Tree) {
    tree.params.Some? ==> Read(tree.params.value).Success?
  }

  // Stat and read params.env. A missing file is not an error.
  method LoadParams(disk: Disk) returns (r: Result<Option<Entries>>)
    requires disk.Valid()
    modifies disk`faults
    ensures disk.Valid()
    ensures if r.Success? then disk.faults == old(disk.faults)
            else disk.faults > old(disk.faults) || !Readable(disk.tree)
    ensures disk.faults >= old(disk.faults)
    ensures r.Success? && r.value.None? ==> disk.tree.params.None?
    ensures r.Success? && r.value.Some? ==>
      disk.tree.params.Some? && Read(disk.tree.params.value) == Success(r.value.value)
  {
    var ok := disk.Look();
    if !ok {
      return Failure("stat or open");
    }
    match disk.tree.params {
      case None =>
        return Success(None);
      case Some(text) =>
        var params := ReadParams(text);
        match params {
          case Failure(e) => return Failure("reading params.env: " + e);
          case Success(entries) => return Success(Some(entries));
        }
    }
  }

  // The map after the loop has been through all keys but the remaining ones.
  function Merged(start: Entries, values: Entries, remaining: set<string>): Entries {
    start + (values - remaining)
  }

  lemma MergeEnds(start: Entries, values: Entries, keys: set<string>)
    requires values.Keys <= keys
    ensures Merged(start, values, keys) == start
    ensures Merged(start, values, {}) == start + values
  {
  }

  lemma MergeStep(start: Entries, values: Entries, remaining: set<string>, key: string)
    requires key in remaining
    ensures Merged(start, values, remaining - {key}) ==
      if key in values then Merged(start, values, remaining)[key := values[key]] else Merged(start, values, remaining)
  {
  }

  // The loop of applyStaticParams, over the values in any order.
  method SetStatics(loaded: Entries, values: Entries) returns (params: Entries)
    ensures params == loaded + values
  {
    params := loaded;
    var remaining := values.Keys;
    MergeEnds(loaded, values, remaining);
    while remaining != {}
      invariant remaining <= values.Keys
      invariant params == Merged(loaded, values, remaining)
      decreases |remaining|
    {
      var key :| key in remaining;
      MergeStep(loaded, values, remaining, key);
      remaining := remaining - {key};
      params := params[key := values[key]];
    }
  }

  // The loop of applyParamOverrides, over the parameters in any order.
  method SetOverrides(loaded: Entries, paramMap: map<string, string>, env: map<string, string>)
    returns (params: Entries)
    ensures params == loaded + Overrides(paramMap, env)
  {
    ghost var values := Overrides(paramMap, env);
    params := loaded;
    var remaining := paramMap.Keys;
    MergeEnds(loaded, values, remaining);
    while remaining != {}
      invariant remaining <= paramMap.Keys
      invariant params == Merged(loaded, values, remaining)
      decreases |remaining|
    {
      var key :| key in remaining;
      MergeStep(loaded, values, remaining, key);
      remaining := remaining - {key};
      var val := Getenv(env, paramMap[key]);
      if val != "" {
        params := params[key := val];
      }
    }
  }

  method ApplyStaticParams(disk: Disk, values: Entries) returns (ok: bool)
    requires disk.Valid()
    modifies disk
    ensures disk.Valid() && old(disk.states) <= disk.states
    ensures if ok then Updated(old(disk.tree), disk.tree, values) else Untouched(old(disk.tree), disk.tree)
    ensures AllSteps(old(disk.tree), values, |old(disk.states)|, disk.states)
    ensures if ok then disk.faults == old(disk.faults)
            else disk.faults > old(disk.faults) || !Readable(old(disk.tree))
    ensures disk.faults >= old(disk.faults)
  {
    var loaded := LoadParams(disk);
    if loaded.Failure? {
      return false;
    }
    if loaded.value.None? {
      return true;
    }
    var params := SetStatics(loaded.value.value, values);
    ok := WriteParams(disk, params);
  }

  method ApplyParamOverrides(disk: Disk, paramMap: map<string, string>, env: map<string, string>) returns (ok: bool)
    requires disk.Valid()
    modifies disk
    ensures disk.Valid() && old(disk.states) <= disk.states
    ensures
      if ok then Updated(old(disk.tree), disk.tree, Overrides(paramMap, env))
      else Untouched(old(disk.tree), disk.tree)
    ensures AllSteps(old(disk.tree), Overrides(paramMap, env), |old(disk.states)|, disk.states)
    ensures if ok then disk.faults == old(disk.faults)
            else disk.faults > old(disk.faults) || !Readable(old(disk.tree))
    ensures disk.faults >= old(disk.faults)
  {
    var loaded := LoadParams(disk);
    if loaded.Failure? {
      return false;
    }
    if loaded.value.None? {
      return true;
    }
    var params := SetOverrides(loaded.value.value, paramMap, env);
    ok := WriteParams(disk, params);
  }

  ghost predicate AllSteps(before: Tree, values: Entries, from: nat, states: seq<Tree>) {
    forall i | from <= i < |states| :: UpdateStep(before, states[i], values)
  }

  // --- One pass over params.env, as renderResourceSet makes it ---

  // The pass ran to completion. Without static values the second update is skipped.
  ghost predicate Prepared(before: Tree, after: Tree, overrides: Entries, statics: Entries) {
    exists mid ::
      && Updated(before, mid, overrides)
      && if statics == map[] then after == mid else Updated(mid, after, statics)
  }

  // Any state in which the pass may stop, by completing, failing or crashing.
  ghost predicate PrepareStep(before: Tree, after: Tree, overrides: Entries, statics: Entries) {
    || UpdateStep(before, after, overrides)
    || exists mid :: Updated(before, mid, overrides) && UpdateStep(mid, after, statics)
  }

  ghost predicate AllPrepareSteps(before: Tree, pass: Pass, from: nat, states: seq<Tree>) {
    forall i | from <= i < |states| :: PrepareStep(before, states[i], pass.overrides, pass.statics)
  }

  method PrepareParams(disk: Disk, paramMap: map<string, string>, env: map<string, string>, statics: Entries)
    returns (ok: bool)
    requires disk.Valid()
    modifies disk
    ensures disk.Valid() && old(disk.states) <= disk.states
    ensures ok ==> Prepared(old(disk.tree), disk.tree, Overrides(paramMap, env), statics)
    ensures AllPrepareSteps(old(disk.tree), Pass(Overrides(paramMap, env), statics), |old(disk.states)|, disk.states)
    ensures PrepareStep(old(disk.tree), disk.tree, Overrides(paramMap, env), statics)
    ensures AllLineSafe(Overrides(paramMap, env)) && Readable(old(disk.tree)) && disk.faults == old(disk.faults) ==> ok
    ensures disk.faults >= old(disk.faults)
  {
    ok := ApplyParamOverrides(disk, paramMap, env);
    if ok && |statics| > 0 {
      if AllLineSafe(Overrides(paramMap, env)) {
        SafeUpdateReads(old(disk.tree), disk.tree, Overrides(paramMap, env));
      }
      ghost var mid, before := disk.tree, disk.states;
      ok := ApplyStaticParams(disk, statics);
      assert AllSteps(mid, statics, |before|, disk.states);
    }
  }

  // --- ensureWorkDir ---

  predicate IsEmpty(tree: Tree) {
    tree == Tree(None, None, map[])
  }

  // Every file of the template copied over the tree.
  function Overlay(tree: Tree, template: Tree): Tree {
    Tree(
      if template.params.Some? then template.params else tree.params,
      if template.temp.Some? then template.temp else tree.temp,
      tree.others + template.others)
  }

  function Find(files: map<string, string>, name: string): Option<string> {
    if name in files then Some(files[name]) else None
  }

  // A file that a copy may have come to: as before, or a prefix of its source.
  predicate PartFile(before: Option<string>, source: Option<string>, now: Option<string>) {
    now == before || (now.Some? && source.Some? && now.value <= source.value)
  }

  // A tree over which the template may have been copied in part.
  ghost predicate PartCopied(before: Tree, template: Tree, now: Tree) {
    && PartFile(before.params, template.params, now.params)
    && PartFile(before.temp, template.temp, now.temp)
    && forall name :: PartFile(Find(before.others, name), Find(template.others, name), Find(now.others, name))
  }

  ghost predicate AllPartCopied(before: Tree, template: Tree, from: nat, states: seq<Tree>) {
    forall i | from <= i < |states| :: PartCopied(before, template, states[i])
  }

  function SourceOf(template: Tree, file: File): Option<string> {
    match file
    case ParamsEnv => template.params
    case ParamsTemp => template.temp
    case Other(name) => Find(template.others, name)
  }

  lemma PutPart(before: Tree, template: Tree, now: Tree, file: File, n: nat)
    requires PartCopied(before, template, now)
    requires SourceOf(template, file).Some? && n <= |SourceOf(template, file).value|
    ensures PartCopied(before, template, Put(now, file, SourceOf(template, file).value[..n]))
  {
    var after := Put(now, file, SourceOf(template, file).value[..n]);
    forall name
      ensures PartFile(Find(before.others, name), Find(template.others, name), Find(after.others, name))
    {
      assert PartFile(Find(before.others, name), Find(template.others, name), Find(now.others, name));
    }
  }

  // One file of the walk, if the template has it.
  method CopyOne(disk: Disk, template: Tree, file: File, ghost before: Tree, ghost from: nat) returns (ok: bool)
    requires disk.Valid()
    requires PartCopied(before, template, disk.tree) && AllPartCopied(before, template, from, disk.states)
    modifies disk
    ensures disk.Valid() && old(disk.states) <= disk.states
    ensures PartCopied(before, template, disk.tree) && AllPartCopied(before, template, from, disk.states)
    ensures ok ==>
      disk.tree == (match SourceOf(template, file)
                    case None => old(disk.tree)
                    case Some(text) => Put(old(disk.tree), file, text))
    ensures disk.faults == old(disk.faults) + if ok then 0 else 1
  {
    var source := SourceOf(template, file);
    if source.None? {
      return true;
    }
    ok := disk.CopyFile(file, source.value);
    ghost var n :| 0 <= n <= |source.value| && disk.tree == Put(old(disk.tree), file, source.value[..n]);
    PutPart(before, template, old(disk.tree), file, n);
  }

  // Each file is the template's, or what it was if the template does not have it.
  ghost predicate CopiedOver(before: Tree, template: Tree, after: Tree) {
    && after.params == (if template.params == None then before.params else template.params)
    && after.temp == (if template.temp == None then before.temp else template.temp)
    && after.others.Keys == before.others.Keys + template.others.Keys
    && (forall name <- template.others :: after.others[name] == template.others[name])
    && (forall name <- before.others | name !in template.others :: after.others[name] == before.others[name])
  }

  // The walk over the template. Wherever it stops, every file is as before or a prefix of the
  // template's.
  method CopyDir(disk: Disk, template: Tree) returns (ok: bool)
    requires disk.Valid()
    modifies disk
    ensures disk.Valid() && old(disk.states) <= disk.states
    ensures AllPartCopied(old(disk.tree), template, |old(disk.states)|, disk.states)
    ensures ok ==> disk.tree == Overlay(old(disk.tree), template)
    ensures ok ==> CopiedOver(old(disk.tree), template, disk.tree)
    ensures disk.faults == old(disk.faults) + if ok then 0 else 1
  {
    ghost var before, from := disk.tree, |disk.states|;
    ok := CopyOne(disk, template, ParamsEnv, before, from);
    if !ok {
      return;
    }
    ok := CopyOne(disk, template, ParamsTemp, before, from);
    if !ok {
      return;
    }
    var remaining := template.others.Keys;
    MergeEnds(before.others, template.others, remaining);
    while remaining != {}
      invariant remaining <= template.others.Keys
      invariant disk.Valid() && old(disk.states) <= disk.states
      invariant PartCopied(before, template, disk.tree) && AllPartCopied(before, template, from, disk.states)
      invariant ok && disk.faults == old(disk.faults)
      invariant disk.tree == Overlay(before, template).(others := Merged(before.others, template.others, remaining))
      decreases |remaining|
    {
      var name :| name in remaining;
      MergeStep(before.others, template.others, remaining, name);
      remaining := remaining - {name};
      ok := CopyOne(disk, template, Other(name), before, from);
      if !ok {
        return;
      }
    }
  }

  // A directory that cannot be read is treated like an empty one. `skipped` tells that there
  // was no copy.
  method EnsureWorkDir(disk: Disk, template: Tree) returns (ok: bool, ghost skipped: bool)
    requires disk.Valid()
    modifies disk
    ensures disk.Valid() && old(disk.states) <= disk.states
    ensures skipped ==> ok && disk.tree == old(disk.tree) && disk.states == old(disk.states)
    ensures !skipped ==>
      && (IsEmpty(old(disk.tree)) || disk.faults > old(disk.faults))
      && AllPartCopied(old(disk.tree), template, |old(disk.states)|, disk.states)
    ensures ok && !skipped ==> disk.tree == Overlay(old(disk.tree), template)
    ensures disk.faults >= old(disk.faults) && (!ok ==> disk.faults > old(disk.faults))
    ensures old(disk.tree) == Tree(None, None, map[]) ==> !skipped
    ensures old(disk.tree) != Tree(None, None, map[]) && disk.faults == old(disk.faults) ==> skipped
  {
    var readable := disk.Look();
    if readable && !IsEmpty(disk.tree) {
      return true, true;
    }
    ok := CopyDir(disk, template);
    return ok, false;
  }

  // --- The work directory agrees with the template ---

  // The same parameters outside `keys`, or the template's own text.
  ghost predicate SameOutside(template: string, text: string, keys: set<string>) {
    || text == template
    || (Read(template).Success? && Read(text).Success? && Read(text).value - keys == Read(template).value - keys)
  }

  // Apart from the temporary file, the directory is the template with some of the parameters
  // in `keys` rewritten.
  ghost predicate Agrees(template: Tree, tree: Tree, keys: set<string>) {
    && tree.others == template.others
    && match template.params
       case None => tree.params == None
       case Some(text) => tree.params.Some? && SameOutside(text, tree.params.value, keys)
  }

  lemma TemplateAgrees(template: Tree, tree: Tree, keys: set<string>)
    ensures Agrees(template, template, keys)
    ensures Agrees(template, Overlay(Tree(None, None, map[]), template), keys)
    ensures Agrees(template, tree, keys) ==> Agrees(template, Overlay(tree, template), keys)
  {
  }

  // The values reach the reader exactly when they are line-safe.
  lemma UpdateReads(before: Tree, after: Tree, values: Entries)
    requires before.params.Some? && Updated(before, after, values)
    ensures
      var loaded := Read(before.params.value).value;
      Read(after.params.value) == Success(loaded + values) <==> AllLineSafe(values)
  {
    var loaded := Read(before.params.value).value;
    NormalForm(before.params.value);
    ReadOfPrints(after.params.value, loaded + values);
    assert forall key <- values :: (loaded + values)[key] == values[key];
  }

  // After an update by the environment a parameter reads as the variable that is set for it and
  // not empty, and as before if there is none.
  lemma OverridesReach(before: Tree, after: Tree, paramMap: map<string, string>, env: map<string, string>, key: string)
    requires before.params.Some? && Updated(before, after, Overrides(paramMap, env))
    requires forall k <- paramMap | paramMap[k] in env && env[paramMap[k]] != "" :: LineSafe(k, env[paramMap[k]])
    ensures after.params.Some? && Read(before.params.value).Success? && Read(after.params.value).Success?
    ensures
      var was, now := Read(before.params.value).value, Read(after.params.value).value;
      if key in paramMap && paramMap[key] in env && env[paramMap[key]] != "" then
        key in now && now[key] == env[paramMap[key]]
      else
        (key in now <==> key in was) && (key in now ==> now[key] == was[key])
  {
    SafeUpdateReads(before, after, Overrides(paramMap, env));
  }

  lemma SafeUpdateReads(before: Tree, after: Tree, values: Entries)
    requires Updated(before, after, values) && AllLineSafe(values)
    ensures after.others == before.others && after.params.Some? == before.params.Some?
    ensures before.params.Some? ==>
      && Read(before.params.value).Success?
      && Read(after.params.value) == Success(Read(before.params.value).value + values)
  {
    if before.params.Some? {
      UpdateReads(before, after, values);
    }
  }

  lemma UpdateAgrees(template: Tree, before: Tree, after: Tree, values: Entries, keys: set<string>)
    requires Agrees(template, before, keys) && UpdateStep(before, after, values)
    requires values.Keys <= keys && AllLineSafe(values)
    ensures Agrees(template, after, keys)
  {
    if before.params.Some? && Updated(before, after, values) {
      UpdateReads(before, after, values);
      var loaded := Read(before.params.value).value;
      assert (loaded + values) - keys == loaded - keys;
    }
  }

  lemma PrepareAgrees(template: Tree, before: Tree, after: Tree, pass: Pass, keys: set<string>)
    requires Agrees(template, before, keys) && PrepareStep(before, after, pass.overrides, pass.statics)
    requires PassWithin(pass, keys)
    ensures Agrees(template, after, keys)
  {
    if UpdateStep(before, after, pass.overrides) {
      UpdateAgrees(template, before, after, pass.overrides, keys);
    } else {
      var mid :| Updated(before, mid, pass.overrides) && UpdateStep(mid, after, pass.statics);
      UpdateAgrees(template, before, mid, pass.overrides, keys);
      UpdateAgrees(template, mid, after, pass.statics, keys);
    }
  }

  lemma PrepareAllAgree(
    template: Tree, before: Tree, after: Tree, pass: Pass, keys: set<string>, from: nat, states: seq<Tree>)
    requires Agrees(template, before, keys) && PassWithin(pass, keys)
    requires PrepareStep(before, after, pass.overrides, pass.statics) && AllPrepareSteps(before, pass, from, states)
    ensures Agrees(template, after, keys)
    ensures AllAgree(template, keys, from, states)
  {
    PrepareAgrees(template, before, after, pass, keys);
    forall i | from <= i < |states|
      ensures Agrees(template, states[i], keys)
    {
      PrepareAgrees(template, before, states[i], pass, keys);
    }
  }

  ghost predicate AllAgree(template: Tree, keys: set<string>, from: nat, states: seq<Tree>) {
    forall i | from <= i < |states| :: Agrees(template, states[i], keys)
  }

  // --- Runs of passes ---

  datatype Pass = Pass(overrides: Entries, statics: Entries)

  ghost predicate PassWithin(pass: Pass, keys: set<string>) {
    && pass.overrides.Keys <= keys && AllLineSafe(pass.overrides)
    && pass.statics.Keys <= keys && AllLineSafe(pass.statics)
  }

  // A run of passes over one directory, each of which may complete, fail or crash anywhere.
  ghost predicate Run(trees: seq<Tree>, passes: seq<Pass>) {
    && |trees| == |passes| + 1
    && forall i | 0 <= i < |passes| :: PrepareStep(trees[i], trees[i + 1], passes[i].overrides, passes[i].statics)
  }

  lemma {:induction false} RunAgrees(template: Tree, trees: seq<Tree>, passes: seq<Pass>, keys: set<string>)
    requires Run(trees, passes) && Agrees(template, trees[0], keys)
    requires forall pass <- passes :: PassWithin(pass, keys)
    ensures Agrees(template, trees[|passes|], keys)
    decreases |passes|
  {
    var n := |passes|;
    if n > 0 {
      RunAgrees(template, trees[..n], passes[..n - 1], keys);
      assert passes[n - 1] in passes;
      PrepareAgrees(template, trees[n - 1], trees[n], passes[n - 1], keys);
    }
  }

  // What the rest of the pipeline sees of the directory: the parameters and the other files.
  function View(tree: Tree): (Option<Result<Entries>>, map<string, string>) {
    (if tree.params.None? then None else Some(Read(tree.params.value)), tree.others)
  }

  // The view of a fresh copy of the template on which one pass has run.
  function FreshView(template: Tree, pass: Pass): (Option<Result<Entries>>, map<string, string>) {
    match View(template)
    case (Some(Success(params)), others) => (Some(Success(params + pass.overrides + pass.statics)), others)
    case view => view
  }

  lemma PreparedReads(before: Tree, after: Tree, pass: Pass)
    requires Prepared(before, after, pass.overrides, pass.statics)
    requires AllLineSafe(pass.overrides) && AllLineSafe(pass.statics)
    ensures after.others == before.others && after.params.Some? == before.params.Some?
    ensures before.params.Some? ==>
      && Read(before.params.value).Success?
      && Read(after.params.value) == Success(Read(before.params.value).value + pass.overrides + pass.statics)
  {
    var mid :|
      && Updated(before, mid, pass.overrides)
      && if pass.statics == map[] then after == mid else Updated(mid, after, pass.statics);
    SafeUpdateReads(before, mid, pass.overrides);
    if pass.statics == map[] {
      if before.params.Some? {
        AddEmpty(Read(before.params.value).value + pass.overrides);
      }
    } else {
      SafeUpdateReads(mid, after, pass.statics);
    }
  }

  lemma AddEmpty(a: Entries)
    ensures a + map[] == a
  {
  }

  lemma PreparedView(template: Tree, before: Tree, after: Tree, pass: Pass)
    requires Agrees(template, before, pass.overrides.Keys + pass.statics.Keys)
    requires Prepared(before, after, pass.overrides, pass.statics)
    requires AllLineSafe(pass.overrides) && AllLineSafe(pass.statics)
    ensures View(after) == FreshView(template, pass)
  {
    PreparedReads(before, after, pass);
    if before.params.Some? {
      SameResult(Read(template.params.value).value, Read(before.params.value).value, pass);
    }
  }

  lemma SameResult(a: Entries, b: Entries, pass: Pass)
    requires a - (pass.overrides.Keys + pass.statics.Keys) == b - (pass.overrides.Keys + pass.statics.Keys)
    ensures a + pass.overrides + pass.statics == b + pass.overrides + pass.statics
  {
    var keys := pass.overrides.Keys + pass.statics.Keys;
    forall key
      ensures key in a + pass.overrides + pass.statics <==> key in b + pass.overrides + pass.statics
      ensures key in a && key !in keys ==> key in b && a[key] == b[key]
    {
      assert key in a - keys <==> key in b - keys;
      if key in a && key !in keys {
        assert a[key] == (a - keys)[key] == (b - keys)[key] == b[key];
      }
    }
  }

  // History independence. After any run of passes, however they ended, a completed pass that
  // sets every key an earlier one may have set leaves what it would have left on a fresh copy.
  lemma HistoryIndependence(template: Tree, trees: seq<Tree>, passes: seq<Pass>, last: Pass, after: Tree)
    requires Run(trees, passes) && trees[0] == template
    requires forall pass <- passes :: PassWithin(pass, last.overrides.Keys + last.statics.Keys)
    requires AllLineSafe(last.overrides) && AllLineSafe(last.statics)
    requires Prepared(trees[|passes|], after, last.overrides, last.statics)
    ensures View(after) == FreshView(template, last)
    ensures forall clean :: Prepared(template, clean, last.overrides, last.statics) ==> View(clean) == View(after)
  {
    var keys := last.overrides.Keys + last.statics.Keys;
    RunAgrees(template, trees, passes, keys);
    PreparedView(template, trees[|passes|], after, last);
    forall clean | Prepared(template, clean, last.overrides, last.statics)
      ensures View(clean) == View(after)
    {
      PreparedView(template, template, clean, last);
    }
  }

  // --- Changing environments ---

  // How far a pass came before it ended: params.env as it was, with the overrides, or with both.
  datatype Stage = Unwritten | Overridden | Completed

  ghost predicate EndsAs(before: Tree, after: Tree, pass: Pass, stage: Stage) {
    match stage
    case Unwritten => Untouched(before, after)
    case Overridden => exists mid :: Updated(before, mid, pass.overrides) && Untouched(mid, after)
    case Completed => exists mid :: Updated(before, mid, pass.overrides) && Updated(mid, after, pass.statics)
  }

  // However a pass ends, it came to one of the stages.
  lemma StageOf(before: Tree, after: Tree, pass: Pass) returns (stage: Stage)
    requires PrepareStep(before, after, pass.overrides, pass.statics)
    ensures EndsAs(before, after, pass, stage)
  {
    if Untouched(before, after) {
      stage := Unwritten;
    } else if Updated(before, after, pass.overrides) {
      assert Untouched(after, after);
      stage := Overridden;
    } else {
      var mid :| Updated(before, mid, pass.overrides) && UpdateStep(mid, after, pass.statics);
      stage := if Untouched(mid, after) then Overridden else Completed;
    }
  }

  function Contribution(pass: Pass, stage: Stage): Entries {
    match stage
    case Unwritten => map[]
    case Overridden => pass.overrides
    case Completed => pass.overrides + pass.statics
  }

  // A run of passes with the stage that each came to.
  ghost predicate StagedRun(trees: seq<Tree>, passes: seq<Pass>, stages: seq<Stage>) {
    && |trees| == |passes| + 1 && |stages| == |passes|
    && forall i | 0 <= i < |passes| :: EndsAs(trees[i], trees[i + 1], passes[i], stages[i])
  }

  lemma {:induction false} RunIsStaged(trees: seq<Tree>, passes: seq<Pass>) returns (stages: seq<Stage>)
    requires Run(trees, passes)
    ensures StagedRun(trees, passes, stages)
    decreases |passes|
  {
    stages := [];
    var n := |passes| - 1;
    if passes != [] {
      var init := RunIsStaged(trees[..n + 1], passes[..n]);
      var stage := StageOf(trees[n], trees[n + 1], passes[n]);
      StagedSnoc(trees, passes, init, stage);
      stages := init + [stage];
    }
  }

  lemma StagedSnoc(trees: seq<Tree>, passes: seq<Pass>, init: seq<Stage>, stage: Stage)
    requires |trees| == |passes| + 1 && |passes| == |init| + 1
    requires StagedRun(trees[..|passes|], passes[..|init|], init)
    requires EndsAs(trees[|init|], trees[|passes|], passes[|init|], stage)
    ensures StagedRun(trees, passes, init + [stage])
  {
  }

  // What the passes have written, later ones over earlier ones.
  function Accumulated(passes: seq<Pass>, stages: seq<Stage>): Entries
    requires |stages| == |passes|
  {
    if passes == [] then map[]
    else
      var n := |passes| - 1;
      Accumulated(passes[..n], stages[..n]) + Contribution(passes[n], stages[n])
  }

  ghost predicate SafePass(pass: Pass) {
    AllLineSafe(pass.overrides) && AllLineSafe(pass.statics)
  }

  // The reader sees the entries written over what it saw; an unreadable file stays as it is.
  ghost predicate ReadsOver(before: Tree, after: Tree, entries: Entries) {
    && after.others == before.others && before.params.Some? && after.params.Some?
    && match Read(before.params.value)
       case Success(params) => Read(after.params.value) == Success(params + entries)
       case Failure(_) => after.params == before.params
  }

  lemma AddTwice(a: Entries, b: Entries, c: Entries)
    ensures a + b + c == a + (b + c)
  {
  }

  lemma ReadsOverTwice(a: Tree, b: Tree, c: Tree, first: Entries, second: Entries)
    requires ReadsOver(a, b, first) && ReadsOver(b, c, second)
    ensures ReadsOver(a, c, first + second)
  {
    if Read(a.params.value).Success? {
      AddTwice(Read(a.params.value).value, first, second);
    }
  }

  lemma StageReads(before: Tree, after: Tree, pass: Pass, stage: Stage)
    requires EndsAs(before, after, pass, stage) && SafePass(pass) && before.params.Some?
    ensures ReadsOver(before, after, Contribution(pass, stage))
  {
    match stage {
      case Unwritten =>
        if Read(before.params.value).Success? {
          AddEmpty(Read(before.params.value).value);
        }
      case Overridden =>
        var mid :| Updated(before, mid, pass.overrides) && Untouched(mid, after);
        SafeUpdateReads(before, mid, pass.overrides);
      case Completed =>
        var mid :| Updated(before, mid, pass.overrides) && Updated(mid, after, pass.statics);
        SafeUpdateReads(before, mid, pass.overrides);
        SafeUpdateReads(mid, after, pass.statics);
        ReadsOverTwice(before, mid, after, pass.overrides, pass.statics);
    }
  }

  lemma {:induction false} RunReads(trees: seq<Tree>, passes: seq<Pass>, stages: seq<Stage>)
    requires StagedRun(trees, passes, stages) && trees[0].params.Some?
    requires forall pass <- passes :: SafePass(pass)
    ensures ReadsOver(trees[0], trees[|passes|], Accumulated(passes, stages))
    decreases |passes|
  {
    var n := |passes| - 1;
    if passes == [] {
      if Read(trees[0].params.value).Success? {
        AddEmpty(Read(trees[0].params.value).value);
      }
    } else {
      RunReads(trees[..n + 1], passes[..n], stages[..n]);
      assert passes[n] in passes;
      LastStage(trees, passes, stages);
    }
  }

  lemma LastStage(trees: seq<Tree>, passes: seq<Pass>, stages: seq<Stage>)
    requires StagedRun(trees, passes, stages) && passes != []
    requires SafePass(passes[|passes| - 1])
    requires ReadsOver(trees[0], trees[|passes| - 1], Accumulated(passes[..|passes| - 1], stages[..|passes| - 1]))
    ensures ReadsOver(trees[0], trees[|passes|], Accumulated(passes, stages))
  {
    var n := |passes| - 1;
    StageReads(trees[n], trees[n + 1], passes[n], stages[n]);
    ReadsOverTwice(
      trees[0], trees[n], trees[n + 1], Accumulated(passes[..n], stages[..n]), Contribution(passes[n], stages[n]));
  }

  // Every entry that was written earlier and that the last pass does not set is in the
  // parameters already.
  ghost predicate LeftoversKnown(params: Entries, earlier: Entries, last: Pass) {
    forall key <- earlier | key !in last.overrides && key !in last.statics ::
      key in params && params[key] == earlier[key]
  }

  // The exact condition of history independence, over every run of passes under any
  // environments and however each of them ended: a completed last pass leaves what it would have
  // left on a fresh copy if and only if every leftover entry was in the template anyway.
  lemma ChangedEnvironment(
    template: Tree, trees: seq<Tree>, passes: seq<Pass>, stages: seq<Stage>, last: Pass, after: Tree)
    requires template.params.Some?
    requires StagedRun(trees, passes, stages) && trees[0] == template
    requires (forall pass <- passes :: SafePass(pass)) && SafePass(last)
    requires Prepared(trees[|passes|], after, last.overrides, last.statics)
    ensures Read(template.params.value).Success?
    ensures View(after) == FreshView(template, last) <==>
      LeftoversKnown(Read(template.params.value).value, Accumulated(passes, stages), last)
  {
    var earlier := Accumulated(passes, stages);
    RunReads(trees, passes, stages);
    PreparedReads(trees[|passes|], after, last);
    var params := Read(template.params.value).value;
    LeftoversDecide(params, earlier, last);
    SameView(
      params + earlier + last.overrides + last.statics, params + last.overrides + last.statics, template.others);
  }

  lemma SameView<T>(a: T, b: T, others: map<string, string>)
    ensures (Some(Result<T>.Success(a)), others) == (Some(Result<T>.Success(b)), others) <==> a == b
  {
  }

  lemma LeftoversDecide(params: Entries, earlier: Entries, last: Pass)
    ensures
      params + earlier + last.overrides + last.statics == params + last.overrides + last.statics
      <==> LeftoversKnown(params, earlier, last)
  {
    var a := params + earlier + last.overrides + last.statics;
    var b := params + last.overrides + last.statics;
    if a == b {
      forall key | key in earlier && key !in last.overrides && key !in last.statics
        ensures key in params && params[key] == earlier[key]
      {
        assert key in a && a[key] == earlier[key];
        assert key in b && b[key] == params[key];
      }
    }
  }

  // --- Two inputs that fail ---

  // A tree with just these parameters, printed.
  function OneEntry(key: string, value: string): Tree {
    Tree(Some(EntryLine(key, value) + "\n"), None, map[])
  }

  lemma OneEntryPrints(key: string, value: string)
    ensures Prints(EntryLine(key, value) + "\n", map[key := value])
  {
    var order := [(key, value)];
    PrintSnoc([], key, value);
    assert [] + order == order && "" + (EntryLine(key, value) + "\n") == EntryLine(key, value) + "\n";
    assert Enumerates(order, map[key := value]);
  }

  // An update of a file that holds one entry.
  lemma OneEntryUpdated(key: string, value: string, values: Entries, value': string)
    requires LineSafe(key, value) && map[key := value] + values == map[key := value']
    ensures Updated(OneEntry(key, value), OneEntry(key, value'), values)
    ensures Read(OneEntry(key, value).params.value) == Success(map[key := value])
  {
    OneEntryPrints(key, value);
    ReadOfPrints(EntryLine(key, value) + "\n", map[key := value]);
    OneEntryPrints(key, value');
  }

  // A variable that is set for one pass and not for the next leaves its override behind, say
  // RELATED_IMAGE_ODH_TRAINER_IMAGE for odh-kubeflow-trainer-controller-image.
  lemma StaleOverride(key: string, name: string, default: string, image: string)
    requires LineSafe(key, default) && LineSafe(key, image) && image != "" && image != default
    ensures
      var paramMap := map[key := name];
      var first := Pass(Overrides(paramMap, map[name := image]), map[]);
      var last := Pass(Overrides(paramMap, map[]), map[]);
      && Prepared(OneEntry(key, default), OneEntry(key, image), first.overrides, first.statics)
      && Prepared(OneEntry(key, image), OneEntry(key, image), last.overrides, last.statics)
      && View(OneEntry(key, image)) != FreshView(OneEntry(key, default), last)
  {
    OneOverride(key, name, image);
    OneEntryUpdated(key, default, map[key := image], image);
    OneEntryUpdated(key, image, map[], image);
    AddEmpty(map[key := default]);
    assert map[key := image][key] != map[key := default][key];
  }

  lemma OneOverride(key: string, name: string, image: string)
    requires image != ""
    ensures Overrides(map[key := name], map[name := image]) == map[key := image]
    ensures Overrides(map[key := name], map[]) == map[]
  {
  }

  // An override that ends in a blank is written as it is and read without the blank.
  lemma BlankIsLost(key: string, default: string, image: string)
    requires LineSafe(key, default)
    ensures Updated(OneEntry(key, default), OneEntry(key, image + " "), map[key := image + " "])
    ensures Read(OneEntry(key, image + " ").params.value) != Success(map[key := image + " "])
  {
    var value := image + " ";
    assert map[key := default] + map[key := value] == map[key := value];
    OneEntryUpdated(key, default, map[key := value], value);
    OneEntryPrints(key, value);
    ReadOfPrints(EntryLine(key, value) + "\n", map[key := value]);
    assert !LineSafe(key, value) by {
      assert value[|value| - 1] == ' ';
    }
    assert key in map[key := value];
  }
}
