# Verified model of the trainer operator

The trainer operator deploys Kubeflow Trainer from templates and keeps it deployed. This
project models the parts of it that keep state across reconciles, and proves what they promise
over all inputs, all runs and all patterns of failure.

| file | what it models |
|---|---|
| `Params.dfy` | the text format of `params.env`: the scanner, the line parser and the printer over any map order |
| `WorkDir.dfy` | the work directory that every reconcile edits in place: temporary file and rename, crashes, the two updates, the template copy |
| `Render.dfy` | rendering a resource set, and all of them, from the work directories |
| `TlsPolicy.dfy` | the TLS profile that is resolved once and the watcher that shuts the process down |
| `TlsOperand.dfy` | the translation of cipher suites and curves for the operand |
| `Unstructured.dfy`, `OperandRewrite.dfy` | nested fields of JSON objects; the rewrite of the operand's ConfigMap and Deployment |
| `Cluster.dfy` | removal of the legacy finalizer and deletion of the training runtimes, on an API server with finalizers |
| `Applying.dfy` | applying a rendered list to the cluster: training runtimes, the definitions of their kinds, and all other objects |
| `Runtimes.dfy` | what applying a list and stripping the finalizer do to the training runtimes |
| `Deploy.dfy` | the deploy action with recovery from immutable fields, garbage collection, and cleanup |
| `Releases.dfy` | the release list of the status and the platform version handshake |
| `Dependencies.dfy` | the dependency check and the health verdict on the JobSetOperator |
| `Pipeline.dfy` | the state that the actions work on, and what follows for a pass and for runs of passes |
| `Reconcile.dfy` | the actions, passes and runs themselves, which join the pieces |
| `Outcome.dfy`, `Sequences.dfy`, `Text.dfy` | result types, sequences, Go's `strings` functions |

`dafny verify dfyconfig.toml` checks the project.

## How to read it

Failures are nondeterministic: an operation of `Disk`, `ApiServer` or `Store` may fail at any
call. Each of them counts its failures, so a contract can say what holds when none occurred.
`Disk.states` lists every state the disk passes through, in order, so a claim about all of them
is a claim about a crash at any point. Loops over Go maps take the keys in any order.

What the model assumes of code outside the repository:

- Actions run in the order in which they are registered and stop at the first error.
- The framework persists the status after every pass, also after one that failed. A run of passes
  is the life of one process.
- The watcher runs a callback that is set whenever the observed value differs from the initial one.
- A fallback reports the policy NoOpinion; an APIServer object that was read is watchable and no fallback.
- Renaming a file is atomic. A line of 65536 bytes or more ends the scan with an error.
- YAML: unmarshalling what was marshalled gives the same map. The hash is injective and never empty (`Codec.Lawful`).
- Cipher tables: a name that the Go runtime gives a suite resolves to that suite's ID (`TlsOperand.Coherent`).
- Curve IDs arrive as comma-joined decimal text.
- The API server removes a terminating object with its last finalizer, holds no terminating object
  without one, and holds no object of a kind that is not installed.
- Applying goes through the rendered list in its order and stops at the first error. It sets the
  rendered labels and the rest of an object; of a training runtime it keeps the other labels, the
  finalizers and the deletion timestamp, and a new one has no finalizers. Applying a definition
  installs its kind; without it a training runtime is refused with "no matches for kind".
- Only Deployments have immutable fields, and the rejection says "field is immutable".
- Garbage collection deletes exactly the labelled objects within its reach that the pass does not
  render, and some of them if it fails; what it reaches (by kind and namespace) is an input. It
  spares the training runtimes, and no installed kind goes away. In cleanup nothing is rendered.
- Kustomize sets the label it is told to set on every item.
- Kustomize depends on the parameters as a map, on the other files and on the namespace.

Three findings.

- The last pass must set every key that an earlier pass has written: when the environment of a
  later pass lacks a variable, the earlier override stays in the work directory.
  `WorkDir.ChangedEnvironment` gives the exact condition over every run of passes, and
  `WorkDir.StaleOverride` an input that fails. Within one pod this does not come up: its
  environment is fixed, and `config/manager/manager.yaml:67-75` mounts the work directory as an
  `emptyDir`, so a changed pod specification starts from an empty one. It takes a work directory
  that outlives the pod, or a process started outside that manifest.
- Override values reach the reader exactly when they are line-safe (`WorkDir.UpdateReads`). A
  value that ends in a blank does not: `WorkDir.BlankIsLost`.
- A pass after a successful one is not always without effect. A rendered training runtime whose
  deletion waits for nothing but the legacy finalizer is applied, stripped, and thereby gone; the
  next pass creates it again (`Runtimes.ComesBack`). `Pipeline.SteadyPass` and
  `Runtimes.UpkeptTwice` give the exact condition, and `Pipeline.Settles` shows that the third
  fault-free pass ends it.

## Model

| member | source | states |
|---|---|---|
| Params.ReadParams | internal/controller/params.go:108-130 | The scanning loop returns the entries of all lines with the last one winning, or fails when some line reaches the token limit |
| Params.LineMeans | internal/controller/params.go:117-126 | A line with an entry, white space around it aside, sets just that entry; a blank line, a comment or a line without `=` changes nothing; every line is one or the other |
| Text.TrimAround | internal/controller/params.go:117 | Trimming cuts off exactly the white space around a text |
| Text.AsciiSpaces | internal/controller/params.go:117 | Which ASCII characters are white space |
| Text.Utf8LenOne | internal/controller/params.go:115-116 | The bytes that a character takes in a line (section 3 of RFC 3629) |
| Text.Utf8LenConcat | internal/controller/params.go:115-116 | Bytes add up over a text |
| Params.ReadMeans | internal/controller/params.go:108-130 | A text is read unless some line takes 65536 bytes; a key then has a value exactly if some line gives it and no later line gives that key, an unterminated last line included |
| Params.PrintConcat | internal/controller/params.go:139-146 | The printed text is the lines `key=value`, one after the other |
| Params.NormalForm | internal/controller/params.go:115-129 | Whatever the text, the map read from it is line-safe |
| Params.RoundTrip | internal/controller/params.go:115-146 | Printing a map in any order and reading it back gives the map if and only if every entry is line-safe |
| Params.ReadWriteRead | internal/controller/params.go:108-160 | Rewriting a readable file in any order does not change what is read |
| Params.AddSafeLine | internal/controller/params.go:118-126 | A line-safe entry is parsed back to itself |
| Params.AddedIsSafe | internal/controller/params.go:118-126 | A line can only add a line-safe entry |
| WorkDir.BufferedWrite | internal/controller/params.go:139-146 | A buffered write loses nothing and touches the temporary file only |
| WorkDir.WriteLines | internal/controller/params.go:139-152 | The loop and the flush put every entry once into the temporary file and touch nothing else |
| WorkDir.WriteParams | internal/controller/params.go:132-160 | On success `params.env` is replaced by a full print and the temporary file is gone; on failure at most the temporary file differs; every state on the way holds the whole old or the whole new text; it fails only on a fault |
| WorkDir.SetOverrides | internal/controller/params.go:99-103 | The loop adds exactly the entries whose variable is set and not empty |
| WorkDir.SetStatics | internal/controller/params.go:77-79 | The loop adds exactly the given values |
| WorkDir.LoadParams | internal/controller/params.go:63-75 | A missing file is no error; otherwise the text is read or the call fails |
| WorkDir.ApplyParamOverrides | internal/controller/params.go:84-106 | A completed call updates the file by the overrides, any other leaves it; every state on the way is one or the other |
| WorkDir.ApplyStaticParams | internal/controller/params.go:62-82 | The same for fixed values |
| WorkDir.CopyDir | internal/controller/manifests.go:168-190 | A completed copy lays every file of the template over the directory; only a fault stops it; in every state on the way, also of a copy that is cut short, each file is as before or a prefix of the template's |
| WorkDir.EnsureWorkDir | internal/controller/manifests.go:159-166 | A directory with entries that can be read is left alone, and no state is added; an empty one, or one that cannot be read, gets the template copied over it file by file |
| WorkDir.PrepareParams | internal/controller/trainer_controller.go:414-421 | Overrides, then static values if there are any; every state on the way is a step of that pass; with a readable file, safe overrides and no fault it completes |
| WorkDir.UpdateReads | internal/controller/params.go:94-105 | After an update the reader sees the old entries with the new values over them if and only if the values are line-safe |
| WorkDir.OverridesReach | internal/controller/params.go:99-103 | After an update by the environment a parameter reads as the variable set for it, and as before if that is unset or empty |
| WorkDir.UpdateAgrees | internal/controller/params.go:62-106 | No completed, failed or crashed update takes the directory out of agreement with the template |
| WorkDir.RunAgrees | internal/controller/trainer_controller.go:402-421 | Over every run of passes, however each ended, the directory agrees with the template outside the owned keys |
| WorkDir.HistoryIndependence | internal/controller/trainer_controller.go:402-421 | After any such run a completed pass that sets every key an earlier pass may have set leaves the parameters and the other files as on a fresh copy of the template |
| WorkDir.ChangedEnvironment | internal/controller/params.go:99-103 | Over every run of passes under any environments, however each ended, a completed last pass leaves what a fresh copy of the template would show if and only if every leftover entry was in the template anyway |
| WorkDir.RunIsStaged | internal/controller/trainer_controller.go:414-421 | Every run of passes is one in which each came to a definite stage: nothing, the overrides, or both updates written |
| WorkDir.StaleOverride | internal/controller/params.go:99-103 | A pass with a variable and one without it leave the earlier image in the parameters |
| WorkDir.BlankIsLost | internal/controller/params.go:118-126 | An override that ends in a blank is written but not read back |
| Render.RenderResourceSet | internal/controller/trainer_controller.go:402-439 | A successful rendering from the persistent directory is the rendering of a fresh copy; without faults it succeeds exactly when that does, for unreadable parameters too. A directory that needs no copy agrees with the template in every state from the start; one that gets a copy is partly copied up to a state that is the whole copy and agrees from there on, whatever fails |
| Render.RenderManifests | internal/controller/trainer_controller.go:348-400 | The two or three sets in order, each as from a fresh copy; without faults it succeeds exactly when fresh copies do; a directory is copied over only if it was empty or could not be read, and otherwise every state of it agrees with its template |
| Render.FreshManifestsAre | internal/controller/trainer_controller.go:348-439 | The rendering is, in this order, kustomize's items of the manifests template with the TLS options written into them, those of the runtimes template without a namespace, and on OpenShift those of the image streams, both without ConfigMaps; each with its own overrides, the first with the namespace parameter; it fails exactly if one of these steps does |
| Render.RollsExactlyOnTranslation | internal/controller/trainer_controller.go:423-437 | In whole renderings under two profiles the operand's pod template comes out the same if and only if the profiles translate to the same options |
| Render.RollsWithPolicy | internal/tls/profile.go:96-113 | In the whole rendering the operand's pod template differs between a watched process and one started now if and only if the profiles in force translate differently, and then the process is shutting down |
| TlsPolicy.NeverStale | internal/tls/profile.go:96-113 | At every point of every run a watched process is shutting down or its effective profile is the one resolving anew would choose; shutdown is requested if and only if the policy changed, or the profile while honoured or in fallback |
| TlsPolicy.Serves | internal/tls/profile.go:40-113 | Which profile is in force for each outcome of reading the APIServer object, when the process does not start, and which single change ends it |
| TlsPolicy.ShutdownIsNeeded | internal/tls/profile.go:106-111 | A shutdown under an unchanged policy leaves behind a stale process if and only if no fallback was in use |
| TlsPolicy.UnwatchedProcess | internal/tls/profile.go:84-87 | Exactly when an unwatchable process is up to date |
| TlsPolicy.SecurityProfileWatcher.Observe | internal/tls/profile.go:96-113 | Observing an event cancels the context exactly when the event triggers |
| TlsPolicy.Run | internal/tls/profile.go:84-113 | Over every run of events the context is cancelled exactly when a shutdown is requested |
| TlsOperand.TranslateProfile | internal/tls/operand.go:91-122 | The loops produce the translated options or fail exactly when the curves do |
| TlsOperand.TranslateConcat | internal/tls/operand.go:111-119 | Translation keeps the order: it distributes over concatenation |
| TlsOperand.TranslateMembers | internal/tls/operand.go:44-119 | A Go name is in the output if and only if some input has an ID, in the table or by its IANA name, that is neither a TLS 1.3 one (section B.4 of RFC 8446) nor that of an RC4 suite (section 2 of RFC 7465), and the name is that of the first secure suite of the ID, or of the first insecure one if there is none |
| TlsOperand.TranslateOne | internal/tls/operand.go:44-119 | One such input becomes that one name, any other nothing |
| TlsOperand.TranslatedMeans | internal/tls/operand.go:91-122 | A profile is translated unless its curves are unsupported or out of range; what each field of the options then holds |
| TlsOperand.TranslateIdempotent | internal/tls/operand.go:111-137 | Translating a translation changes nothing, and no RC4 suite of the runtime is in it |
| TlsOperand.NameInSuite | internal/tls/operand.go:61-73 | A table search finds a suite of that ID whenever there is one |
| TlsOperand.ParseUint32 | internal/tls/operand.go:104-107 | Digits are accepted if and only if their value fits in 32 bits, and as that value |
| TlsOperand.ParseInt32 | internal/tls/operand.go:104-107 | A numeral is accepted if and only if it fits in 32 signed bits, as the number it denotes |
| TlsOperand.SignsParse | internal/tls/operand.go:104-107 | Signed and unsigned decimal texts are read as their number exactly within 32 signed bits |
| TlsOperand.OtherCharactersFail | internal/tls/operand.go:104-107 | Anything but digits after an optional sign is refused |
| TlsOperand.CurvesAccepted | internal/tls/operand.go:100-109 | A text is accepted if and only if every non-empty field is a numeral in range; the codes are, in order, the numbers those fields denote, and fit in 32 signed bits |
| TlsOperand.NonEmptyConcat | internal/tls/operand.go:100-103 | Exactly the empty fields are skipped |
| TlsOperand.CurveRoundTrip | internal/tls/operand.go:96-109 | Every list of 16-bit group IDs (section 4.2.7 of RFC 8446) survives its comma-joined decimal text |
| Unstructured.GetAfterSet | internal/controller/manifests.go:102-126 | What a nested setter wrote is what the getter reads |
| Unstructured.SetLeavesRest | internal/controller/manifests.go:126-151 | A nested setter changes nothing beside its path |
| Unstructured.SetSucceedsIff | internal/controller/manifests.go:126-151 | A nested setter fails if and only if something other than an object stands on the way |
| Unstructured.NestedBelow | internal/controller/manifests.go:102-143 | A path is read step by step; a null on the way counts as absent, any other non-object is an error |
| Unstructured.TypedNested | internal/controller/manifests.go:102-143 | Texts and maps of texts are found exactly where the field is one |
| OperandRewrite.EncodeInjective | internal/controller/manifests.go:120 | Different options have different tls sections |
| OperandRewrite.RewriteConfigs | internal/controller/manifests.go:95-132 | The first loop rewrites every operand configuration in place and keeps the hash of the last |
| OperandRewrite.AnnotateDeployments | internal/controller/manifests.go:138-154 | The second loop annotates every operand Deployment in place |
| OperandRewrite.ApplyOperandTLSOptions | internal/controller/manifests.go:89-157 | Success and result of the in-place rewrite, for every list |
| OperandRewrite.ApplySucceedsIff | internal/controller/manifests.go:95-154 | The rewrite succeeds if and only if every operand ConfigMap that has the key can be parsed and, if there is one, every operand Deployment can take the annotation |
| OperandRewrite.IdentityIs | internal/controller/manifests.go:95-141 | Which items are the operand's, by kind and name |
| OperandRewrite.ConfigMeans | internal/controller/manifests.go:95-131 | Read back, each configuration has its other keys as before and under `tls` the minimum version, the cipher suites and the curves in order, each left out exactly if empty, and nothing else |
| OperandRewrite.AnnotationMeans | internal/controller/manifests.go:130-153 | Each operand Deployment carries the hash of the last configuration's final text beside the annotations it had |
| OperandRewrite.RewrittenConfig | internal/controller/manifests.go:102-131 | The configuration gains the tls section, keeps its other keys, and nothing around it changes |
| OperandRewrite.AnnotatedDeployment | internal/controller/manifests.go:143-153 | The Deployment carries the hash beside its other annotations |
| OperandRewrite.HashOfLast | internal/controller/manifests.go:130-131 | The hash is that of the last matching ConfigMap |
| OperandRewrite.Effect | internal/controller/manifests.go:95-154 | Which items change and to what; all others are as they were |
| OperandRewrite.AnnotationIsHash | internal/controller/manifests.go:130-153 | Every operand Deployment carries the hash of the final text of the last matching ConfigMap |
| OperandRewrite.RestUnchanged | internal/controller/manifests.go:95-154 | No field beside the two paths changes in any item |
| OperandRewrite.RollsExactlyOnChange | internal/controller/manifests.go:120-153 | Pod templates rendered under two sets of options differ if and only if the options differ |
| OperandRewrite.Idempotent | internal/controller/manifests.go:95-156 | Applying the rewrite to its own result changes nothing |
| OperandRewrite.NothingToRewrite | internal/controller/manifests.go:134-136 | Without a matching ConfigMap that has the key the list is unchanged |
| OperandRewrite.FilterConfigMaps | internal/controller/manifests.go:57-65 | Exactly the items of other kinds remain |
| OperandRewrite.FilterConcat | internal/controller/manifests.go:57-65 | They keep their order and number |
| Cluster.WithoutIs | internal/controller/trainer_controller.go:675-683 | Filtering removes every copy of one finalizer, keeps all others, and changes the length exactly when it was there |
| Cluster.WithoutConcat | internal/controller/trainer_controller.go:675-683 | Filtering keeps the order |
| Cluster.FilterFinalizer | internal/controller/trainer_controller.go:675-683 | The loop computes that filter |
| Cluster.RemoveRuntimeFinalizers | internal/controller/trainer_controller.go:627-673 | Whatever fails, some managed objects are stripped and nothing else changes; each successful update takes away exactly one holder; success leaves none, also when a kind is not installed |
| Cluster.RetryProgress | internal/controller/trainer_controller.go:627-673 | Over any calls failing in any pattern the holders only shrink, one per update, and after a success nothing is updated any more |
| Cluster.Retry | internal/controller/trainer_controller.go:559-566 | Repeated calls are such a run |
| Cluster.CleanupTrainerResources | internal/controller/trainer_controller.go:585-621 | Some managed objects are deleted or marked and nothing else changes; without failures all are |
| Cluster.StripThenDelete | internal/controller/trainer_controller.go:494-497 | Stripping and deleting lead from every state to the end state |
| Cluster.LeftBehind | internal/controller/trainer_controller.go:487-497 | An object with the operator's label is left if and only if it has another finalizer than the legacy one, and is then terminating with those; any other object is untouched |
| Cluster.HoldersIff | internal/controller/trainer_controller.go:559-566 | No holder is left exactly if no object with the operator's label has the legacy finalizer |
| Cluster.StripOnIs | internal/controller/trainer_controller.go:627-673 | What stripping does to each object |
| Deploy.Cleanup | internal/controller/trainer_controller.go:487-511 | Without failures the training runtimes come to their end state and no labelled object within the collector's reach is left; unlabelled objects are never touched; an error means a failure |
| Deploy.DeployWithRecovery | internal/controller/trainer_controller.go:518-553 | A prefix of the list has been applied, training runtimes and definitions included; the error is handed on; on an immutable field error Deployments of the list are deleted and nothing else, all of them unless a deletion fails |
| Applying.ApplyAllIff | internal/controller/trainer_controller.go:513-524 | A list can be applied if and only if no Deployment conflicts with the store or within the list and every training runtime follows the definition of its kind; then the cluster agrees with the list |
| Deploy.NextDeploys | internal/controller/trainer_controller.go:513-517 | After a fault-free deploy action that failed, the next one succeeds if and only if the list is consistent in itself and its training runtimes follow their definitions |
| Deploy.RecoverInTwoPasses | internal/controller/trainer_controller.go:513-553 | Of two fault-free deploy actions the second succeeds if and only if the list is consistent and its training runtimes follow their definitions, and then the cluster agrees with the list |
| Deploy.CollectGarbage | internal/controller/trainer_controller.go:224-233 | Stale objects are deleted and nothing else, all of them unless a deletion fails |
| Deploy.SweptIs | internal/controller/trainer_controller.go:224-233 | After deployment and collection the rendering is there, and besides it just what lacks the operator's label, is out of reach or is a training runtime |
| Deploy.ImmutableIff | internal/controller/trainer_controller.go:555-557 | An error counts as an immutable field error exactly if it contains that text |
| Deploy.DeploymentIdsAre | internal/controller/trainer_controller.go:531-543 | The recovery deletes exactly the objects of kind Deployment in the list |
| Applying.FirstDeployment | internal/controller/trainer_controller.go:218-222 | On an empty cluster a definition and a training runtime of its kind can be applied in this order, and the runtime alone cannot |
| Runtimes.UpkeptKeys | internal/controller/trainer_controller.go:513-566 | After applying and stripping the rendered training runtimes are there, except those whose deletion waited only for the legacy finalizer |
| Runtimes.UpkeptTwice | internal/controller/trainer_controller.go:513-566 | Doing both again changes nothing if and only if there were no such runtimes |
| Runtimes.ComesBack | internal/controller/trainer_controller.go:513-566 | Such a runtime goes and comes back |
| Releases.AppendOrUpdateRelease | internal/controller/trainer_controller.go:763-771 | The loop replaces the first entry of the name or appends |
| Releases.UpsertAllRefines | internal/controller/trainer_controller.go:450-476 | Updates keep names unique, move no entry and act on the list as map writes |
| Releases.RunRefinesMap | internal/controller/trainer_controller.go:441-485 | The same over every run of reconciles |
| Releases.RepeatedPass | internal/controller/trainer_controller.go:441-485 | Repeating a pass with the same inputs changes nothing |
| Releases.PassMeans | internal/controller/trainer_controller.go:441-485 | Entry by entry: after a pass the platform's is that of the version read, if it can be parsed; any other is the last of the metadata that names it, and else as it was; names stay unique and in place |
| Releases.Status.UpdateReleases | internal/controller/trainer_controller.go:441-485 | What a pass writes to the list and to the process release |
| Releases.CurrentPlatformVersion | internal/controller/trainer_controller.go:754-761 | The loop finds the version of the first platform entry |
| Releases.CurrentVersionIs | internal/controller/trainer_controller.go:754-761 | That is the version of the platform's entry in the list as a map |
| Releases.Handshake | internal/controller/trainer_controller.go:455-481 | A parsable version becomes current; any other pass keeps the current one unless the metadata names the platform |
| Releases.HandshakeOverRuns | internal/controller/trainer_controller.go:455-481 | Over every run the current version is that of the last pass with a parsable one; once there was one, the process bears the platform's name and the parse of the current version, and until then its first release |
| Dependencies.CheckJobSetOperatorHealth | internal/controller/dependencies.go:114-170 | The verdict and the error text of the loop |
| Dependencies.HealthyIff | internal/controller/dependencies.go:114-169 | Healthy if and only if there are conditions and no object among them lacks its type or status or is one of the four combinations of them that speak against the operator |
| Dependencies.ComplaintText | internal/controller/dependencies.go:146-160 | What is said of such a condition |
| Dependencies.ComplaintsJoined | internal/controller/dependencies.go:137-166 | The complaints come in the order of the conditions, joined by a semicolon |
| Dependencies.HealthyPermuted | internal/controller/dependencies.go:137-160 | The order of the conditions does not matter |
| Dependencies.HealthyMonotone | internal/controller/dependencies.go:132-166 | An added condition never heals an unhealthy operator that had conditions |
| Dependencies.CheckDependencies | internal/controller/trainer_controller.go:271-316 | Passes if and only if the dependencies are met; sets Degraded accordingly, with the first failed check as reason |
| Dependencies.MetIff | internal/controller/trainer_controller.go:271-316 | The dependencies are met if and only if the cluster type can be told, the JobSet CRD is there, and on OpenShift the operator is installed with a custom resource that lists only good conditions |
| Pipeline.Gate | internal/controller/trainer_controller.go:213-217 | A pass goes past the dependency check if and only if the dependencies are met, with Degraded cleared in every later state; otherwise only the Degraded condition has changed |
| Pipeline.ActionOrder | internal/controller/trainer_controller.go:213-233 | Each action is come to only after the one before it, and a successful pass has come to all |
| Pipeline.PassReleases | internal/controller/trainer_controller.go:441-485 | However a pass ends, the status and process releases are updated exactly if it came to updateReleases |
| Pipeline.PassDeploys | internal/controller/trainer_controller.go:513-553 | Without the deploy action the cluster is as it was; a failed one has applied a prefix of the fresh rendering and deleted only Deployments of it, all of them if a rejection was the only fault; one that succeeds met a list that can be applied |
| Pipeline.PassStrips | internal/controller/trainer_controller.go:559-566 | Past a successful deploy action the training runtimes are dressed as rendered, some of the managed ones stripped as far as the pass came, past that action all of them, those just labelled included |
| Pipeline.PassRuntimes | internal/controller/trainer_controller.go:513-566 | However a pass ends, it removes no training runtime that is not under deletion or has a foreign finalizer, and no foreign finalizer, and creates or changes only those it deploys |
| Pipeline.PassCollects | internal/controller/trainer_controller.go:224-233 | Past a successful deploy action the store holds the rendering over what was there; garbage collection removes only stale objects, all of them if the pass succeeds |
| Pipeline.CalmSucceedsIff | internal/controller/trainer_controller.go:203-233 | Without faults a pass succeeds if and only if the dependencies are met, the platform version is readable, the templates render, the rendering conflicts neither with the store nor in itself, and its training runtimes follow their definitions |
| Pipeline.SteadyPass | internal/controller/trainer_controller.go:203-233 | After a successful pass, one with the same inputs and no fault succeeds, and changes nothing at all if and only if no rendered training runtime was waiting only for the legacy finalizer; otherwise only the training runtimes |
| Pipeline.StoreOverRuns | internal/controller/trainer_controller.go:213-233 | Over every run of passes each stored object is as it was, or as some pass rendered it, or deleted as a Deployment some pass rendered, or collected, with its label, by a pass that reached it and did not render it; and that pass had its dependencies met and Degraded cleared since its own check |
| Pipeline.RuntimesOverRuns | internal/controller/trainer_controller.go:213-233 | Over every run of passes no training runtime is lost that is not under deletion or has a foreign finalizer, and no foreign finalizer; one is created or changed only by such a pass that renders it |
| Pipeline.Settles | internal/controller/trainer_controller.go:203-233 | Wherever a run has led, in any row of fault-free passes over one deployable rendering all from the second on succeed; of all the collector reaches exactly the rendering is left and no managed runtime holds a legacy finalizer; from the third on every rendered runtime is there as rendered and a further pass changes nothing of the cluster |
| Pipeline.VersionOverPasses | internal/controller/trainer_controller.go:455-481 | The version handshake over every run of passes, wherever each of them ended |
| Reconcile.NewWorld | internal/controller/trainer_controller.go:189-197 | A process that starts with empty work directories is ready, whatever it finds in the cluster |
| Reconcile.WantedAre | internal/controller/trainer_controller.go:348-400 | What a pass deploys: item by item the rendering in its namespace and cluster, with the operator's label |
| Reconcile.Act | internal/controller/trainer_controller.go:213-233 | Each registered action does to the state what its step allows, and the work directories stay usable unless a fault cut a template copy short |
| Reconcile.RunPass | internal/controller/trainer_controller.go:203-233 | The actions run in the registered order and stop at the first error: the states on the way form a pass from the old state to the new one |
| Reconcile.Converge | internal/controller/trainer_controller.go:203-233 | Two passes in place: if the dependencies are met, the templates render to a deployable list and nothing fails, the second succeeds whatever the store held, and exactly the rendering is left of all the collector reaches |
| Reconcile.RunPasses | internal/controller/trainer_controller.go:203-233 | Passes over a changing cluster form such a run, one record for each of the inputs, from the old state of the world to the new one; it is shorter than the inputs only if a fault cut a template copy short |

## Left out

- WorkDir.CopyDir: a copy that is cut short leaves a directory that later passes take for complete, so no rendering from it is claimed to be that of a fresh copy; empty directories and symbolic links are not modelled.
- WorkDir.Disk: paths are reduced to `params.env`, its temporary file and the other files of one directory; file modes are not modelled.
- Params.ReadParams: texts are Unicode code points, so bytes that are not valid UTF-8 are not modelled.
- TlsOperand.ParseInt32: the kinds of parse error are not told apart.
- TlsPolicy.Resolve: the profile type behind a profile, and errors of the watcher itself, belong to libraries.
- OperandRewrite.ApplyOperandTLSOptions: after an error the list may be half rewritten; its content is not specified because the caller drops it.
- Cluster.ApiServer: no concurrent writer, so no conflicting update and no object that vanishes between listing and writing; an installed kind stays installed.
- Deploy.DeployAction: the cache and the sorting of the deploy action are not modelled; the list stands for the order in which it is applied. A label that the rendering drops stays on a training runtime.
- Deploy.Store: objects other than training runtimes have no finalizers here, so a deletion takes effect at once.
- Reconcile.RunPass: namespace creation and the deployment status are only results; what a failed rendering leaves in the request is not specified because nothing reads it.
- Reconcile.RunPasses: a run ends with a template copy that is cut short, for the reason given at WorkDir.CopyDir.
- Releases.Status.UpdateReleases: reading `component_metadata.yaml`, the ConfigMap and semantic versions are inputs.
- Kustomize, YAML, SHA-256 and the cipher tables are parameters with the laws above.
- Reconcile.Inputs: the namespace is the resolved one; falling back to `opendatahub` when none is set is not modelled.
- Logging, timeouts, message wording beyond the health report, the metrics server and the rest of `cmd/main.go`.
