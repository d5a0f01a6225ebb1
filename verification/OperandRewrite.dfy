// applyOperandTLSOptions and filterConfigMaps of internal/controller/manifests.go: the TLS
// options are written into the operand's configuration, and a hash of that configuration into
// the pod template of its Deployment.
module OperandRewrite {
  import opened Outcome
  import opened Sequences
  import opened TlsOperand
  import opened TlsPolicy
  import opened Unstructured
  import Strings = Text

  const CONFIG_MAP_PREFIX := "kubeflow-trainer-config"
  const DEPLOYMENT_NAME := "kubeflow-trainer-controller-manager"
  const HASH_ANNOTATION := "trainer.platform.opendatahub.io/tls-config-hash"
  const CONFIG_PATH := ["data", "controller_manager_config.yaml"]
  const ANNOTATIONS_PATH := ["spec", "template", "metadata", "annotations"]
  const TEMPLATE_PATH := ["spec", "template"]

  // The YAML library and the hash. An empty document unmarshals to no map at all.
  datatype Codec = Codec(
    marshal: Fields -> string,
    unmarshal: string -> Result<Option<Fields>>,
    hash: string -> string)
  {
    // What the model assumes of them.
    ghost predicate Lawful() {
      && (forall cfg :: unmarshal(marshal(cfg)) == Success(Some(cfg)))
      && (forall a, b :: hash(a) == hash(b) ==> a == b)
      && (forall text :: hash(text) != "")
    }
  }

  // --- The tls section ---

  function TextList(texts: seq<string>): Value {
    List(seq(|texts|, i requires 0 <= i < |texts| => Text(texts[i])))
  }

  function NumberList(numbers: seq<int>): Value {
    List(seq(|numbers|, i requires 0 <= i < |numbers| => Number(numbers[i])))
  }

  // The JSON form of the options; empty fields are omitted.
  function Encode(opts: TlsOptions): Value {
    Object(
      (if opts.minVersion == "" then map[] else map["minVersion" := Text(opts.minVersion)]) +
      (if opts.cipherSuites == [] then map[] else map["cipherSuites" := TextList(opts.cipherSuites)]) +
      (if opts.curvePreferences == [] then map[] else map["curvePreferences" := NumberList(opts.curvePreferences)]))
  }

  lemma EncodeInjective(a: TlsOptions, b: TlsOptions)
    requires Encode(a) == Encode(b)
    ensures a == b
  {
    var fa, fb := Encode(a).fields, Encode(b).fields;
    assert "minVersion" in fa <==> "minVersion" in fb;
    assert "cipherSuites" in fa <==> "cipherSuites" in fb;
    assert "curvePreferences" in fa <==> "curvePreferences" in fb;
    if a.cipherSuites != [] {
      var la, lb := TextList(a.cipherSuites).elements, TextList(b.cipherSuites).elements;
      assert fa["cipherSuites"] == TextList(a.cipherSuites) && fb["cipherSuites"] == TextList(b.cipherSuites);
      assert forall i | 0 <= i < |la| :: la[i] == Text(a.cipherSuites[i]) && lb[i] == Text(b.cipherSuites[i]);
    }
    if a.curvePreferences != [] {
      var la, lb := NumberList(a.curvePreferences).elements, NumberList(b.curvePreferences).elements;
      assert fa["curvePreferences"] == NumberList(a.curvePreferences);
      assert fb["curvePreferences"] == NumberList(b.curvePreferences);
      assert forall i | 0 <= i < |la| ::
        la[i] == Number(a.curvePreferences[i]) && lb[i] == Number(b.curvePreferences[i]);
    }
  }

  // --- One item ---

  predicate IsOperandConfig(item: Fields) {
    GetKind(item) == "ConfigMap" && Strings.HasPrefix(GetName(item), CONFIG_MAP_PREFIX)
  }

  predicate IsOperandDeployment(item: Fields) {
    GetKind(item) == "Deployment" && GetName(item) == DEPLOYMENT_NAME
  }

  predicate HasConfig(item: Fields) {
    IsOperandConfig(item) && NestedString(item, CONFIG_PATH).Present?
  }

  function ConfigText(item: Fields): string
    requires HasConfig(item)
  {
    NestedString(item, CONFIG_PATH).value
  }

  // The configuration with its tls section set.
  function Injected(codec: Codec, opts: TlsOptions, raw: string): Result<string> {
    match codec.unmarshal(raw)
    case Failure(e) => Failure(e)
    case Success(cfg) => Success(codec.marshal((match cfg case Some(c) => c case None => map[])["tls" := Encode(opts)]))
  }

  function RewriteConfig(codec: Codec, opts: TlsOptions, item: Fields): Result<Fields> {
    if !IsOperandConfig(item) then Success(item)
    else
      match NestedString(item, CONFIG_PATH)
      case Invalid => Failure("reading operand config key")
      case Absent => Success(item)
      case Present(raw) =>
        match Injected(codec, opts, raw)
        case Failure(e) => Failure(e)
        case Success(text) =>
          match SetNested(item, CONFIG_PATH, Text(text))
          case None => Failure("writing operand config")
          case Some(after) => Success(after)
  }

  function Annotate(hash: string, item: Fields): Result<Fields> {
    if !IsOperandDeployment(item) then Success(item)
    else
      var read := NestedStringMap(item, ANNOTATIONS_PATH);
      if read.Invalid? then Failure("reading operand deployment annotations")
      else
        var annotations := if read.Present? then read.value else map[];
        match SetNested(item, ANNOTATIONS_PATH, Object(FromTexts(annotations[HASH_ANNOTATION := hash])))
        case None => Failure("writing operand deployment annotations")
        case Some(after) => Success(after)
  }

  // --- The list ---

  predicate Rewritable(codec: Codec, opts: TlsOptions, items: seq<Fields>) {
    forall i | 0 <= i < |items| :: RewriteConfig(codec, opts, items[i]).Success?
  }

  function RewriteAll(codec: Codec, opts: TlsOptions, items: seq<Fields>): seq<Fields>
    requires Rewritable(codec, opts, items)
  {
    seq(|items|, i requires 0 <= i < |items| => RewriteConfig(codec, opts, items[i]).value)
  }

  // The hash of the last operand configuration in the list, or nothing.
  function ConfigHash(codec: Codec, items: seq<Fields>): string {
    if items == [] then ""
    else
      var last := items[|items| - 1];
      if HasConfig(last) then codec.hash(ConfigText(last)) else ConfigHash(codec, items[..|items| - 1])
  }

  predicate Annotatable(hash: string, items: seq<Fields>) {
    forall i | 0 <= i < |items| :: Annotate(hash, items[i]).Success?
  }

  function AnnotateAll(hash: string, items: seq<Fields>): seq<Fields>
    requires Annotatable(hash, items)
  {
    seq(|items|, i requires 0 <= i < |items| => Annotate(hash, items[i]).value)
  }

  function Apply(codec: Codec, opts: TlsOptions, items: seq<Fields>): Result<seq<Fields>> {
    if !Rewritable(codec, opts, items) then Failure("rewriting operand config")
    else
      var rewritten := RewriteAll(codec, opts, items);
      var hash := ConfigHash(codec, rewritten);
      if hash == "" then Success(rewritten)
      else if !Annotatable(hash, rewritten) then Failure("annotating operand deployment")
      else Success(AnnotateAll(hash, rewritten))
  }

  // The list is rewritten in place. After an error it may be half rewritten; the caller drops it.
  method ApplyOperandTLSOptions(codec: Codec, tables: Tables, items: array<Fields>, profile: Profile)
    returns (ok: bool)
    modifies items
    ensures ok <==>
      Translated(tables, profile).Success? && Apply(codec, Translated(tables, profile).value, old(items[..])).Success?
    ensures ok ==> items[..] == Apply(codec, Translated(tables, profile).value, old(items[..])).value
  {
    var translated := TranslateProfile(tables, profile);
    if translated.Failure? {
      return false;
    }
    var configHash;
    ok, configHash := RewriteConfigs(codec, translated.value, items);
    if !ok || configHash == "" {
      return;
    }
    ok := AnnotateDeployments(configHash, items);
  }

  // The first loop.
  method RewriteConfigs(codec: Codec, opts: TlsOptions, items: array<Fields>) returns (ok: bool, configHash: string)
    modifies items
    ensures ok <==> Rewritable(codec, opts, old(items[..]))
    ensures ok ==> items[..] == RewriteAll(codec, opts, old(items[..])) && configHash == ConfigHash(codec, items[..])
  {
    configHash := "";
    for i := 0 to items.Length
      invariant forall j | 0 <= j < i :: RewriteConfig(codec, opts, old(items[j])) == Success(items[j])
      invariant forall j | i <= j < items.Length :: items[j] == old(items[j])
      invariant configHash == ConfigHash(codec, items[..i])
    {
      assert old(items[..])[i] == items[i];
      ghost var before := items[..i];
      var rewritten, hash := RewriteItem(codec, opts, items[i]);
      if rewritten.Failure? {
        return false, configHash;
      }
      items[i] := rewritten.value;
      assert items[..i + 1] == before + [rewritten.value];
      Snoc(before, rewritten.value);
      if hash.Some? {
        configHash := hash.value;
      }
    }
    assert items[..items.Length] == items[..];
    return true, configHash;
  }

  // The second loop.
  method AnnotateDeployments(hash: string, items: array<Fields>) returns (ok: bool)
    modifies items
    ensures ok <==> Annotatable(hash, old(items[..]))
    ensures ok ==> items[..] == AnnotateAll(hash, old(items[..]))
  {
    for i := 0 to items.Length
      invariant forall j | 0 <= j < i :: Annotate(hash, old(items[j])) == Success(items[j])
      invariant forall j | i <= j < items.Length :: items[j] == old(items[j])
    {
      assert old(items[..])[i] == items[i];
      var annotated := AnnotateItem(hash, items[i]);
      if annotated.Failure? {
        return false;
      }
      items[i] := annotated.value;
    }
    return true;
  }

  // The body of the first loop, with the hash it records.
  method RewriteItem(codec: Codec, opts: TlsOptions, item: Fields) returns (r: Result<Fields>, hash: Option<string>)
    ensures r == RewriteConfig(codec, opts, item)
    ensures r.Success? ==>
      hash == if HasConfig(r.value) then Some(codec.hash(ConfigText(r.value))) else None
  {
    if GetKind(item) != "ConfigMap" || !Strings.HasPrefix(GetName(item), CONFIG_MAP_PREFIX) {
      return Success(item), None;
    }
    var raw := NestedString(item, CONFIG_PATH);
    if raw.Invalid? {
      return Failure("reading operand config key"), None;
    }
    if raw.Absent? {
      return Success(item), None;
    }
    var parsed := codec.unmarshal(raw.value);
    if parsed.Failure? {
      return Failure(parsed.error), None;
    }
    var cfg: Fields := map[];
    if parsed.value.Some? {
      cfg := parsed.value.value;
    }
    cfg := cfg["tls" := Encode(opts)];
    var out := codec.marshal(cfg);
    var after := SetNested(item, CONFIG_PATH, Text(out));
    if after.None? {
      return Failure("writing operand config"), None;
    }
    GetAfterSet(item, CONFIG_PATH, Text(out));
    SetKeepsIdentity(item, CONFIG_PATH, Text(out));
    return Success(after.value), Some(codec.hash(out));
  }

  // The body of the second loop.
  method AnnotateItem(hash: string, item: Fields) returns (r: Result<Fields>)
    ensures r == Annotate(hash, item)
  {
    if GetKind(item) != "Deployment" || GetName(item) != DEPLOYMENT_NAME {
      return Success(item);
    }
    var read := NestedStringMap(item, ANNOTATIONS_PATH);
    if read.Invalid? {
      return Failure("reading operand deployment annotations");
    }
    var annotations: map<string, string> := map[];
    if read.Present? {
      annotations := read.value;
    }
    annotations := annotations[HASH_ANNOTATION := hash];
    var after := SetNested(item, ANNOTATIONS_PATH, Object(FromTexts(annotations)));
    if after.None? {
      return Failure("writing operand deployment annotations");
    }
    return Success(after.value);
  }

  // --- What the rewrite means for one item ---

  // The configuration has gained the tls section and nothing else has changed in it or around it.
  lemma RewrittenConfig(codec: Codec, opts: TlsOptions, item: Fields)
    requires codec.Lawful() && HasConfig(item) && RewriteConfig(codec, opts, item).Success?
    ensures
      var after := RewriteConfig(codec, opts, item).value;
      && HasConfig(after) && after == SetNested(item, CONFIG_PATH, Text(ConfigText(after))).value
      && codec.unmarshal(ConfigText(item)).Success?
      && codec.unmarshal(ConfigText(after)) ==
         Success(Some(
           (match codec.unmarshal(ConfigText(item)).value case Some(c) => c case None => map[])["tls" := Encode(opts)]))
      && ConfigText(after) == Injected(codec, opts, ConfigText(item)).value
      && RewriteConfig(codec, opts, after) == Success(after)
  {
    var text := Injected(codec, opts, ConfigText(item)).value;
    var after := RewriteConfig(codec, opts, item).value;
    GetAfterSet(item, CONFIG_PATH, Text(text));
    SetKeepsIdentity(item, CONFIG_PATH, Text(text));
    assert HasConfig(after) && ConfigText(after) == text;
    var cfg := match codec.unmarshal(ConfigText(item)).value case Some(c) => c case None => map[];
    assert codec.unmarshal(text) == Success(Some(cfg["tls" := Encode(opts)]));
    UpdateTwice(cfg, "tls", Encode(opts), Encode(opts));
    SetAfterSet(item, CONFIG_PATH, Text(text), Text(text));
  }

  lemma RewriteTwice(codec: Codec, opts: TlsOptions, item: Fields)
    requires codec.Lawful() && RewriteConfig(codec, opts, item).Success?
    ensures
      var after := RewriteConfig(codec, opts, item).value;
      && RewriteConfig(codec, opts, after) == Success(after)
      && (HasConfig(after) <==> HasConfig(item))
      && (!HasConfig(item) ==> after == item)
  {
    if HasConfig(item) {
      RewrittenConfig(codec, opts, item);
    }
  }

  // The Deployment carries the hash beside its other annotations.
  lemma AnnotatedDeployment(hash: string, item: Fields)
    requires IsOperandDeployment(item) && Annotate(hash, item).Success?
    ensures
      var after := Annotate(hash, item).value;
      var before := NestedStringMap(item, ANNOTATIONS_PATH);
      var annotations := if before.Present? then before.value else map[];
      && !before.Invalid?
      && IsOperandDeployment(after)
      && NestedStringMap(after, ANNOTATIONS_PATH) == Present(annotations[HASH_ANNOTATION := hash])
      && after == SetNested(item, ANNOTATIONS_PATH, Object(FromTexts(annotations[HASH_ANNOTATION := hash]))).value
      && Annotate(hash, after) == Success(after)
  {
    var before := NestedStringMap(item, ANNOTATIONS_PATH);
    var annotations := if before.Present? then before.value else map[];
    var annotations' := annotations[HASH_ANNOTATION := hash];
    var value := Object(FromTexts(annotations'));
    GetAfterSet(item, ANNOTATIONS_PATH, value);
    SetKeepsIdentity(item, ANNOTATIONS_PATH, value);
    SetAfterSet(item, ANNOTATIONS_PATH, value, value);
    TextsRoundTrip(annotations');
    assert annotations'[HASH_ANNOTATION := hash] == annotations';
  }

  lemma AnnotateTwice(codec: Codec, opts: TlsOptions, hash: string, item: Fields)
    requires Annotate(hash, item).Success?
    ensures
      var after := Annotate(hash, item).value;
      && Annotate(hash, after) == Success(after)
      && (HasConfig(after) <==> HasConfig(item))
      && (HasConfig(item) ==> after == item)
      && (RewriteConfig(codec, opts, item) == Success(item) ==> RewriteConfig(codec, opts, after) == Success(after))
  {
    if IsOperandDeployment(item) {
      AnnotatedDeployment(hash, item);
    }
  }

  // --- The hash ---

  // The hash is that of the last operand configuration.
  lemma {:induction false} HashOfLast(codec: Codec, items: seq<Fields>, last: nat)
    requires last < |items| && HasConfig(items[last])
    requires forall i | last < i < |items| :: !HasConfig(items[i])
    ensures ConfigHash(codec, items) == codec.hash(ConfigText(items[last]))
  {
    if last < |items| - 1 {
      HashOfLast(codec, items[..|items| - 1], last);
    }
  }

  lemma {:induction false} NoHash(codec: Codec, items: seq<Fields>)
    requires forall item <- items :: !HasConfig(item)
    ensures ConfigHash(codec, items) == ""
  {
    if items != [] {
      assert items[|items| - 1] in items;
      NoHash(codec, items[..|items| - 1]);
    }
  }

  // Annotating leaves the configurations, and so their hash, alone.
  lemma {:induction false} HashAfterAnnotate(codec: Codec, hash: string, items: seq<Fields>)
    requires Annotatable(hash, items)
    ensures ConfigHash(codec, AnnotateAll(hash, items)) == ConfigHash(codec, items)
  {
    if items != [] {
      var init, n := items[..|items| - 1], |items| - 1;
      var opts := TlsOptions("", [], []);
      AnnotateTwice(codec, opts, hash, items[n]);
      assert AnnotateAll(hash, items)[..n] == AnnotateAll(hash, init);
      HashAfterAnnotate(codec, hash, init);
    }
  }

  // --- Results ---

  // Applying the rewrite to its own result changes nothing.
  lemma Idempotent(codec: Codec, opts: TlsOptions, items: seq<Fields>)
    requires codec.Lawful() && Apply(codec, opts, items).Success?
    ensures Apply(codec, opts, Apply(codec, opts, items).value) == Apply(codec, opts, items)
  {
    var rewritten := RewriteAll(codec, opts, items);
    var hash := ConfigHash(codec, rewritten);
    var after := Apply(codec, opts, items).value;
    forall i | 0 <= i < |items|
      ensures RewriteConfig(codec, opts, after[i]) == Success(after[i])
      ensures hash != "" ==> Annotate(hash, after[i]) == Success(after[i])
    {
      RewriteTwice(codec, opts, items[i]);
      if hash != "" {
        AnnotateTwice(codec, opts, hash, rewritten[i]);
      }
    }
    assert RewriteAll(codec, opts, after) == after;
    if hash != "" {
      HashAfterAnnotate(codec, hash, rewritten);
      assert AnnotateAll(hash, after) == after;
    }
  }

  // Without a matching ConfigMap, or with none that has the key, the list is left as it is.
  lemma NothingToRewrite(codec: Codec, opts: TlsOptions, items: seq<Fields>)
    requires forall item <- items :: IsOperandConfig(item) ==> NestedString(item, CONFIG_PATH).Absent?
    ensures Apply(codec, opts, items) == Success(items)
  {
    forall i | 0 <= i < |items|
      ensures RewriteConfig(codec, opts, items[i]) == Success(items[i]) && !HasConfig(items[i])
    {
      assert items[i] in items;
    }
    assert RewriteAll(codec, opts, items) == items;
    NoHash(codec, items);
  }

  // Item by item: which part of it has changed, and to what.
  lemma Effect(codec: Codec, opts: TlsOptions, items: seq<Fields>, last: nat, i: nat)
    requires codec.Lawful() && Apply(codec, opts, items).Success?
    requires last < |items| && HasConfig(items[last]) && forall j | last < j < |items| :: !HasConfig(items[j])
    requires i < |items|
    ensures |Apply(codec, opts, items).value| == |items|
    ensures RewriteConfig(codec, opts, items[i]).Success?
    ensures Injected(codec, opts, ConfigText(items[last])).Success?
    ensures
      var after := Apply(codec, opts, items).value[i];
      var hash := codec.hash(Injected(codec, opts, ConfigText(items[last])).value);
      if HasConfig(items[i]) then after == RewriteConfig(codec, opts, items[i]).value
      else if IsOperandDeployment(items[i]) then Annotate(hash, items[i]) == Success(after)
      else after == items[i]
  {
    var rewritten := RewriteAll(codec, opts, items);
    forall j | 0 <= j < |items|
      ensures HasConfig(rewritten[j]) <==> HasConfig(items[j])
      ensures !HasConfig(items[j]) ==> rewritten[j] == items[j]
    {
      RewriteTwice(codec, opts, items[j]);
    }
    HashOfLast(codec, rewritten, last);
    RewrittenConfig(codec, opts, items[last]);
    if HasConfig(items[i]) {
      RewrittenConfig(codec, opts, items[i]);
    }
  }

  // Every operand Deployment carries the hash of the final text of the last operand configuration.
  lemma AnnotationIsHash(codec: Codec, opts: TlsOptions, items: seq<Fields>, last: nat, i: nat)
    requires codec.Lawful() && Apply(codec, opts, items).Success?
    requires last < |items| && HasConfig(items[last]) && forall j | last < j < |items| :: !HasConfig(items[j])
    requires i < |items| && IsOperandDeployment(items[i])
    ensures |Apply(codec, opts, items).value| == |items| && HasConfig(Apply(codec, opts, items).value[last])
    ensures
      var after := Apply(codec, opts, items).value;
      var annotations := NestedStringMap(after[i], ANNOTATIONS_PATH);
      && annotations.Present? && HASH_ANNOTATION in annotations.value
      && annotations.value[HASH_ANNOTATION] == codec.hash(ConfigText(after[last]))
  {
    Effect(codec, opts, items, last, last);
    Effect(codec, opts, items, last, i);
    RewrittenConfig(codec, opts, items[last]);
    AnnotatedDeployment(codec.hash(Injected(codec, opts, ConfigText(items[last])).value), items[i]);
  }

  // What is neither at, above nor below the two paths is as it was.
  lemma RestUnchanged(codec: Codec, opts: TlsOptions, items: seq<Fields>, i: nat, path: seq<string>)
    requires codec.Lawful() && Apply(codec, opts, items).Success? && i < |items| && path != []
    requires !(CONFIG_PATH <= path) && !(path <= CONFIG_PATH)
    requires !(ANNOTATIONS_PATH <= path) && !(path <= ANNOTATIONS_PATH)
    ensures |Apply(codec, opts, items).value| == |items|
    ensures Nested(Apply(codec, opts, items).value[i], path) == Nested(items[i], path)
  {
    var item := items[i];
    var rewritten := RewriteConfig(codec, opts, item).value;
    if HasConfig(item) {
      RewrittenConfig(codec, opts, item);
      SetLeavesRest(item, CONFIG_PATH, Text(ConfigText(rewritten)), path);
    } else {
      RewriteTwice(codec, opts, item);
    }
    var all := RewriteAll(codec, opts, items);
    var hash := ConfigHash(codec, all);
    assert all[i] == rewritten;
    if hash != "" && IsOperandDeployment(all[i]) {
      assert Annotate(hash, all[i]).Success?;
      AnnotatedDeployment(hash, rewritten);
      var read := NestedStringMap(rewritten, ANNOTATIONS_PATH);
      var annotations := if read.Present? then read.value else map[];
      SetLeavesRest(rewritten, ANNOTATIONS_PATH, Object(FromTexts(annotations[HASH_ANNOTATION := hash])), path);
    }
  }

  // With an operand configuration in the list, the pod templates of a Deployment rendered
  // under two sets of options are the same exactly when the options are.
  lemma RollsExactlyOnChange(codec: Codec, a: TlsOptions, b: TlsOptions, items: seq<Fields>, i: nat)
    requires codec.Lawful() && exists item <- items :: HasConfig(item)
    requires Apply(codec, a, items).Success? && Apply(codec, b, items).Success?
    requires i < |items| && IsOperandDeployment(items[i])
    ensures |Apply(codec, a, items).value| == |items| == |Apply(codec, b, items).value|
    ensures
      Nested(Apply(codec, a, items).value[i], TEMPLATE_PATH) == Nested(Apply(codec, b, items).value[i], TEMPLATE_PATH)
      <==> a == b
  {
    var some :| 0 <= some < |items| && HasConfig(items[some]);
    var last := LastWhere(items, HasConfig, some, |items|);
    Effect(codec, a, items, last, i);
    Effect(codec, b, items, last, i);
    var ra, rb := Apply(codec, a, items).value[i], Apply(codec, b, items).value[i];
    if Nested(ra, TEMPLATE_PATH) == Nested(rb, TEMPLATE_PATH) {
      SameTemplateSameHash(codec, ConfigText(items[last]), a, b, items[i]);
      InjectedInjective(codec, ConfigText(items[last]), a, b);
    }
  }

  lemma InjectedInjective(codec: Codec, raw: string, a: TlsOptions, b: TlsOptions)
    requires codec.Lawful() && Injected(codec, a, raw).Success?
    requires Injected(codec, a, raw) == Injected(codec, b, raw)
    ensures a == b
  {
    var cfg := match codec.unmarshal(raw).value case Some(c) => c case None => map[];
    var ca, cb := cfg["tls" := Encode(a)], cfg["tls" := Encode(b)];
    assert codec.unmarshal(codec.marshal(ca)) == codec.unmarshal(codec.marshal(cb));
    assert ca["tls"] == cb["tls"];
    EncodeInjective(a, b);
  }

  lemma SameTemplateSameHash(codec: Codec, raw: string, a: TlsOptions, b: TlsOptions, item: Fields)
    requires codec.Lawful() && IsOperandDeployment(item)
    requires Injected(codec, a, raw).Success? && Injected(codec, b, raw).Success?
    requires Annotate(codec.hash(Injected(codec, a, raw).value), item).Success?
    requires Annotate(codec.hash(Injected(codec, b, raw).value), item).Success?
    requires Nested(Annotate(codec.hash(Injected(codec, a, raw).value), item).value, TEMPLATE_PATH) ==
             Nested(Annotate(codec.hash(Injected(codec, b, raw).value), item).value, TEMPLATE_PATH)
    ensures Injected(codec, a, raw) == Injected(codec, b, raw)
  {
    var ha, hb := codec.hash(Injected(codec, a, raw).value), codec.hash(Injected(codec, b, raw).value);
    AnnotatedDeployment(ha, item);
    AnnotatedDeployment(hb, item);
    var ra, rb := Annotate(ha, item).value, Annotate(hb, item).value;
    assert ANNOTATIONS_PATH == TEMPLATE_PATH + ["metadata", "annotations"];
    NestedBelow(ra, TEMPLATE_PATH, ["metadata", "annotations"]);
    NestedBelow(rb, TEMPLATE_PATH, ["metadata", "annotations"]);
    assert NestedStringMap(ra, ANNOTATIONS_PATH).value[HASH_ANNOTATION] == ha;
    assert NestedStringMap(rb, ANNOTATIONS_PATH).value[HASH_ANNOTATION] == hb;
  }

  // --- In terms of the items alone ---

  ghost predicate IsText(item: Fields, path: seq<string>, text: string)
    requires path != []
  {
    Nested(item, path) == Present(Text(text))
  }

  // The ConfigMap that the generator makes of the operand's configuration file.
  ghost predicate OperandConfigMap(item: Fields) {
    && IsText(item, ["kind"], "ConfigMap")
    && exists suffix :: IsText(item, ["metadata", "name"], "kubeflow-trainer-config" + suffix)
  }

  ghost predicate ControllerDeployment(item: Fields) {
    && IsText(item, ["kind"], "Deployment")
    && IsText(item, ["metadata", "name"], "kubeflow-trainer-controller-manager")
  }

  // It holds this configuration.
  ghost predicate Configured(item: Fields, raw: string) {
    OperandConfigMap(item) && IsText(item, ["data", "controller_manager_config.yaml"], raw)
  }

  lemma IdentityIs(item: Fields)
    ensures IsOperandConfig(item) <==> OperandConfigMap(item)
    ensures IsOperandDeployment(item) <==> ControllerDeployment(item)
  {
    var name := GetName(item);
    Strings.PrefixIff(name, CONFIG_MAP_PREFIX);
    if OperandConfigMap(item) {
      var suffix :| IsText(item, ["metadata", "name"], "kubeflow-trainer-config" + suffix);
      assert name == CONFIG_MAP_PREFIX + suffix;
    }
    if IsOperandConfig(item) {
      var suffix :| name == CONFIG_MAP_PREFIX + suffix;
      assert name != "";
      assert IsText(item, ["metadata", "name"], "kubeflow-trainer-config" + suffix);
    }
  }

  lemma ConfiguredIs(item: Fields, raw: string)
    ensures Configured(item, raw) <==> HasConfig(item) && ConfigText(item) == raw
  {
    IdentityIs(item);
    TypedNested(item, CONFIG_PATH, raw, map[]);
  }

  // The tls section has these fields, each left out exactly if it is empty, and no others.
  ghost predicate Holds(tls: Fields, opts: TlsOptions) {
    && tls.Keys <= {"minVersion", "cipherSuites", "curvePreferences"}
    && (if opts.minVersion == "" then "minVersion" !in tls
        else "minVersion" in tls && tls["minVersion"] == Text(opts.minVersion))
    && (if opts.cipherSuites == [] then "cipherSuites" !in tls
        else
          && "cipherSuites" in tls && tls["cipherSuites"].List?
          && var list := tls["cipherSuites"].elements;
          && |list| == |opts.cipherSuites|
          && forall i | 0 <= i < |list| :: list[i] == Text(opts.cipherSuites[i]))
    && (if opts.curvePreferences == [] then "curvePreferences" !in tls
        else
          && "curvePreferences" in tls && tls["curvePreferences"].List?
          && var list := tls["curvePreferences"].elements;
          && |list| == |opts.curvePreferences|
          && forall i | 0 <= i < |list| :: list[i] == Number(opts.curvePreferences[i]))
  }

  lemma EncodeHolds(opts: TlsOptions)
    ensures Encode(opts).Object? && Holds(Encode(opts).fields, opts)
  {
  }

  // A parsed configuration with the section in it and everything else as before.
  ghost predicate Extends(after: Fields, before: Fields, opts: TlsOptions) {
    && after.Keys == before.Keys + {"tls"}
    && (forall key <- before | key != "tls" :: after[key] == before[key])
    && after["tls"].Object? && Holds(after["tls"].fields, opts)
  }

  function Parsed(cfg: Option<Fields>): Fields {
    match cfg case Some(c) => c case None => map[]
  }

  // In the result each configuration of the list has gained the options, field by field.
  lemma ConfigMeans(codec: Codec, opts: TlsOptions, items: seq<Fields>, i: nat, raw: string) returns (text: string)
    requires codec.Lawful() && Apply(codec, opts, items).Success?
    requires i < |items| && Configured(items[i], raw)
    ensures |Apply(codec, opts, items).value| == |items| && Configured(Apply(codec, opts, items).value[i], text)
    ensures codec.unmarshal(raw).Success? && codec.unmarshal(text).Success? && codec.unmarshal(text).value.Some?
    ensures Extends(codec.unmarshal(text).value.value, Parsed(codec.unmarshal(raw).value), opts)
  {
    ConfiguredIs(items[i], raw);
    var last := LastWhere(items, HasConfig, i, |items|);
    Effect(codec, opts, items, last, i);
    RewrittenConfig(codec, opts, items[i]);
    var after := Apply(codec, opts, items).value[i];
    text := ConfigText(after);
    ConfiguredIs(after, text);
    ExtendsByEncode(Parsed(codec.unmarshal(raw).value), opts);
  }

  lemma ExtendsByEncode(cfg: Fields, opts: TlsOptions)
    ensures Extends(cfg["tls" := Encode(opts)], cfg, opts)
  {
    EncodeHolds(opts);
  }

  // The annotations, if there are any that can be read.
  ghost predicate Annotated(item: Fields, annotations: map<string, string>) {
    || Nested(item, ["spec", "template", "metadata", "annotations"]) == Present(Object(FromTexts(annotations)))
    || (annotations == map[] && Nested(item, ["spec", "template", "metadata", "annotations"]).Absent?)
  }

  // In the result the Deployment carries the hash of the last configuration's text beside the
  // annotations it had.
  lemma AnnotationMeans(
    codec: Codec, opts: TlsOptions, items: seq<Fields>, i: nat, annotations: map<string, string>,
    last: nat, raw: string)
    returns (text: string)
    requires codec.Lawful() && Apply(codec, opts, items).Success?
    requires i < |items| && ControllerDeployment(items[i]) && Annotated(items[i], annotations)
    requires last < |items| && Configured(items[last], raw)
    requires forall j, other | last < j < |items| :: !Configured(items[j], other)
    ensures |Apply(codec, opts, items).value| == |items| && Configured(Apply(codec, opts, items).value[last], text)
    ensures Annotated(
      Apply(codec, opts, items).value[i],
      annotations["trainer.platform.opendatahub.io/tls-config-hash" := codec.hash(text)])
  {
    IdentityIs(items[i]);
    ConfiguredIs(items[last], raw);
    forall j | last < j < |items|
      ensures !HasConfig(items[j])
    {
      if HasConfig(items[j]) {
        ConfiguredIs(items[j], ConfigText(items[j]));
      }
    }
    Effect(codec, opts, items, last, last);
    Effect(codec, opts, items, last, i);
    RewrittenConfig(codec, opts, items[last]);
    text := ConfigText(Apply(codec, opts, items).value[last]);
    ConfiguredIs(Apply(codec, opts, items).value[last], text);
    AnnotatedDeployment(codec.hash(text), items[i]);
    TypedNested(items[i], ANNOTATIONS_PATH, "", annotations);
    TypedNested(
      Apply(codec, opts, items).value[i], ANNOTATIONS_PATH, "", annotations[HASH_ANNOTATION := codec.hash(text)]);
  }

  // The configuration, if there is one, can be parsed.
  ghost predicate Parsable(codec: Codec, item: Fields) {
    || Nested(item, ["data", "controller_manager_config.yaml"]).Absent?
    || exists raw :: IsText(item, ["data", "controller_manager_config.yaml"], raw) && codec.unmarshal(raw).Success?
  }

  // An annotation can be set: nothing but objects on the way, and nothing but texts there.
  ghost predicate CanAnnotate(item: Fields) {
    var path := ["spec", "template", "metadata", "annotations"];
    if Nested(item, path).Absent? then forall i | 0 < i < |path| :: Passable(Nested(item, path[..i]))
    else exists annotations :: Annotated(item, annotations)
  }

  lemma RewriteSucceedsIff(codec: Codec, opts: TlsOptions, item: Fields)
    ensures RewriteConfig(codec, opts, item).Success? <==> (OperandConfigMap(item) ==> Parsable(codec, item))
  {
    IdentityIs(item);
    match NestedString(item, CONFIG_PATH) {
      case Absent =>
        TypedNested(item, CONFIG_PATH, "", map[]);
      case Invalid =>
        TypedNested(item, CONFIG_PATH, "", map[]);
        forall raw
          ensures !IsText(item, CONFIG_PATH, raw)
        {
          TypedNested(item, CONFIG_PATH, raw, map[]);
        }
      case Present(raw) =>
        TypedNested(item, CONFIG_PATH, raw, map[]);
        assert IsText(item, CONFIG_PATH, raw);
        assert CONFIG_PATH == ["data"] + ["controller_manager_config.yaml"];
        NestedBelow(item, ["data"], ["controller_manager_config.yaml"]);
        NestedOne(item, "data");
    }
  }

  lemma PrefixPassable(item: Fields, path: seq<string>, i: nat)
    requires 0 < i < |path| && Nested(item, path).Present?
    ensures Passable(Nested(item, path[..i]))
  {
    assert path == path[..i] + path[i..];
    NestedBelow(item, path[..i], path[i..]);
  }

  lemma AnnotateSucceedsIff(hash: string, item: Fields)
    ensures Annotate(hash, item).Success? <==> (ControllerDeployment(item) ==> CanAnnotate(item))
  {
    IdentityIs(item);
    var read := NestedStringMap(item, ANNOTATIONS_PATH);
    var annotations := if read.Present? then read.value else map[];
    TypedNested(item, ANNOTATIONS_PATH, "", annotations);
    SetSucceedsIff(item, ANNOTATIONS_PATH, Object(FromTexts(annotations[HASH_ANNOTATION := hash])));
    match read {
      case Absent =>
      case Present(texts) =>
        assert Annotated(item, texts);
        forall i | 0 < i < |ANNOTATIONS_PATH|
          ensures Passable(Nested(item, ANNOTATIONS_PATH[..i]))
        {
          PrefixPassable(item, ANNOTATIONS_PATH, i);
        }
      case Invalid =>
        forall texts
          ensures !Annotated(item, texts)
        {
          TypedNested(item, ANNOTATIONS_PATH, "", texts);
        }
    }
  }

  // The rewrite succeeds exactly if every operand ConfigMap that has the key can be parsed and, if
  // there is one, every operand Deployment can take the annotation.
  lemma ApplySucceedsIff(codec: Codec, opts: TlsOptions, items: seq<Fields>)
    requires codec.Lawful()
    ensures Apply(codec, opts, items).Success? <==>
      && (forall item <- items | OperandConfigMap(item) :: Parsable(codec, item))
      && ((exists item, raw :: item in items && Configured(item, raw)) ==>
            forall item <- items | ControllerDeployment(item) :: CanAnnotate(item))
  {
    forall i | 0 <= i < |items|
      ensures items[i] in items
      ensures RewriteConfig(codec, opts, items[i]).Success? <==>
        (OperandConfigMap(items[i]) ==> Parsable(codec, items[i]))
    {
      RewriteSucceedsIff(codec, opts, items[i]);
    }
    assert Rewritable(codec, opts, items) <==> forall item <- items | OperandConfigMap(item) :: Parsable(codec, item);
    if Rewritable(codec, opts, items) {
      HashIff(codec, opts, items);
      var rewritten := RewriteAll(codec, opts, items);
      var hash := ConfigHash(codec, rewritten);
      forall i | 0 <= i < |items|
        ensures Annotate(hash, rewritten[i]).Success? <==> (ControllerDeployment(items[i]) ==> CanAnnotate(items[i]))
      {
        RewriteTwice(codec, opts, items[i]);
        AnnotateSucceedsIff(hash, rewritten[i]);
        StaysOperand(codec, opts, items[i]);
        IdentityIs(items[i]);
      }
      assert Annotatable(hash, rewritten) <==> forall item <- items | ControllerDeployment(item) :: CanAnnotate(item);
    }
  }

  // A rewritten configuration is no Deployment, before or after.
  lemma StaysOperand(codec: Codec, opts: TlsOptions, item: Fields)
    requires codec.Lawful() && RewriteConfig(codec, opts, item).Success?
    ensures
      var after := RewriteConfig(codec, opts, item).value;
      (HasConfig(item) ==> !ControllerDeployment(item) && !ControllerDeployment(after)) &&
      (!HasConfig(item) ==> after == item)
  {
    RewriteTwice(codec, opts, item);
    IdentityIs(item);
    IdentityIs(RewriteConfig(codec, opts, item).value);
  }

  lemma HashIff(codec: Codec, opts: TlsOptions, items: seq<Fields>)
    requires codec.Lawful() && Rewritable(codec, opts, items)
    ensures ConfigHash(codec, RewriteAll(codec, opts, items)) != "" <==>
      exists item, raw :: item in items && Configured(item, raw)
  {
    var rewritten := RewriteAll(codec, opts, items);
    forall i | 0 <= i < |items|
      ensures HasConfig(rewritten[i]) <==> HasConfig(items[i])
    {
      RewriteTwice(codec, opts, items[i]);
    }
    if some :| 0 <= some < |items| && HasConfig(items[some]) {
      ConfiguredIs(items[some], ConfigText(items[some]));
      assert items[some] in items;
      var last := LastWhere(rewritten, HasConfig, some, |items|);
      HashOfLast(codec, rewritten, last);
    } else {
      NoHash(codec, rewritten);
      forall item, raw | item in items
        ensures !Configured(item, raw)
      {
        ConfiguredIs(item, raw);
      }
    }
  }

  // --- filterConfigMaps ---

  function WithoutConfigMaps(items: seq<Fields>): seq<Fields> {
    if items == [] then []
    else
      var last := items[|items| - 1];
      WithoutConfigMaps(items[..|items| - 1]) + if GetKind(last) != "ConfigMap" then [last] else []
  }

  method FilterConfigMaps(items: seq<Fields>) returns (filtered: seq<Fields>)
    ensures filtered == WithoutConfigMaps(items)
    ensures forall item :: item in filtered <==> item in items && GetKind(item) != "ConfigMap"
  {
    filtered := [];
    for i := 0 to |items|
      invariant filtered == WithoutConfigMaps(items[..i])
      invariant forall item :: item in filtered <==> item in items[..i] && GetKind(item) != "ConfigMap"
    {
      assert items[..i + 1][..i] == items[..i];
      Snoc(items[..i], items[i]);
      assert items[..i + 1] == items[..i] + [items[i]];
      if GetKind(items[i]) != "ConfigMap" {
        Snoc(filtered, items[i]);
        filtered := filtered + [items[i]];
      }
    }
    assert items[..|items|] == items;
  }

  // Filtering keeps the order and the number of the items that it keeps.
  lemma {:induction false} FilterConcat(a: seq<Fields>, b: seq<Fields>, item: Fields)
    ensures WithoutConfigMaps(a + b) == WithoutConfigMaps(a) + WithoutConfigMaps(b)
    ensures WithoutConfigMaps([item]) == if IsText(item, ["kind"], "ConfigMap") then [] else [item]
    decreases |b|
  {
    assert [item][..0] == [];
    TypedNested(item, ["kind"], "ConfigMap", map[]);
    if b == [] {
      assert a + b == a;
    } else {
      assert (a + b)[..|a + b| - 1] == a + b[..|b| - 1];
      FilterConcat(a, b[..|b| - 1], item);
    }
  }
}
