// The nested-field helpers of k8s.io/apimachinery's unstructured package, over JSON values.
module Unstructured {
  import opened Outcome

  datatype Value =
    | Null
    | Text(text: string)
    | Number(number: int)
    | Flag(flag: bool)
    | List(elements: seq<Value>)
    | Object(fields: Fields)

  type Fields = map<string, Value>

  // The (value, found, error) triple of the getters.
  datatype Lookup<+T> = Absent | Present(value: T) | Invalid

  // NestedFieldNoCopy: a null on the way counts as absent, any other non-object is an error.
  function Nested(fields: Fields, path: seq<string>): Lookup<Value>
    requires path != []
    decreases |path|
  {
    if path[0] !in fields then Absent
    else if |path| == 1 then Present(fields[path[0]])
    else
      match fields[path[0]]
      case Object(sub) => Nested(sub, path[1..])
      case Null => Absent
      case _ => Invalid
  }

  function NestedString(fields: Fields, path: seq<string>): Lookup<string>
    requires path != []
  {
    match Nested(fields, path)
    case Absent => Absent
    case Present(Text(text)) => Present(text)
    case _ => Invalid
  }

  predicate AllTexts(fields: Fields) {
    forall key <- fields :: fields[key].Text?
  }

  function Texts(fields: Fields): map<string, string>
    requires AllTexts(fields)
  {
    map key | key in fields :: fields[key].text
  }

  function FromTexts(texts: map<string, string>): Fields {
    map key | key in texts :: Text(texts[key])
  }

  function NestedStringMap(fields: Fields, path: seq<string>): Lookup<map<string, string>>
    requires path != []
  {
    match Nested(fields, path)
    case Absent => Absent
    case Present(Object(sub)) => if AllTexts(sub) then Present(Texts(sub)) else Invalid
    case _ => Invalid
  }

  // SetNestedField: missing objects on the way are created, anything else on the way is an error.
  function SetNested(fields: Fields, path: seq<string>, value: Value): Option<Fields>
    requires path != []
    decreases |path|
  {
    if |path| == 1 then Some(fields[path[0] := value])
    else if path[0] in fields && !fields[path[0]].Object? then None
    else
      match SetNested(if path[0] in fields then fields[path[0]].fields else map[], path[1..], value)
      case None => None
      case Some(sub) => Some(fields[path[0] := Object(sub)])
  }

  function GetKind(fields: Fields): string {
    match NestedString(fields, ["kind"]) case Present(kind) => kind case _ => ""
  }

  function GetName(fields: Fields): string {
    match NestedString(fields, ["metadata", "name"]) case Present(name) => name case _ => ""
  }

  // --- Laws ---

  lemma {:induction false} GetAfterSet(fields: Fields, path: seq<string>, value: Value)
    requires path != [] && SetNested(fields, path, value).Some?
    ensures Nested(SetNested(fields, path, value).value, path) == Present(value)
    decreases |path|
  {
    if |path| > 1 {
      GetAfterSet(if path[0] in fields then fields[path[0]].fields else map[], path[1..], value);
    }
  }

  lemma {:induction false} SetAfterSet(fields: Fields, path: seq<string>, first: Value, second: Value)
    requires path != [] && SetNested(fields, path, first).Some?
    ensures SetNested(SetNested(fields, path, first).value, path, second) == SetNested(fields, path, second)
    decreases |path|
  {
    if |path| == 1 {
      UpdateTwice(fields, path[0], first, second);
    } else {
      var sub: Fields := if path[0] in fields then fields[path[0]].fields else map[];
      SetAfterSet(sub, path[1..], first, second);
      var sub1, sub2 := SetNested(sub, path[1..], first), SetNested(sub, path[1..], second);
      if sub2.Some? {
        UpdateTwice(fields, path[0], Object(sub1.value), Object(sub2.value));
      }
    }
  }

  lemma UpdateTwice(fields: Fields, key: string, first: Value, second: Value)
    ensures fields[key := first][key := second] == fields[key := second]
  {
  }

  // Only what lies at, above or below the path can look different afterwards.
  lemma {:induction false} SetLeavesRest(fields: Fields, path: seq<string>, value: Value, other: seq<string>)
    requires path != [] && SetNested(fields, path, value).Some?
    requires other != [] && !(path <= other) && !(other <= path)
    ensures Nested(SetNested(fields, path, value).value, other) == Nested(fields, other)
    decreases |path|
  {
    if path[0] == other[0] {
      var sub: Fields := if path[0] in fields then fields[path[0]].fields else map[];
      assert path == [path[0]] + path[1..] && other == [other[0]] + other[1..];
      SetLeavesRest(sub, path[1..], value, other[1..]);
    }
  }

  // A setter touches one top-level field only.
  lemma SetTouchesOneField(fields: Fields, path: seq<string>, value: Value)
    requires path != [] && SetNested(fields, path, value).Some?
    ensures
      var after := SetNested(fields, path, value).value;
      after.Keys == fields.Keys + {path[0]} && forall key <- fields | key != path[0] :: after[key] == fields[key]
  {
  }

  lemma SetKeepsIdentity(fields: Fields, path: seq<string>, value: Value)
    requires path != [] && SetNested(fields, path, value).Some?
    requires path[0] != "kind" && path[0] != "metadata"
    ensures GetKind(SetNested(fields, path, value).value) == GetKind(fields)
    ensures GetName(SetNested(fields, path, value).value) == GetName(fields)
  {
    SetTouchesOneField(fields, path, value);
  }

  // A field below an object is a field of that object.
  lemma {:induction false} NestedBelow(fields: Fields, above: seq<string>, below: seq<string>)
    requires above != [] && below != []
    ensures Nested(fields, above + below) ==
      match Nested(fields, above)
      case Present(Object(sub)) => Nested(sub, below)
      case Present(Null) => Absent
      case Present(_) => Invalid
      case Absent => Absent
      case Invalid => Invalid
    decreases |above|
  {
    if |above| == 1 {
      assert (above + below)[1..] == below;
    } else {
      assert (above + below)[1..] == above[1..] + below;
      if above[0] in fields && fields[above[0]].Object? {
        NestedBelow(fields[above[0]].fields, above[1..], below);
      }
    }
  }

  lemma TextsRoundTrip(texts: map<string, string>)
    ensures AllTexts(FromTexts(texts)) && Texts(FromTexts(texts)) == texts
  {
  }

  lemma NestedOne(fields: Fields, key: string)
    ensures Nested(fields, [key]) == if key in fields then Present(fields[key]) else Absent
  {
  }

  // A setter fails exactly if something other than an object stands on the way.
  lemma {:induction false} SetSucceedsIff(fields: Fields, path: seq<string>, value: Value)
    requires path != []
    ensures SetNested(fields, path, value).Some? <==>
      forall i | 0 < i < |path| :: Passable(Nested(fields, path[..i]))
    decreases |path|
  {
    if |path| > 1 {
      NestedOne(fields, path[0]);
      assert path[..1] == [path[0]];
      if path[0] !in fields {
        SetSucceedsIff(map[], path[1..], value);
        forall i | 0 < i < |path|
          ensures Passable(Nested(fields, path[..i]))
        {
          assert path[..i][0] == path[0];
        }
        assert forall i | 0 < i < |path[1..]| :: Passable(Nested(map[], path[1..][..i]));
      } else if fields[path[0]].Object? {
        var sub := fields[path[0]].fields;
        SetSucceedsIff(sub, path[1..], value);
        forall i | 1 < i < |path|
          ensures Nested(fields, path[..i]) == Nested(sub, path[1..][..i - 1])
        {
          assert path[..i][1..] == path[1..][..i - 1];
        }
        forall i | 0 < i < |path[1..]|
          ensures Passable(Nested(sub, path[1..][..i])) <==> Passable(Nested(fields, path[..i + 1]))
        {
        }
      } else {
        assert !Passable(Nested(fields, path[..1]));
      }
    }
  }

  predicate Passable(found: Lookup<Value>) {
    found.Absent? || (found.Present? && found.value.Object?)
  }

  // Texts and maps of texts are found as what they are; anything else there is an error.
  lemma TypedNested(fields: Fields, path: seq<string>, text: string, texts: map<string, string>)
    requires path != []
    ensures NestedString(fields, path) == Present(text) <==> Nested(fields, path) == Present(Text(text))
    ensures NestedString(fields, path).Absent? <==> Nested(fields, path).Absent?
    ensures NestedStringMap(fields, path) == Present(texts) <==>
      Nested(fields, path) == Present(Object(FromTexts(texts)))
    ensures NestedStringMap(fields, path).Absent? <==> Nested(fields, path).Absent?
    ensures FromTexts(texts).Keys == texts.Keys && forall key <- texts :: FromTexts(texts)[key] == Text(texts[key])
  {
    TextsRoundTrip(texts);
    if NestedStringMap(fields, path) == Present(texts) {
      var sub := Nested(fields, path).value.fields;
      assert FromTexts(Texts(sub)) == sub;
    }
  }
}
