/**
 JSON trees and the accessors of an unstructured Kubernetes object, with the
 environment defaulting of internal/utils/utils.go.
 */
module Json {
  import opened Wrappers

  datatype Json =
    | Str(s: string)
    | Null
    | Scalar(literal: string)
    | Arr(items: seq<Json>)
    | Map(fields: Fields)

  /** The content of an object: its top-level fields. */
  type Fields = map<string, Json>

  /** What a nested access finds: a value, nothing, or a non-map on the way. */
  datatype Lookup = Found(value: Json) | Absent | TypeError

  function NestedField(tree: Json, path: seq<string>): Lookup {
    if path == [] then Found(tree)
    else match tree
      case Null => Absent
      case Map(fields) => if path[0] in fields then NestedField(fields[path[0]], path[1..]) else Absent
      case _ => TypeError
  }

  /** A string access; a value of another type is an error. */
  function NestedString(obj: Fields, path: seq<string>): Lookup {
    match NestedField(Map(obj), path)
    case Found(Str(s)) => Found(Str(s))
    case Found(_) => TypeError
    case other => other
  }

  /** Stores `value` under `path`, creating absent maps; `None` when a non-map is in the way. */
  function SetNestedField(obj: Fields, value: Json, path: seq<string>): Option<Fields>
    requires path != []
    decreases |path|
  {
    if |path| == 1 then Some(obj[path[0] := value])
    else if path[0] !in obj then
      match SetNestedField(map[], value, path[1..])
      case Some(inner) => Some(obj[path[0] := Map(inner)])
      case None => None
    else if obj[path[0]].Map? then
      match SetNestedField(obj[path[0]].fields, value, path[1..])
      case Some(inner) => Some(obj[path[0] := Map(inner)])
      case None => None
    else None
  }

  const ENVIRONMENT_PATH := ["spec", "environment"]

  /** The object after environment defaulting. */
  function WithEnvironment(obj: Fields): Fields {
    match NestedString(obj, ENVIRONMENT_PATH)
    case Absent =>
      (match SetNestedField(obj, Str("default"), ENVIRONMENT_PATH)
       case Some(edited) => edited
       case None => obj)
    case _ => obj
  }

  /** An object handed around by reference: whoever edits it edits it for every holder. */
  class Unstructured {
    var fields: Fields

    constructor (fields: Fields)
      ensures this.fields == fields
    {
      this.fields := fields;
    }

    method AddMissingEnvironment()
      modifies this
      ensures fields == WithEnvironment(old(fields))
    {
      var environment := NestedString(fields, ENVIRONMENT_PATH);
      if environment.TypeError? {
        return;
      }
      if environment.Absent? {
        var edited := SetNestedField(fields, Str("default"), ENVIRONMENT_PATH);
        if edited.Some? {
          fields := edited.value;
        }
      }
    }
  }

  // ----- Accessors ---------------------------------------------------------

  /** The string under `path`, or "" when there is none. */
  function StringOrEmpty(obj: Fields, path: seq<string>): string {
    match NestedString(obj, path)
    case Found(Str(s)) => s
    case _ => ""
  }

  function Name(obj: Fields): string { StringOrEmpty(obj, ["metadata", "name"]) }
  function Uid(obj: Fields): string { StringOrEmpty(obj, ["metadata", "uid"]) }
  function ResourceVersion(obj: Fields): string { StringOrEmpty(obj, ["metadata", "resourceVersion"]) }
  function ApiVersion(obj: Fields): string { StringOrEmpty(obj, ["apiVersion"]) }
  function Kind(obj: Fields): string { StringOrEmpty(obj, ["kind"]) }

  /** The string in a field of a map, or "" when there is none. */
  function StringAt(fields: Fields, field: string): string {
    if field in fields && fields[field].Str? then fields[field].s else ""
  }

  /** The `metadata` of an object; without any, or with something else in its place, it is empty. */
  function Metadata(obj: Fields): Fields {
    if "metadata" in obj && obj["metadata"].Map? then obj["metadata"].fields else map[]
  }

  /** Where the accessors read, and that an absent string reads as "". */
  lemma AccessorsRead(obj: Fields)
    ensures Name(obj) == StringAt(Metadata(obj), "name")
    ensures Uid(obj) == StringAt(Metadata(obj), "uid")
    ensures ResourceVersion(obj) == StringAt(Metadata(obj), "resourceVersion")
    ensures ApiVersion(obj) == StringAt(obj, "apiVersion")
    ensures Kind(obj) == StringAt(obj, "kind")
  {
    MetadataReads(obj, "name");
    MetadataReads(obj, "uid");
    MetadataReads(obj, "resourceVersion");
    FieldReads(obj, "apiVersion");
    FieldReads(obj, "kind");
  }

  lemma FieldReads(obj: Fields, field: string)
    ensures StringOrEmpty(obj, [field]) == StringAt(obj, field)
  {
    assert [field][1..] == [];
    assert NestedField(Map(obj), [field]) == if field in obj then Found(obj[field]) else Absent;
  }

  lemma MetadataReads(obj: Fields, field: string)
    ensures StringOrEmpty(obj, ["metadata", field]) == StringAt(Metadata(obj), field)
  {
    TwoSteps(Map(obj), "metadata", field);
    assert ["metadata"][1..] == [] && [field][1..] == [];
    if "metadata" in obj && obj["metadata"].Map? {
      FieldReads(Metadata(obj), field);
    }
  }

  /** What a nested access finds at each depth: a null counts as absent, any other non-map as an error. */
  lemma NestedFieldSteps(tree: Json, head: string, rest: seq<string>)
    ensures NestedField(tree, []) == Found(tree)
    ensures tree.Map? ==>
              NestedField(tree, [head] + rest) ==
              if head in tree.fields then NestedField(tree.fields[head], rest) else Absent
    ensures tree.Null? ==> NestedField(tree, [head] + rest) == Absent
    ensures tree.Str? || tree.Scalar? || tree.Arr? ==> NestedField(tree, [head] + rest) == TypeError
  {
    assert ([head] + rest)[1..] == rest;
  }

  /** A string access finds strings only; any other value is an error, an absent one is absent. */
  lemma NestedStringFinds(obj: Fields, path: seq<string>)
    ensures match NestedField(Map(obj), path)
            case Found(value) => NestedString(obj, path) == if value.Str? then Found(value) else TypeError
            case Absent => NestedString(obj, path) == Absent
            case TypeError => NestedString(obj, path) == TypeError
  {
  }

  // ----- What the defaulting does and leaves alone --------------------------

  /** The defaulting has room to act: `spec` is absent, or a map without the field. */
  predicate LacksEnvironment(obj: Fields) {
    "spec" !in obj || (obj["spec"].Map? && "environment" !in obj["spec"].fields)
  }

  lemma TwoSteps(tree: Json, a: string, b: string)
    ensures NestedField(tree, [a, b]) ==
            match NestedField(tree, [a])
            case Found(v) => NestedField(v, [b])
            case other => other
  {
  }

  lemma EnvironmentLookup(obj: Fields)
    ensures NestedString(obj, ENVIRONMENT_PATH).Absent? <==>
            LacksEnvironment(obj) || obj["spec"].Null?
  {
    TwoSteps(Map(obj), "spec", "environment");
    assert ["spec"][1..] == [] && ["environment"][1..] == [];
  }

  /** Exactly when an object changes, and exactly what it becomes. */
  lemma EnvironmentIsExact(obj: Fields)
    ensures WithEnvironment(obj) ==
            if "spec" !in obj then obj["spec" := Map(map["environment" := Str("default")])]
            else if LacksEnvironment(obj)
            then obj["spec" := Map(obj["spec"].fields["environment" := Str("default")])]
            else obj
    ensures WithEnvironment(obj) != obj <==> LacksEnvironment(obj)
  {
    EnvironmentLookup(obj);
    assert ENVIRONMENT_PATH[1..] == ["environment"];
  }

  lemma EnvironmentIdempotent(obj: Fields)
    ensures WithEnvironment(WithEnvironment(obj)) == WithEnvironment(obj)
  {
    EnvironmentIsExact(obj);
    EnvironmentIsExact(WithEnvironment(obj));
  }

  /** After the defaulting the field holds a string, or nothing was touched. */
  lemma EnvironmentIsStringOrUntouched(obj: Fields)
    ensures WithEnvironment(obj) == obj || NestedString(WithEnvironment(obj), ENVIRONMENT_PATH) == Found(Str("default"))
  {
    EnvironmentIsExact(obj);
    TwoSteps(Map(WithEnvironment(obj)), "spec", "environment");
    assert ["spec"][1..] == [] && ["environment"][1..] == [];
  }

  /**
   Every path keeps what it held: a value that is no map is found again unchanged,
   and any path outside `spec` and what lies below `spec.environment` reads the same.
   */
  lemma EnvironmentKeepsPaths(obj: Fields, path: seq<string>)
    ensures var before, after := NestedField(Map(obj), path), NestedField(Map(WithEnvironment(obj)), path);
            && (before.Found? ==> after.Found?)
            && (before.Found? && !before.value.Map? ==> after == before)
            && (path != [] && path != ["spec"] && !(ENVIRONMENT_PATH <= path) ==> after == before)
  {
    EnvironmentIsExact(obj);
    var after := WithEnvironment(obj);
    if path != [] && path[0] == "spec" && after != obj {
      var rest := path[1..];
      assert path == ["spec"] + rest;
      assert NestedField(Map(after), path) == NestedField(after["spec"], rest);
      if rest != [] {
        assert path == ["spec", rest[0]] + rest[1..];
        assert rest[0] == "environment" ==> ENVIRONMENT_PATH <= path;
        assert rest[0] != "environment" && rest[0] in after["spec"].fields ==> "spec" in obj;
      }
    }
  }

  lemma EnvironmentKeepsString(obj: Fields, path: seq<string>)
    requires path != [] && path[0] != "spec"
    ensures StringOrEmpty(WithEnvironment(obj), path) == StringOrEmpty(obj, path)
  {
  }

  /** What identifies an object survives the defaulting. */
  lemma EnvironmentKeepsIdentity(obj: Fields)
    ensures var after := WithEnvironment(obj);
            && Name(after) == Name(obj) && Uid(after) == Uid(obj)
            && ResourceVersion(after) == ResourceVersion(obj)
            && ApiVersion(after) == ApiVersion(obj) && Kind(after) == Kind(obj)
  {
    EnvironmentKeepsString(obj, ["metadata", "name"]);
    EnvironmentKeepsString(obj, ["metadata", "uid"]);
    EnvironmentKeepsString(obj, ["metadata", "resourceVersion"]);
    EnvironmentKeepsString(obj, ["apiVersion"]);
    EnvironmentKeepsString(obj, ["kind"]);
  }
}
