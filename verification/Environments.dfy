/** Environment variables: the JSON codecs of environment.hpp and environment_cache.cpp, and the variables
    an execution starts from. */
module Environments {
  import opened Common
  import opened Text
  import opened JsonValues

  datatype Variable = Variable(key: string, value: string, secret: bool, description: string)

  datatype Environment = Environment(
    id: UUID, projectId: UUID, createdBy: UUID, name: string, variables: seq<Variable>, createdAt: int, updatedAt: int)

  // ---- codecs; None stands for the library's type errors ----

  function StringField(j: Json, key: string): Option<string> {
    if !j.Obj? then None
    else if key !in j.fields then Some("")
    else if j.fields[key].Str? then Some(j.fields[key].s)
    else None
  }

  function BoolField(j: Json, key: string): Option<bool> {
    if !j.Obj? then None
    else if key !in j.fields then Some(false)
    else if j.fields[key].Bool? then Some(j.fields[key].b)
    else None
  }

  function VariableToJson(v: Variable): Json {
    Obj(map["key" := Str(v.key), "value" := Str(v.value), "secret" := Bool(v.secret),
        "description" := Str(v.description)])
  }

  function VariableFromJson(j: Json): Option<Variable> {
    match (StringField(j, "key"), StringField(j, "value"), BoolField(j, "secret"), StringField(j, "description"))
    case (Some(k), Some(v), Some(s), Some(d)) => Some(Variable(k, v, s, d))
    case _ => None
  }

  function VariablesToJsonItems(vs: seq<Variable>): (items: seq<Json>)
    ensures |items| == |vs|
  {
    if vs == [] then [] else [VariableToJson(vs[0])] + VariablesToJsonItems(vs[1..])
  }

  function VariablesToJson(vs: seq<Variable>): Json { Arr(VariablesToJsonItems(vs)) }

  function VariablesFromItems(items: seq<Json>): Option<seq<Variable>> {
    if items == [] then Some([])
    else
      match (VariableFromJson(items[0]), VariablesFromItems(items[1..]))
      case (Some(v), Some(vs)) => Some([v] + vs)
      case _ => None
  }

  // Anything but an array reads as no variables.
  function VariablesFromJson(j: Json): Option<seq<Variable>> {
    if j.Arr? then VariablesFromItems(j.items) else Some([])
  }

  function EnvironmentToJson(e: Environment): Json {
    Obj(map["id" := Str(e.id), "project_id" := Str(e.projectId), "created_by" := Str(e.createdBy),
            "name" := Str(e.name), "variables" := VariablesToJson(e.variables)])
  }

  function EnvironmentFromJson(j: Json): Option<Environment> {
    var variables := if j.Obj? then VariablesFromJson(j.Field("variables").GetOr(EMPTY_ARRAY)) else None;
    match (StringField(j, "id"), StringField(j, "project_id"), StringField(j, "created_by"), StringField(j, "name"),
        variables)
    case (Some(id), Some(p), Some(c), Some(n), Some(vs)) => Some(Environment(id, p, c, n, vs, 0, 0))
    case _ => None
  }

  function WithoutTimes(e: Environment): Environment { e.(createdAt := 0, updatedAt := 0) }

  lemma VariableRoundTrip(v: Variable)
    ensures VariableFromJson(VariableToJson(v)) == Some(v)
  {
    assert "key" != "value" && "key" != "secret" && "key" != "description";
    assert "value" != "secret" && "value" != "description" && "secret" != "description";
  }

  lemma {:induction false} VariablesRoundTrip(vs: seq<Variable>)
    ensures VariablesFromJson(VariablesToJson(vs)) == Some(vs)
  {
    if vs != [] {
      VariableRoundTrip(vs[0]);
      VariablesRoundTrip(vs[1..]);
      assert VariablesToJsonItems(vs)[1..] == VariablesToJsonItems(vs[1..]);
      assert [vs[0]] + vs[1..] == vs;
    }
  }

  /** The cache codec loses the two timestamps and nothing else. */
  lemma EnvironmentRoundTrip(e: Environment)
    ensures EnvironmentFromJson(EnvironmentToJson(e)) == Some(WithoutTimes(e))
  {
    VariablesRoundTrip(e.variables);
    var f := EnvironmentToJson(e).fields;
    assert "id" in f && "project_id" in f && "created_by" in f && "name" in f && "variables" in f;
    assert "id"[0] != "project_id"[0] && "id"[0] != "created_by"[0] && "id"[0] != "name"[0]
        && "id"[0] != "variables"[0];
    assert "project_id"[0] != "created_by"[0] && "project_id"[0] != "name"[0] && "project_id"[0] != "variables"[0];
    assert "created_by"[0] != "name"[0] && "created_by"[0] != "variables"[0] && "name"[0] != "variables"[0];
    assert f["id"] == Str(e.id) && f["project_id"] == Str(e.projectId) && f["created_by"] == Str(e.createdBy);
    assert f["name"] == Str(e.name) && f["variables"] == VariablesToJson(e.variables);
  }

  /** The members of a printed variable and a printed environment. */
  lemma PrintedMembers(v: Variable, e: Environment)
    ensures VariableToJson(v).Field("key") == Some(Str(v.key)) && VariableToJson(v).Field("value") == Some(Str(v.value))
    ensures VariableToJson(v).Field("secret") == Some(Bool(v.secret))
    ensures VariableToJson(v).Field("description") == Some(Str(v.description))
    ensures var j := EnvironmentToJson(e);
            && j.Field("id") == Some(Str(e.id)) && j.Field("project_id") == Some(Str(e.projectId))
            && j.Field("created_by") == Some(Str(e.createdBy)) && j.Field("name") == Some(Str(e.name))
            && j.Field("variables") == Some(VariablesToJson(e.variables))
  {
    assert |"key"| == 3 && |"value"| == 5 && |"secret"| == 6 && |"description"| == 11;
    assert |"id"| == 2 && |"project_id"| == 10 && |"created_by"| == 10 && |"name"| == 4 && |"variables"| == 9;
    assert "project_id"[0] != "created_by"[0];
  }

  /** Reading a variable: it is refused exactly if a member is there with another type; what is not there is empty, or
      not secret. */
  lemma VariableReads(fields: map<string, Json>)
    ensures var v := VariableFromJson(Obj(fields));
            && (v.Some? <==>
                  && ("key" in fields ==> fields["key"].Str?) && ("value" in fields ==> fields["value"].Str?)
                  && ("secret" in fields ==> fields["secret"].Bool?)
                  && ("description" in fields ==> fields["description"].Str?))
            && (v.Some? ==>
                  && Str(v.value.key) == (if "key" in fields then fields["key"] else Str(""))
                  && Str(v.value.value) == (if "value" in fields then fields["value"] else Str(""))
                  && Bool(v.value.secret) == (if "secret" in fields then fields["secret"] else Bool(false))
                  && Str(v.value.description)
                     == (if "description" in fields then fields["description"] else Str("")))
  {
  }

  lemma {:induction false} ItemsRead(items: seq<Json>)
    ensures VariablesFromItems(items).Some? <==> forall i :: 0 <= i < |items| ==> VariableFromJson(items[i]).Some?
    ensures VariablesFromItems(items).Some? ==>
              |VariablesFromItems(items).value| == |items| && forall i :: 0 <= i < |items| ==>
                VariableFromJson(items[i]) == Some(VariablesFromItems(items).value[i])
  {
    hide VariableFromJson;
    if items != [] {
      ItemsRead(items[1..]);
      assert forall i :: 0 < i < |items| ==> items[i] == items[1..][i - 1];
    }
  }

  /** Reading an environment: it is refused exactly if a text member is there with another type or one of the variables
      is; missing texts are empty, and variables that are not an array are none. */
  lemma EnvironmentReads(fields: map<string, Json>)
    ensures var r := EnvironmentFromJson(Obj(fields));
            var items := if "variables" in fields && fields["variables"].Arr? then fields["variables"].items else [];
            && (r.Some? <==>
                  && ("id" in fields ==> fields["id"].Str?) && ("project_id" in fields ==> fields["project_id"].Str?)
                  && ("created_by" in fields ==> fields["created_by"].Str?)
                  && ("name" in fields ==> fields["name"].Str?)
                  && forall i :: 0 <= i < |items| ==> VariableFromJson(items[i]).Some?)
            && (r.Some? ==>
                  && ("id" !in fields ==> r.value.id == "") && ("name" !in fields ==> r.value.name == "")
                  && ("project_id" !in fields ==> r.value.projectId == "")
                  && ("created_by" !in fields ==> r.value.createdBy == "")
                  && |r.value.variables| == |items| && forall i :: 0 <= i < |items| ==>
                       VariableFromJson(items[i]) == Some(r.value.variables[i]))
  {
    ItemsRead(if "variables" in fields && fields["variables"].Arr? then fields["variables"].items else []);
    hide VariablesFromItems, VariableFromJson;
    assert VariablesFromJson(EMPTY_ARRAY) == VariablesFromItems([]);
  }

  // ---- the variables of an execution ----

  // A value that parses as JSON is that JSON, any other value is the string itself.
  function ParseValue(raw: string, parse: string -> Option<Json>): Json {
    match parse(raw)
    case Some(j) => j
    case None => Str(raw)
  }

  // The value of the last variable with this key.
  function LastValue(vs: seq<Variable>, key: string): Option<string> {
    if vs == [] then None
    else if vs[|vs| - 1].key == key then Some(vs[|vs| - 1].value)
    else LastValue(vs[..|vs| - 1], key)
  }

  // Per key the last writer of the list, above what was there before.
  ghost predicate Overlaid(base: map<string, Json>, vs: seq<Variable>, parse: string -> Option<Json>,
      r: map<string, Json>) {
    forall k :: Lookup(r, k) == (match LastValue(vs, k)
                                 case Some(raw) => Some(ParseValue(raw, parse))
                                 case None => Lookup(base, k))
  }

  function Lookup(m: map<string, Json>, k: string): Option<Json> {
    if k in m then Some(m[k]) else None
  }

  method OverlayVariables(base: map<string, Json>, vs: seq<Variable>,
      parse: string -> Option<Json>) returns (r: map<string, Json>)
    ensures Overlaid(base, vs, parse, r)
  {
    r := base;
    for i := 0 to |vs|
      invariant Overlaid(base, vs[..i], parse, r)
    {
      assert vs[..i + 1][..i] == vs[..i] && vs[..i + 1][i] == vs[i];
      r := r[vs[i].key := ParseValue(vs[i].value, parse)];
    }
    assert vs[..|vs|] == vs;
  }

  // The last writer of key k in the order globals, environment, overrides.
  function Winner(globals: seq<Variable>, environment: Option<Environment>, overrides: Json, k: string,
                  parse: string -> Option<Json>): Option<Json> {
    if overrides.Obj? && k in overrides.fields then Some(overrides.fields[k])
    else
      var fromEnvironment := if environment.Some? then LastValue(environment.value.variables, k) else None;
      match (if fromEnvironment.Some? then fromEnvironment else LastValue(globals, k))
      case Some(raw) => Some(ParseValue(raw, parse))
      case None => None
  }

  lemma {:induction false} LastValueIs(vs: seq<Variable>, key: string)
    ensures LastValue(vs, key).None? <==> forall i :: 0 <= i < |vs| ==> vs[i].key != key
    ensures LastValue(vs, key).Some? ==>
              exists i :: IsLast(vs, i, key) && LastValue(vs, key) == Some(vs[i].value)
    decreases |vs|
  {
    if vs != [] {
      var n := |vs| - 1;
      LastValueIs(vs[..n], key);
      if vs[n].key == key {
        assert IsLast(vs, n, key);
      } else if LastValue(vs[..n], key).Some? {
        var i :| IsLast(vs[..n], i, key) && LastValue(vs[..n], key) == Some(vs[..n][i].value);
        assert IsLast(vs, i, key);
      }
    }
  }

  // The last variable of the list with this key.
  ghost predicate IsLast(vs: seq<Variable>, i: int, key: string) {
    0 <= i < |vs| && vs[i].key == key && forall k :: i < k < |vs| ==> vs[k].key != key
  }

  lemma {:induction false} LastValueAppend(a: seq<Variable>, b: seq<Variable>, key: string)
    ensures LastValue(a + b, key) == if LastValue(b, key).Some? then LastValue(b, key) else LastValue(a, key)
    decreases |b|
  {
    if b == [] {
      assert a + b == a;
    } else {
      assert (a + b)[..|a + b| - 1] == a + b[..|b| - 1] && (a + b)[|a + b| - 1] == b[|b| - 1];
      LastValueAppend(a, b[..|b| - 1], key);
    }
  }

  /** Which value a key ends up with: the override's if there is one; else that of the last variable with the key in the
      globals followed by the environment's variables, as JSON if it parses and as a string if not; else none. */
  lemma WinnerIs(globals: seq<Variable>, environment: Option<Environment>, overrides: Json, k: string,
      parse: string -> Option<Json>)
    ensures var listed := globals + if environment.Some? then environment.value.variables else [];
            var winner := Winner(globals, environment, overrides, k, parse);
            if overrides.Obj? && k in overrides.fields then winner == Some(overrides.fields[k])
            else if forall i :: 0 <= i < |listed| ==> listed[i].key != k then winner == None
            else exists i :: IsLast(listed, i, k) &&
                   winner == (match parse(listed[i].value)
                              case Some(json) => Some(json)
                              case None => Some(Str(listed[i].value)))
  {
    var own := if environment.Some? then environment.value.variables else [];
    LastValueAppend(globals, own, k);
    LastValueIs(globals + own, k);
    assert environment.None? ==> globals + own == globals;
  }

  // resolveVariables; globals is None when no repository is configured, environment is what the cache returned.
  method ResolveVariables(globals: Option<seq<Variable>>, environment: Option<Environment>,
      parse: string -> Option<Json>)
    returns (resolved: map<string, Json>)
    ensures globals.None? ==> resolved == map[]
    ensures globals.Some? ==> forall k :: Lookup(resolved, k) == Winner(globals.value, environment, Null, k, parse)
  {
    resolved := map[];
    if globals.None? {
      return;
    }
    resolved := OverlayVariables(resolved, globals.value, parse);
    if environment.None? {
      return;
    }
    resolved := OverlayVariables(resolved, environment.value.variables, parse);
  }

  // mergeObjectInto: writes every field of an object, in key order; other sources change nothing.
  method MergeObjectInto(target: map<string, Json>, source: Json) returns (merged: map<string, Json>)
    ensures merged == if source.Obj? then target + source.fields else target
  {
    hide Ascending;
    merged := target;
    if !source.Obj? {
      return;
    }
    var fields := source.fields;
    var keys := SortedKeys(fields.Keys);
    for i := 0 to |keys|
      invariant forall j :: 0 <= j < i ==> keys[j] in merged
      invariant target.Keys <= merged.Keys
      invariant forall k :: k in merged ==> k in target || k in fields
      invariant forall k :: k in merged && k !in fields ==> merged[k] == target[k]
      invariant forall j :: 0 <= j < i ==> keys[j] in fields && merged[keys[j]] == fields[keys[j]]
    {
      assert keys[i] in keys;
      merged := merged[keys[i] := fields[keys[i]]];
    }
    AllMerged(target, fields, keys, merged);
  }

  lemma AllMerged(target: map<string, Json>, fields: map<string, Json>, keys: seq<string>, merged: map<string, Json>)
    requires forall k :: k in fields <==> k in keys
    requires forall j ::
              0 <= j < |keys| ==> keys[j] in merged && keys[j] in fields && merged[keys[j]] == fields[keys[j]]
    requires target.Keys <= merged.Keys
    requires forall k :: k in merged ==> k in target || k in fields
    requires forall k :: k in merged && k !in fields ==> merged[k] == target[k]
    ensures merged == target + fields
  {
    forall k | k in fields ensures k in merged && merged[k] == fields[k] { assert k in keys; }
  }

  /** The variables an execution starts from are, per key, the last writer in the order globals,
      environment, overrides; duplicates inside a list included.  Without a repository only the overrides count. */
  method StartVariables(globals: Option<seq<Variable>>, environment: Option<Environment>, overrides: Json,
      parse: string -> Option<Json>)
    returns (variables: map<string, Json>)
    ensures forall k ::
             Lookup(variables, k)
             == Winner(globals.GetOr([]), if globals.Some? then environment else None, overrides, k, parse)
  {
    var resolved := ResolveVariables(globals, environment, parse);
    variables := MergeObjectInto(resolved, overrides);
    ghost var read := if globals.Some? then environment else None;
    forall k ensures Lookup(variables, k) == Winner(globals.GetOr([]), read, overrides, k, parse) {
      assert Lookup(resolved, k) == Winner(globals.GetOr([]), read, Null, k, parse);
    }
  }

  // ---- the bindings a script sees ----

  // The environmentGet binding: the JSON text of the variable, or "null".
  function ScriptGet(variables: map<string, Json>, key: string, dump: Json -> string): string {
    if key in variables then dump(variables[key]) else "null"
  }

  // The environmentSet binding: a text that parses is stored as the JSON it denotes, any other as a string.
  function ScriptSet(variables: map<string, Json>, key: string, value: string,
      parse: string -> Option<Json>): map<string, Json> {
    variables[key := ParseValue(value, parse)]
  }

  /** Get after set: a script reads back the JSON it wrote (JSON text in its printed form, any other text as a JSON
      string), whatever was there before; other keys read as before; and what is read back may be set again without
      any change. */
  lemma GetAfterSet(variables: map<string, Json>, key: string, value: string, other: string, dump: Json -> string,
      parse: string -> Option<Json>)
    requires InversePair(dump, parse)
    ensures var after := ScriptSet(variables, key, value, parse);
            var text := ScriptGet(after, key, dump);
            && parse(text) == Some(if parse(value).Some? then parse(value).value else Str(value))
            && (forall j :: value == dump(j) ==> text == value)
            && (other != key ==> ScriptGet(after, other, dump) == ScriptGet(variables, other, dump))
            && ScriptSet(after, key, text, parse) == after
  {
  }

  class ScriptEnvironment {
    var variables: map<string, Json>

    constructor (variables: map<string, Json>)
      ensures this.variables == variables
    {
      this.variables := variables;
    }

    // A text read for a variable that is there parses to its value.
    method EnvironmentGet(key: string, dump: Json -> string, ghost parse: string -> Option<Json>) returns (text: string)
      requires InversePair(dump, parse)
      ensures text == ScriptGet(variables, key, dump)
      ensures key in variables ==> parse(text) == Some(variables[key])
      ensures key !in variables ==> text == "null"
    {
      if key !in variables {
        return "null";
      }
      return dump(variables[key]);
    }

    method EnvironmentSet(key: string, value: string, dump: Json -> string, parse: string -> Option<Json>)
      requires InversePair(dump, parse)
      modifies this
      ensures variables == ScriptSet(old(variables), key, value, parse)
      ensures key in variables && forall j :: value == dump(j) ==> dump(variables[key]) == value
      ensures parse(value).None? ==> variables[key] == Str(value)
      ensures variables - {key} == old(variables) - {key}
    {
      variables := variables[key := ParseValue(value, parse)];
    }
  }
}
