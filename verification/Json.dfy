/** JSON trees as nlohmann::json holds them: objects are maps with unique keys, visited in ascending key order. */
module JsonValues {
  import opened Common
  import opened Text

  datatype Json =
    | Null
    | Bool(b: bool)
    | Num(n: int)
    | Str(s: string)
    | Arr(items: seq<Json>)
    | Obj(fields: map<string, Json>)
  {
    // json.value(key, fallback) on an object
    function Field(key: string): Option<Json> {
      if Obj? && key in fields then Some(fields[key]) else None
    }
  }

  const EMPTY_OBJECT: Json := Obj(map[])
  const EMPTY_ARRAY: Json := Arr([])

  // Text parsing and printing are a library's; they are taken to be inverse.
  ghost predicate InversePair(dump: Json -> string, parse: string -> Option<Json>) {
    forall j :: parse(dump(j)) == Some(j)
  }

  // Two trees of the same shape whose string leaves are related; everything else, keys included, is equal.
  ghost predicate Related(rel: (string, string) -> bool, j: Json, r: Json) {
    match j
    case Str(s) => r.Str? && rel(s, r.s)
    case Arr(items) => r.Arr? && |r.items| == |items| && forall i ::
                                                          0 <= i < |items| ==> Related(rel, items[i], r.items[i])
    case Obj(fields) => r.Obj? && r.fields.Keys == fields.Keys && forall k ::
                                                                   k in fields ==> Related(rel, fields[k], r.fields[k])
    case _ => r == j
  }

  lemma RelatedFields(rel: (string, string) -> bool, fields: map<string, Json>, out: map<string, Json>)
    requires out.Keys == fields.Keys && forall k :: k in fields ==> Related(rel, fields[k], out[k])
    ensures Related(rel, Obj(fields), Obj(out))
  {
  }

  ghost predicate AllStrings(p: string -> bool, j: Json) {
    match j
    case Str(s) => p(s)
    case Arr(items) => forall i :: 0 <= i < |items| ==> AllStrings(p, items[i])
    case Obj(fields) => forall k :: k in fields ==> AllStrings(p, fields[k])
    case _ => true
  }

  // If related strings satisfy q whenever the source satisfies p, so do all string leaves of related trees.
  lemma {:induction false} RelatedStrings(rel: (string, string) -> bool, p: string -> bool, q: string -> bool,
      j: Json, r: Json)
    requires Related(rel, j, r) && AllStrings(p, j)
    requires forall s, s' :: p(s) && rel(s, s') ==> q(s')
    ensures AllStrings(q, r)
  {
    match j
    case Arr(items) =>
      forall i | 0 <= i < |items| ensures AllStrings(q, r.items[i]) { RelatedStrings(rel, p, q, items[i], r.items[i]); }
    case Obj(fields) =>
      forall k | k in fields ensures AllStrings(q, r.fields[k]) { RelatedStrings(rel, p, q, fields[k], r.fields[k]); }
    case _ =>
  }

  // If a relation fixes every string satisfying p, it relates a tree of such strings to itself only.
  lemma {:induction false} RelatedFixpoint(rel: (string, string) -> bool, p: string -> bool, j: Json, r: Json)
    requires Related(rel, j, r) && AllStrings(p, j)
    requires forall s, s' :: p(s) && rel(s, s') ==> s' == s
    ensures r == j
  {
    match j
    case Arr(items) =>
      forall i | 0 <= i < |items| ensures r.items[i] == items[i] { RelatedFixpoint(rel, p, items[i], r.items[i]); }
      assert r.items == items;
    case Obj(fields) =>
      forall k | k in fields ensures r.fields[k] == fields[k] { RelatedFixpoint(rel, p, fields[k], r.fields[k]); }
      assert r.fields == fields;
    case _ =>
  }
}
