/** Substitution of request_executor.cpp, lifted from strings to JSON trees and endpoints. */
module RequestExecutor {
  import opened Common
  import opened Text
  import opened Splicing
  import opened Printing
  import opened DynamicVariables
  import opened Templates
  import opened Expansion
  import opened JsonValues
  import opened Endpoints
  import Environments

  // A string variable is inserted as it is, any other value as its JSON text.
  function ReplacementText(value: Json, dump: Json -> string): string {
    if value.Str? then value.s else dump(value)
  }

  function ReplacementTexts(fields: map<string, Json>, dump: Json -> string): map<string, string> {
    map k | k in fields :: ReplacementText(fields[k], dump)
  }

  function Keys(vars: Json): seq<string> {
    if vars.Obj? then SortedKeys(vars.fields.Keys) else []
  }

  function VariableTexts(vars: Json, dump: Json -> string): (texts: map<string, string>)
    ensures forall i :: 0 <= i < |Keys(vars)| ==> Keys(vars)[i] in texts
  {
    if vars.Obj? then
      assert forall i :: 0 <= i < |Keys(vars)| ==> Keys(vars)[i] in Keys(vars);
      ReplacementTexts(vars.fields, dump)
    else map[]
  }

  // What substituteString may return: a resolve of the input, then the sweep over the variables in key order.
  ghost predicate Substituted(input: string, vars: Json, dump: Json -> string, r: string) {
    exists resolved :: Resolves(input, resolved) && r == Sweep(resolved, Keys(vars), VariableTexts(vars, dump))
  }

  lemma SweepTurn(s: string, keys: seq<string>, i: nat, texts: map<string, string>)
    requires i < |keys| && forall j :: 0 <= j < |keys| ==> keys[j] in texts
    ensures Sweep(s, keys[i..], texts) == Sweep(Replace(s, Token(keys[i]), texts[keys[i]]), keys[i + 1..], texts)
  {
    hide Replace;
    assert keys[i..][0] == keys[i] && keys[i..][1..] == keys[i + 1..];
  }

  lemma KeyText(vars: Json, dump: Json -> string, i: nat)
    requires vars.Obj? && i < |Keys(vars)|
    ensures Keys(vars)[i] in vars.fields
    ensures VariableTexts(vars, dump)[Keys(vars)[i]] == ReplacementText(vars.fields[Keys(vars)[i]], dump)
  {
    hide Ascending;
    assert Keys(vars)[i] in Keys(vars);
  }

  method SubstituteString(input: string, vars: Json, dump: Json -> string) returns (result: string)
    ensures Substituted(input, vars, dump, result)
  {
    hide Resolves, Replace, Ascending, VariableTexts, Token, NoDynamicToken, Occurs;
    result := Resolve(input);
    ghost var resolved := result;
    if !vars.Obj? {
      return;
    }
    var keys := SortedKeys(vars.fields.Keys);
    ghost var texts := VariableTexts(vars, dump);
    assert keys == Keys(vars);
    hide SortedKeys, Keys, Sweep;
    for i := 0 to |keys|
      invariant Sweep(result, keys[i..], texts) == Sweep(resolved, keys, texts)
    {
      KeyText(vars, dump, i);
      SweepTurn(result, keys, i, texts);
      var value := vars.fields[keys[i]];
      var replacement := if value.Str? then value.s else dump(value);
      result := ReplaceInPlace(result, Token(keys[i]), replacement);
    }
    SweepNothing(result, keys, texts);
  }

  lemma SweepNothing(s: string, keys: seq<string>, texts: map<string, string>)
    ensures Sweep(s, keys[|keys|..], texts) == s
  {
  }

  ghost function Substitution(vars: Json, dump: Json -> string): (string, string) -> bool {
    (s: string, r: string) => Substituted(s, vars, dump, r)
  }

  method SubstituteJson(input: Json, vars: Json, dump: Json -> string) returns (result: Json)
    ensures Related(Substitution(vars, dump), input, result)
    decreases input, 1
  {
    hide Substituted;
    match input {
      case Str(s) =>
        var text := SubstituteString(s, vars, dump);
        result := Str(text);
      case Arr(items) =>
        result := SubstituteItems(input, items, vars, dump);
      case Obj(fields) =>
        result := SubstituteFields(input, fields, vars, dump);
      case _ =>
        result := input;
    }
  }

  method SubstituteItems(ghost input: Json, items: seq<Json>, vars: Json, dump: Json -> string) returns (result: Json)
    requires input == Arr(items)
    ensures Related(Substitution(vars, dump), input, result)
    decreases input, 0
  {
    hide Substituted;
    var out: seq<Json> := [];
    for i := 0 to |items|
      invariant |out| == i && forall j :: 0 <= j < i ==> Related(Substitution(vars, dump), items[j], out[j])
    {
      var item := SubstituteJson(items[i], vars, dump);
      out := out + [item];
    }
    result := Arr(out);
  }

  method SubstituteFields(ghost input: Json, fields: map<string, Json>, vars: Json,
      dump: Json -> string) returns (result: Json)
    requires input == Obj(fields)
    ensures Related(Substitution(vars, dump), input, result)
    decreases input, 0
  {
    hide Substituted, Related, Ascending, Substitution;
    var keys := SortedKeys(fields.Keys);
    var out: map<string, Json> := map[];
    for i := 0 to |keys|
      invariant forall j :: 0 <= j < i ==> keys[j] in out
      invariant forall k :: k in out ==> k in fields && Related(Substitution(vars, dump), fields[k], out[k])
    {
      assert keys[i] in keys;
      var value := SubstituteJson(fields[keys[i]], vars, dump);
      out := out[keys[i] := value];
    }
    forall k | k in fields ensures k in out { assert k in keys; }
    assert out.Keys == fields.Keys;
    RelatedFields(Substitution(vars, dump), fields, out);
    result := Obj(out);
  }

  method ResolveJson(input: Json) returns (result: Json)
    ensures Related(Resolves, input, result)
    decreases input, 1
  {
    hide Resolves, NoDynamicToken;
    match input {
      case Str(s) =>
        var text := Resolve(s);
        result := Str(text);
      case Arr(items) =>
        result := ResolveItems(input, items);
      case Obj(fields) =>
        result := ResolveFields(input, fields);
      case _ =>
        result := input;
    }
  }

  method ResolveItems(ghost input: Json, items: seq<Json>) returns (result: Json)
    requires input == Arr(items)
    ensures Related(Resolves, input, result)
    decreases input, 0
  {
    hide Resolves, NoDynamicToken;
    var out: seq<Json> := [];
    for i := 0 to |items|
      invariant |out| == i && forall j :: 0 <= j < i ==> Related(Resolves, items[j], out[j])
    {
      var item := ResolveJson(items[i]);
      out := out + [item];
    }
    result := Arr(out);
  }

  method ResolveFields(ghost input: Json, fields: map<string, Json>) returns (result: Json)
    requires input == Obj(fields)
    ensures Related(Resolves, input, result)
    decreases input, 0
  {
    hide Resolves, NoDynamicToken, Related, Ascending;
    var keys := SortedKeys(fields.Keys);
    var out: map<string, Json> := map[];
    for i := 0 to |keys|
      invariant forall j :: 0 <= j < i ==> keys[j] in out
      invariant forall k :: k in out ==> k in fields && Related(Resolves, fields[k], out[k])
    {
      assert keys[i] in keys;
      var value := ResolveJson(fields[keys[i]]);
      out := out[keys[i] := value];
    }
    forall k | k in fields ensures k in out { assert k in keys; }
    assert out.Keys == fields.Keys;
    RelatedFields(Resolves, fields, out);
    result := Obj(out);
  }

  /** resolveJson keeps the shape and leaves no dynamic token in any string of the tree. */
  lemma ResolvedJsonHasNoToken(j: Json, r: Json)
    requires Related(Resolves, j, r)
    ensures AllStrings(NoDynamicToken, r)
  {
    var any := (s: string) => true;
    AllStringsAny(any, j);
    forall s, s' | Resolves(s, s') ensures NoDynamicToken(s') { ResolveLeavesNoToken(s, s'); }
    RelatedStrings(Resolves, any, NoDynamicToken, j, r);
  }

  lemma {:induction false} AllStringsAny(any: string -> bool, j: Json)
    requires forall s :: any(s)
    ensures AllStrings(any, j)
  {
    match j
    case Arr(items) => forall i | 0 <= i < |items| ensures AllStrings(any, items[i]) { AllStringsAny(any, items[i]); }
    case Obj(fields) => forall k | k in fields ensures AllStrings(any, fields[k]) { AllStringsAny(any, fields[k]); }
    case _ =>
  }

  // ---- variables that hold templates ----

  // The variables' replacement texts are the texts of these templates.
  ghost predicate Holds(vars: Json, dump: Json -> string, values: map<string, Template>) {
    Defined(Keys(vars), values) && VariableTexts(vars, dump) == Texts(values)
  }

  ghost predicate GeneratorFree(t: Template) {
    forall g :: !Mentions(t, Name(g))
  }

  /** substituteString on a template's text: each generator reference becomes a draw, then every variable
      reference is expanded with the keys after its own. */
  lemma SubstitutedTemplate(t: Template, vars: Json, dump: Json -> string, values: map<string, Template>, r: string)
    returns (u: Template)
    requires Valid(t) && Holds(vars, dump, values) && Substituted(Render(t), vars, dump, r)
    ensures Valid(u) && Instance(t, u) && GeneratorFree(u)
    ensures r == Render(SweepTemplate(u, Keys(vars), values)) && Valid(SweepTemplate(u, Keys(vars), values))
  {
    hide Resolves, Render, Instance, Sweep, SweepTemplate, Keys, VariableTexts, Texts;
    var resolved :| Resolves(Render(t), resolved) && r == Sweep(resolved, Keys(vars), VariableTexts(vars, dump));
    u := ResolveRender(t, resolved);
    SweepRender(u, Keys(vars), values);
  }

  lemma InstanceOfGeneratorFree(t: Template, u: Template)
    requires Instance(t, u) && GeneratorFree(t)
    ensures u == t
  {
    forall i | 0 <= i < |t| ensures u[i] == t[i] { assert InstanceSegment(t[i], u[i]); }
  }

  // ---- what goes in for a variable ----

  // A text with one reference and no other brace holds no other key's token, whatever that key is.
  lemma OnlyReference(a: string, k: string, b: string, l: string)
    requires BraceFree(a) && BraceFree(k) && BraceFree(b) && l != k
    ensures !Occurs(a + Token(k) + b, Token(l))
  {
    var s := a + Token(k) + b;
    if i :| OccursAt(s, Token(l), i) {
      TokenChars(s, l, i);
      TokenAt(a, Token(k), b);
      TokenChars(s, k, |a|);
      assert forall j :: 0 <= j < |a| ==> s[j] == a[j];
      assert forall j :: |a| + 4 + |k| <= j < |s| ==> s[j] == b[j - |a| - 4 - |k|];
      assert i == |a|;
      assert |l| == |k|;
      assert forall j :: 0 <= j < |k| ==> l[j] == s[i + 2 + j] == k[j];
    }
  }

  lemma ReplaceReference(a: string, k: string, b: string, text: string)
    requires BraceFree(a) && BraceFree(k) && BraceFree(b)
    ensures Replace(a + Token(k) + b, Token(k), text) == a + text + b
  {
    hide Replace, Render;
    var t := [Lit(a), Ref(k), Lit(b)];
    RenderOne(Lit(text));
    RenderThree(t[0], t[1], t[2]);
    RenderThree(t[0], Lit(text), t[2]);
    ReplaceRender(t, k, [Lit(text)]);
    assert t[1..] == [Ref(k), Lit(b)] && t[1..][1..] == [Lit(b)] && [Lit(b)][1..] == [];
    assert Plug([Lit(b)], k, [Lit(text)]) == [Lit(b)];
    assert Plug(t[1..], k, [Lit(text)]) == [Lit(text)] + [Lit(b)];
    assert Plug(t, k, [Lit(text)]) == [Lit(a), Lit(text), Lit(b)];
  }

  lemma {:induction false} SweepIdle(s: string, ks: seq<string>, texts: map<string, string>)
    requires (forall i :: 0 <= i < |ks| ==> ks[i] in texts) && TokenFree(s, ks)
    ensures Sweep(s, ks, texts) == s
    decreases |ks|
  {
    if ks != [] {
      ReplaceIsIdentityIff(s, Token(ks[0]), texts[ks[0]]);
      SweepIdle(s, ks[1..], texts);
    }
  }

  lemma {:induction false} SweepReference(a: string, k: string, b: string, ks: seq<string>, texts: map<string, string>)
    requires BraceFree(a) && BraceFree(k) && BraceFree(b)
    requires (forall i :: 0 <= i < |ks| ==> ks[i] in texts) && k in ks && Ascending(ks)
    requires forall l :: l in ks && l != k ==> !Occurs(a + texts[k] + b, Token(l))
    ensures Sweep(a + Token(k) + b, ks, texts) == a + texts[k] + b
    decreases |ks|
  {
    hide Replace, Less, Occurs, Token;
    if ks[0] == k {
      ReplaceReference(a, k, b, texts[k]);
      TailMember(ks, k);
      SweepIdle(a + texts[k] + b, ks[1..], texts);
    } else {
      OnlyReference(a, k, b, ks[0]);
      ReplaceIsIdentityIff(a + Token(k) + b, Token(ks[0]), texts[ks[0]]);
      SweepReference(a, k, b, ks[1..], texts);
    }
  }

  /** A reference to a variable, between texts without braces, becomes the variable's text: a string value as it is,
      quotes or not, any other value as its JSON text; provided no other variable is referred to by what this gives. */
  lemma OneVariable(fields: map<string, Json>, k: string, a: string, b: string, dump: Json -> string, r: string)
    requires k in fields && !IsGeneratorName(k) && BraceFree(k) && BraceFree(a) && BraceFree(b)
    requires var text := match fields[k] { case Str(v) => v case j => dump(j) };
             forall l :: l in fields && l != k ==> !Occurs(a + text + b, "{{" + l + "}}")
    ensures Substituted(a + "{{" + k + "}}" + b, Obj(fields), dump, r)
        <==> r == a + (match fields[k] { case Str(v) => v case j => dump(j) }) + b
  {
    var s, vars := a + Token(k) + b, Obj(fields);
    assert a + "{{" + k + "}}" + b == s;
    forall g ensures !Occurs(s, Token(Name(g))) { OnlyReference(a, k, b, Name(g)); }
    SubstitutedFree(s, vars, dump, r);
    hide Substituted, Sweep, Occurs;
    assert VariableTexts(vars, dump)[k] == match fields[k] { case Str(v) => v case j => dump(j) };
    SweepReference(a, k, b, Keys(vars), VariableTexts(vars, dump));
  }

  // A text without dynamic tokens goes to the sweep as it is.
  lemma SubstitutedFree(s: string, vars: Json, dump: Json -> string, r: string)
    requires NoDynamicToken(s)
    ensures Substituted(s, vars, dump, r) <==> r == Sweep(s, Keys(vars), VariableTexts(vars, dump))
  {
    TokenFreeResolves(s);
    forall resolved | Resolves(s, resolved) ensures resolved == s { ResolveLeavesNoToken(s, resolved); }
    hide Resolves, NoDynamicToken, Sweep, Keys, VariableTexts;
  }

  /** Alone, for one variable: the string itself, or the JSON text of anything else. */
  lemma OnlyVariable(k: string, value: Json, dump: Json -> string, r: string)
    requires !IsGeneratorName(k) && BraceFree(k) && Substituted("{{" + k + "}}", Obj(map[k := value]), dump, r)
    ensures forall v :: value == Str(v) ==> r == v
    ensures !value.Str? ==> r == dump(value)
  {
    hide Substituted;
    var s, text := "{{" + k + "}}", match value { case Str(v) => v case j => dump(j) };
    assert "" + "{{" + k + "}}" + "" == s && "" + text + "" == text;
    OneVariable(map[k := value], k, "", "", dump, r);
  }

  /** The values of variables as templates: each field's value is a template for the string, or for the JSON text. */
  lemma HoldsIff(fields: map<string, Json>, dump: Json -> string, values: map<string, Template>)
    ensures Holds(Obj(fields), dump, values) <==>
              && values.Keys == fields.Keys
              && forall k :: k in fields ==>
                   && BraceFree(k) && Valid(values[k])
                   && Render(values[k]) == match fields[k] { case Str(v) => v case j => dump(j) }
  {
    KeysEnumerate(fields);
    VariableTextsAre(fields, dump);
    hide Render, BraceFree, Valid, Keys, VariableTexts;
    var ks := Keys(Obj(fields));
    assert Texts(values).Keys == values.Keys && ReplacementTexts(fields, dump).Keys == fields.Keys;
    assert (forall i :: 0 <= i < |ks| ==> ks[i] in values && BraceFree(ks[i]) && Valid(values[ks[i]]))
        <==> forall k :: k in fields ==> k in values && BraceFree(k) && Valid(values[k]);
  }

  lemma VariableTextsAre(fields: map<string, Json>, dump: Json -> string)
    ensures VariableTexts(Obj(fields), dump) == ReplacementTexts(fields, dump)
  {
  }

  lemma KeysEnumerate(fields: map<string, Json>)
    ensures var ks := Keys(Obj(fields));
            && (forall k :: k in fields <==> exists i :: 0 <= i < |ks| && ks[i] == k)
            && (forall i, j :: 0 <= i < j < |ks| ==> ks[i] != ks[j])
  {
    hide Less;
    var ks := Keys(Obj(fields));
    forall i, j | 0 <= i < j < |ks| ensures ks[i] != ks[j] { LessTrichotomy(ks[i], ks[j]); }
    assert forall k :: k in fields <==> k in ks;
  }

  /** The variables are swept in byte order of their names: each field once, and the earlier of two names is a prefix of
      the later or has the smaller character where they first differ. */
  lemma SweepOrder(fields: map<string, Json>, i: nat, j: nat)
    requires i < j < |Keys(Obj(fields))|
    ensures |Keys(Obj(fields))| == |fields| && Keys(Obj(fields))[i] in fields && Keys(Obj(fields))[j] in fields
    ensures var k, l := Keys(Obj(fields))[i], Keys(Obj(fields))[j];
            exists n ::
              && 0 <= n <= |k| && n <= |l| && k[..n] == l[..n]
              && ((n == |k| && n < |l|) || (n < |k| && n < |l| && k[n] < l[n]))
  {
    var ks := Keys(Obj(fields));
    assert ks[i] in ks && ks[j] in ks && Less(ks[i], ks[j]);
    assert |fields.Keys| == |fields|;
    LessIs(ks[i], ks[j]);
  }

  // ---- dynamic tokens that come in with the variables ----

  ghost predicate IsGeneratorName(k: string) {
    exists g :: k == Name(g)
  }

  // A reference to the variable can be in the text when its turn comes: one that stood there from the start (a
  // generator's name would have been resolved), or one brought in by an earlier such variable.
  ghost predicate Reachable(ks: seq<string>, values: map<string, Template>, i: nat)
    requires i < |ks| && forall k :: k in ks ==> k in values
    decreases i
  {
    !IsGeneratorName(ks[i]) || exists j :: 0 <= j < i && Reachable(ks, values, j) && Mentions(values[ks[j]], ks[i])
  }

  // Every generator such a variable's value mentions is itself the key of a later variable.
  ghost predicate GeneratorsAnswered(ks: seq<string>, values: map<string, Template>)
    requires forall k :: k in ks ==> k in values
  {
    forall i: nat, g :: i < |ks| && Reachable(ks, values, i) && Mentions(values[ks[i]], Name(g))
        ==> Later(ks, i + 1, Name(g))
  }

  ghost predicate Later(ks: seq<string>, from: nat, k: string) {
    exists j :: from <= j < |ks| && ks[j] == k
  }

  // Before the turn of key n: generators still mentioned are keys to come, and keys to come that are mentioned are
  // reachable.
  ghost predicate OnTrack(ks: seq<string>, values: map<string, Template>, t: Template, n: nat)
    requires forall k :: k in ks ==> k in values
  {
    && (forall g :: Mentions(t, Name(g)) ==> Later(ks, n, Name(g)))
    && (forall m: nat :: n <= m < |ks| && Mentions(t, ks[m]) ==> Reachable(ks, values, m))
  }

  lemma StepOnTrack(ks: seq<string>, values: map<string, Template>, t: Template, n: nat)
    requires Defined(ks, values) && n < |ks| && OnTrack(ks, values, t, n) && GeneratorsAnswered(ks, values)
    ensures OnTrack(ks, values, Plug(t, ks[n], values[ks[n]]), n + 1)
  {
    hide Mentions, Name, Plug;
    var k, t' := ks[n], Plug(t, ks[n], values[ks[n]]);
    forall g | Mentions(t', Name(g)) ensures Later(ks, n + 1, Name(g)) {
      PlugMentions(t, k, values[k], Name(g));
      if k != Name(g) && Mentions(t, Name(g)) {
        var j :| n <= j < |ks| && ks[j] == Name(g);
        assert j != n;
      }
    }
    forall m: nat | n + 1 <= m < |ks| && Mentions(t', ks[m]) ensures Reachable(ks, values, m) {
      PlugMentions(t, k, values[k], ks[m]);
    }
  }

  lemma {:induction false} SweepOnTrack(ks: seq<string>, values: map<string, Template>, t: Template, n: nat)
    requires Defined(ks, values) && n <= |ks| && OnTrack(ks, values, t, n) && GeneratorsAnswered(ks, values)
    ensures GeneratorFree(SweepTemplate(t, ks[n..], values))
    decreases |ks| - n
  {
    hide Mentions, Name, Plug, GeneratorsAnswered, Reachable;
    if n < |ks| {
      StepOnTrack(ks, values, t, n);
      assert ks[n..][0] == ks[n] && ks[n..][1..] == ks[n + 1..];
      SweepOnTrack(ks, values, Plug(t, ks[n], values[ks[n]]), n + 1);
    } else {
      assert ks[n..] == [];
    }
  }

  lemma SweepStaysGeneratorFree(ks: seq<string>, values: map<string, Template>, t: Template)
    requires Defined(ks, values) && GeneratorsAnswered(ks, values) && GeneratorFree(t)
    ensures GeneratorFree(SweepTemplate(t, ks, values))
  {
    hide Mentions, Name;
    assert ks[0..] == ks;
    SweepOnTrack(ks, values, t, 0);
  }

  lemma {:induction false} SweepSplit(t: Template, a: seq<string>, b: seq<string>, values: map<string, Template>)
    requires Defined(a + b, values) && Defined(a, values) && Defined(b, values)
    ensures SweepTemplate(t, a + b, values) == SweepTemplate(SweepTemplate(t, a, values), b, values)
    decreases |a|
  {
    if a == [] {
      assert a + b == b;
    } else {
      assert (a + b)[0] == a[0] && (a + b)[1..] == a[1..] + b;
      SweepSplit(Plug(t, a[0], values[a[0]]), a[1..], b, values);
    }
  }

  // Sweeping up to key n, then key n, then on to key m.
  lemma SweepRange(t: Template, ks: seq<string>, values: map<string, Template>, n: nat, m: nat)
    requires Defined(ks, values) && n < m <= |ks|
    ensures SweepTemplate(t, ks[..m], values)
         == SweepTemplate(Plug(SweepTemplate(t, ks[..n], values), ks[n], values[ks[n]]), ks[n + 1..m], values)
  {
    assert ks[..m] == ks[..n] + ks[n..m] && ks[n..m][0] == ks[n] && ks[n..m][1..] == ks[n + 1..m];
    SweepSplit(t, ks[..n], ks[n..m], values);
  }

  // A template whose text, without dynamic tokens at first, holds a reference to the reachable key when its turn comes.
  lemma {:induction false} ReachedBy(ks: seq<string>, values: map<string, Template>, i: nat) returns (t: Template)
    requires Defined(ks, values) && i < |ks| && Reachable(ks, values, i)
    ensures Valid(t) && GeneratorFree(t) && Mentions(SweepTemplate(t, ks[..i], values), ks[i])
    decreases i
  {
    if !IsGeneratorName(ks[i]) {
      t := [Ref(ks[i])];
      assert t[0] == Ref(ks[i]);
      assert ks[i] !in ks[..i];
      SweepKeepsOthers(t, ks[..i], values, ks[i]);
    } else {
      var j :| 0 <= j < i && Reachable(ks, values, j) && Mentions(values[ks[j]], ks[i]);
      t := ReachedBy(ks, values, j);
      hide Mentions, Reachable, IsGeneratorName, Plug;
      var u := SweepTemplate(t, ks[..j], values);
      PlugMentions(u, ks[j], values[ks[j]], ks[i]);
      SweepRange(t, ks, values, j, i);
      assert ks[i] !in ks[j + 1..i];
      SweepKeepsOthers(Plug(u, ks[j], values[ks[j]]), ks[j + 1..i], values, ks[i]);
    }
  }

  lemma UnansweredComesThrough(ks: seq<string>, values: map<string, Template>, i: nat,
      g: Generator) returns (t: Template)
    requires Defined(ks, values) && i < |ks| && Reachable(ks, values, i) && Mentions(values[ks[i]], Name(g))
    requires !Later(ks, i + 1, Name(g))
    ensures Valid(t) && GeneratorFree(t) && Mentions(SweepTemplate(t, ks, values), Name(g))
  {
    t := ReachedBy(ks, values, i);
    hide Mentions, Reachable, Plug, Name;
    var u := SweepTemplate(t, ks[..i], values);
    PlugMentions(u, ks[i], values[ks[i]], Name(g));
    assert ks[..|ks|] == ks;
    SweepRange(t, ks, values, i, |ks|);
    assert Name(g) !in ks[i + 1..|ks|];
    SweepKeepsOthers(Plug(u, ks[i], values[ks[i]]), ks[i + 1..|ks|], values, Name(g));
  }

  ghost predicate AlwaysClean(vars: Json, dump: Json -> string) {
    forall t, r :: Valid(t) && Substituted(Render(t), vars, dump, r) ==> NoDynamicToken(r)
  }

  // No variable's value mentions a generator.
  ghost predicate ValuesGeneratorFree(ks: seq<string>, values: map<string, Template>)
    requires forall i :: 0 <= i < |ks| ==> ks[i] in values
  {
    forall i :: 0 <= i < |ks| ==> GeneratorFree(values[ks[i]])
  }

  /** Dynamic tokens are resolved before variables are inserted.  So no dynamic token is left in any template's result
      if and only if every generator mentioned by a reachable variable's value is the key of a later variable; where
      no variable is named like a generator, if and only if no value mentions one. */
  lemma DynamicTokensGoneIff(vars: Json, dump: Json -> string, values: map<string, Template>)
    requires Holds(vars, dump, values)
    ensures AlwaysClean(vars, dump) <==> GeneratorsAnswered(Keys(vars), values)
    ensures (forall g :: Name(g) !in Keys(vars)) ==>
              (GeneratorsAnswered(Keys(vars), values) <==> ValuesGeneratorFree(Keys(vars), values))
  {
    if GeneratorsAnswered(Keys(vars), values) {
      CleanIfAnswered(vars, dump, values);
    } else {
      UncleanOtherwise(vars, dump, values);
    }
    if forall g :: Name(g) !in Keys(vars) {
      NoKeyIsGenerator(Keys(vars), values);
    }
  }

  lemma NoKeyIsGenerator(ks: seq<string>, values: map<string, Template>)
    requires Defined(ks, values) && forall g :: Name(g) !in ks
    ensures GeneratorsAnswered(ks, values) <==> ValuesGeneratorFree(ks, values)
  {
    hide Mentions, Name;
    forall i: nat | i < |ks| ensures Reachable(ks, values, i) { assert ks[i] in ks; }
    assert forall n: nat, g :: !Later(ks, n, Name(g));
  }

  lemma CleanIfAnswered(vars: Json, dump: Json -> string, values: map<string, Template>)
    requires Holds(vars, dump, values) && GeneratorsAnswered(Keys(vars), values)
    ensures AlwaysClean(vars, dump)
  {
    hide Substituted, NoDynamicToken, Holds, Render, GeneratorsAnswered;
    forall t, r | Valid(t) && Substituted(Render(t), vars, dump, r) ensures NoDynamicToken(r) {
      GeneratorsStayAway(t, vars, dump, values, r);
    }
  }

  lemma UncleanOtherwise(vars: Json, dump: Json -> string, values: map<string, Template>)
    requires Holds(vars, dump, values) && !GeneratorsAnswered(Keys(vars), values)
    ensures !AlwaysClean(vars, dump)
  {
    hide Substituted, NoDynamicToken, Render, VariableTexts, Texts, Reachable, Mentions, Later, Name, SweepTemplate;
    var ks := Keys(vars);
    var i: nat, g :| i < |ks| && Reachable(ks, values, i) && Mentions(values[ks[i]], Name(g))
        && !Later(ks, i + 1, Name(g));
    var t := UnansweredComesThrough(ks, values, i, g);
    var r := GeneratorComesThrough(vars, dump, values, t, g);
  }

  lemma GeneratorsStayAway(t: Template, vars: Json, dump: Json -> string, values: map<string, Template>, r: string)
    requires Valid(t) && Holds(vars, dump, values) && Substituted(Render(t), vars, dump, r)
    requires GeneratorsAnswered(Keys(vars), values)
    ensures NoDynamicToken(r)
  {
    hide Substituted, Render, Holds, SweepTemplate, Instance, GeneratorsAnswered;
    assert Defined(Keys(vars), values) by { HoldsIsDefined(vars, dump, values); }
    var u := SubstitutedTemplate(t, vars, dump, values, r);
    var w := SweepTemplate(u, Keys(vars), values);
    SweepStaysGeneratorFree(Keys(vars), values, u);
    forall g ensures !Occurs(r, Token(Name(g))) {
      NamesBraceFree(g);
      MentionsIsOccurs(w, Name(g));
    }
  }

  lemma HoldsIsDefined(vars: Json, dump: Json -> string, values: map<string, Template>)
    requires Holds(vars, dump, values)
    ensures Defined(Keys(vars), values)
  {
  }

  // A template without generator names resolves to itself, so what its sweep mentions is in the result.
  lemma GeneratorComesThrough(vars: Json, dump: Json -> string, values: map<string, Template>, t: Template,
      g: Generator)
    returns (r: string)
    requires Holds(vars, dump, values) && Valid(t) && GeneratorFree(t)
    requires Mentions(SweepTemplate(t, Keys(vars), values), Name(g))
    ensures Substituted(Render(t), vars, dump, r) && !NoDynamicToken(r)
  {
    var ks := Keys(vars);
    forall h ensures !Occurs(Render(t), Token(Name(h))) {
      NamesBraceFree(h);
      MentionsIsOccurs(t, Name(h));
    }
    TokenFreeResolves(Render(t));
    r := Sweep(Render(t), ks, VariableTexts(vars, dump));
    SweepRender(t, ks, values);
    NamesBraceFree(g);
    MentionsIsOccurs(SweepTemplate(t, ks, values), Name(g));
  }

  // A text without dynamic tokens resolves to itself.
  lemma TokenFreeResolves(s: string)
    requires NoDynamicToken(s)
    ensures Resolves(s, s)
  {
    forall g ensures PassTo(g, s, s) { PassIdle(g, s); }
    assert PassTo(RandomInt, s, s) && PassTo(Guid, s, s) && PassTo(Timestamp, s, s) && PassTo(IsoTimestamp, s, s)
        && PassTo(RandomEmail, s, s);
  }

  // ---- whole trees ----

  ghost predicate IsTemplate(s: string) {
    exists t :: Valid(t) && s == Render(t)
  }

  ghost predicate IsFinished(ks: seq<string>, s: string) {
    exists t :: Valid(t) && GeneratorFree(t) && Closed(t, ks) && s == Render(t)
  }

  lemma SubstitutedOnce(vars: Json, dump: Json -> string, values: map<string, Template>, s: string, r: string)
    requires Holds(vars, dump, values) && Forward(Keys(vars), values)
    requires GeneratorsAnswered(Keys(vars), values)
    requires IsTemplate(s) && Substituted(s, vars, dump, r)
    ensures IsFinished(Keys(vars), r)
    ensures IsFinished(Keys(vars), s) ==> r == s
  {
    var t :| Valid(t) && s == Render(t);
    FinishTemplate(vars, dump, values, t, r);
    if IsFinished(Keys(vars), s) {
      var c :| Valid(c) && GeneratorFree(c) && Closed(c, Keys(vars)) && s == Render(c);
      FinishTemplate(vars, dump, values, c, r);
    }
  }

  lemma FinishTemplate(vars: Json, dump: Json -> string, values: map<string, Template>, t: Template, r: string)
    requires Holds(vars, dump, values) && Forward(Keys(vars), values)
    requires GeneratorsAnswered(Keys(vars), values)
    requires Valid(t) && Substituted(Render(t), vars, dump, r)
    ensures IsFinished(Keys(vars), r)
    ensures GeneratorFree(t) && Closed(t, Keys(vars)) ==> r == Render(t)
  {
    hide Substituted, Render, SweepTemplate, Instance, VariableTexts, Texts, GeneratorsAnswered;
    var ks := Keys(vars);
    var u := SubstitutedTemplate(t, vars, dump, values, r);
    var w := SweepTemplate(u, ks, values);
    forall k | k in ks ensures !Mentions(w, k) { SweepClosed(u, ks, values, k); }
    SweepStaysGeneratorFree(ks, values, u);
    if GeneratorFree(t) && Closed(t, ks) {
      InstanceOfGeneratorFree(t, u);
      SweepOfClosed(t, ks, values);
    }
  }

  lemma TreeFinished(vars: Json, dump: Json -> string, values: map<string, Template>, j: Json, r: Json)
    requires Holds(vars, dump, values) && Forward(Keys(vars), values) && GeneratorsAnswered(Keys(vars), values)
    requires AllStrings(IsTemplate, j) && Related(Substitution(vars, dump), j, r)
    ensures AllStrings((s: string) => IsFinished(Keys(vars), s), r)
  {
    var rel, finished := Substitution(vars, dump), (s: string) => IsFinished(Keys(vars), s);
    forall s, s' | IsTemplate(s) && rel(s, s') ensures finished(s') {
      SubstitutedOnce(vars, dump, values, s, s');
    }
    RelatedStrings(rel, IsTemplate, finished, j, r);
  }

  lemma TreeSettles(vars: Json, dump: Json -> string, values: map<string, Template>, j: Json, r: Json)
    requires Holds(vars, dump, values) && Forward(Keys(vars), values) && GeneratorsAnswered(Keys(vars), values)
    requires AllStrings((s: string) => IsFinished(Keys(vars), s), j) && Related(Substitution(vars, dump), j, r)
    ensures r == j
  {
    var rel, finished := Substitution(vars, dump), (s: string) => IsFinished(Keys(vars), s);
    forall s, s' | finished(s) && rel(s, s') ensures s' == s {
      SubstitutedOnce(vars, dump, values, s, s');
    }
    RelatedFixpoint(rel, finished, j, r);
  }

  /** On any tree of template strings, references to generators included, with forward values that let no generator
      through: nothing is left to expand anywhere, and substituting the result again returns it unchanged. */
  lemma SubstituteJsonTwice(vars: Json, dump: Json -> string, values: map<string, Template>, j: Json, once: Json,
      twice: Json)
    requires Holds(vars, dump, values) && Forward(Keys(vars), values)
    requires GeneratorsAnswered(Keys(vars), values)
    requires AllStrings(IsTemplate, j)
    requires Related(Substitution(vars, dump), j, once) && Related(Substitution(vars, dump), once, twice)
    ensures AllStrings((s: string) => IsFinished(Keys(vars), s), once)
    ensures twice == once
  {
    TreeFinished(vars, dump, values, j, once);
    TreeSettles(vars, dump, values, once, twice);
  }

  // ---- the variables of an execution ----

  lemma NoTokenInField(j: Json, r: Json, k: string)
    requires Related(Resolves, j, r) && j.Obj? && k in j.fields
    ensures r.Obj? && k in r.fields && Related(Resolves, j.fields[k], r.fields[k])
        && AllStrings(NoDynamicToken, r.fields[k])
  {
    ResolvedJsonHasNoToken(j.fields[k], r.fields[k]);
  }

  /** execute resolves the overrides before it merges them: a variable won from the overrides is the resolved override
      and holds no dynamic token; every other one is the last writer of the environment and the globals, tokens and
      all. */
  method ExecutionVariables(globals: Option<seq<Environments.Variable>>, environment: Option<Environments.Environment>,
      overrides: Json, parse: string -> Option<Json>)
    returns (variables: map<string, Json>)
    ensures forall k :: overrides.Obj? && k in overrides.fields ==>
              && k in variables && Related(Resolves, overrides.fields[k], variables[k])
              && AllStrings(NoDynamicToken, variables[k])
    ensures forall k :: !(overrides.Obj? && k in overrides.fields) ==>
              Environments.Lookup(variables, k)
              == Environments.Winner(globals.GetOr([]), if globals.Some? then environment else None, Null, k, parse)
  {
    hide Resolves, NoDynamicToken;
    var resolved := ResolveJson(overrides);
    variables := Environments.StartVariables(globals, environment, resolved, parse);
    ghost var read := if globals.Some? then environment else None;
    forall k | overrides.Obj? && k in overrides.fields
      ensures k in variables && Related(Resolves, overrides.fields[k], variables[k])
      ensures AllStrings(NoDynamicToken, variables[k])
    {
      NoTokenInField(overrides, resolved, k);
      assert Environments.Lookup(variables, k) == Environments.Winner(globals.GetOr([]), read, resolved, k, parse);
    }
  }

  // ---- endpoints ----

  ghost predicate SubstitutedDetails(d: Details, vars: Json, dump: Json -> string, r: Details) {
    var text := Substitution(vars, dump);
    match d
    case RestDetails(m, url, query, headers, body, raw) =>
      && r.RestDetails? && r.httpMethod == m
      && text(url, r.urlPath) && Related(text, query, r.queryParams) && Related(text, headers, r.headers)
      && Related(text, body, r.body) && text(raw, r.bodyRaw)
    case GraphqlDetails(query, variables, schemaUrl) =>
      && r.GraphqlDetails? && text(query, r.query) && Related(text, variables, r.variables)
      && (if schemaUrl.Some? then r.schemaUrl.Some? && text(schemaUrl.value, r.schemaUrl.value) else r.schemaUrl.None?)
    case SoapDetails(wsdl, operation, xml) =>
      && r.SoapDetails? && text(wsdl, r.wsdlUrl) && text(operation, r.operation) && text(xml, r.requestXml)
    case WebsocketDetails(url, protocols, messages) =>
      && r.WebsocketDetails? && text(url, r.connectionUrl) && |r.protocols| == |protocols|
      && (forall i :: 0 <= i < |protocols| ==> text(protocols[i], r.protocols[i]))
      && Related(text, messages, r.sampleMessages)
  }

  /** Only name, description and the details' texts are rewritten, and the variant stays. */
  method SubstituteEndpoint(endpoint: Endpoint, vars: Json, dump: Json -> string) returns (resolved: Endpoint)
    ensures Related(Substitution(vars, dump), endpoint.name, resolved.name)
    ensures Related(Substitution(vars, dump), endpoint.description, resolved.description)
    ensures SubstitutedDetails(endpoint.details, vars, dump, resolved.details)
    ensures resolved
        == endpoint.(name := resolved.name, description := resolved.description, details := resolved.details)
    ensures Matching(endpoint) ==> Matching(resolved)
  {
    hide Substituted;
    resolved := endpoint;
    var name := SubstituteJson(resolved.name, vars, dump);
    resolved := resolved.(name := name);
    var description := SubstituteJson(resolved.description, vars, dump);
    resolved := resolved.(description := description);
    var details := resolved.details;
    match details {
      case RestDetails(_, _, _, _, _, _) =>
        var url := SubstituteString(details.urlPath, vars, dump);
        var query := SubstituteJson(details.queryParams, vars, dump);
        var headers := SubstituteJson(details.headers, vars, dump);
        var body := SubstituteJson(details.body, vars, dump);
        var raw := SubstituteString(details.bodyRaw, vars, dump);
        details := details.(urlPath := url, queryParams := query, headers := headers, body := body, bodyRaw := raw);
      case GraphqlDetails(_, _, _) =>
        var query := SubstituteString(details.query, vars, dump);
        var variables := SubstituteJson(details.variables, vars, dump);
        details := details.(query := query, variables := variables);
        if details.schemaUrl.Some? {
          var url := SubstituteString(details.schemaUrl.value, vars, dump);
          details := details.(schemaUrl := Some(url));
        }
      case SoapDetails(_, _, _) =>
        var wsdl := SubstituteString(details.wsdlUrl, vars, dump);
        var operation := SubstituteString(details.operation, vars, dump);
        var xml := SubstituteString(details.requestXml, vars, dump);
        details := details.(wsdlUrl := wsdl, operation := operation, requestXml := xml);
      case WebsocketDetails(_, _, _) =>
        var url := SubstituteString(details.connectionUrl, vars, dump);
        var protocols := details.protocols;
        for i := 0 to |protocols|
          invariant |protocols| == |details.protocols|
          invariant forall j :: 0 <= j < i ==> Substitution(vars, dump)(details.protocols[j], protocols[j])
          invariant forall j :: i <= j < |protocols| ==> protocols[j] == details.protocols[j]
        {
          var protocol := SubstituteString(protocols[i], vars, dump);
          protocols := protocols[i := protocol];
        }
        var messages := SubstituteJson(details.sampleMessages, vars, dump);
        details := details.(connectionUrl := url, protocols := protocols, sampleMessages := messages);
    }
    resolved := resolved.(details := details);
  }

  // The texts of the details, and the strings of their trees.
  ghost predicate AllTexts(holds: string -> bool, d: Details) {
    match d
    case RestDetails(_, url, query, headers, body, raw) =>
      && holds(url) && AllStrings(holds, query) && AllStrings(holds, headers) && AllStrings(holds, body) && holds(raw)
    case GraphqlDetails(query, variables, schemaUrl) =>
      holds(query) && AllStrings(holds, variables) && (schemaUrl.Some? ==> holds(schemaUrl.value))
    case SoapDetails(wsdl, operation, xml) => holds(wsdl) && holds(operation) && holds(xml)
    case WebsocketDetails(url, protocols, messages) =>
      holds(url) && (forall i :: 0 <= i < |protocols| ==> holds(protocols[i])) && AllStrings(holds, messages)
  }

  /** With forward values that let no generator through, substituteEndpoint leaves nothing to expand in any text of any
      variant: URL, parameters, headers, body and raw body; query, variables and schema URL; WSDL URL, operation and
      request; connection URL, protocols and messages. */
  lemma EndpointFinished(vars: Json, dump: Json -> string, values: map<string, Template>, d: Details, r: Details)
    requires Holds(vars, dump, values) && Forward(Keys(vars), values) && GeneratorsAnswered(Keys(vars), values)
    requires AllTexts(IsTemplate, d) && SubstitutedDetails(d, vars, dump, r)
    ensures var done := (s: string) => IsFinished(Keys(vars), s);
            match r
            case RestDetails(_, url, query, headers, body, raw) =>
              && done(url) && AllStrings(done, query) && AllStrings(done, headers) && AllStrings(done, body)
              && done(raw)
            case GraphqlDetails(query, variables, schemaUrl) =>
              done(query) && AllStrings(done, variables) && (schemaUrl.Some? ==> done(schemaUrl.value))
            case SoapDetails(wsdl, operation, xml) => done(wsdl) && done(operation) && done(xml)
            case WebsocketDetails(url, protocols, messages) =>
              && done(url) && (forall i :: 0 <= i < |protocols| ==> done(protocols[i])) && AllStrings(done, messages)
  {
    hide Substituted, Holds, IsTemplate, IsFinished, Related, AllStrings, Forward, GeneratorsAnswered, Keys;
    forall s, t | IsTemplate(s) && Substituted(s, vars, dump, t) ensures IsFinished(Keys(vars), t) {
      SubstitutedOnce(vars, dump, values, s, t);
    }
    forall j, t | AllStrings(IsTemplate, j) && Related(Substitution(vars, dump), j, t)
      ensures AllStrings((s: string) => IsFinished(Keys(vars), s), t)
    {
      TreeFinished(vars, dump, values, j, t);
    }
  }

  /** And details with nothing to expand come out exactly as they are. */
  lemma EndpointSettles(vars: Json, dump: Json -> string, values: map<string, Template>, d: Details, r: Details)
    requires Holds(vars, dump, values) && Forward(Keys(vars), values) && GeneratorsAnswered(Keys(vars), values)
    requires AllTexts((s: string) => IsFinished(Keys(vars), s), d) && SubstitutedDetails(d, vars, dump, r)
    ensures r == d
  {
    hide Substituted, Holds, IsTemplate, IsFinished, Related, AllStrings, Forward, GeneratorsAnswered, Keys;
    forall s, t | IsFinished(Keys(vars), s) && Substituted(s, vars, dump, t) ensures t == s {
      FinishedIsTemplate(Keys(vars), s);
      SubstitutedOnce(vars, dump, values, s, t);
    }
    forall j, t | AllStrings((s: string) => IsFinished(Keys(vars), s), j) && Related(Substitution(vars, dump), j, t)
      ensures t == j
    {
      TreeSettles(vars, dump, values, j, t);
    }
  }

  lemma FinishedIsTemplate(ks: seq<string>, s: string)
    requires IsFinished(ks, s)
    ensures IsTemplate(s)
  {
  }
}
