/** The sweep over all variables: simultaneous substitution, recursive expansion, and exactly when each holds. */
module Expansion {
  import opened Common
  import opened Text
  import opened Splicing
  import opened Printing
  import opened DynamicVariables
  import opened Templates

  // ---- all keys in turn ----

  ghost predicate Defined(ks: seq<string>, vars: map<string, Template>) {
    && (forall i :: 0 <= i < |ks| ==> ks[i] in vars && BraceFree(ks[i]) && Valid(vars[ks[i]]))
    && (forall i, j :: 0 <= i < j < |ks| ==> ks[i] != ks[j])
  }

  function SweepTemplate(t: Template, ks: seq<string>, vars: map<string, Template>): Template
    requires forall i :: 0 <= i < |ks| ==> ks[i] in vars
    decreases |ks|
  {
    if ks == [] then t else SweepTemplate(Plug(t, ks[0], vars[ks[0]]), ks[1..], vars)
  }

  // substituteString's outer loop: one in-place sweep per key, in the order of the list.
  function Sweep(s: string, ks: seq<string>, texts: map<string, string>): string
    requires forall i :: 0 <= i < |ks| ==> ks[i] in texts
    decreases |ks|
  {
    if ks == [] then s else Sweep(Replace(s, Token(ks[0]), texts[ks[0]]), ks[1..], texts)
  }

  function Texts(vars: map<string, Template>): map<string, string> {
    map k | k in vars :: Render(vars[k])
  }

  lemma {:induction false} SweepRender(t: Template, ks: seq<string>, vars: map<string, Template>)
    requires Valid(t) && Defined(ks, vars)
    ensures Sweep(Render(t), ks, Texts(vars)) == Render(SweepTemplate(t, ks, vars))
    ensures Valid(SweepTemplate(t, ks, vars))
    decreases |ks|
  {
    if ks != [] {
      ReplaceRender(t, ks[0], vars[ks[0]]);
      PlugValid(t, ks[0], vars[ks[0]]);
      SweepRender(Plug(t, ks[0], vars[ks[0]]), ks[1..], vars);
    }
  }

  // ---- recursive expansion ----

  function After(k: string, ks: seq<string>): (rest: seq<string>)
    requires k in ks
    ensures |rest| < |ks| && forall j :: j in rest ==> j in ks
  {
    if ks[0] == k then ks[1..] else After(k, ks[1..])
  }

  // A reference to a key of the list is expanded with the keys that come after it.
  function Expand(t: Template, ks: seq<string>, vars: map<string, Template>): Template
    requires forall k :: k in ks ==> k in vars
    decreases |ks|, |t|
  {
    if t == [] then []
    else
      (match t[0]
       case Lit(_) => [t[0]]
       case Ref(k) => if k in ks then Expand(vars[k], After(k, ks), vars) else [t[0]])
      + Expand(t[1..], ks, vars)
  }

  lemma {:induction false} ExpandAppend(a: Template, b: Template, ks: seq<string>, vars: map<string, Template>)
    requires forall k :: k in ks ==> k in vars
    ensures Expand(a + b, ks, vars) == Expand(a, ks, vars) + Expand(b, ks, vars)
    decreases |a|
  {
    if a == [] {
      assert a + b == b;
    } else {
      ConsAppend(a, b);
      ExpandAppend(a[1..], b, ks, vars);
      var head := match a[0]
        case Lit(_) => [a[0]]
        case Ref(k) => if k in ks then Expand(vars[k], After(k, ks), vars) else [a[0]];
      assert Expand(a, ks, vars) == head + Expand(a[1..], ks, vars);
      assert Expand(a + b, ks, vars) == head + Expand(a[1..] + b, ks, vars);
      hide Expand, After;
      Associative(head, Expand(a[1..], ks, vars), Expand(b, ks, vars));
    }
  }

  lemma ConsAppend(a: Template, b: Template)
    requires a != []
    ensures a + b != [] && (a + b)[0] == a[0] && (a + b)[1..] == a[1..] + b
  {
  }

  lemma {:induction false} ExpandNothing(t: Template, vars: map<string, Template>)
    ensures Expand(t, [], vars) == t
    decreases |t|
  {
    if t != [] { ExpandNothing(t[1..], vars); }
  }

  lemma {:induction false} ExpandPlugged(t: Template, ks: seq<string>, vars: map<string, Template>)
    requires ks != [] && forall k :: k in ks ==> k in vars
    requires ks[0] !in ks[1..]
    ensures Expand(Plug(t, ks[0], vars[ks[0]]), ks[1..], vars) == Expand(t, ks, vars)
    decreases |t|
  {
    if t != [] {
      var k := ks[0];
      var head := if t[0] == Ref(k) then vars[k] else [t[0]];
      ExpandPlugged(t[1..], ks, vars);
      ExpandAppend(head, Plug(t[1..], k, vars[k]), ks[1..], vars);
      if t[0] != Ref(k) {
        assert Expand([t[0]], ks[1..], vars) == Expand([t[0]], ks, vars) by {
          assert [t[0]][1..] == [];
        }
        ExpandAppend([t[0]], t[1..], ks, vars);
        assert [t[0]] + t[1..] == t;
      }
    }
  }

  /** Sweeping the keys in turn is expanding every reference with the keys after it: for every order and every value. */
  lemma {:induction false} SweepIsExpand(t: Template, ks: seq<string>, vars: map<string, Template>)
    requires Defined(ks, vars)
    ensures SweepTemplate(t, ks, vars) == Expand(t, ks, vars)
    decreases |ks|
  {
    if ks == [] {
      ExpandNothing(t, vars);
    } else {
      SweepIsExpand(Plug(t, ks[0], vars[ks[0]]), ks[1..], vars);
      ExpandPlugged(t, ks, vars);
    }
  }

  // ---- when the sweep is full recursive expansion ----

  ghost predicate Mentions(t: Template, k: string) {
    exists i :: 0 <= i < |t| && t[i] == Ref(k)
  }

  // No reference to a listed key.
  ghost predicate Closed(t: Template, ks: seq<string>) {
    forall k :: k in ks ==> !Mentions(t, k)
  }

  // Every value mentions, of the listed keys, only keys that come strictly later.
  ghost predicate Forward(ks: seq<string>, vars: map<string, Template>)
    requires forall i :: 0 <= i < |ks| ==> ks[i] in vars
  {
    forall i, j :: 0 <= j <= i < |ks| ==> !Mentions(vars[ks[i]], ks[j])
  }

  lemma MentionsCons(seg: Segment, t: Template, k: string)
    ensures Mentions([seg] + t, k) <==> seg == Ref(k) || Mentions(t, k)
  {
    if seg == Ref(k) { assert ([seg] + t)[0] == Ref(k); }
    if Mentions(t, k) {
      var i :| 0 <= i < |t| && t[i] == Ref(k);
      assert ([seg] + t)[i + 1] == Ref(k);
    }
  }

  lemma {:induction false} MentionsAppend(a: Template, b: Template, k: string)
    ensures Mentions(a + b, k) <==> Mentions(a, k) || Mentions(b, k)
  {
    if a == [] {
      assert a + b == b;
    } else {
      MentionsAppend(a[1..], b, k);
      MentionsCons(a[0], a[1..], k);
      MentionsCons(a[0], a[1..] + b, k);
      assert [a[0]] + a[1..] == a && [a[0]] + (a[1..] + b) == a + b;
    }
  }

  // Plugging removes the key unless its own value mentions it.
  lemma {:induction false} PlugMentions(t: Template, key: string, v: Template, k: string)
    ensures Mentions(Plug(t, key, v), k) <==> (k != key && Mentions(t, k)) || (Mentions(t, key) && Mentions(v, k))
  {
    if t != [] {
      var head := if t[0] == Ref(key) then v else [t[0]];
      PlugMentions(t[1..], key, v, k);
      MentionsAppend(head, Plug(t[1..], key, v), k);
      MentionsCons(t[0], t[1..], k);
      MentionsCons(t[0], t[1..], key);
      MentionsCons(t[0], [], k);
      assert [t[0]] + t[1..] == t;
    }
  }

  lemma {:induction false} SweepClosed(t: Template, ks: seq<string>, vars: map<string, Template>, gone: string)
    requires Defined(ks, vars) && Forward(ks, vars)
    requires gone in ks || (!Mentions(t, gone) && forall i :: 0 <= i < |ks| ==> !Mentions(vars[ks[i]], gone))
    ensures !Mentions(SweepTemplate(t, ks, vars), gone)
    decreases |ks|
  {
    if ks != [] {
      var k := ks[0];
      assert !Mentions(vars[k], k);
      PlugMentions(t, k, vars[k], gone);
      assert forall i :: 0 <= i < |ks| - 1 ==> ks[1..][i] == ks[i + 1];
      if gone == k {
        forall i | 0 <= i < |ks| - 1 ensures !Mentions(vars[ks[1..][i]], gone) {
          assert !Mentions(vars[ks[i + 1]], ks[0]);
        }
      }
      SweepClosed(Plug(t, k, vars[k]), ks[1..], vars, gone);
    }
  }

  // What an unmentioned key's sweep does: nothing.
  lemma {:induction false} PlugAbsent(t: Template, key: string, v: Template)
    requires !Mentions(t, key)
    ensures Plug(t, key, v) == t
  {
    if t != [] {
      assert [t[0]] + t[1..] == t;
      MentionsCons(t[0], t[1..], key);
      PlugAbsent(t[1..], key, v);
    }
  }

  lemma {:induction false} SweepOfClosed(t: Template, ks: seq<string>, vars: map<string, Template>)
    requires Defined(ks, vars) && Closed(t, ks)
    ensures SweepTemplate(t, ks, vars) == t
    decreases |ks|
  {
    if ks != [] {
      PlugAbsent(t, ks[0], vars[ks[0]]);
      SweepOfClosed(t, ks[1..], vars);
    }
  }

  // A mentioned key that is not in the list survives every sweep.
  lemma {:induction false} SweepKeepsOthers(t: Template, ks: seq<string>, vars: map<string, Template>, k: string)
    requires Defined(ks, vars) && Mentions(t, k) && k !in ks
    ensures Mentions(SweepTemplate(t, ks, vars), k)
    decreases |ks|
  {
    if ks != [] {
      PlugMentions(t, ks[0], vars[ks[0]], k);
      SweepKeepsOthers(Plug(t, ks[0], vars[ks[0]]), ks[1..], vars, k);
    }
  }

  // A backward reference is left over by the sweep of the key whose value holds it.
  lemma {:induction false} BackwardSurvives(ks: seq<string>, vars: map<string, Template>, i: nat, j: nat, t: Template)
    requires Defined(ks, vars) && j <= i < |ks| && Mentions(vars[ks[i]], ks[j]) && Mentions(t, ks[i])
    ensures Mentions(SweepTemplate(t, ks, vars), ks[j])
    decreases |ks|
  {
    var k := ks[0];
    if i == 0 {
      PlugMentions(t, k, vars[k], ks[j]);
      SweepKeepsOthers(Plug(t, k, vars[k]), ks[1..], vars, ks[j]);
    } else {
      PlugMentions(t, k, vars[k], ks[i]);
      var t' := Plug(t, k, vars[k]);
      if j == 0 {
        BackwardToDropped(ks[1..], vars, i - 1, k, t');
      } else {
        BackwardSurvives(ks[1..], vars, i - 1, j - 1, t');
      }
    }
  }

  lemma {:induction false} BackwardToDropped(ks: seq<string>, vars: map<string, Template>, i: nat, gone: string,
      t: Template)
    requires Defined(ks, vars) && i < |ks| && gone !in ks && Mentions(vars[ks[i]], gone) && Mentions(t, ks[i])
    ensures Mentions(SweepTemplate(t, ks, vars), gone)
    decreases |ks|
  {
    var k := ks[0];
    PlugMentions(t, k, vars[k], gone);
    PlugMentions(t, k, vars[k], ks[i]);
    if i == 0 {
      SweepKeepsOthers(Plug(t, k, vars[k]), ks[1..], vars, gone);
    } else {
      BackwardToDropped(ks[1..], vars, i - 1, gone, Plug(t, k, vars[k]));
    }
  }

  // ---- the rendered text ----

  lemma {:induction false} SplitAbsent(t: Template, key: string)
    ensures |Split(t, key)| == 1 <==> !Mentions(t, key)
  {
    if t != [] {
      SplitAbsent(t[1..], key);
      MentionsCons(t[0], t[1..], key);
      assert [t[0]] + t[1..] == t;
    }
  }

  /** A valid template mentions a key exactly when its text holds the key's token. */
  lemma MentionsIsOccurs(t: Template, key: string)
    requires Valid(t) && BraceFree(key)
    ensures Mentions(t, key) <==> Occurs(Render(t), Token(key))
  {
    CutRender(t, key);
    SplitAbsent(t, key);
    NoOccurrence(Render(t), Token(key));
  }

  ghost predicate TokenFree(s: string, ks: seq<string>) {
    forall k :: k in ks ==> !Occurs(s, Token(k))
  }

  lemma ClosedIsTokenFree(t: Template, ks: seq<string>)
    requires Valid(t) && forall k :: k in ks ==> BraceFree(k)
    ensures Closed(t, ks) <==> TokenFree(Render(t), ks)
  {
    forall k | k in ks ensures Mentions(t, k) <==> Occurs(Render(t), Token(k)) { MentionsIsOccurs(t, k); }
  }

  /** The sweep leaves no token of a defined variable in any template's text if and only if every value
      mentions only strictly later keys. */
  lemma SweepCompleteIffForward(ks: seq<string>, vars: map<string, Template>)
    requires Defined(ks, vars)
    ensures (forall t :: Valid(t) ==> TokenFree(Sweep(Render(t), ks, Texts(vars)), ks)) <==> Forward(ks, vars)
  {
    if Forward(ks, vars) {
      forall t | Valid(t) ensures TokenFree(Sweep(Render(t), ks, Texts(vars)), ks) {
        SweepRender(t, ks, vars);
        forall k | k in ks ensures !Mentions(SweepTemplate(t, ks, vars), k) { SweepClosed(t, ks, vars, k); }
        ClosedIsTokenFree(SweepTemplate(t, ks, vars), ks);
      }
    } else {
      var i, j :| 0 <= j <= i < |ks| && Mentions(vars[ks[i]], ks[j]);
      var t := [Ref(ks[i])];
      assert t[0] == Ref(ks[i]) && Valid(t);
      SweepRender(t, ks, vars);
      BackwardSurvives(ks, vars, i, j, t);
      ClosedIsTokenFree(SweepTemplate(t, ks, vars), ks);
      assert !TokenFree(Sweep(Render(t), ks, Texts(vars)), ks);
    }
  }

  /** With forward values a second sweep changes nothing. */
  lemma SweepIdempotent(t: Template, ks: seq<string>, vars: map<string, Template>)
    requires Valid(t) && Defined(ks, vars) && Forward(ks, vars)
    ensures var once := Sweep(Render(t), ks, Texts(vars)); Sweep(once, ks, Texts(vars)) == once
  {
    var u := SweepTemplate(t, ks, vars);
    SweepRender(t, ks, vars);
    SweepRender(u, ks, vars);
    forall k | k in ks ensures !Mentions(u, k) { SweepClosed(t, ks, vars, k); }
    SweepOfClosed(u, ks, vars);
  }

  // ---- the recursion equations ----

  // Every reference to a listed key replaced by F of the key, all at once.
  function Flat(t: Template, ks: seq<string>, F: string -> Template): Template {
    if t == [] then []
    else
      (match t[0]
       case Lit(_) => [t[0]]
       case Ref(k) => if k in ks then F(k) else [t[0]])
      + Flat(t[1..], ks, F)
  }

  // F expands every listed key to its value with the references in it expanded by F again.
  ghost predicate Solves(F: string -> Template, ks: seq<string>, vars: map<string, Template>)
    requires forall i :: 0 <= i < |ks| ==> ks[i] in vars
  {
    forall i :: 0 <= i < |ks| ==> F(ks[i]) == Flat(vars[ks[i]], ks, F)
  }

  lemma {:induction false} FlatAppend(a: Template, b: Template, ks: seq<string>, F: string -> Template)
    ensures Flat(a + b, ks, F) == Flat(a, ks, F) + Flat(b, ks, F)
  {
    if a == [] {
      assert a + b == b;
    } else {
      assert (a + b)[1..] == a[1..] + b && (a + b)[0] == a[0];
      FlatAppend(a[1..], b, ks, F);
    }
  }

  // One sweep step does not change what F makes of the template.
  lemma {:induction false} FlatPlug(t: Template, ks: seq<string>, vars: map<string, Template>, F: string -> Template,
      i: nat)
    requires Defined(ks, vars) && Solves(F, ks, vars) && i < |ks|
    ensures Flat(Plug(t, ks[i], vars[ks[i]]), ks, F) == Flat(t, ks, F)
  {
    if t != [] {
      var k := ks[i];
      var head := if t[0] == Ref(k) then vars[k] else [t[0]];
      FlatPlug(t[1..], ks, vars, F, i);
      FlatAppend(head, Plug(t[1..], k, vars[k]), ks, F);
      FlatAppend([t[0]], t[1..], ks, F);
      assert [t[0]][1..] == [] && [t[0]] + t[1..] == t;
      assert F(k) == Flat(vars[k], ks, F);
      assert Flat([Ref(k)], ks, F) == F(k) + [] by { assert [Ref(k)][1..] == []; }
    }
  }

  lemma {:induction false} FlatSweep(t: Template, ks: seq<string>, from: nat, vars: map<string, Template>,
      F: string -> Template)
    requires Defined(ks, vars) && Solves(F, ks, vars) && from <= |ks|
    ensures Flat(SweepTemplate(t, ks[from..], vars), ks, F) == Flat(t, ks, F)
    decreases |ks| - from
  {
    if from < |ks| {
      FlatPlug(t, ks, vars, F, from);
      assert ks[from..][1..] == ks[from + 1..];
      FlatSweep(Plug(t, ks[from], vars[ks[from]]), ks, from + 1, vars, F);
    }
  }

  lemma {:induction false} FlatOfClosed(t: Template, ks: seq<string>, F: string -> Template)
    requires Closed(t, ks)
    ensures Flat(t, ks, F) == t
  {
    if t != [] {
      assert [t[0]] + t[1..] == t;
      forall k | k in ks ensures t[0] != Ref(k) && !Mentions(t[1..], k) { MentionsCons(t[0], t[1..], k); }
      FlatOfClosed(t[1..], ks, F);
    }
  }

  /** Any solution of the recursive expansion equations is what one sweep computes. */
  lemma SweepIsTheSolution(t: Template, ks: seq<string>, vars: map<string, Template>, F: string -> Template)
    requires Defined(ks, vars) && Forward(ks, vars) && Solves(F, ks, vars)
    ensures SweepTemplate(t, ks, vars) == Flat(t, ks, F)
  {
    var u := SweepTemplate(t, ks, vars);
    assert ks[0..] == ks;
    FlatSweep(t, ks, 0, vars, F);
    forall k | k in ks ensures !Mentions(u, k) { SweepClosed(t, ks, vars, k); }
    FlatOfClosed(u, ks, F);
  }

  lemma SweepAppend(a: Template, b: Template, ks: seq<string>, vars: map<string, Template>)
    requires Defined(ks, vars)
    ensures SweepTemplate(a + b, ks, vars) == SweepTemplate(a, ks, vars) + SweepTemplate(b, ks, vars)
  {
    SweepIsExpand(a + b, ks, vars);
    SweepIsExpand(a, ks, vars);
    SweepIsExpand(b, ks, vars);
    ExpandAppend(a, b, ks, vars);
  }

  // Keys a template does not mention, up to a point, may be skipped.
  lemma {:induction false} SweepSkips(t: Template, ks: seq<string>, vars: map<string, Template>, n: nat)
    requires Defined(ks, vars) && n <= |ks| && forall j :: 0 <= j < n ==> !Mentions(t, ks[j])
    ensures SweepTemplate(t, ks, vars) == SweepTemplate(t, ks[n..], vars)
    decreases n
  {
    if n > 0 {
      PlugAbsent(t, ks[0], vars[ks[0]]);
      assert forall j :: 0 <= j < n - 1 ==> ks[1..][j] == ks[j + 1];
      SweepSkips(t, ks[1..], vars, n - 1);
      assert ks[1..][n - 1..] == ks[n..];
    } else {
      assert ks[0..] == ks;
    }
  }

  /** With forward values the sweep of a reference is the sweep of its value: recursive expansion, unfolded. */
  lemma SweepUnfolds(ks: seq<string>, vars: map<string, Template>, i: nat)
    requires Defined(ks, vars) && Forward(ks, vars) && i < |ks|
    ensures SweepTemplate([Ref(ks[i])], ks, vars) == SweepTemplate(vars[ks[i]], ks, vars)
  {
    var t := [Ref(ks[i])];
    forall j | 0 <= j < i ensures !Mentions(t, ks[j]) { assert ks[j] != ks[i]; }
    SweepSkips(t, ks, vars, i);
    SweepSkips(vars[ks[i]], ks, vars, i + 1);
    assert ks[i..][0] == ks[i] && ks[i..][1..] == ks[i + 1..];
    assert t[1..] == [] && Plug(t, ks[i], vars[ks[i]]) == vars[ks[i]] + [];
    assert vars[ks[i]] + [] == vars[ks[i]];
  }

  lemma {:induction false} SweepIsFlat(t: Template, ks: seq<string>, vars: map<string, Template>, F: string -> Template)
    requires Defined(ks, vars) && forall k :: k in ks ==> F(k) == SweepTemplate([Ref(k)], ks, vars)
    ensures SweepTemplate(t, ks, vars) == Flat(t, ks, F)
  {
    if t == [] {
      SweepOfClosed(t, ks, vars);
    } else {
      SweepIsFlat(t[1..], ks, vars, F);
      SweepAppend([t[0]], t[1..], ks, vars);
      assert [t[0]] + t[1..] == t;
      if t[0].Lit? || t[0].key !in ks { SweepOfClosed([t[0]], ks, vars); }
    }
  }

  /** The recursion equations have a solution when the values are forward; with SweepIsTheSolution, exactly one. */
  lemma SweepSolves(ks: seq<string>, vars: map<string, Template>, F: string -> Template)
    requires Defined(ks, vars) && Forward(ks, vars)
    requires forall k :: k in ks ==> F(k) == SweepTemplate([Ref(k)], ks, vars)
    ensures Solves(F, ks, vars)
  {
    forall i | 0 <= i < |ks| ensures F(ks[i]) == Flat(vars[ks[i]], ks, F) {
      SweepUnfolds(ks, vars, i);
      SweepIsFlat(vars[ks[i]], ks, vars, F);
    }
  }

  // ---- simultaneous substitution ----

  // No value mentions a defined key (brace-free texts, and texts with undefined references, are such values).
  ghost predicate ValuesClosed(ks: seq<string>, vars: map<string, Template>)
    requires forall i :: 0 <= i < |ks| ==> ks[i] in vars
  {
    forall i :: 0 <= i < |ks| ==> Closed(vars[ks[i]], ks)
  }

  /** When no value mentions a defined key, the key-by-key sweep is one simultaneous substitution;
      references to undefined keys stay as they are. */
  lemma SweepIsSimultaneous(t: Template, ks: seq<string>, vars: map<string, Template>, F: string -> Template)
    requires Valid(t) && Defined(ks, vars) && ValuesClosed(ks, vars)
    requires forall i :: 0 <= i < |ks| ==> F(ks[i]) == vars[ks[i]]
    ensures Sweep(Render(t), ks, Texts(vars)) == Render(Flat(t, ks, F))
  {
    forall i | 0 <= i < |ks| ensures F(ks[i]) == Flat(vars[ks[i]], ks, F) { FlatOfClosed(vars[ks[i]], ks, F); }
    SweepRender(t, ks, vars);
    SweepIsTheSolution(t, ks, vars, F);
  }

  lemma {:induction false} FlatSameKeys(t: Template, ks: seq<string>, ks': seq<string>, F: string -> Template)
    requires forall k :: k in ks <==> k in ks'
    ensures Flat(t, ks, F) == Flat(t, ks', F)
  {
    if t != [] { FlatSameKeys(t[1..], ks, ks', F); }
  }

  // ---- when the order of the keys does not matter ----

  // The same keys, in whatever order.
  ghost predicate SameKeys(ks: seq<string>, ks': seq<string>) {
    forall k :: k in ks <==> k in ks'
  }

  // Every order gives every template the same text.
  ghost predicate OrderIrrelevant(ks: seq<string>, vars: map<string, Template>)
    requires Defined(ks, vars)
  {
    forall t, ks' :: Valid(t) && Defined(ks', vars) && SameKeys(ks, ks') ==>
      Sweep(Render(t), ks, Texts(vars)) == Sweep(Render(t), ks', Texts(vars))
  }

  // A variable whose text is the reference to itself: its sweep rewrites its token to its token.
  ghost predicate Fixed(vars: map<string, Template>, k: string) {
    k in vars && Render(vars[k]) == Token(k)
  }

  // A value refers to another defined variable only if that variable is fixed.
  ghost predicate RefersToFixedOnly(ks: seq<string>, vars: map<string, Template>)
    requires Defined(ks, vars)
  {
    forall i, j :: 0 <= i < |ks| && 0 <= j < |ks| && i != j && Mentions(vars[ks[i]], ks[j]) ==> Fixed(vars, ks[j])
  }

  // No value refers to another listed variable; it may refer to itself.
  ghost predicate CrossClosed(ks: seq<string>, vars: map<string, Template>)
    requires forall i :: 0 <= i < |ks| ==> ks[i] in vars
  {
    forall i, j :: 0 <= i < |ks| && 0 <= j < |ks| && i != j ==> !Mentions(vars[ks[i]], ks[j])
  }

  // What is swept for a key in a cross-closed list is its value, untouched by the keys after it.
  lemma {:induction false} CrossClosedIsFlat(t: Template, ks: seq<string>, vars: map<string, Template>,
      F: string -> Template)
    requires Defined(ks, vars) && CrossClosed(ks, vars) && forall k :: k in ks ==> F(k) == vars[k]
    ensures SweepTemplate(t, ks, vars) == Flat(t, ks, F)
  {
    if t == [] {
      SweepOfClosed(t, ks, vars);
    } else {
      CrossClosedIsFlat(t[1..], ks, vars, F);
      SweepAppend([t[0]], t[1..], ks, vars);
      assert [t[0]] + t[1..] == t;
      if t[0].Ref? && t[0].key in ks {
        var i :| 0 <= i < |ks| && ks[i] == t[0].key;
        SweepOfCrossClosed(ks, vars, i);
      } else {
        SweepOfClosed([t[0]], ks, vars);
      }
    }
  }

  lemma SweepOfCrossClosed(ks: seq<string>, vars: map<string, Template>, i: nat)
    requires Defined(ks, vars) && CrossClosed(ks, vars) && i < |ks|
    ensures SweepTemplate([Ref(ks[i])], ks, vars) == vars[ks[i]]
  {
    var t, rest := [Ref(ks[i])], ks[i + 1..];
    forall j | 0 <= j < i ensures !Mentions(t, ks[j]) { assert ks[j] != ks[i]; }
    SweepSkips(t, ks, vars, i);
    assert ks[i..][0] == ks[i] && ks[i..][1..] == rest;
    PlugOne(ks[i], vars[ks[i]]);
    forall k | k in rest ensures !Mentions(vars[ks[i]], k) {
      var j :| 0 <= j < |rest| && rest[j] == k;
      assert ks[i + 1 + j] == k;
    }
    SweepOfClosed(vars[ks[i]], rest, vars);
  }

  // The keys that are not fixed, in order.
  ghost function Moving(ks: seq<string>, vars: map<string, Template>): (rest: seq<string>)
    ensures forall k :: k in rest <==> k in ks && !Fixed(vars, k)
  {
    if ks == [] then [] else (if Fixed(vars, ks[0]) then [] else [ks[0]]) + Moving(ks[1..], vars)
  }

  lemma {:induction false} MovingDistinct(ks: seq<string>, vars: map<string, Template>)
    requires Defined(ks, vars)
    ensures Defined(Moving(ks, vars), vars)
  {
    if ks != [] {
      MovingDistinct(ks[1..], vars);
      var rest := Moving(ks[1..], vars);
      forall j | 0 <= j < |rest| ensures rest[j] != ks[0] { assert rest[j] in rest; }
    }
  }

  lemma MovingCrossClosed(ks: seq<string>, vars: map<string, Template>)
    requires Defined(ks, vars) && RefersToFixedOnly(ks, vars)
    ensures Defined(Moving(ks, vars), vars) && CrossClosed(Moving(ks, vars), vars)
  {
    MovingDistinct(ks, vars);
    var rest := Moving(ks, vars);
    hide Moving, Fixed, Mentions;
    forall i, j | 0 <= i < |rest| && 0 <= j < |rest| && i != j ensures !Mentions(vars[rest[i]], rest[j]) {
      assert rest[i] in rest && rest[j] in rest;
      var k :| 0 <= k < |ks| && ks[k] == rest[i];
      var l :| 0 <= l < |ks| && ks[l] == rest[j];
      assert k != l;
    }
  }

  // Sweeping a fixed key changes no text at all.
  lemma {:induction false} SweepSkipsFixed(s: string, ks: seq<string>, vars: map<string, Template>)
    requires Defined(ks, vars)
    ensures Defined(Moving(ks, vars), vars)
    ensures Sweep(s, ks, Texts(vars)) == Sweep(s, Moving(ks, vars), Texts(vars))
    decreases |ks|
  {
    MovingDistinct(ks, vars);
    if ks != [] {
      var k, texts := ks[0], Texts(vars);
      var s' := Replace(s, Token(k), texts[k]);
      SweepSkipsFixed(s', ks[1..], vars);
      if Fixed(vars, k) {
        JoinCut(s, Token(k));
        assert Moving(ks, vars) == Moving(ks[1..], vars);
      } else {
        assert Moving(ks, vars)[1..] == Moving(ks[1..], vars);
      }
    }
  }

  // Under the condition the sweep is one simultaneous substitution of the keys that are not fixed.
  lemma SweepOfMoving(t: Template, ks: seq<string>, vars: map<string, Template>, F: string -> Template)
    requires Valid(t) && Defined(ks, vars) && RefersToFixedOnly(ks, vars) && forall k :: k in ks ==> F(k) == vars[k]
    ensures Sweep(Render(t), ks, Texts(vars)) == Render(Flat(t, Moving(ks, vars), F))
  {
    SweepSkipsFixed(Render(t), ks, vars);
    MovingCrossClosed(ks, vars);
    hide Render, Fixed, Sweep, SweepTemplate;
    SweepRender(t, Moving(ks, vars), vars);
    CrossClosedIsFlat(t, Moving(ks, vars), vars, F);
  }

  lemma ConditionSameKeys(ks: seq<string>, ks': seq<string>, vars: map<string, Template>)
    requires Defined(ks, vars) && Defined(ks', vars) && SameKeys(ks, ks') && RefersToFixedOnly(ks, vars)
    ensures RefersToFixedOnly(ks', vars)
  {
    hide Mentions, Fixed;
    forall i, j | 0 <= i < |ks'| && 0 <= j < |ks'| && i != j && Mentions(vars[ks'[i]], ks'[j])
      ensures Fixed(vars, ks'[j])
    {
      assert ks'[i] in ks && ks'[j] in ks;
      var k :| 0 <= k < |ks| && ks[k] == ks'[i];
      var l :| 0 <= l < |ks| && ks[l] == ks'[j];
      assert k != l;
    }
  }

  lemma ConditionSuffices(ks: seq<string>, vars: map<string, Template>)
    requires Defined(ks, vars) && RefersToFixedOnly(ks, vars)
    ensures OrderIrrelevant(ks, vars)
  {
    hide Render, Sweep, Flat, Fixed, Mentions;
    var F := (k: string) => if k in vars then vars[k] else [];
    forall t, ks' | Valid(t) && Defined(ks', vars) && SameKeys(ks, ks')
      ensures Sweep(Render(t), ks, Texts(vars)) == Sweep(Render(t), ks', Texts(vars))
    {
      ConditionSameKeys(ks, ks', vars);
      SweepOfMoving(t, ks, vars, F);
      SweepOfMoving(t, ks', vars, F);
      FlatSameKeys(t, Moving(ks, vars), Moving(ks', vars), F);
    }
  }

  // The listed keys other than two.
  function Others(ks: seq<string>, k: string, l: string): (rest: seq<string>)
    ensures forall x :: x in rest <==> x in ks && x != k && x != l
  {
    if ks == [] then [] else (if ks[0] == k || ks[0] == l then [] else [ks[0]]) + Others(ks[1..], k, l)
  }

  lemma {:induction false} OthersDistinct(ks: seq<string>, vars: map<string, Template>, k: string, l: string)
    requires Defined(ks, vars)
    ensures Defined(Others(ks, k, l), vars)
  {
    if ks != [] {
      OthersDistinct(ks[1..], vars, k, l);
      var rest := Others(ks[1..], k, l);
      forall j | 0 <= j < |rest| ensures rest[j] != ks[0] { assert rest[j] in rest; }
    }
  }

  // An order of the keys that ends in two given ones.
  lemma EndingIn(ks: seq<string>, vars: map<string, Template>, k: string, l: string) returns (ks': seq<string>)
    requires Defined(ks, vars) && k in ks && l in ks && k != l
    ensures Defined(ks', vars) && SameKeys(ks, ks') && |ks'| >= 2 && ks'[|ks'| - 2..] == [k, l]
  {
    var rest := Others(ks, k, l);
    OthersDistinct(ks, vars, k, l);
    assert forall j :: 0 <= j < |rest| ==> rest[j] in rest;
    ks' := rest + [k, l];
    assert vars.Keys >= {k, l} && BraceFree(k) && BraceFree(l) && Valid(vars[k]) && Valid(vars[l]);
    assert [k, l][0] == k && [k, l][1] == l;
    forall x ensures x in ks' <==> x in ks { assert x in [k, l] <==> x == k || x == l; }
  }

  // The reference to k, swept in an order that ends in k and l, and in one that ends in l and k.
  lemma LastTwo(ks: seq<string>, vars: map<string, Template>, first: string, second: string, k: string)
    requires Defined(ks, vars) && |ks| >= 2 && ks[|ks| - 2..] == [first, second] && (k == first || k == second)
    ensures first in vars && second in vars && Valid([Ref(k)])
    ensures SweepTemplate([Ref(k)], ks, vars)
         == if k == first then Plug(vars[k], second, vars[second]) else vars[k]
  {
    var n, t := |ks| - 2, [Ref(k)];
    assert ks[n] == first && ks[n + 1] == second;
    assert BraceFree(k);
    forall j | 0 <= j < n ensures !Mentions(t, ks[j]) { assert ks[j] != ks[n] && ks[j] != ks[n + 1]; }
    SweepSkips(t, ks, vars, n);
    SweepTwo(t, first, second, vars);
    PlugOne(k, vars[k]);
    if k != first {
      PlugAbsent(t, first, vars[first]);
    }
  }

  lemma ConditionNeeded(ks: seq<string>, vars: map<string, Template>, k: string, l: string)
    requires Defined(ks, vars) && OrderIrrelevant(ks, vars)
    requires k in ks && l in ks && k != l && Mentions(vars[k], l)
    ensures Fixed(vars, l)
  {
    var a := EndingIn(ks, vars, k, l);
    var b := EndingIn(ks, vars, l, k);
    var t, texts := [Ref(k)], Texts(vars);
    LastTwo(a, vars, k, l, k);
    LastTwo(b, vars, l, k, k);
    SweepRender(t, a, vars);
    SweepRender(t, b, vars);
    hide Sweep, SweepTemplate, Render, Plug, Texts, SameKeys, Mentions;
    assert Sweep(Render(t), a, texts) == Sweep(Render(t), ks, texts) == Sweep(Render(t), b, texts);
    ReplaceRender(vars[k], l, vars[l]);
    MentionsIsOccurs(vars[k], l);
    ReplaceIsIdentityIff(Render(vars[k]), Token(l), Render(vars[l]));
  }

  /** The order of the keys does not matter, for any template, if and only if every value that refers to another defined
      variable refers to one whose text is the reference to itself. */
  lemma OrderIrrelevantIff(ks: seq<string>, vars: map<string, Template>)
    requires Defined(ks, vars)
    ensures OrderIrrelevant(ks, vars) <==> RefersToFixedOnly(ks, vars)
  {
    hide OrderIrrelevant, Mentions, Fixed;
    if RefersToFixedOnly(ks, vars) {
      ConditionSuffices(ks, vars);
    }
    if OrderIrrelevant(ks, vars) {
      forall i, j | 0 <= i < |ks| && 0 <= j < |ks| && i != j && Mentions(vars[ks[i]], ks[j])
        ensures Fixed(vars, ks[j])
      {
        ConditionNeeded(ks, vars, ks[i], ks[j]);
      }
    }
  }

  /** In particular when no value refers to a defined variable. */
  lemma SweepOrderIrrelevant(t: Template, ks: seq<string>, ks': seq<string>, vars: map<string, Template>)
    requires Valid(t) && Defined(ks, vars) && Defined(ks', vars) && ValuesClosed(ks, vars)
    requires forall k :: k in ks <==> k in ks'
    ensures Sweep(Render(t), ks, Texts(vars)) == Sweep(Render(t), ks', Texts(vars))
  {
    assert RefersToFixedOnly(ks, vars) by {
      hide Mentions;
      assert forall j :: 0 <= j < |ks| ==> ks[j] in ks;
    }
    ConditionSuffices(ks, vars);
    hide Sweep, Render, Texts, Defined, ValuesClosed;
    assert SameKeys(ks, ks');
  }

  lemma SweepTwo(t: Template, k: string, l: string, vars: map<string, Template>)
    requires k in vars && l in vars
    ensures SweepTemplate(t, [k, l], vars) == Plug(Plug(t, k, vars[k]), l, vars[l])
  {
    var u := Plug(t, k, vars[k]);
    assert [k, l][1..] == [l] && [l][1..] == [];
    assert SweepTemplate(u, [l], vars) == SweepTemplate(Plug(u, l, vars[l]), [], vars);
  }

  /** An instance where it does matter: with a -> {{b}} and b -> x, sweeping a before b gives x, sweeping b before a
      leaves {{b}}. */
  lemma OrderMattersForReferences(a: string, b: string, x: string)
    requires BraceFree(a) && BraceFree(b) && a != b && PlainText(x)
    ensures var texts := map[a := Token(b), b := x];
            Sweep(Token(a), [a, b], texts) == x && Sweep(Token(a), [b, a], texts) == Token(b)
  {
    var vars: map<string, Template> := map[a := [Ref(b)], b := [Lit(x)]];
    OrderMattersForTemplates(a, b, x, vars);
    hide SweepTemplate, Sweep, Render;
    RenderOne(Ref(a));
    RenderOne(Ref(b));
    RenderOne(Lit(x));
    assert Texts(vars) == map[a := Token(b), b := x];
    SweepRender([Ref(a)], [a, b], vars);
    SweepRender([Ref(a)], [b, a], vars);
  }

  lemma OrderMattersForTemplates(a: string, b: string, x: string, vars: map<string, Template>)
    requires a != b && vars == map[a := [Ref(b)], b := [Lit(x)]]
    ensures SweepTemplate([Ref(a)], [a, b], vars) == [Lit(x)]
    ensures SweepTemplate([Ref(a)], [b, a], vars) == [Ref(b)]
  {
    hide SweepTemplate, Plug;
    SweepTwo([Ref(a)], a, b, vars);
    SweepTwo([Ref(a)], b, a, vars);
    PlugOne(a, [Ref(b)]);
    PlugOne(b, [Lit(x)]);
    PlugAbsent([Ref(a)], b, [Lit(x)]);
  }

  lemma RenderOne(seg: Segment)
    ensures Render([seg]) == RenderSegment(seg)
  {
    assert [seg][1..] == [] && RenderSegment(seg) + "" == RenderSegment(seg);
  }

  lemma PlugOne(k: string, v: Template)
    ensures Plug([Ref(k)], k, v) == v
  {
    assert [Ref(k)][1..] == [];
  }

  // ---- dynamic references inside a template ----

  function RefCount(t: Template, key: string): nat {
    if t == [] then 0 else (if t[0] == Ref(key) then 1 else 0) + RefCount(t[1..], key)
  }

  // Each reference to the key replaced by a text of its own, in order.
  function PlugTexts(t: Template, key: string, texts: seq<string>): Template
    requires |texts| == RefCount(t, key)
  {
    if t == [] then []
    else if t[0] == Ref(key) then [Lit(texts[0])] + PlugTexts(t[1..], key, texts[1..])
    else [t[0]] + PlugTexts(t[1..], key, texts)
  }

  lemma {:induction false} InterleaveSplit(t: Template, key: string, texts: seq<string>)
    requires |texts| == RefCount(t, key)
    ensures |Split(t, key)| == |texts| + 1
    ensures Interleave(RenderAll(Split(t, key)), texts) == Render(PlugTexts(t, key, texts))
  {
    if t != [] {
      var rest := Split(t[1..], key);
      if t[0] == Ref(key) {
        InterleaveSplit(t[1..], key, texts[1..]);
        RenderAllCons([], rest);
        assert RenderAll(Split(t, key))[1..] == RenderAll(rest);
        assert "" + texts[0] == texts[0];
      } else {
        InterleaveSplit(t[1..], key, texts);
        RenderAllCons([t[0]] + rest[0], rest[1..]);
        RenderAllHead(rest);
        RenderAppend([t[0]], rest[0]);
        assert Render([t[0]]) == RenderSegment(t[0]);
        InterleaveFirst(RenderSegment(t[0]), RenderAll(rest), texts);
      }
    } else {
      assert RenderAll([[]]) == [""];
    }
  }

  lemma InterleaveFirst(a: string, pieces: seq<string>, reps: seq<string>)
    requires |pieces| == |reps| + 1
    ensures Interleave([a + pieces[0]] + pieces[1..], reps) == a + Interleave(pieces, reps)
  {
    assert ([a + pieces[0]] + pieces[1..])[1..] == pieces[1..];
    if |reps| > 0 {
      var rest := Interleave(pieces[1..], reps[1..]);
      assert a + pieces[0] + reps[0] + rest == a + (pieces[0] + reps[0] + rest);
    }
  }

  // u is t with some references to names of the generators replaced by texts they may emit.
  ghost predicate Instance(t: Template, u: Template) {
    && |u| == |t|
    && forall i :: 0 <= i < |t| ==> InstanceSegment(t[i], u[i])
  }

  ghost predicate InstanceSegment(x: Segment, y: Segment) {
    x == y || (exists g :: x == Ref(Name(g)) && y.Lit? && Emits(g, y.text))
  }

  lemma {:induction false} PlugTextsInstance(t: Template, g: Generator, texts: seq<string>)
    requires |texts| == RefCount(t, Name(g)) && AllEmitted(g, texts) && Valid(t)
    ensures Instance(t, PlugTexts(t, Name(g), texts)) && Valid(PlugTexts(t, Name(g), texts))
    ensures !Mentions(PlugTexts(t, Name(g), texts), Name(g))
  {
    if t != [] {
      var head := PlugTexts(t, Name(g), texts)[0];
      if t[0] == Ref(Name(g)) {
        PlugTextsInstance(t[1..], g, texts[1..]);
        assert Emits(g, texts[0]);
        EmittedIsSafe(g, texts[0]);
        assert InstanceSegment(t[0], Lit(texts[0]));
      } else {
        PlugTextsInstance(t[1..], g, texts);
      }
      assert ValidSegment(head) && InstanceSegment(t[0], head);
    }
  }

  lemma InstanceTransitive(t: Template, u: Template, v: Template)
    requires Instance(t, u) && Instance(u, v)
    ensures Instance(t, v)
  {
    forall i | 0 <= i < |t| ensures InstanceSegment(t[i], v[i]) {
      assert InstanceSegment(t[i], u[i]) && InstanceSegment(u[i], v[i]);
    }
  }

  lemma PassRender(g: Generator, t: Template, r: string) returns (u: Template)
    requires Valid(t) && PassTo(g, Render(t), r)
    ensures Valid(u) && Instance(t, u) && Render(u) == r
  {
    hide Emits, Cut, Render, Name;
    var draws :| Pass(g, Render(t), draws, r);
    assert BraceFree(Name(g)) by { NamesBraceFree(g); }
    CutRender(t, Name(g));
    SplitCount(t, Name(g));
    InterleaveSplit(t, Name(g), draws);
    PlugTextsInstance(t, g, draws);
    u := PlugTexts(t, Name(g), draws);
  }

  lemma NamesBraceFree(g: Generator)
    ensures BraceFree(Name(g))
  {
  }

  lemma {:induction false} SplitCount(t: Template, key: string)
    ensures |Split(t, key)| == RefCount(t, key) + 1
  {
    if t != [] { SplitCount(t[1..], key); }
  }

  /** Resolving a template's text replaces exactly its references to generator names, each by a draw of its own. */
  lemma ResolveRender(t: Template, r: string) returns (u: Template)
    requires Valid(t) && Resolves(Render(t), r)
    ensures Valid(u) && Instance(t, u) && Render(u) == r
    ensures forall g :: !Mentions(u, Name(g))
  {
    hide Emits, Render, Name, PassTo, Instance, ValidSegment;
    var s1, s2, s3, s4 :|
      && PassTo(RandomInt, Render(t), s1) && PassTo(Guid, s1, s2) && PassTo(Timestamp, s2, s3)
      && PassTo(IsoTimestamp, s3, s4) && PassTo(RandomEmail, s4, r);
    var t1 := PassRender(RandomInt, t, s1);
    var t2 := PassRender(Guid, t1, s2);
    var t3 := PassRender(Timestamp, t2, s3);
    var t4 := PassRender(IsoTimestamp, t3, s4);
    u := PassRender(RandomEmail, t4, r);
    InstanceTransitive(t, t1, t2);
    InstanceTransitive(t, t2, t3);
    InstanceTransitive(t, t3, t4);
    InstanceTransitive(t, t4, u);
    ResolveLeavesNoToken(Render(t), r);
    forall g ensures !Mentions(u, Name(g)) { NamesBraceFree(g); MentionsIsOccurs(u, Name(g)); }
  }

  // ---- what each dynamic token becomes ----

  lemma RenderThree(x: Segment, y: Segment, z: Segment)
    ensures Render([x, y, z]) == RenderSegment(x) + RenderSegment(y) + RenderSegment(z)
  {
    assert [x, y, z][1..] == [y, z] && [y, z][1..] == [z];
    RenderOne(z);
  }

  lemma MentionsBetween(a: string, y: Segment, b: string, k: string)
    ensures Mentions([Lit(a), y, Lit(b)], k) <==> y == Ref(k)
  {
    assert [Lit(a), y, Lit(b)][1] == y;
  }

  lemma NamesDistinct(g: Generator, h: Generator)
    ensures Name(g) == Name(h) ==> g == h
  {
    assert Name(RandomInt)[1] == 'r' && Name(Guid)[1] == 'g' && Name(Timestamp)[1] == 't';
    assert Name(IsoTimestamp)[1] == 'i' && Name(RandomEmail)[1] == 'r';
    assert Name(RandomInt)[7] == 'I' && Name(RandomEmail)[7] == 'E';
  }

  lemma DrawnFor(g: Generator, a: string, b: string, r: string) returns (x: string)
    requires BraceFree(a) && BraceFree(b) && Resolves(a + Token(Name(g)) + b, r)
    ensures Emits(g, x) && r == a + x + b
  {
    hide Resolves, Emits, Render, Name, Mentions;
    var t := [Lit(a), Ref(Name(g)), Lit(b)];
    NamesBraceFree(g);
    RenderThree(t[0], t[1], t[2]);
    var u := ResolveRender(t, r);
    assert InstanceSegment(t[0], u[0]) && InstanceSegment(t[1], u[1]) && InstanceSegment(t[2], u[2]);
    assert u == [u[0], u[1], u[2]] == [Lit(a), u[1], Lit(b)];
    MentionsBetween(a, u[1], b, Name(g));
    var h :| Ref(Name(g)) == Ref(Name(h)) && u[1].Lit? && Emits(h, u[1].text);
    NamesDistinct(g, h);
    RenderThree(u[0], u[1], u[2]);
    x := u[1].text;
  }

  lemma TokensBetween(a: string, y: Segment, b: string, h: Generator)
    requires BraceFree(a) && BraceFree(b) && ValidSegment(y)
    ensures Occurs(a + RenderSegment(y) + b, Token(Name(h))) <==> y == Ref(Name(h))
  {
    hide Mentions, Render, Name;
    var t := [Lit(a), y, Lit(b)];
    NamesBraceFree(h);
    RenderThree(t[0], t[1], t[2]);
    MentionsIsOccurs(t, Name(h));
    MentionsBetween(a, y, b, Name(h));
  }

  lemma PlugTextBetween(a: string, k: string, b: string, x: string)
    ensures RefCount([Lit(a), Ref(k), Lit(b)], k) == 1
    ensures PlugTexts([Lit(a), Ref(k), Lit(b)], k, [x]) == [Lit(a), Lit(x), Lit(b)]
  {
    var t := [Lit(a), Ref(k), Lit(b)];
    assert t[1..] == [Ref(k), Lit(b)] && t[1..][1..] == [Lit(b)] && [Lit(b)][1..] == [] && [x][1..] == [];
    assert RefCount([Lit(b)], k) == 0 && PlugTexts([Lit(b)], k, []) == [Lit(b)];
    assert RefCount(t[1..], k) == 1 && PlugTexts(t[1..], k, [x]) == [Lit(x)] + [Lit(b)];
  }

  lemma PassOnReference(g: Generator, a: string, b: string, x: string)
    requires BraceFree(a) && BraceFree(b) && Emits(g, x)
    ensures PassTo(g, a + Token(Name(g)) + b, a + x + b)
  {
    hide Emits, Name, Render, Cut;
    var t := [Lit(a), Ref(Name(g)), Lit(b)];
    NamesBraceFree(g);
    PlugTextBetween(a, Name(g), b, x);
    RenderThree(t[0], t[1], t[2]);
    RenderThree(Lit(a), Lit(x), Lit(b));
    CutRender(t, Name(g));
    SplitCount(t, Name(g));
    InterleaveSplit(t, Name(g), [x]);
    assert Pass(g, a + Token(Name(g)) + b, [x], a + x + b);
  }

  lemma MayBecome(g: Generator, a: string, b: string, x: string)
    requires BraceFree(a) && BraceFree(b) && Emits(g, x)
    ensures Resolves(a + Token(Name(g)) + b, a + x + b)
  {
    var s, r := a + Token(Name(g)) + b, a + x + b;
    EmittedIsSafe(g, x);
    PassOnReference(g, a, b, x);
    NamesBraceFree(g);
    forall h ensures PassTo(h, r, r) && (h != g ==> PassTo(h, s, s)) {
      NamesDistinct(g, h);
      TokensBetween(a, Lit(x), b, h);
      TokensBetween(a, Ref(Name(g)), b, h);
      PassIdle(h, r);
      if h != g { PassIdle(h, s); }
    }
    hide PassTo, Name, Emits, BraceFree;
    var s1 := if g == RandomInt then r else s;
    var s2 := if g == Guid then r else s1;
    var s3 := if g == Timestamp then r else s2;
    var s4 := if g == IsoTimestamp then r else s3;
    assert PassTo(RandomInt, s, s1) && PassTo(Guid, s1, s2) && PassTo(Timestamp, s2, s3)
        && PassTo(IsoTimestamp, s3, s4) && PassTo(RandomEmail, s4, r);
  }

  lemma OneDynamicReference(g: Generator, a: string, b: string, r: string)
    requires BraceFree(a) && BraceFree(b)
    ensures Resolves(a + Token(Name(g)) + b, r) <==> exists x :: Emits(g, x) && r == a + x + b
  {
    hide Resolves, Emits, Name, Token;
    if Resolves(a + Token(Name(g)) + b, r) {
      var x := DrawnFor(g, a, b, r);
    }
    if x :| Emits(g, x) && r == a + x + b {
      MayBecome(g, a, b, x);
    }
  }

  // The five dynamic tokens, and what they become, and may become, between texts without braces.

  /** {{$randomInt}}: a number from 1000 to 999999. */
  lemma IntMeans(a: string, b: string, r: string)
    requires BraceFree(a) && BraceFree(b)
    ensures Resolves(a + "{{$randomInt}}" + b, r) <==> exists n :: 1000 <= n <= 999999 && r == a + Decimal(n) + b
  {
    assert Token(Name(RandomInt)) == "{{$randomInt}}";
    OneDynamicReference(RandomInt, a, b, r);
    hide Resolves, Token, Name, Decimal, IsUuidV4, IsoText, BraceFree;
    if n :| 1000 <= n <= 999999 && r == a + Decimal(n) + b { assert Emits(RandomInt, Decimal(n)); }
    if x :| Emits(RandomInt, x) && r == a + x + b {
      var n :| 1000 <= n <= 999999 && x == Decimal(n);
    }
  }

  /** {{$guid}}: a version 4 UUID. */
  lemma GuidMeans(a: string, b: string, r: string)
    requires BraceFree(a) && BraceFree(b)
    ensures Resolves(a + "{{$guid}}" + b, r) <==> exists x :: IsUuidV4(x) && r == a + x + b
  {
    assert Token(Name(Guid)) == "{{$guid}}";
    OneDynamicReference(Guid, a, b, r);
    hide Resolves, Token, Name, IsUuidV4;
    if x :| IsUuidV4(x) && r == a + x + b { assert Emits(Guid, x); }
  }

  /** {{$timestamp}}: a number of seconds. */
  lemma TimestampMeans(a: string, b: string, r: string)
    requires BraceFree(a) && BraceFree(b)
    ensures Resolves(a + "{{$timestamp}}" + b, r) <==> exists seconds: int :: r == a + Decimal(seconds) + b
  {
    assert Token(Name(Timestamp)) == "{{$timestamp}}";
    OneDynamicReference(Timestamp, a, b, r);
    hide Resolves, Token, Name, Decimal;
    if n: int :| r == a + Decimal(n) + b { assert Emits(Timestamp, Decimal(n)); }
  }

  /** {{$isoTimestamp}}: a clock's reading, from whose text every field reads back (IsoReads). */
  lemma IsoMeans(a: string, b: string, r: string)
    requires BraceFree(a) && BraceFree(b)
    ensures Resolves(a + "{{$isoTimestamp}}" + b, r) <==> exists c: Clock :: c.Valid() && r == a + IsoText(c) + b
  {
    assert Token(Name(IsoTimestamp)) == "{{$isoTimestamp}}";
    OneDynamicReference(IsoTimestamp, a, b, r);
    hide Resolves, Token, Name, IsoText;
    if c: Clock :| c.Valid() && r == a + IsoText(c) + b { assert Emits(IsoTimestamp, IsoText(c)); }
  }

  // The numbered address.
  function EmailText(n: int): string { "user" + Decimal(n) + "@example.test" }

  lemma EmailsAre(x: string)
    ensures Emits(RandomEmail, x) <==> exists n :: 1000 <= n <= 999999 && x == EmailText(n)
  {
    hide Decimal;
    if Emits(RandomEmail, x) {
      var n :| 1000 <= n <= 999999 && x == "user" + Decimal(n) + "@example.test";
      assert x == EmailText(n);
    }
  }

  /** {{$randomEmail}}: an address numbered from 1000 to 999999. */
  lemma EmailMeans(a: string, b: string, r: string)
    requires BraceFree(a) && BraceFree(b)
    ensures Resolves(a + "{{$randomEmail}}" + b, r) <==>
              exists n :: 1000 <= n <= 999999 && r == a + EmailText(n) + b
  {
    assert Token(Name(RandomEmail)) == "{{$randomEmail}}";
    OneDynamicReference(RandomEmail, a, b, r);
    forall x ensures Emits(RandomEmail, x) <==> exists n :: 1000 <= n <= 999999 && x == EmailText(n) { EmailsAre(x); }
    hide Resolves, Token, Name, Emits;
  }
}
