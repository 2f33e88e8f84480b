/** What one sweep of substituteString means on templates: literals and {{key}} references. */
module Templates {
  import opened Common
  import opened Text
  import opened Splicing
  import opened Printing
  import opened DynamicVariables

  datatype Segment = Lit(text: string) | Ref(key: string)
  type Template = seq<Segment>

  // A literal may hold braces, but not "{{", and it may not end where a reference would be misread.
  ghost predicate PlainText(text: string) {
    && (forall i :: 0 <= i < |text| - 1 ==> text[i] != '{' || text[i + 1] != '{')
    && (|text| > 0 ==> text[|text| - 1] != '{')
  }

  ghost predicate ValidSegment(seg: Segment) {
    match seg
    case Lit(text) => PlainText(text)
    case Ref(key) => BraceFree(key)
  }

  ghost predicate Valid(t: Template) {
    forall i :: 0 <= i < |t| ==> ValidSegment(t[i])
  }

  function RenderSegment(seg: Segment): string {
    match seg
    case Lit(text) => text
    case Ref(key) => Token(key)
  }

  function Render(t: Template): string {
    if t == [] then "" else RenderSegment(t[0]) + Render(t[1..])
  }

  // The template cut at its references to one key.
  function Split(t: Template, key: string): (parts: seq<Template>)
    ensures |parts| > 0
  {
    if t == [] then [[]]
    else
      var rest := Split(t[1..], key);
      if t[0] == Ref(key) then [[]] + rest else [[t[0]] + rest[0]] + rest[1..]
  }

  function RenderAll(ts: seq<Template>): (texts: seq<string>)
    ensures |texts| == |ts|
  {
    if ts == [] then [] else [Render(ts[0])] + RenderAll(ts[1..])
  }

  lemma {:induction false} RenderAppend(a: Template, b: Template)
    ensures Render(a + b) == Render(a) + Render(b)
  {
    if a == [] {
      assert a + b == b;
    } else {
      assert (a + b)[1..] == a[1..] + b;
      RenderAppend(a[1..], b);
    }
  }

  // No token starts inside a literal or inside a reference to another key, whatever follows.
  lemma TokenNotInSegment(seg: Segment, rest: string, key: string)
    requires ValidSegment(seg) && BraceFree(key) && seg != Ref(key)
    ensures FreeBetween(RenderSegment(seg) + rest, Token(key), 0, |RenderSegment(seg)|)
  {
    var a := RenderSegment(seg);
    var s := a + rest;
    assert forall i :: 0 <= i < |a| ==> s[i] == a[i];
    forall i | 0 <= i < |a| ensures !OccursAt(s, Token(key), i) {
      if OccursAt(s, Token(key), i) {
        TokenChars(s, key, i);
        match seg
        case Lit(text) =>
        case Ref(other) => TokenOffset(other, rest, key, i);
      }
    }
  }

  lemma TokenChars(s: string, key: string, i: int)
    requires OccursAt(s, Token(key), i)
    ensures s[i] == '{' && s[i + 1] == '{'
    ensures s[i + 2 + |key|] == '}' && s[i + 3 + |key|] == '}'
    ensures forall k :: i + 2 <= k < i + 2 + |key| ==> s[k] == key[k - i - 2]
  {
    var t := Token(key);
    var w := s[i..i + |t|];
    assert forall k :: i <= k < i + |t| ==> s[k] == w[k - i];
    assert forall k :: 2 <= k < 2 + |key| ==> t[k] == key[k - 2];
    assert t[0] == t[1] == '{' && t[2 + |key|] == t[3 + |key|] == '}';
  }

  // A token inside the rendering of a reference is that reference.
  lemma TokenOffset(other: string, rest: string, key: string, i: nat)
    requires BraceFree(other) && BraceFree(key) && i < |Token(other)|
    requires OccursAt(Token(other) + rest, Token(key), i)
    ensures i == 0 && other == key
  {
    var s := Token(other) + rest;
    TokenChars(s, key, i);
    assert forall k :: 2 <= k < 2 + |other| ==> s[k] == other[k - 2];
    assert s[2 + |other|] == '}' && s[3 + |other|] == '}' && s[1] == '{';
    assert i == 0;
    assert s[2 + |key|] == '}' && s[2 + |other|] == '}';
    assert forall k :: 0 <= k < |key| ==> key[k] == s[2 + k];
  }

  /** Cutting the rendered text at a key's token is cutting the template at its references to the key. */
  lemma {:induction false} CutRender(t: Template, key: string)
    requires Valid(t) && BraceFree(key)
    ensures Cut(Render(t), Token(key)) == RenderAll(Split(t, key))
  {
    if t == [] {
      assert Find("", Token(key), 0).None?;
    } else {
      var rest := t[1..];
      CutRender(rest, key);
      if t[0] == Ref(key) {
        CutToken(Render(rest), Token(key));
        assert Split(t, key)[1..] == Split(rest, key);
      } else {
        TokenNotInSegment(t[0], Render(rest), key);
        CutPrepend(RenderSegment(t[0]), Render(rest), Token(key));
        var parts := Split(rest, key);
        assert Split(t, key)[0] == [t[0]] + parts[0] && Split(t, key)[1..] == parts[1..];
        RenderAppend([t[0]], parts[0]);
        assert Render([t[0]]) == RenderSegment(t[0]);
      }
    }
  }

  // ---- one key replaced ----

  function Plug(t: Template, key: string, v: Template): Template {
    if t == [] then [] else (if t[0] == Ref(key) then v else [t[0]]) + Plug(t[1..], key, v)
  }

  lemma {:induction false} JoinSplit(t: Template, key: string, v: Template)
    ensures Join(RenderAll(Split(t, key)), Render(v)) == Render(Plug(t, key, v))
  {
    if t != [] {
      var rest := Split(t[1..], key);
      JoinSplit(t[1..], key, v);
      if t[0] == Ref(key) {
        RenderAppend(v, Plug(t[1..], key, v));
        RenderAllCons([], rest);
        JoinEmptyFirst(RenderAll(rest), Render(v));
      } else {
        RenderAppend([t[0]], Plug(t[1..], key, v));
        RenderAppend([t[0]], rest[0]);
        assert Render([t[0]]) == RenderSegment(t[0]);
        RenderAllCons([t[0]] + rest[0], rest[1..]);
        RenderAllHead(rest);
        JoinFirst(RenderSegment(t[0]), RenderAll(rest), Render(v));
      }
    }
  }

  lemma RenderAllCons(t: Template, ts: seq<Template>)
    ensures RenderAll([t] + ts) == [Render(t)] + RenderAll(ts)
  {
  }

  lemma RenderAllHead(ts: seq<Template>)
    requires |ts| > 0
    ensures RenderAll(ts)[0] == Render(ts[0]) && RenderAll(ts)[1..] == RenderAll(ts[1..])
  {
  }

  lemma JoinEmptyFirst(texts: seq<string>, r: string)
    requires |texts| > 0
    ensures Join([""] + texts, r) == r + Join(texts, r)
  {
    assert "" + r == r;
  }

  lemma JoinFirst(a: string, texts: seq<string>, r: string)
    requires |texts| > 0
    ensures Join([a + texts[0]] + texts[1..], r) == a + Join(texts, r)
  {
    assert ([a + texts[0]] + texts[1..])[1..] == texts[1..];
    if |texts| > 1 {
      assert a + texts[0] + r + Join(texts[1..], r) == a + (texts[0] + r + Join(texts[1..], r));
    }
  }

  /** Sweeping a key over the rendered text is plugging its value into the template, whatever the value holds. */
  lemma ReplaceRender(t: Template, key: string, v: Template)
    requires Valid(t) && BraceFree(key)
    ensures Replace(Render(t), Token(key), Render(v)) == Render(Plug(t, key, v))
  {
    CutRender(t, key);
    JoinSplit(t, key, v);
  }

  lemma {:induction false} PlugValid(t: Template, key: string, v: Template)
    requires Valid(t) && Valid(v)
    ensures Valid(Plug(t, key, v))
  {
    if t != [] { PlugValid(t[1..], key, v); }
  }
}
