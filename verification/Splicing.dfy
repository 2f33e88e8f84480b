/** The find/replace loops of dynamic_variables.hpp and request_executor.cpp. */
module Splicing {
  import opened Common
  import opened Text

  // The input cut at the leftmost non-overlapping occurrences of the token.
  function Cut(s: string, t: string): (pieces: seq<string>)
    requires |t| > 0
    ensures |pieces| > 0
    decreases |s|
  {
    match Find(s, t, 0)
    case None => [s]
    case Some(i) => [s[..i]] + Cut(s[i + |t|..], t)
  }

  // The first cut: the text is a piece, the token, and a rest that is cut in turn.
  lemma CutStep(s: string, t: string, i: nat)
    requires |t| > 0 && Find(s, t, 0) == Some(i)
    ensures i + |t| <= |s| && OccursAt(s, t, i)
    ensures s == s[..i] + t + s[i + |t|..]
    ensures |Cut(s, t)| == 1 + |Cut(s[i + |t|..], t)|
    ensures Cut(s, t)[0] == s[..i] && Cut(s, t)[1..] == Cut(s[i + |t|..], t)
  {
    FindSpec(s, t, 0);
  }

  lemma Parts(left: string, t: string, right: string)
    ensures (left + t + right)[..|left|] == left
    ensures (left + t + right)[|left| + |t|..] == right
  {
  }

  lemma CutAt(s: string, left: string, right: string, t: string)
    requires |t| > 0 && s == left + t + right && Find(s, t, 0) == Some(|left|)
    ensures Cut(s, t) == [left] + Cut(right, t)
  {
    Parts(left, t, right);
  }

  lemma FirstCut(s: string, t: string) returns (head: string, rest: string)
    requires |t| > 0 && Find(s, t, 0).Some?
    ensures s == head + t + rest && Find(s, t, 0) == Some(|head|) && |rest| < |s|
    ensures Cut(s, t) == [head] + Cut(rest, t)
  {
    var i := Find(s, t, 0).value;
    CutStep(s, t, i);
    head, rest := s[..i], s[i + |t|..];
    CutAt(s, head, rest, t);
  }

  function Interleave(pieces: seq<string>, reps: seq<string>): string
    requires |pieces| == |reps| + 1
  {
    if |reps| == 0 then pieces[0]
    else pieces[0] + reps[0] + Interleave(pieces[1..], reps[1..])
  }

  function Holes(s: string, t: string): nat
    requires |t| > 0
  {
    |Cut(s, t)| - 1
  }

  function Join(pieces: seq<string>, r: string): string
    requires |pieces| > 0
  {
    if |pieces| == 1 then pieces[0] else pieces[0] + r + Join(pieces[1..], r)
  }

  // Every occurrence replaced by the same text.
  function Replace(s: string, t: string, r: string): string
    requires |t| > 0
  {
    Join(Cut(s, t), r)
  }

  lemma {:induction false} JoinIsInterleave(pieces: seq<string>, r: string)
    requires |pieces| > 0
    ensures Join(pieces, r) == Interleave(pieces, Repeat(r, |pieces| - 1))
  {
    if |pieces| > 1 {
      JoinIsInterleave(pieces[1..], r);
      assert Repeat(r, |pieces| - 1)[1..] == Repeat(r, |pieces| - 2);
    }
  }

  function TotalLength(ss: seq<string>): nat {
    if ss == [] then 0 else |ss[0]| + TotalLength(ss[1..])
  }

  // Each piece but the last runs exactly up to the first occurrence of the token.
  ghost predicate LeftmostCut(pieces: seq<string>, t: string) {
    if |pieces| <= 1 then |pieces| == 1 && !Occurs(pieces[0], t)
    else Find(pieces[0] + t, t, 0) == Some(|pieces[0]|) && LeftmostCut(pieces[1..], t)
  }

  // Whether the token first occurs at i depends on the text up to its end only.
  lemma FirstOccurrence(s: string, t: string, i: nat)
    requires OccursAt(s, t, i)
    ensures Find(s, t, 0) == Some(i) <==> Find(s[..i] + t, t, 0) == Some(i)
  {
    var u := s[..i] + t;
    assert u == s[0..i + |t|];
    forall j: int | 0 <= j <= i ensures OccursAt(u, t, j) <==> OccursAt(s, t, j) {
      SliceOfSlice(s, 0, i + |t|, j, j + |t|);
    }
    FindSpec(s, t, 0);
    FindSpec(u, t, 0);
    if Find(s, t, 0) == Some(i) { FindIs(u, t, 0, i); }
    if Find(u, t, 0) == Some(i) { FindIs(s, t, 0, i); }
  }

  lemma NoOccurrence(s: string, t: string)
    ensures Find(s, t, 0).None? <==> !Occurs(s, t)
  {
    FindSpec(s, t, 0);
    if Find(s, t, 0).Some? { assert OccursAt(s, t, Find(s, t, 0).value); }
  }

  /** Cut is the only way to read the string as pieces separated by leftmost occurrences. */
  lemma CutCharacterised(s: string, t: string, pieces: seq<string>)
    requires |t| > 0
    ensures pieces == Cut(s, t) <==> LeftmostCut(pieces, t) && Join(pieces, t) == s
  {
    CutIsLeftmost(s, t);
    JoinCut(s, t);
    if LeftmostCut(pieces, t) && Join(pieces, t) == s {
      LeftmostCutIsUnique(s, t, pieces);
    }
  }

  lemma {:induction false} JoinCut(s: string, t: string)
    requires |t| > 0
    ensures Join(Cut(s, t), t) == s
    decreases |s|
  {
    var found := Find(s, t, 0);
    if found.Some? {
      CutStep(s, t, found.value);
      JoinCut(s[found.value + |t|..], t);
    }
  }

  lemma {:induction false} CutIsLeftmost(s: string, t: string)
    requires |t| > 0
    ensures LeftmostCut(Cut(s, t), t)
    decreases |s|
  {
    var found := Find(s, t, 0);
    if found.Some? {
      CutStep(s, t, found.value);
      FirstOccurrence(s, t, found.value);
      CutIsLeftmost(s[found.value + |t|..], t);
    } else {
      NoOccurrence(s, t);
    }
  }

  lemma {:induction false} LeftmostCutIsUnique(s: string, t: string, pieces: seq<string>)
    requires |t| > 0
    requires LeftmostCut(pieces, t) && Join(pieces, t) == s
    ensures pieces == Cut(s, t)
    decreases |pieces|
  {
    hide Find, Cut;
    if |pieces| > 1 {
      var p, rest := pieces[0], Join(pieces[1..], t);
      assert s == p + t + rest;
      TokenAt(p, t, rest);
      FirstOccurrence(s, t, |p|);
      CutAt(s, p, rest, t);
      LeftmostCutIsUnique(rest, t, pieces[1..]);
    } else {
      NoOccurrence(s, t);
      CutNone(s, t);
    }
  }

  lemma TokenAt(left: string, t: string, right: string)
    ensures OccursAt(left + t + right, t, |left|) && (left + t + right)[..|left|] == left
  {
    Parts(left, t, right);
  }

  lemma LengthStep(n: nat, t: nat)
    ensures (n + 1) * t == t + n * t
  {
  }

  /** The output length is the input length, less every token, plus every replacement. */
  lemma {:induction false} SpliceLength(s: string, t: string, reps: seq<string>)
    requires |t| > 0 && |reps| == Holes(s, t)
    ensures |Interleave(Cut(s, t), reps)| + |reps| * |t| == |s| + TotalLength(reps)
    decreases |s|
  {
    var found := Find(s, t, 0);
    if found.Some? {
      var rest := s[found.value + |t|..];
      assert Cut(s, t)[1..] == Cut(rest, t);
      SpliceLength(rest, t, reps[1..]);
      LengthStep(|reps| - 1, |t|);
    }
  }

  lemma {:induction false} TotalLengthOfRepeat(r: string, n: nat)
    ensures TotalLength(Repeat(r, n)) == n * |r|
  {
    if n > 0 {
      assert Repeat(r, n)[1..] == Repeat(r, n - 1);
      TotalLengthOfRepeat(r, n - 1);
      LengthStep(n - 1, |r|);
    }
  }

  /** And of the loop that inserts one text throughout: every occurrence trades the token's length for the text's. */
  lemma ReplaceLength(s: string, t: string, r: string)
    requires |t| > 0
    ensures |Replace(s, t, r)| + Holes(s, t) * |t| == |s| + Holes(s, t) * |r|
  {
    JoinIsInterleave(Cut(s, t), r);
    SpliceLength(s, t, Repeat(r, Holes(s, t)));
    TotalLengthOfRepeat(r, Holes(s, t));
  }

  // The text produced so far by the loop: pieces already passed, each with its replacement.
  function Woven(pieces: seq<string>, reps: seq<string>): string
    requires |pieces| == |reps|
  {
    if pieces == [] then "" else pieces[0] + reps[0] + Woven(pieces[1..], reps[1..])
  }

  lemma {:induction false} WovenSnoc(pieces: seq<string>, reps: seq<string>, p: string, r: string)
    requires |pieces| == |reps|
    ensures Woven(pieces + [p], reps + [r]) == Woven(pieces, reps) + p + r
  {
    if pieces == [] {
      assert (pieces + [p])[1..] == [] && (reps + [r])[1..] == [];
    } else {
      assert (pieces + [p])[1..] == pieces[1..] + [p] && (reps + [r])[1..] == reps[1..] + [r];
      WovenSnoc(pieces[1..], reps[1..], p, r);
    }
  }

  lemma {:induction false} InterleaveWoven(pieces: seq<string>, reps: seq<string>, last: string)
    requires |pieces| == |reps|
    ensures Interleave(pieces + [last], reps) == Woven(pieces, reps) + last
  {
    if pieces == [] {
    } else {
      assert (pieces + [last])[1..] == pieces[1..] + [last];
      InterleaveWoven(pieces[1..], reps[1..], last);
    }
  }

  // What remains for the find/replace loop to do at a scan position.  The text right of the position
  // shrinks at every turn, also when the replacement holds the token.
  function Scan(text: string, position: nat, t: string, r: string): string
    requires |t| > 0 && position <= |text|
    decreases |text| - position
  {
    match Find(text, t, position)
    case None => text
    case Some(p) => Scan(text[..p] + r + text[p + |t|..], p + |r|, t, r)
  }

  lemma ScanAt(text: string, position: nat, left: string, right: string, t: string, r: string)
    requires |t| > 0 && position <= |text| && text == left + t + right
    requires Find(text, t, position) == Some(|left|)
    ensures Scan(text, position, t, r) == Scan(left + r + right, |left + r|, t, r)
  {
    hide Find;
    Parts(left, t, right);
  }

  lemma ScanStep(done: string, tail: string, head: string, rest: string, t: string, r: string)
    requires |t| > 0 && tail == head + t + rest && Find(tail, t, 0) == Some(|head|)
    ensures Scan(done + tail, |done|, t, r) == Scan(done + head + r + rest, |done + head + r|, t, r)
  {
    hide Find, Scan;
    FindShift(done, tail, t, 0);
    assert done + tail == (done + head) + t + rest;
    ScanAt(done + tail, |done|, done + head, rest, t, r);
  }

  lemma ReplaceStep(s: string, t: string, r: string, head: string, rest: string)
    requires |t| > 0 && Cut(s, t) == [head] + Cut(rest, t)
    ensures Replace(s, t, r) == head + r + Replace(rest, t, r)
  {
    hide Cut;
  }

  /** Scanning left to right equals cutting at the leftmost occurrences and joining. */
  lemma {:induction false} ScanIsReplace(done: string, tail: string, t: string, r: string)
    requires |t| > 0
    ensures Scan(done + tail, |done|, t, r) == done + Replace(tail, t, r)
    decreases |tail|
  {
    if Find(tail, t, 0).Some? {
      hide Find, Scan, Replace, Cut;
      var head, rest := FirstCut(tail, t);
      calc {
        Scan(done + tail, |done|, t, r);
        { ScanStep(done, tail, head, rest, t, r); }
        Scan(done + head + r + rest, |done + head + r|, t, r);
        { ScanIsReplace(done + head + r, rest, t, r); }
        done + head + r + Replace(rest, t, r);
        done + (head + r + Replace(rest, t, r));
        { ReplaceStep(tail, t, r, head, rest); }
        done + Replace(tail, t, r);
      }
    } else {
      FindShift(done, tail, t, 0);
    }
  }

  lemma ScanFromStart(s: string, t: string, r: string)
    requires |t| > 0
    ensures Scan(s, 0, t, r) == Replace(s, t, r)
  {
    ScanIsReplace("", s, t, r);
    assert "" + s == s;
  }

  lemma ScanTurn(text: string, position: nat, t: string, r: string)
    requires |t| > 0 && position <= |text|
    ensures match Find(text, t, position)
            case None => Scan(text, position, t, r) == text
            case Some(p) => Scan(text, position, t, r) == Scan(text[..p] + r + text[p + |t|..], p + |r|, t, r)
  {
    hide Find;
  }

  /** One token swept through the text in place: the loop of substituteString. */
  method ReplaceInPlace(input: string, token: string, replacement: string) returns (result: string)
    requires |token| > 0
    ensures result == Replace(input, token, replacement)
  {
    hide Find, Scan, Replace, Cut, Join;
    ScanFromStart(input, token, replacement);
    result := input;
    var position: nat := 0;
    var found := Find(result, token, position);
    while found.Some?
      invariant position <= |result| && found == Find(result, token, position)
      invariant Scan(result, position, token, replacement) == Scan(input, 0, token, replacement)
      decreases |result| - position
    {
      ScanTurn(result, position, token, replacement);
      result := result[..found.value] + replacement + result[found.value + |token|..];
      position := found.value + |replacement|;
      found := Find(result, token, position);
    }
    ScanTurn(result, position, token, replacement);
  }

  // ---- how cutting meets concatenation ----

  lemma CutNone(s: string, t: string)
    requires |t| > 0 && Find(s, t, 0).None?
    ensures Cut(s, t) == [s]
  {
  }

  lemma CutPrepend(a: string, b: string, t: string)
    requires |t| > 0
    requires FreeBetween(a + b, t, 0, |a|)
    ensures Cut(a + b, t) == [a + Cut(b, t)[0]] + Cut(b, t)[1..]
  {
    hide Find, Cut;
    FindBeyond(a, b, t);
    if Find(b, t, 0).Some? {
      var left, right := FirstCut(b, t);
      CutAtPrepended(a, b, left, right, t);
    } else {
      CutNone(b, t);
      CutNone(a + b, t);
    }
  }

  lemma CutAtPrepended(a: string, b: string, left: string, right: string, t: string)
    requires |t| > 0 && b == left + t + right && Find(a + b, t, 0) == Some(|a| + |left|)
    ensures Cut(a + b, t) == [a + left] + Cut(right, t)
  {
    assert a + b == (a + left) + t + right;
    CutAt(a + b, a + left, right, t);
  }

  lemma FindBeyond(a: string, b: string, t: string)
    requires FreeBetween(a + b, t, 0, |a|)
    ensures Find(b, t, 0).None? ==> Find(a + b, t, 0).None?
    ensures Find(b, t, 0).Some? ==> Find(a + b, t, 0) == Some(|a| + Find(b, t, 0).value)
  {
    FindShift(a, b, t, 0);
    SkipFind(a + b, t, |a|);
  }

  lemma {:induction false} SkipFind(s: string, t: string, from: nat)
    requires from <= |s|
    requires FreeBetween(s, t, 0, from)
    ensures Find(s, t, 0) == Find(s, t, from)
  {
    if from > 0 { SkipFind(s, t, from - 1); }
  }

  lemma CutToken(b: string, t: string)
    requires |t| > 0
    ensures Cut(t + b, t) == [""] + Cut(b, t)
  {
    FindIs(t + b, t, 0, 0);
    assert (t + b)[..0] == "" && (t + b)[|t|..] == b;
  }

  /** No piece of the cut holds the token, and whatever a piece holds the input held. */
  lemma {:induction false} PieceOfCut(s: string, t: string, j: nat, u: string)
    requires |t| > 0 && j < |Cut(s, t)|
    ensures !Occurs(Cut(s, t)[j], t)
    ensures Occurs(Cut(s, t)[j], u) ==> Occurs(s, u)
    decreases |s|
  {
    var found := Find(s, t, 0);
    if found.Some? {
      var i := found.value;
      CutStep(s, t, i);
      if j == 0 {
        HeadFree(s, t, i);
        SliceHolds(s, 0, i, u);
      } else {
        var rest := s[i + |t|..];
        PieceOfCut(rest, t, j - 1, u);
        assert Cut(s, t)[j] == Cut(rest, t)[j - 1];
        SliceHolds(s, i + |t|, |s|, u);
      }
    } else {
      NoOccurrence(s, t);
    }
  }

  lemma SliceHolds(s: string, lo: nat, hi: nat, u: string)
    requires lo <= hi <= |s|
    ensures Occurs(s[lo..hi], u) ==> Occurs(s, u)
    ensures s[lo..|s|] == s[lo..] && s[0..hi] == s[..hi]
  {
    if Occurs(s[lo..hi], u) { OccursInSlice(s, u, lo, hi); }
  }

  lemma HeadFree(s: string, t: string, i: nat)
    requires |t| > 0 && Find(s, t, 0) == Some(i)
    ensures !Occurs(s[..i], t)
  {
    FindSpec(s, t, 0);
    if Occurs(s[..i], t) {
      var k :| OccursAt(s[..i], t, k);
      SliceOfSlice(s, 0, i, k, k + |t|);
      assert s[0..i] == s[..i];
      assert OccursAt(s, t, k);
    }
  }

  // ---- what a replacement leaves alone ----

  lemma {:induction false} ReplaceLengthOrder(s: string, t: string, r: string)
    requires |t| > 0
    ensures |r| >= |t| ==> |Replace(s, t, r)| >= |s|
    ensures |r| <= |t| ==> |Replace(s, t, r)| <= |s|
    decreases |s|
  {
    if Find(s, t, 0).Some? {
      hide Find, Cut, Replace;
      var head, rest := FirstCut(s, t);
      ReplaceStep(s, t, r, head, rest);
      ReplaceLengthOrder(rest, t, r);
    } else {
      CutNone(s, t);
    }
  }

  lemma Middle(head: string, t: string, rest: string, r: string, rest': string)
    requires head + t + rest == head + r + rest' && |r| == |t|
    ensures r == t
  {
    assert (head + t + rest)[|head|..|head| + |t|] == t;
    assert (head + r + rest')[|head|..|head| + |t|] == r;
  }

  /** Replacing changes a text exactly when the text holds the token and the replacement is not the token itself. */
  lemma ReplaceIsIdentityIff(s: string, t: string, r: string)
    requires |t| > 0
    ensures Replace(s, t, r) == s <==> !Occurs(s, t) || r == t
  {
    NoOccurrence(s, t);
    JoinCut(s, t);
    if Find(s, t, 0).None? {
      CutNone(s, t);
    } else {
      assert Replace(s, t, t) == s;
      hide Find, Cut, Join, Replace;
      var head, rest := FirstCut(s, t);
      var rest' := Replace(rest, t, r);
      ReplaceStep(s, t, r, head, rest);
      ReplaceLengthOrder(rest, t, r);
      if head + r + rest' == head + t + rest && |r| == |t| {
        Middle(head, t, rest, r, rest');
      }
    }
  }
}
