/** Substring search and the byte order of strings. */
module Text {
  import opened Common

  predicate OccursAt(s: string, t: string, i: int) {
    0 <= i <= |s| - |t| && s[i..i + |t|] == t
  }

  ghost predicate Occurs(s: string, t: string) {
    exists i :: OccursAt(s, t, i)
  }

  // std::string::find: the least position at or after `from`.
  function Find(s: string, t: string, from: nat): (r: Option<nat>)
    requires from <= |s|
    ensures r.Some? ==> from <= r.value && r.value + |t| <= |s|
    decreases |s| - from
  {
    if OccursAt(s, t, from) then Some(from)
    else if from == |s| then None
    else Find(s, t, from + 1)
  }

  ghost predicate FreeBetween(s: string, t: string, lo: int, hi: int) {
    forall j :: lo <= j < hi ==> !OccursAt(s, t, j)
  }

  lemma {:induction false} FindSpec(s: string, t: string, from: nat)
    requires from <= |s|
    ensures match Find(s, t, from)
            case Some(p) => OccursAt(s, t, p) && FreeBetween(s, t, from, p)
            case None => FreeBetween(s, t, from, |s| + 1)
    decreases |s| - from
  {
    if !OccursAt(s, t, from) && from < |s| {
      FindSpec(s, t, from + 1);
    }
  }

  // A match at or after the end of a prefix is a match in what follows the prefix.
  lemma OccursAtShift(a: string, b: string, t: string, i: int)
    requires 0 <= i
    ensures OccursAt(a + b, t, |a| + i) <==> OccursAt(b, t, i)
  {
    if |a| + i + |t| <= |a + b| {
      assert (a + b)[|a| + i..|a| + i + |t|] == b[i..i + |t|];
    }
  }

  lemma SliceOfSlice(s: string, lo: nat, hi: nat, i: nat, j: nat)
    requires lo <= hi <= |s| && i <= j <= hi - lo
    ensures s[lo..hi][i..j] == s[lo + i..lo + j]
  {
    var u, v := s[lo..hi][i..j], s[lo + i..lo + j];
    assert |u| == |v|;
    forall k | 0 <= k < |u| ensures u[k] == v[k] { assert s[lo..hi][i + k] == s[lo + i + k]; }
  }

  lemma FindIs(s: string, t: string, from: nat, p: nat)
    requires from <= p && OccursAt(s, t, p) && FreeBetween(s, t, from, p)
    ensures from <= |s| && Find(s, t, from) == Some(p)
  {
    FindSpec(s, t, from);
  }

  // Searching a concatenation from the seam is searching its second part.
  lemma {:induction false} FindShift(a: string, b: string, t: string, from: nat)
    requires from <= |b|
    ensures Find(b, t, from).None? ==> Find(a + b, t, |a| + from).None?
    ensures Find(b, t, from).Some? ==> Find(a + b, t, |a| + from) == Some(|a| + Find(b, t, from).value)
    decreases |b| - from
  {
    var ab := a + b;
    OccursAtShift(a, b, t, from);
    if from < |b| {
      FindShift(a, b, t, from + 1);
    }
  }

  lemma OccursInSlice(s: string, t: string, lo: nat, hi: nat)
    requires lo <= hi <= |s|
    requires Occurs(s[lo..hi], t)
    ensures Occurs(s, t)
  {
    var u := s[lo..hi];
    var i :| OccursAt(u, t, i);
    SliceOfSlice(s, lo, hi, i, i + |t|);
    assert OccursAt(s, t, lo + i);
  }

  /** Byte order of strings, as used by std::map keys and std::string comparison. */
  predicate Less(a: string, b: string) {
    |b| > 0 && (|a| == 0 || a[0] < b[0] || (a[0] == b[0] && Less(a[1..], b[1..])))
  }

  lemma {:induction false} LessTrichotomy(a: string, b: string)
    ensures a == b ==> !Less(a, b)
    ensures a != b ==> (Less(a, b) <==> !Less(b, a))
  {
    if |a| > 0 && |b| > 0 {
      LessTrichotomy(a[1..], b[1..]);
      assert a == [a[0]] + a[1..] && b == [b[0]] + b[1..];
    }
  }

  lemma {:induction false} LessTransitive(a: string, b: string, c: string)
    requires Less(a, b) && Less(b, c)
    ensures Less(a, c)
  {
    if |a| > 0 && a[0] == b[0] && b[0] == c[0] {
      LessTransitive(a[1..], b[1..], c[1..]);
    }
  }

  // Where two texts first part: one of them ends there, or their characters differ.
  lemma {:induction false} PartingPoint(a: string, b: string) returns (n: nat)
    ensures n <= |a| && n <= |b| && a[..n] == b[..n]
    ensures n < |a| && n < |b| ==> a[n] != b[n]
    ensures Less(a, b) <==> n < |b| && (n == |a| || a[n] < b[n])
  {
    if |a| > 0 && |b| > 0 && a[0] == b[0] {
      var m := PartingPoint(a[1..], b[1..]);
      n := m + 1;
      assert a[..n] == [a[0]] + a[1..][..m] && b[..n] == [b[0]] + b[1..][..m];
    } else {
      n := 0;
    }
  }

  /** One text comes before another exactly if it is a proper prefix of it, or has the smaller character where the two
      first differ. */
  lemma LessIs(a: string, b: string)
    ensures Less(a, b) <==>
              exists n ::
                && 0 <= n <= |a| && n <= |b| && a[..n] == b[..n]
                && ((n == |a| && n < |b|) || (n < |a| && n < |b| && a[n] < b[n]))
  {
    hide Less;
    var n := PartingPoint(a, b);
    PrefixesAgree(a, b, n);
    forall m | 0 <= m <= |a| && m <= |b| && a[..m] == b[..m] ensures m <= n { PrefixesAgree(a, b, m); }
  }

  lemma PrefixesAgree(a: string, b: string, m: nat)
    requires m <= |a| && m <= |b| && a[..m] == b[..m]
    ensures forall i :: 0 <= i < m ==> a[i] == b[i]
  {
    assert forall i :: 0 <= i < m ==> a[i] == a[..m][i] == b[..m][i] == b[i];
  }

  predicate IsLeast(m: string, s: set<string>) {
    m in s && forall x :: x in s ==> x == m || Less(m, x)
  }

  lemma LeastExists(s: set<string>)
    requires s != {}
    ensures exists m :: IsLeast(m, s)
    decreases |s|
  {
    var x :| x in s;
    if s == {x} {
      assert IsLeast(x, s);
    } else {
      LeastExists(s - {x});
      var y :| IsLeast(y, s - {x});
      LessTrichotomy(x, y);
      if Less(x, y) {
        forall z | z in s ensures z == x || Less(x, z) {
          if z != x && z != y { LessTransitive(x, y, z); }
        }
        assert IsLeast(x, s);
      } else {
        assert IsLeast(y, s);
      }
    }
  }

  lemma LeastUnique(m: string, n: string, s: set<string>)
    requires IsLeast(m, s) && IsLeast(n, s)
    ensures m == n
  {
    LessTrichotomy(m, n);
  }

  lemma LeastUniqueExists(s: set<string>)
    requires s != {}
    ensures exists m :: IsLeast(m, s)
    ensures forall m, n :: IsLeast(m, s) && IsLeast(n, s) ==> m == n
  {
    LeastExists(s);
    forall m, n | IsLeast(m, s) && IsLeast(n, s) ensures m == n { LeastUnique(m, n, s); }
  }

  function Least(s: set<string>): (m: string)
    requires s != {}
    ensures IsLeast(m, s)
  {
    LeastUniqueExists(s);
    var m :| m in s && IsLeast(m, s);
    m
  }

  predicate Ascending(ks: seq<string>) {
    forall i, j :: 0 <= i < j < |ks| ==> Less(ks[i], ks[j])
  }

  // The iteration order of an nlohmann object or of an ORDER BY over distinct byte strings.
  function SortedKeys(s: set<string>): (ks: seq<string>)
    ensures Ascending(ks)
    ensures forall k :: k in ks <==> k in s
    ensures |ks| == |s|
    decreases |s|
  {
    if s == {} then []
    else
      var m := Least(s);
      var rest := SortedKeys(s - {m});
      assert forall j :: 0 <= j < |rest| ==> rest[j] in rest;
      [m] + rest
  }

  lemma AscendingDistinct(ks: seq<string>, i: nat, j: nat)
    requires Ascending(ks) && i < |ks| && j < |ks| && ks[i] == ks[j]
    ensures i == j
  {
    LessTrichotomy(ks[i], ks[j]);
  }

  // An ascending enumeration of a set is unique, so it does not matter which sort produced it.
  lemma {:induction false} AscendingUnique(a: seq<string>, b: seq<string>)
    requires Ascending(a) && Ascending(b)
    requires forall k :: k in a <==> k in b
    ensures a == b
  {
    if a == [] {
      if |b| > 0 { SameMember(b, a); }
    } else {
      SameMember(a, b);
      assert a[0] in b && b[0] in a;
      if a[0] != b[0] {
        LessTrichotomy(a[0], b[0]);
      }
      forall k ensures k in a[1..] <==> k in b[1..] {
        TailMember(a, k);
        TailMember(b, k);
      }
      AscendingUnique(a[1..], b[1..]);
      assert a == [a[0]] + a[1..] && b == [b[0]] + b[1..];
    }
  }

  lemma SameMember(a: seq<string>, b: seq<string>)
    requires |a| > 0
    requires forall k :: k in a <==> k in b
    ensures |b| > 0
  {
    assert a[0] in a;
  }

  lemma TailMember(a: seq<string>, k: string)
    requires Ascending(a) && a != []
    ensures k in a[1..] <==> k in a && k != a[0]
  {
    if k in a[1..] {
      var i :| 0 <= i < |a| - 1 && a[1..][i] == k;
      assert a[i + 1] == k;
      LessTrichotomy(a[0], k);
    }
  }
}
