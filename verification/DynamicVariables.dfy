/** DynamicVariableEngine of dynamic_variables.hpp: five passes of generated replacements over one string. */
module DynamicVariables {
  import opened Common
  import opened Text
  import opened Splicing
  import opened Printing

  datatype Generator = RandomInt | Guid | Timestamp | IsoTimestamp | RandomEmail

  function Name(g: Generator): string {
    match g
    case RandomInt => "$randomInt"
    case Guid => "$guid"
    case Timestamp => "$timestamp"
    case IsoTimestamp => "$isoTimestamp"
    case RandomEmail => "$randomEmail"
  }

  function Token(key: string): (t: string)
    ensures |t| == |key| + 4
  {
    "{{" + key + "}}"
  }

  // A reading of gmtime_r.
  datatype Clock = Clock(year: int, month: nat, day: nat, hour: nat, minute: nat, second: nat) {
    predicate Valid() {
      1 <= month <= 12 && 1 <= day <= 31 && hour < 24 && minute < 60 && second <= 60
    }
  }

  function IsoText(c: Clock): string
    requires c.Valid()
  {
    (Decimal(c.year) + "-" + TwoDigits(c.month) + "-" + TwoDigits(c.day)) +
    ("T" + TwoDigits(c.hour) + ":" + TwoDigits(c.minute) + ":" + TwoDigits(c.second) + "Z")
  }

  lemma DateAt(y: string, month: string, day: string, s: string)
    requires |month| == |day| == 2 && s == y + "-" + month + "-" + day
    ensures var n := |y|;
            && |s| == n + 6 && s[..n] == y && s[n] == '-' && s[n + 1..n + 3] == month && s[n + 3] == '-'
            && s[n + 4..n + 6] == day
  {
  }

  lemma TimeAt(hour: string, minute: string, second: string, s: string)
    requires |hour| == |minute| == |second| == 2 && s == "T" + hour + ":" + minute + ":" + second + "Z"
    ensures |s| == 10 && s[0] == 'T' && s[1..3] == hour && s[3] == ':' && s[4..6] == minute && s[6] == ':'
         && s[7..9] == second && s[9] == 'Z'
  {
  }

  /** A printed clock reads back field by field: the year before the first hyphen that is 16 characters from the end,
      then month, day, hour, minute and second in two digits each. */
  lemma IsoReads(c: Clock)
    requires c.Valid() && c.year >= 0
    ensures var s, n := IsoText(c), |IsoText(c)| - 16;
            && n > 0 && ReadDigits(s[..n], 10) == c.year
            && s[n] == '-' && ReadDigits(s[n + 1..n + 3], 10) == c.month
            && s[n + 3] == '-' && ReadDigits(s[n + 4..n + 6], 10) == c.day
            && s[n + 6] == 'T' && ReadDigits(s[n + 7..n + 9], 10) == c.hour
            && s[n + 9] == ':' && ReadDigits(s[n + 10..n + 12], 10) == c.minute
            && s[n + 12] == ':' && ReadDigits(s[n + 13..n + 15], 10) == c.second && s[n + 15] == 'Z'
  {
    DecimalReads(c.year);
    TwoDigitsRead(c.month);
    TwoDigitsRead(c.day);
    TwoDigitsRead(c.hour);
    TwoDigitsRead(c.minute);
    TwoDigitsRead(c.second);
    hide Decimal, TwoDigits, ReadDigits;
    var date := Decimal(c.year) + "-" + TwoDigits(c.month) + "-" + TwoDigits(c.day);
    var time := "T" + TwoDigits(c.hour) + ":" + TwoDigits(c.minute) + ":" + TwoDigits(c.second) + "Z";
    DateAt(Decimal(c.year), TwoDigits(c.month), TwoDigits(c.day), date);
    TimeAt(TwoDigits(c.hour), TwoDigits(c.minute), TwoDigits(c.second), time);
    IsoParts(date, time, |date| - 6);
    assert IsoText(c) == date + time;
  }

  lemma IsoParts(date: string, time: string, n: nat)
    requires |date| == n + 6 && |time| == 10
    ensures var s := date + time;
            && |s| == n + 16 && s[..n] == date[..n] && s[n] == date[n] && s[n + 1..n + 3] == date[n + 1..n + 3]
            && s[n + 3] == date[n + 3] && s[n + 4..n + 6] == date[n + 4..n + 6]
            && s[n + 6] == time[0] && s[n + 7..n + 9] == time[1..3] && s[n + 9] == time[3]
            && s[n + 10..n + 12] == time[4..6] && s[n + 12] == time[6] && s[n + 13..n + 15] == time[7..9]
            && s[n + 15] == time[9]
  {
  }

  // What a generator may produce, over every draw of the random engines and every reading of the clock.
  ghost predicate Emits(g: Generator, s: string) {
    match g
    case RandomInt => exists n :: 1000 <= n <= 999999 && s == Decimal(n)
    case Guid => IsUuidV4(s)
    case Timestamp => exists seconds: int :: s == Decimal(seconds)
    case IsoTimestamp => exists c: Clock :: c.Valid() && s == IsoText(c)
    case RandomEmail => exists n :: 1000 <= n <= 999999 && s == "user" + Decimal(n) + "@example.test"
  }

  // No brace, and a digit: such a text cannot take part in an occurrence of a dynamic token.
  ghost predicate Safe(s: string) { BraceFree(s) && HasDigit(s) }

  lemma SafeAppend(a: string, b: string)
    requires BraceFree(a) && BraceFree(b)
    ensures BraceFree(a + b)
    ensures HasDigit(a) || HasDigit(b) ==> HasDigit(a + b)
  {
    if HasDigit(a) {
      var i :| 0 <= i < |a| && IsDigit(a[i]);
      assert (a + b)[i] == a[i];
    }
    if HasDigit(b) {
      var i :| 0 <= i < |b| && IsDigit(b[i]);
      assert (a + b)[|a| + i] == b[i];
    }
  }

  lemma EmittedIsSafe(g: Generator, s: string)
    requires Emits(g, s)
    ensures Safe(s)
  {
    match g
    case RandomInt =>
    case Guid => UuidIsSafe(s);
    case Timestamp =>
    case IsoTimestamp =>
      var c: Clock :| c.Valid() && s == IsoText(c);
      IsoIsSafe(c);
    case RandomEmail =>
      var n :| 1000 <= n <= 999999 && s == "user" + Decimal(n) + "@example.test";
      EmailIsSafe(Decimal(n));
  }

  lemma EmailIsSafe(number: string)
    requires Safe(number)
    ensures Safe("user" + number + "@example.test")
  {
    SafeAppend("user", number);
    SafeAppend("user" + number, "@example.test");
  }

  lemma IsoIsSafe(c: Clock)
    requires c.Valid()
    ensures Safe(IsoText(c))
  {
    var date := "-" + TwoDigits(c.month) + "-" + TwoDigits(c.day);
    var time := "T" + TwoDigits(c.hour) + ":" + TwoDigits(c.minute) + ":" + TwoDigits(c.second) + "Z";
    SafeAppend(Decimal(c.year), date);
    SafeAppend(Decimal(c.year) + date, time);
    assert IsoText(c) == Decimal(c.year) + date + time;
  }

  // One draw.  The random number and the clock are arbitrary; the printing is the program's.
  method Generate(g: Generator) returns (s: string)
    ensures Emits(g, s)
  {
    match g {
      case RandomInt =>
        var n :| 1000 <= n <= 999999;
        s := Decimal(n);
      case Guid =>
        assert |Repeat<Byte>(0, 16)| == 16;
        var random: seq<Byte> :| |random| == 16;
        s := GenerateUuid(random);
      case Timestamp =>
        var seconds: int :| true;
        s := Decimal(seconds);
      case IsoTimestamp =>
        assert Clock(1970, 1, 1, 0, 0, 0).Valid();
        var c: Clock :| c.Valid();
        s := IsoText(c);
      case RandomEmail =>
        var n :| 1000 <= n <= 999999;
        s := "user" + Decimal(n) + "@example.test";
    }
  }

  ghost predicate AllEmitted(g: Generator, draws: seq<string>) {
    forall i :: 0 <= i < |draws| ==> Emits(g, draws[i])
  }

  // The text cut at the token's leftmost occurrences, each replaced by a draw of its own.
  ghost predicate Spliced(g: Generator, s: string, t: string, draws: seq<string>, r: string)
    requires |t| > 0
  {
    && |draws| == Holes(s, t)
    && AllEmitted(g, draws)
    && r == Interleave(Cut(s, t), draws)
  }

  // One pass of the engine.
  ghost predicate Pass(g: Generator, s: string, draws: seq<string>, r: string) {
    Spliced(g, s, Token(Name(g)), draws, r)
  }

  // Text and scan position of the loop after as many turns as there are draws.
  function Turns(input: string, t: string, draws: seq<string>): (state: (string, nat))
    requires |t| > 0
    ensures state.1 <= |state.0|
  {
    if draws == [] then (input, 0)
    else
      var n := |draws| - 1;
      var (text, position) := Turns(input, t, draws[..n]);
      match Find(text, t, position)
      case None => (text, position)
      case Some(p) => (text[..p] + draws[n] + text[p + |t|..], p + |draws[n]|)
  }

  lemma TurnsSnoc(input: string, t: string, draws: seq<string>, r: string)
    requires |t| > 0 && Find(Turns(input, t, draws).0, t, Turns(input, t, draws).1).Some?
    ensures var (text, position) := Turns(input, t, draws);
            var p := Find(text, t, position).value;
            Turns(input, t, draws + [r]) == (text[..p] + r + text[p + |t|..], p + |r|)
  {
    hide Find;
    assert (draws + [r])[..|draws|] == draws;
  }

  // The in-place loop of replaceAll; it ends for every input, since the unread text shrinks.
  method ReplaceAll(input: string, token: string, g: Generator) returns (result: string, draws: seq<string>)
    requires |token| > 0
    ensures Spliced(g, input, token, draws, result)
  {
    hide Find, Emits, Cut, Woven;
    result, draws := input, [];
    var position: nat := 0;
    ghost var pieces: seq<string>, tail := [], input;
    Start(input, token);
    var found := Find(result, token, position);
    while found.Some?
      invariant AllEmitted(g, draws) && (result, position) == Turns(input, token, draws)
      invariant Unread(input, token, draws, pieces, tail)
      invariant found == Find(result, token, position)
      decreases |tail|
    {
      var replacement := Generate(g);
      pieces, tail := Turn(input, token, draws, pieces, tail, replacement);
      TurnsSnoc(input, token, draws, replacement);
      result := result[..found.value] + replacement + result[found.value + |token|..];
      position := found.value + |replacement|;
      draws := draws + [replacement];
      found := Find(result, token, position);
    }
    Finished(input, token, draws, pieces, tail);
  }

  // After some turns the text is the woven pieces followed by the unread tail of the input.
  ghost predicate Unread(input: string, t: string, draws: seq<string>, pieces: seq<string>, tail: string)
    requires |t| > 0
  {
    && |pieces| == |draws|
    && Turns(input, t, draws) == (Woven(pieces, draws) + tail, |Woven(pieces, draws)|)
    && Cut(input, t) == pieces + Cut(tail, t)
  }

  lemma Start(input: string, t: string)
    requires |t| > 0
    ensures Unread(input, t, [], [], input)
  {
    assert "" + input == input && [] + Cut(input, t) == Cut(input, t);
  }

  lemma Turn(input: string, t: string, draws: seq<string>, pieces: seq<string>, tail: string, r: string)
    returns (pieces': seq<string>, tail': string)
    requires |t| > 0 && Unread(input, t, draws, pieces, tail)
    requires Find(Turns(input, t, draws).0, t, Turns(input, t, draws).1).Some?
    ensures |tail'| < |tail| && Unread(input, t, draws + [r], pieces', tail')
  {
    hide Find, Cut, Woven, Turns;
    var done := Woven(pieces, draws);
    var head, rest := Unroll(done, tail, t, r);
    TurnsSnoc(input, t, draws, r);
    WovenSnoc(pieces, draws, head, r);
    Associative(pieces, [head], Cut(rest, t));
    pieces', tail' := pieces + [head], rest;
  }

  lemma Unroll(done: string, tail: string, t: string, r: string) returns (head: string, rest: string)
    requires |t| > 0 && Find(done + tail, t, |done|).Some?
    ensures |rest| < |tail| && Cut(tail, t) == [head] + Cut(rest, t)
    ensures var p := Find(done + tail, t, |done|).value;
            && (done + tail)[..p] + r + (done + tail)[p + |t|..] == done + head + r + rest
            && p + |r| == |done + head + r|
  {
    FindShift(done, tail, t, 0);
    head, rest := FirstCut(tail, t);
    Associative(done, head + t, rest);
    Associative(done, head, t);
    Parts(done + head, t, rest);
  }

  lemma Finished(input: string, t: string, draws: seq<string>, pieces: seq<string>, tail: string)
    requires |t| > 0 && Unread(input, t, draws, pieces, tail)
    requires Find(Turns(input, t, draws).0, t, Turns(input, t, draws).1).None?
    ensures |draws| == Holes(input, t) && Interleave(Cut(input, t), draws) == Turns(input, t, draws).0
  {
    FindShift(Woven(pieces, draws), tail, t, 0);
    InterleaveWoven(pieces, draws, tail);
  }

  // ---- no pass can make a token ----

  // A text shaped like a dynamic token: braces at both ends and no digit.
  ghost predicate Marker(t: string) {
    && |t| > 0 && t[0] == '{' && t[|t| - 1] == '}'
    && forall i :: 0 <= i < |t| ==> !IsDigit(t[i])
  }

  lemma TokensAreMarkers(g: Generator)
    ensures Marker(Token(Name(g)))
  {
  }

  // An occurrence of a marker lies on one side of a safe text.
  lemma SafeIsBarrier(a: string, r: string, b: string, t: string, i: nat)
    requires Safe(r) && Marker(t) && OccursAt(a + r + b, t, i)
    ensures i + |t| <= |a| || |a| + |r| <= i
  {
    var s := a + r + b;
    assert forall k :: |a| <= k < |a| + |r| ==> s[k] == r[k - |a|];
    assert forall k :: i <= k < i + |t| ==> s[k] == t[k - i] by {
      forall k | i <= k < i + |t| ensures s[k] == t[k - i] { assert s[i..i + |t|][k - i] == s[k]; }
    }
    var d :| 0 <= d < |r| && IsDigit(r[d]);
    assert s[i] == '{' && s[i + |t| - 1] == '}' && IsDigit(s[|a| + d]);
  }

  lemma {:induction false} MarkerInInterleave(pieces: seq<string>, reps: seq<string>, t: string)
    requires |pieces| == |reps| + 1 && Marker(t)
    requires forall i :: 0 <= i < |reps| ==> Safe(reps[i])
    requires forall j :: 0 <= j < |pieces| ==> !Occurs(pieces[j], t)
    ensures !Occurs(Interleave(pieces, reps), t)
  {
    if |reps| > 0 {
      var b := Interleave(pieces[1..], reps[1..]);
      MarkerInInterleave(pieces[1..], reps[1..], t);
      var s := pieces[0] + reps[0] + b;
      if Occurs(s, t) {
        var i :| OccursAt(s, t, i);
        SafeIsBarrier(pieces[0], reps[0], b, t, i);
        if i + |t| <= |pieces[0]| {
          assert s[i..i + |t|] == pieces[0][i..i + |t|];
          assert OccursAt(pieces[0], t, i);
        } else {
          OccursAtShift(pieces[0] + reps[0], b, t, i - |pieces[0] + reps[0]|);
        }
      }
    }
  }

  /** A pass removes its own token and creates no other one, for every input and every draw. */
  lemma PassRemoves(g: Generator, s: string, draws: seq<string>, r: string)
    requires Pass(g, s, draws, r)
    ensures !Occurs(r, Token(Name(g)))
    ensures forall h :: !Occurs(s, Token(Name(h))) ==> !Occurs(r, Token(Name(h)))
  {
    forall i | 0 <= i < |draws| ensures Safe(draws[i]) { assert Emits(g, draws[i]); EmittedIsSafe(g, draws[i]); }
    forall h | h == g || !Occurs(s, Token(Name(h))) ensures !Occurs(r, Token(Name(h))) {
      TokensAreMarkers(h);
      forall j | 0 <= j < |Cut(s, Token(Name(g)))| ensures !Occurs(Cut(s, Token(Name(g)))[j], Token(Name(h))) {
        PieceOfCut(s, Token(Name(g)), j, Token(Name(h)));
      }
      MarkerInInterleave(Cut(s, Token(Name(g))), draws, Token(Name(h)));
    }
  }

  ghost predicate PassTo(g: Generator, s: string, r: string) {
    exists draws :: Pass(g, s, draws, r)
  }

  // The five passes in program order.
  ghost predicate Resolves(s: string, r: string) {
    exists s1, s2, s3, s4 ::
      && PassTo(RandomInt, s, s1) && PassTo(Guid, s1, s2) && PassTo(Timestamp, s2, s3)
      && PassTo(IsoTimestamp, s3, s4) && PassTo(RandomEmail, s4, r)
  }

  ghost predicate NoDynamicToken(s: string) {
    forall g :: !Occurs(s, Token(Name(g)))
  }

  lemma PassToRemoves(g: Generator, s: string, r: string)
    requires PassTo(g, s, r)
    ensures forall h :: h == g || !Occurs(s, Token(Name(h))) ==> !Occurs(r, Token(Name(h)))
    ensures !Occurs(s, Token(Name(g))) ==> r == s
  {
    var draws :| Pass(g, s, draws, r);
    PassRemoves(g, s, draws, r);
    NoOccurrence(s, Token(Name(g)));
  }

  // A pass leaves a text without its token alone.
  lemma PassIdle(g: Generator, s: string)
    requires !Occurs(s, Token(Name(g)))
    ensures PassTo(g, s, s)
  {
    NoOccurrence(s, Token(Name(g)));
    assert Pass(g, s, [], s);
  }

  /** After the five passes no dynamic token is left, for every input (nested and adjacent tokens too)
      and every draw; and a text without dynamic tokens is left alone. */
  lemma ResolveLeavesNoToken(s: string, r: string)
    requires Resolves(s, r)
    ensures NoDynamicToken(r)
    ensures NoDynamicToken(s) ==> r == s
  {
    var s1, s2, s3, s4 :|
      && PassTo(RandomInt, s, s1) && PassTo(Guid, s1, s2) && PassTo(Timestamp, s2, s3)
      && PassTo(IsoTimestamp, s3, s4) && PassTo(RandomEmail, s4, r);
    PassToRemoves(RandomInt, s, s1);
    PassToRemoves(Guid, s1, s2);
    PassToRemoves(Timestamp, s2, s3);
    PassToRemoves(IsoTimestamp, s3, s4);
    PassToRemoves(RandomEmail, s4, r);
    forall g ensures !Occurs(r, Token(Name(g))) {
      match g
      case RandomInt => assert !Occurs(s1, Token(Name(g)));
      case Guid => assert !Occurs(s2, Token(Name(g)));
      case Timestamp => assert !Occurs(s3, Token(Name(g)));
      case IsoTimestamp => assert !Occurs(s4, Token(Name(g)));
      case RandomEmail =>
    }
  }

  /** Resolving leaves a text alone exactly when it holds no dynamic token, and a second resolve does nothing. */
  lemma ResolveFixpoint(s: string, r: string)
    requires Resolves(s, r)
    ensures r == s <==> NoDynamicToken(s)
    ensures forall r' :: Resolves(r, r') ==> r' == r
  {
    ResolveLeavesNoToken(s, r);
    forall r' | Resolves(r, r') ensures r' == r { ResolveLeavesNoToken(r, r'); }
  }

  method Resolve(input: string) returns (result: string)
    ensures Resolves(input, result)
    ensures NoDynamicToken(result)
  {
    var draws;
    var s1, s2, s3, s4;
    s1, draws := ReplaceAll(input, Token(Name(RandomInt)), RandomInt);
    assert Pass(RandomInt, input, draws, s1) && PassTo(RandomInt, input, s1);
    s2, draws := ReplaceAll(s1, Token(Name(Guid)), Guid);
    assert Pass(Guid, s1, draws, s2) && PassTo(Guid, s1, s2);
    s3, draws := ReplaceAll(s2, Token(Name(Timestamp)), Timestamp);
    assert Pass(Timestamp, s2, draws, s3) && PassTo(Timestamp, s2, s3);
    s4, draws := ReplaceAll(s3, Token(Name(IsoTimestamp)), IsoTimestamp);
    assert Pass(IsoTimestamp, s3, draws, s4) && PassTo(IsoTimestamp, s3, s4);
    result, draws := ReplaceAll(s4, Token(Name(RandomEmail)), RandomEmail);
    assert Pass(RandomEmail, s4, draws, result) && PassTo(RandomEmail, s4, result);
    ResolveLeavesNoToken(input, result);
  }
}
