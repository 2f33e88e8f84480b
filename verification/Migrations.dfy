/** The migration runner of src/platform/migration_runner.cpp: discovery, the search among recorded names, the apply
    loop. */
module Migrations {
  import opened Common
  import opened Text
  import opened Printing

  datatype File = File(regular: bool, contents: string)

  // A directory maps each file name to its file.
  type Directory = map<string, File>

  const EXTENSION: string := ".sql"

  // extension() == ".sql": a name that is nothing but ".sql" has no extension.
  predicate IsScript(name: string) {
    |name| > 4 && name[|name| - 4..] == EXTENSION
  }

  function StemOf(name: string): string
    requires IsScript(name)
  {
    name[..|name| - 4]
  }

  // The file name of a version, which is what schema_migrations records.
  function NameOf(version: string): string { version + EXTENSION }

  predicate Selected(dir: Directory, name: string) {
    name in dir && dir[name].regular && IsScript(name)
  }

  function Versions(dir: Directory): set<string> {
    set name | name in dir && Selected(dir, name) :: StemOf(name)
  }

  // Versions in byte order, whatever the order of iteration.
  function Discovered(dir: Directory): seq<string> {
    SortedKeys(Versions(dir))
  }

  lemma NameStem(version: string)
    ensures version != "" ==> IsScript(NameOf(version)) && StemOf(NameOf(version)) == version
    ensures forall name :: IsScript(name) ==> NameOf(StemOf(name)) == name
    ensures forall other :: NameOf(version) == NameOf(other) ==> version == other
  {
    assert (version + EXTENSION)[|version|..] == EXTENSION;
    assert (version + EXTENSION)[..|version|] == version;
    forall name | IsScript(name) ensures NameOf(StemOf(name)) == name {
      assert name == name[..|name| - 4] + name[|name| - 4..];
    }
    forall other | NameOf(version) == NameOf(other) ensures version == other {
      assert |version| == |other| && (other + EXTENSION)[..|other|] == other;
    }
  }

  /** A version is discovered exactly if it is not empty and the directory holds a regular file of that name with
      ".sql" appended. */
  lemma VersionsAre(dir: Directory, version: string)
    ensures version in Versions(dir) <==> version != "" && version + ".sql" in dir && dir[version + ".sql"].regular
    ensures NameOf(version) == version + ".sql"
  {
    NameStem(version);
    if version in Versions(dir) {
      var name :| name in dir && Selected(dir, name) && StemOf(name) == version;
    }
    if version != "" && NameOf(version) in dir && dir[NameOf(version)].regular {
      assert Selected(dir, NameOf(version));
    }
  }

  /** Discovered versions come in byte order: the earlier of two is a prefix of the later, or has the smaller character
      where they first differ. */
  lemma DiscoveredInByteOrder(dir: Directory, i: nat, j: nat)
    requires i < j < |Discovered(dir)|
    ensures var v, w := Discovered(dir)[i], Discovered(dir)[j];
            exists n ::
              && 0 <= n <= |v| && n <= |w| && v[..n] == w[..n]
              && ((n == |v| && n < |w|) || (n < |v| && n < |w| && v[n] < w[n]))
  {
    var vs := Discovered(dir);
    assert Less(vs[i], vs[j]);
    LessIs(vs[i], vs[j]);
  }

  // The version starts with three decimal digits.
  predicate Numbered(version: string) {
    |version| >= 3 && IsDigit(version[0]) && IsDigit(version[1]) && IsDigit(version[2])
  }

  function NumberOf(version: string): int
    requires Numbered(version)
  {
    ReadDigits(version[..3], 10)
  }

  lemma NumberIs(version: string)
    requires Numbered(version)
    ensures NumberOf(version)
         == (version[0] as int - 48) * 100 + (version[1] as int - 48) * 10 + (version[2] as int - 48)
  {
    var s := version[..3];
    assert s[..2][..1][..0] == "" && s[..2][..1][0] == s[0] && s[..2][1] == s[1];
    assert ReadDigits(s[..2][..1], 10) == DigitValue(s[0]);
    assert ReadDigits(s[..2], 10) == DigitValue(s[0]) * 10 + DigitValue(s[1]);
  }

  /** Files numbered with three digits, as the repository's are, are discovered in the order of their numbers, whatever
      follows the number and however long it is. */
  lemma NumberedInOrder(dir: Directory, i: nat, j: nat)
    requires i < |Discovered(dir)| && j < |Discovered(dir)|
    requires Numbered(Discovered(dir)[i]) && Numbered(Discovered(dir)[j])
    requires NumberOf(Discovered(dir)[i]) < NumberOf(Discovered(dir)[j])
    ensures i < j
  {
    var v, w := Discovered(dir)[i], Discovered(dir)[j];
    NumberIs(v);
    NumberIs(w);
    if j < i {
      DiscoveredInByteOrder(dir, j, i);
      hide Discovered, NumberOf;
      var n :| && 0 <= n <= |w| && n <= |v| && w[..n] == v[..n]
               && ((n == |w| && n < |v|) || (n < |w| && n < |v| && w[n] < v[n]));
      PrefixesAgree(w, v, n);
      assert false;
    }
  }

  // ---- std::ranges::binary_search ----

  function LowerBound(s: seq<string>, x: string, from: nat, count: nat): (i: nat)
    requires from + count <= |s|
    ensures from <= i <= from + count
    decreases count
  {
    if count == 0 then from
    else
      var half := count / 2;
      if Less(s[from + half], x) then LowerBound(s, x, from + half + 1, count - half - 1)
      else LowerBound(s, x, from, half)
  }

  predicate BinarySearch(s: seq<string>, x: string) {
    var i := LowerBound(s, x, 0, |s|);
    i < |s| && !Less(x, s[i])
  }

  lemma {:induction false} LowerBoundStops(s: seq<string>, x: string, from: nat, count: nat)
    requires from + count <= |s|
    requires from + count < |s| ==> !Less(s[from + count], x)
    ensures var i := LowerBound(s, x, from, count); i < |s| ==> !Less(s[i], x)
    decreases count
  {
    hide Less;
    if count > 0 {
      var half := count / 2;
      if Less(s[from + half], x) {
        LowerBoundStops(s, x, from + half + 1, count - half - 1);
      } else {
        LowerBoundStops(s, x, from, half);
      }
    }
  }

  lemma {:induction false} LowerBoundPasses(s: seq<string>, x: string, from: nat, count: nat, k: nat)
    requires Ascending(s) && from + count <= |s| && k < |s| && s[k] == x && from <= k
    ensures LowerBound(s, x, from, count) <= k
    decreases count
  {
    hide Less;
    if count > 0 {
      var half := count / 2;
      if Less(s[from + half], x) {
        if k <= from + half {
          LessTrichotomy(s[from + half], x);
        }
        LowerBoundPasses(s, x, from + half + 1, count - half - 1, k);
      } else {
        LowerBoundPasses(s, x, from, half, k);
      }
    }
  }

  /** The search never reports a name that is not there, however the list is ordered; and on a byte-ordered list it
      reports every name that is. */
  lemma SearchIsMembership(s: seq<string>, x: string)
    ensures BinarySearch(s, x) ==> x in s
    ensures Ascending(s) ==> (BinarySearch(s, x) <==> x in s)
  {
    hide Less, LowerBound;
    var i := LowerBound(s, x, 0, |s|);
    LowerBoundStops(s, x, 0, |s|);
    if i < |s| && !Less(x, s[i]) {
      LessTrichotomy(s[i], x);
    }
    if Ascending(s) && x in s {
      var k :| 0 <= k < |s| && s[k] == x;
      LowerBoundPasses(s, x, 0, |s|, k);
      assert forall j :: 0 <= j < k ==> Less(s[j], s[k]);
      LessTrichotomy(x, x);
    }
  }

  // ---- one run ----

  // The table of recorded file names, and the versions whose scripts have taken effect, in order.
  datatype Database = Database(recorded: set<string>, log: seq<string>)

  // What one application meets: the file cannot be opened; the script or the insert fails; COMMIT is reported as failed
  // although it may have taken effect; or all goes well.
  datatype Attempt = Unreadable | Fails | CommitFails(took: bool) | Succeeds

  // What one run sees: the directory if it exists, the recorded names as the query returns them if it succeeds.
  datatype Environment = Environment(directory: Option<Directory>, listing: Option<seq<string>>,
      attempts: string -> Attempt)

  function Commit(db: Database, version: string): Database {
    Database(db.recorded + {NameOf(version)}, db.log + [version])
  }

  // A recorded name violates the primary key, so its transaction is rolled back.
  function Apply(db: Database, contents: string, version: string, attempt: Attempt): (Database, bool) {
    if attempt.Unreadable? || contents == "" || attempt.Fails? || NameOf(version) in db.recorded then (db, false)
    else match attempt
      case CommitFails(took) => (if took then Commit(db, version) else db, false)
      case _ => (Commit(db, version), true)
  }

  function ContentsOf(dir: Directory, version: string): string {
    if NameOf(version) in dir then dir[NameOf(version)].contents else ""
  }

  // None is an exception out of run().
  function RunLoop(db: Database, dir: Directory, todo: seq<string>, listing: seq<string>, attempts: string -> Attempt,
      count: nat)
    : (Database, Option<nat>)
    decreases |todo|
  {
    if todo == [] then (db, Some(count))
    else if BinarySearch(listing, NameOf(todo[0])) then RunLoop(db, dir, todo[1..], listing, attempts, count)
    else
      var (db', ok) := Apply(db, ContentsOf(dir, todo[0]), todo[0], attempts(todo[0]));
      if !ok then (db', None) else RunLoop(db', dir, todo[1..], listing, attempts, count + 1)
  }

  function RunResult(db: Database, env: Environment): (Database, Option<nat>) {
    if env.directory.None? || env.listing.None? then (db, None)
    else RunLoop(db, env.directory.value, Discovered(env.directory.value), env.listing.value, env.attempts, 0)
  }

  // The query lists the recorded names once each, in an order that depends on the collation.
  ghost predicate Legal(db: Database, env: Environment) {
    env.listing.Some? ==> forall name :: name in env.listing.value <==> name in db.recorded
  }

  // The recorded names are exactly those of the scripts that took effect, and no script took effect twice.
  ghost predicate Consistent(db: Database) {
    && (forall version :: version in db.log <==> NameOf(version) in db.recorded)
    && (forall name :: name in db.recorded ==> exists version :: name == NameOf(version))
    && (forall i, j :: 0 <= i < j < |db.log| ==> db.log[i] != db.log[j])
  }

  const EMPTY: Database := Database({}, [])

  // The versions of a list that are not recorded, in the order of the list.
  function Pending(todo: seq<string>, recorded: set<string>): (r: seq<string>)
    ensures forall v :: v in r <==> v in todo && NameOf(v) !in recorded
  {
    if todo == [] then []
    else if NameOf(todo[0]) in recorded then Pending(todo[1..], recorded)
    else [todo[0]] + Pending(todo[1..], recorded)
  }

  lemma CommitKeeps(db: Database, version: string)
    requires Consistent(db) && NameOf(version) !in db.recorded
    ensures Consistent(Commit(db, version))
  {
    NameStem(version);
    var db' := Commit(db, version);
    forall v ensures v in db'.log <==> NameOf(v) in db'.recorded { NameStem(v); }
  }

  lemma {:induction false} PendingAfterCommit(todo: seq<string>, recorded: set<string>, version: string)
    requires version !in todo
    ensures Pending(todo, recorded + {NameOf(version)}) == Pending(todo, recorded)
    decreases |todo|
  {
    if todo != [] {
      NameStem(todo[0]);
      PendingAfterCommit(todo[1..], recorded, version);
    }
  }

  // A loop over these pending versions committed a prefix of them after log, and all of them if it returned.
  ghost predicate Applied(log: seq<string>, outcome: (Database, Option<nat>), pending: seq<string>, count: nat) {
    && log <= outcome.0.log && outcome.0.log[|log|..] <= pending
    && (outcome.1.Some? ==> outcome.0.log == log + pending && outcome.1.value == count + |pending|)
  }

  lemma AppliedAfterCommit(log: seq<string>, v: string, outcome: (Database, Option<nat>), rest: seq<string>, count: nat)
    requires Applied(log + [v], outcome, rest, count + 1)
    ensures Applied(log, outcome, [v] + rest, count)
  {
    var log' := outcome.0.log;
    assert log' == (log + [v]) + log'[|log| + 1..];
    assert log'[|log|] == (log + [v])[|log|];
    assert log'[|log|..] == [v] + log'[|log| + 1..];
    assert (log + [v]) + rest == log + ([v] + rest);
  }

  lemma AppliedNothing(db: Database, pending: seq<string>, count: nat)
    ensures Applied(db.log, (db, None), pending, count)
    ensures pending == [] ==> Applied(db.log, (db, Some(count)), pending, count)
  {
  }

  // The loop, from any point: it commits a prefix of the pending versions, all of them if it completes.
  lemma {:induction false} LoopAppliesPending(db: Database, dir: Directory, todo: seq<string>, listing: seq<string>,
      attempts: string -> Attempt, count: nat)
    requires Consistent(db) && Ascending(todo) && forall name :: name in listing ==> name in db.recorded
    ensures var outcome := RunLoop(db, dir, todo, listing, attempts, count);
            Consistent(outcome.0) && Applied(db.log, outcome, Pending(todo, db.recorded), count)
    decreases |todo|
  {
    hide BinarySearch, Consistent, Less, Applied;
    AppliedNothing(db, Pending(todo, db.recorded), count);
    if todo != [] {
      SearchIsMembership(listing, NameOf(todo[0]));
      var rest := todo[1..];
      assert Ascending(rest);
      if BinarySearch(listing, NameOf(todo[0])) {
        LoopAppliesPending(db, dir, rest, listing, attempts, count);
      } else if NameOf(todo[0]) !in db.recorded {
        var committed := Commit(db, todo[0]);
        CommitKeeps(db, todo[0]);
        HeadNotInTail(todo);
        PendingAfterCommit(rest, db.recorded, todo[0]);
        LoopAppliesPending(committed, dir, rest, listing, attempts, count + 1);
        AppliedNothing(committed, Pending(rest, db.recorded), count + 1);
        AppliedAfterCommit(db.log, todo[0], (committed, None), Pending(rest, db.recorded), count);
        AppliedAfterAny(db.log, todo[0], Pending(rest, db.recorded), count);
      }
    }
  }

  lemma AppliedAfterAny(log: seq<string>, v: string, rest: seq<string>, count: nat)
    ensures forall outcome :: Applied(log + [v], outcome, rest, count + 1) ==> Applied(log, outcome, [v] + rest, count)
  {
    forall outcome | Applied(log + [v], outcome, rest, count + 1) ensures Applied(log, outcome, [v] + rest, count) {
      AppliedAfterCommit(log, v, outcome, rest, count);
    }
  }

  lemma HeadNotInTail(todo: seq<string>)
    requires Ascending(todo) && todo != []
    ensures todo[0] !in todo[1..]
  {
    TailMember(todo, todo[0]);
  }

  /** One run, from any consistent database, in any collation and with any failures: what it commits is a prefix of
      the discovered versions not yet recorded, in ascending order; and if it completes it is all of them, and it
      returns their number. */
  lemma RunAppliesPending(db: Database, env: Environment)
    requires Consistent(db) && Legal(db, env)
    ensures Consistent(RunResult(db, env).0) && db.log <= RunResult(db, env).0.log
    ensures env.directory.Some? ==>
              RunResult(db, env).0.log[|db.log|..] <= Pending(Discovered(env.directory.value), db.recorded)
    ensures RunResult(db, env).1.Some? ==>
              var pending := Pending(Discovered(env.directory.value), db.recorded);
              RunResult(db, env).0.log == db.log + pending && RunResult(db, env).1.value == |pending|
  {
    if env.directory.Some? && env.listing.Some? {
      LoopAppliesPending(db, env.directory.value, Discovered(env.directory.value), env.listing.value, env.attempts, 0);
    }
  }

  // The file can be opened, is not empty, and its transaction is committed.
  predicate GoesWell(dir: Directory, attempts: string -> Attempt, version: string) {
    attempts(version).Succeeds? && version + ".sql" in dir && dir[version + ".sql"].contents != ""
  }

  // The commit took effect although it was reported as failed.
  predicate HalfDone(dir: Directory, attempts: string -> Attempt, version: string) {
    attempts(version) == CommitFails(true) && version + ".sql" in dir && dir[version + ".sql"].contents != ""
  }

  // n is the number of versions that go well before the first that does not.
  ghost predicate StopsAt(dir: Directory, attempts: string -> Attempt, pending: seq<string>, n: nat) {
    && n <= |pending| && (forall i :: 0 <= i < n ==> GoesWell(dir, attempts, pending[i]))
    && (n < |pending| ==> !GoesWell(dir, attempts, pending[n]))
  }

  lemma {:induction false} FirstBad(dir: Directory, attempts: string -> Attempt, pending: seq<string>) returns (n: nat)
    ensures StopsAt(dir, attempts, pending, n)
  {
    if pending == [] || !GoesWell(dir, attempts, pending[0]) {
      n := 0;
    } else {
      var m := FirstBad(dir, attempts, pending[1..]);
      n := m + 1;
      assert forall i :: 0 < i < |pending| ==> pending[i] == pending[1..][i - 1];
    }
  }

  lemma StopsAtTail(dir: Directory, attempts: string -> Attempt, v: string, rest: seq<string>, n: nat)
    requires StopsAt(dir, attempts, [v] + rest, n)
    ensures n == 0 <==> !GoesWell(dir, attempts, v)
    ensures n > 0 ==> StopsAt(dir, attempts, rest, n - 1)
  {
    hide GoesWell;
    assert ([v] + rest)[0] == v;
    assert forall i :: 0 <= i < |rest| ==> ([v] + rest)[i + 1] == rest[i];
  }

  // What the loop leaves, if it stops after n of the pending versions.
  ghost predicate Stopped(db: Database, dir: Directory, attempts: string -> Attempt, outcome: (Database, Option<nat>),
      pending: seq<string>, n: nat, count: nat)
  {
    && n <= |pending|
    && outcome.0.log
       == db.log + pending[..n]
           + (if n < |pending| && HalfDone(dir, attempts, pending[n]) then [pending[n]] else [])
    && outcome.1 == if n == |pending| then Some(count + n) else None
  }

  lemma StoppedAfter(db: Database, dir: Directory, attempts: string -> Attempt, v: string,
      outcome: (Database, Option<nat>), rest: seq<string>, n: nat, count: nat)
    requires Stopped(Commit(db, v), dir, attempts, outcome, rest, n, count + 1)
    ensures Stopped(db, dir, attempts, outcome, [v] + rest, n + 1, count)
  {
    hide HalfDone;
    var pending := [v] + rest;
    assert pending[..n + 1] == [v] + rest[..n];
    assert db.log + [v] + rest[..n] == db.log + pending[..n + 1];
    assert n < |rest| ==> pending[n + 1] == rest[n];
  }

  // One turn of the loop, by what becomes of its version.
  lemma LoopTurn(db: Database, dir: Directory, todo: seq<string>, listing: seq<string>, attempts: string -> Attempt,
      count: nat)
    requires todo != [] && NameOf(todo[0]) in dir
    requires BinarySearch(listing, NameOf(todo[0])) <==> NameOf(todo[0]) in db.recorded
    ensures var (outcome, v, rest) := (RunLoop(db, dir, todo, listing, attempts, count), todo[0], todo[1..]);
            if NameOf(v) in db.recorded then
              && outcome == RunLoop(db, dir, rest, listing, attempts, count)
              && Pending(todo, db.recorded) == Pending(rest, db.recorded)
            else
              && Pending(todo, db.recorded) == [v] + Pending(rest, db.recorded)
              && outcome == if GoesWell(dir, attempts, v) then
                              RunLoop(Commit(db, v), dir, rest, listing, attempts, count + 1)
                            else (if HalfDone(dir, attempts, v) then Commit(db, v) else db, None)
  {
    hide BinarySearch;
  }

  lemma StoppedNow(db: Database, dir: Directory, attempts: string -> Attempt, pending: seq<string>, count: nat)
    requires pending == [] || !GoesWell(dir, attempts, pending[0])
    ensures pending == [] ==> Stopped(db, dir, attempts, (db, Some(count)), pending, 0, count)
    ensures pending != [] ==>
              var left := if HalfDone(dir, attempts, pending[0]) then Commit(db, pending[0]) else db;
              Stopped(db, dir, attempts, (left, None), pending, 0, count)
  {
    assert db.log + [] == db.log && db.log + [] + [] == db.log;
    assert pending != [] ==> db.log + [] + [pending[0]] == db.log + [pending[0]];
  }

  lemma {:induction false} LoopStops(db: Database, dir: Directory, todo: seq<string>, listing: seq<string>,
      attempts: string -> Attempt, count: nat, n: nat)
    requires Ascending(todo) && forall v :: v in todo ==> NameOf(v) in dir
    requires forall v :: v in todo ==> (BinarySearch(listing, NameOf(v)) <==> NameOf(v) in db.recorded)
    requires StopsAt(dir, attempts, Pending(todo, db.recorded), n)
    ensures Stopped(db, dir, attempts, RunLoop(db, dir, todo, listing, attempts, count), Pending(todo, db.recorded), n,
                count)
    decreases |todo|
  {
    if todo == [] {
      StoppedNow(db, dir, attempts, [], count);
    } else {
      var v, rest := todo[0], todo[1..];
      LoopTurn(db, dir, todo, listing, attempts, count);
      NamesDiffer(todo);
      assert v in todo && forall w :: w in rest ==> w in todo;
      hide BinarySearch, Ascending, RunLoop, Stopped, StopsAt, GoesWell, HalfDone, NameOf, Pending;
      var pending := Pending(rest, db.recorded);
      if NameOf(v) in db.recorded {
        LoopStops(db, dir, rest, listing, attempts, count, n);
      } else {
        StopsAtTail(dir, attempts, v, pending, n);
        if n == 0 {
          StoppedNow(db, dir, attempts, [v] + pending, count);
        } else {
          PendingAfterCommit(rest, db.recorded, v);
          LoopStops(Commit(db, v), dir, rest, listing, attempts, count + 1, n - 1);
          StoppedAfter(db, dir, attempts, v, RunLoop(Commit(db, v), dir, rest, listing, attempts, count + 1), pending,
              n - 1, count);
        }
      }
    }
  }

  lemma NamesDiffer(todo: seq<string>)
    requires Ascending(todo) && todo != []
    ensures todo[0] !in todo[1..] && Ascending(todo[1..])
    ensures forall w :: w in todo[1..] ==> NameOf(w) != NameOf(todo[0])
  {
    HeadNotInTail(todo);
    NameStem(todo[0]);
    hide Less;
  }

  /** Where a run stops: with the recorded names listed in byte order, it commits the pending versions that go well up
      to the first that does not, and of that one nothing, unless its commit took effect unreported; it returns the
      number of pending versions if all go well, and throws otherwise. */
  lemma RunStops(db: Database, env: Environment) returns (n: nat)
    requires Legal(db, env) && env.directory.Some? && env.listing.Some? && Ascending(env.listing.value)
    ensures var dir := env.directory.value;
            var pending := Pending(Discovered(dir), db.recorded);
            && StopsAt(dir, env.attempts, pending, n)
            && RunResult(db, env).0.log
               == db.log + pending[..n]
                   + (if n < |pending| && HalfDone(dir, env.attempts, pending[n]) then [pending[n]] else [])
            && RunResult(db, env).1 == if n == |pending| then Some(n) else None
  {
    var dir, listing := env.directory.value, env.listing.value;
    var vs := Discovered(dir);
    var pending := Pending(vs, db.recorded);
    n := FirstBad(dir, env.attempts, pending);
    forall v | v in vs
      ensures NameOf(v) in dir && (BinarySearch(listing, NameOf(v)) <==> NameOf(v) in db.recorded) {
      VersionsAre(dir, v);
      SearchIsMembership(listing, NameOf(v));
    }
    hide BinarySearch, Discovered, RunLoop, GoesWell, HalfDone;
    DiscoveredAscends(dir);
    LoopStops(db, dir, vs, listing, env.attempts, 0, n);
  }

  // ---- many runs ----

  function RunAll(db: Database, envs: seq<Environment>): Database
    decreases |envs|
  {
    if envs == [] then db else RunAll(RunResult(db, envs[0]).0, envs[1..])
  }

  ghost predicate LegalAll(db: Database, envs: seq<Environment>)
    decreases |envs|
  {
    envs == [] || (Legal(db, envs[0]) && LegalAll(RunResult(db, envs[0]).0, envs[1..]))
  }

  lemma {:induction false} PendingSkips(a: seq<string>, b: seq<string>, recorded: set<string>)
    requires forall v :: v in a ==> NameOf(v) in recorded
    ensures Pending(a + b, recorded) == Pending(b, recorded)
    decreases |a|
  {
    if a == [] {
      assert a + b == b;
    } else {
      assert a[0] in a;
      assert (a + b)[0] == a[0] && (a + b)[1..] == a[1..] + b;
      PendingSkips(a[1..], b, recorded);
    }
  }

  lemma {:induction false} PendingTakesAll(todo: seq<string>, recorded: set<string>)
    requires forall v :: v in todo ==> NameOf(v) !in recorded
    ensures Pending(todo, recorded) == todo
    decreases |todo|
  {
    if todo != [] {
      assert todo[0] in todo;
      PendingTakesAll(todo[1..], recorded);
    }
  }

  // With the files fixed, a log that is a prefix of the version order leaves the rest of that order pending.
  lemma PendingOfPrefix(db: Database, vs: seq<string>)
    requires Consistent(db) && Ascending(vs) && db.log <= vs
    ensures Pending(vs, db.recorded) == vs[|db.log|..]
  {
    hide Less, NameOf, Pending;
    var rest := vs[|db.log|..];
    assert vs == db.log + rest;
    PendingSkips(db.log, rest, db.recorded);
    forall v | v in rest ensures v !in db.log {
      var j :| 0 <= j < |rest| && rest[j] == v;
      if i :| 0 <= i < |db.log| && db.log[i] == v {
        assert vs[i] == v && vs[|db.log| + j] == v;
        AscendingDistinct(vs, i, |db.log| + j);
      }
    }
    PendingTakesAll(rest, db.recorded);
  }

  /** Over any sequence of runs with a fixed set of files, from any such database, with any failures and any collation:
      the scripts that have taken effect are always a prefix of the version order, none took effect twice, and
      schema_migrations names exactly them. */
  lemma {:induction false} RunsCommitAPrefix(db: Database, dir: Directory, envs: seq<Environment>)
    requires Consistent(db) && db.log <= Discovered(dir)
    requires LegalAll(db, envs) && forall env :: env in envs ==> env.directory == Some(dir)
    ensures RunAll(db, envs).log <= Discovered(dir) && Consistent(RunAll(db, envs))
    ensures db.log <= RunAll(db, envs).log
    decreases |envs|
  {
    hide Consistent, Discovered, RunResult;
    if envs != [] {
      assert envs[0] in envs;
      RunAppliesPending(db, envs[0]);
      DiscoveredAscends(dir);
      PendingOfPrefix(db, Discovered(dir));
      var db' := RunResult(db, envs[0]).0;
      PrefixGrows(db.log, db'.log, Discovered(dir));
      RunsCommitAPrefix(db', dir, envs[1..]);
    }
  }

  lemma DiscoveredAscends(dir: Directory)
    ensures Ascending(Discovered(dir))
  {
  }

  lemma PrefixGrows(log: seq<string>, log': seq<string>, vs: seq<string>)
    requires log <= vs && log <= log' && log'[|log|..] <= vs[|log|..]
    ensures log' <= vs
  {
    assert log' == log + log'[|log|..];
    assert vs == log + vs[|log|..];
  }

  /** In particular from the empty database. */
  lemma RunsFromEmpty(dir: Directory, envs: seq<Environment>)
    requires LegalAll(EMPTY, envs) && forall env :: env in envs ==> env.directory == Some(dir)
    ensures RunAll(EMPTY, envs).log <= Discovered(dir) && Consistent(RunAll(EMPTY, envs))
  {
    RunsCommitAPrefix(EMPTY, dir, envs);
  }

  /** After a completed run everything discovered is recorded; an immediate second run then returns 0 and changes
      nothing, whatever it would meet, exactly when the binary search finds every discovered name in the listing it
      gets; a byte-ordered listing always does. */
  lemma SecondRunIdle(db: Database, dir: Directory, first: Environment, second: Environment)
    requires Consistent(db) && first.directory == second.directory == Some(dir)
    requires Legal(db, first) && RunResult(db, first).1.Some? && Legal(RunResult(db, first).0, second)
        && second.listing.Some?
    ensures var db' := RunResult(db, first).0;
            && (forall v :: v in Discovered(dir) ==> NameOf(v) in db'.recorded)
            && (RunResult(db', second) == (db', Some(0))
                <==> forall v :: v in Discovered(dir) ==> BinarySearch(second.listing.value, NameOf(v)))
            && (Ascending(second.listing.value) ==> RunResult(db', second) == (db', Some(0)))
  {
    RunAppliesPending(db, first);
    var db' := RunResult(db, first).0;
    hide RunResult, Discovered, BinarySearch;
    var listing := second.listing.value;
    forall v | v in Discovered(dir) ensures NameOf(v) in db'.recorded {
      if NameOf(v) !in db.recorded {
        assert v in Pending(Discovered(dir), db.recorded);
      } else {
        assert v in db.log;
      }
      assert v in db'.log;
    }
    IdleIff(db', second);
    if Ascending(listing) {
      forall v | v in Discovered(dir) ensures BinarySearch(listing, NameOf(v)) {
        SearchIsMembership(listing, NameOf(v));
      }
    }
  }

  lemma IdleIff(db: Database, env: Environment)
    requires env.directory.Some? && env.listing.Some?
    requires forall v :: v in Discovered(env.directory.value) ==> NameOf(v) in db.recorded
    ensures RunResult(db, env) == (db, Some(0)) <==>
              forall v :: v in Discovered(env.directory.value) ==> BinarySearch(env.listing.value, NameOf(v))
  {
    LoopIdleIff(db, env.directory.value, Discovered(env.directory.value), env.listing.value, env.attempts);
  }

  lemma {:induction false} LoopIdleIff(db: Database, dir: Directory, todo: seq<string>, listing: seq<string>,
      attempts: string -> Attempt)
    requires forall v :: v in todo ==> NameOf(v) in db.recorded
    ensures RunLoop(db, dir, todo, listing, attempts, 0) == (db, Some(0))
        <==> forall v :: v in todo ==> BinarySearch(listing, NameOf(v))
    decreases |todo|
  {
    hide BinarySearch;
    if todo != [] {
      assert todo[0] in todo;
      LoopIdleIff(db, dir, todo[1..], listing, attempts);
      assert forall v :: v in todo <==> v == todo[0] || v in todo[1..];
    }
  }

  /** Why the order must be byte order: with "a.sql" and "B.sql" both recorded and listed as a case-insensitive
      collation lists them, the search misses "B.sql", so the next run tries it again, is refused by the primary key,
      and throws. */
  lemma OtherCollationBlocksStart(dir: Directory, attempts: string -> Attempt)
    requires dir == map["a.sql" := File(true, "x"), "B.sql" := File(true, "y")]
    ensures var db := Database({"B.sql", "a.sql"}, ["B", "a"]);
            var env := Environment(Some(dir), Some(["a.sql", "B.sql"]), attempts);
            Legal(db, env) && RunResult(db, env) == (db, None)
  {
    var db := Database({"B.sql", "a.sql"}, ["B", "a"]);
    var listing := ["a.sql", "B.sql"];
    var env := Environment(Some(dir), Some(listing), attempts);
    assert Legal(db, env) by {
      forall name ensures name in listing <==> name in db.recorded {
        assert listing[0] == "a.sql" && listing[1] == "B.sql";
      }
    }
    MissedName(listing, "B.sql");
    assert NameOf("B") == "B.sql" && NameOf("a") == "a.sql";
    BeforeSmallA(dir);
    hide Discovered, BinarySearch, LowerBound, Less;
    assert NameOf(Discovered(dir)[0]) in db.recorded;
  }

  lemma BeforeSmallA(dir: Directory)
    requires dir == map["a.sql" := File(true, "x"), "B.sql" := File(true, "y")]
    ensures Discovered(dir) != [] && Discovered(dir)[0] == "B"
  {
    assert NameOf("B") == "B.sql" && NameOf("a") == "a.sql";
    VersionsAre(dir, "B");
    VersionsAre(dir, "a");
    FirstDiscovered(dir, "B", "a");
  }

  lemma MissedName(s: seq<string>, x: string)
    requires |s| == 2 && s[1] == x && Less(x, s[0])
    ensures !BinarySearch(s, x)
  {
    LessTrichotomy(x, x);
    LessTrichotomy(x, s[0]);
    assert LowerBound(s, x, 0, 1) == LowerBound(s, x, 0, 0);
    assert LowerBound(s, x, 0, 2) == 0;
  }

  lemma FirstDiscovered(dir: Directory, v: string, w: string)
    requires v in Versions(dir) && Less(v, w) && forall x :: x in Versions(dir) ==> x == v || x == w
    ensures Discovered(dir) != [] && Discovered(dir)[0] == v
  {
    var vs := Discovered(dir);
    assert v in vs;
    var i :| 0 <= i < |vs| && vs[i] == v;
    if i > 0 {
      assert vs[0] in vs;
      LessTrichotomy(v, w);
      LessTrichotomy(vs[0], vs[i]);
    }
  }

  /** Why the files must be fixed: a completed run keeps the log in version order exactly when every version it applied
      comes after every version applied before; a file added later under an earlier version breaks it. */
  lemma LateFileBreaksOrder(db: Database, env: Environment)
    requires Consistent(db) && Ascending(db.log) && Legal(db, env) && RunResult(db, env).1.Some?
    ensures Ascending(RunResult(db, env).0.log) <==>
              forall v, w :: v in db.log && w in Pending(Discovered(env.directory.value), db.recorded) ==> Less(v, w)
  {
    RunAppliesPending(db, env);
    var vs := Discovered(env.directory.value);
    var p := Pending(vs, db.recorded);
    PendingAscends(vs, db.recorded);
    hide RunResult, Discovered, Consistent, Pending, Less, Ascending;
    AscendingConcat(db.log, p);
  }

  lemma AscendingConcat(a: seq<string>, b: seq<string>)
    requires Ascending(a) && Ascending(b)
    ensures Ascending(a + b) <==> forall v, w :: v in a && w in b ==> Less(v, w)
  {
    hide Less;
    var ab := a + b;
    if forall v, w :: v in a && w in b ==> Less(v, w) {
      forall i, j | 0 <= i < j < |ab| ensures Less(ab[i], ab[j]) {
        if i < |a| <= j { assert a[i] in a && b[j - |a|] in b; }
      }
    }
    if Ascending(ab) {
      forall v, w | v in a && w in b ensures Less(v, w) {
        var i :| 0 <= i < |a| && a[i] == v;
        var j :| 0 <= j < |b| && b[j] == w;
        assert ab[i] == v && ab[|a| + j] == w;
      }
    }
  }

  lemma {:induction false} PendingAscends(vs: seq<string>, recorded: set<string>)
    requires Ascending(vs)
    ensures Ascending(Pending(vs, recorded))
    decreases |vs|
  {
    hide Less;
    if vs != [] {
      PendingAscends(vs[1..], recorded);
      var rest := Pending(vs[1..], recorded);
      forall j | 0 <= j < |rest| ensures Less(vs[0], rest[j]) {
        assert rest[j] in rest;
        var k :| 0 <= k < |vs| - 1 && vs[1..][k] == rest[j];
        assert vs[k + 1] == rest[j];
      }
    }
  }

  // ---- the runner object ----

  ghost predicate Enumerates(iteration: seq<string>, dir: Directory) {
    && (forall name :: name in iteration <==> name in dir)
    && (forall i, j :: 0 <= i < j < |iteration| ==> iteration[i] != iteration[j])
  }

  // std::ranges::sort by version: the one ascending arrangement of distinct versions.
  function Sorted(versions: seq<string>): (r: seq<string>)
    ensures Ascending(r) && forall v :: v in r <==> v in versions
  {
    SortedKeys(set v | v in versions)
  }

  class MigrationRunner {
    var recorded: set<string>
    var log: seq<string>

    constructor ()
      ensures Db() == EMPTY && Consistent(Db())
    {
      recorded, log := {}, [];
    }

    ghost function Db(): Database
      reads this
    {
      Database(recorded, log)
    }

    method Discover(directory: Option<Directory>, iteration: seq<string>) returns (r: Option<seq<string>>)
      requires directory.Some? ==> Enumerates(iteration, directory.value)
      ensures r == if directory.None? then None else Some(Discovered(directory.value))
    {
      if directory.None? {
        return None;
      }
      var dir := directory.value;
      var migrations: seq<string> := [];
      for i := 0 to |iteration|
        invariant forall v ::
                   v in migrations <==>
                     exists k :: 0 <= k < i && Selected(dir, iteration[k]) && StemOf(iteration[k]) == v
      {
        var name := iteration[i];
        if !dir[name].regular || !IsScript(name) {
          continue;
        }
        migrations := migrations + [StemOf(name)];
      }
      var found := Sorted(migrations);
      forall v ensures v in found <==> v in Discovered(dir) {
        if v in Discovered(dir) {
          var name :| name in dir && Selected(dir, name) && StemOf(name) == v;
          assert name in iteration;
        }
      }
      AscendingUnique(found, Discovered(dir));
      return Some(found);
    }

    method ApplyMigration(dir: Directory, version: string, attempt: Attempt) returns (ok: bool)
      modifies this
      ensures (Db(), ok) == Apply(old(Db()), ContentsOf(dir, version), version, attempt)
    {
      if attempt.Unreadable? {
        return false;
      }
      var contents := ContentsOf(dir, version);
      if contents == "" {
        return false;
      }
      // BEGIN
      var recordedBefore, logBefore := recorded, log;
      var name := NameOf(version);
      if attempt.Fails? || name in recorded {
        return false;
      }
      log := log + [version];
      recorded := recorded + {name};
      if attempt.CommitFails? {
        if !attempt.took {
          recorded, log := recordedBefore, logBefore;
        }
        return false;
      }
      return true;
    }

    method Run(env: Environment, iteration: seq<string>) returns (r: Option<nat>)
      requires Consistent(Db()) && Legal(Db(), env)
      requires env.directory.Some? ==> Enumerates(iteration, env.directory.value)
      modifies this
      ensures (Db(), r) == RunResult(old(Db()), env)
      ensures Consistent(Db()) && old(log) <= log
      ensures r.Some? ==> r.value == |log| - |old(log)| && env.directory.Some? &&
                          log == old(log) + Pending(Discovered(env.directory.value), old(recorded))
    {
      RunAppliesPending(Db(), env);
      var discovered := Discover(env.directory, iteration);
      if discovered.None? || env.listing.None? {
        return None;
      }
      var dir, migrations, applied := env.directory.value, discovered.value, env.listing.value;
      hide BinarySearch, Consistent, Legal, Enumerates, Discovered, Pending;
      var count := 0;
      for i := 0 to |migrations|
        invariant RunLoop(Db(), dir, migrations[i..], applied, env.attempts, count)
               == RunLoop(old(Db()), dir, migrations, applied, env.attempts, 0)
      {
        assert migrations[i..][0] == migrations[i] && migrations[i..][1..] == migrations[i + 1..];
        if BinarySearch(applied, NameOf(migrations[i])) {
          continue;
        }
        var ok := ApplyMigration(dir, migrations[i], env.attempts(migrations[i]));
        if !ok {
          return None;
        }
        count := count + 1;
      }
      return Some(count);
    }
  }
}
