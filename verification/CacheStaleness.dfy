/** Four read-through caches over one Redis, when commands may be late, reordered or lost, entries may be evicted,
    reads of either store may fail and the database may be written by anyone: how old can an answer be, and was it
    ever true? */
module CacheStaleness {
  import opened Common
  import opened Roles
  import opened CacheKeys
  import opened JsonValues
  import opened Environments

  // What the four services read from PostgreSQL.
  datatype Database = Database(
    roles: map<(UUID, UUID), UserRole>,      // findRoleForUser, by (project, user)
    versions: map<UUID, UUID>,               // users.token_version
    admins: map<UUID, bool>,                 // users.is_admin
    environments: map<UUID, Environment>)

  // Ids of stored rows are uuids, and a row is stored under its own id.
  ghost predicate WellFormed(db: Database) {
    && (forall p, u :: (p, u) in db.roles ==> ColonFree(p) && ColonFree(u))
    && (forall e :: e in db.environments ==> db.environments[e].id == e)
  }

  // The string a service would store for a key, None where it stores nothing.
  function Truth(db: Database, k: CacheKey, dump: Json -> string): Option<string> {
    match k
    case ProjectRoleKey(p, u) => if (p, u) in db.roles then Some(RoleToString(db.roles[(p, u)])) else None
    case TokenVersionKey(u) => if u in db.versions then Some(db.versions[u]) else None
    case UserRoleKey(u) => Some(if u in db.admins && db.admins[u] then "admin" else "viewer")
    case EnvironmentKey(e) => if e in db.environments then Some(dump(EnvironmentToJson(db.environments[e]))) else None
  }

  // A command on its way to Redis, with the moment it was issued.
  datatype Flight = Flight(command: Command<string>, issued: int)

  datatype World = World(db: Database, redis: map<string, Entry>, flights: seq<Flight>, now: int)

  // GET: the entry, unless its time is up.
  function Visible(w: World, key: string): Option<string> {
    if key in w.redis && w.now < w.redis[key].expires then Some(w.redis[key].value) else None
  }

  // A cached value is used unless it is empty (any token version is used) or, for an environment, unreadable.
  predicate Usable(k: CacheKey, v: string, parse: string -> Option<Json>) {
    match k
    case TokenVersionKey(_) => true
    case EnvironmentKey(_) => v != "" && parse(v).Some? && EnvironmentFromJson(parse(v).value).Some?
    case _ => v != ""
  }

  function Issue(w: World, c: Command<string>): World {
    w.(flights := w.flights + [Flight(c, w.now)])
  }

  // The text library, and how long a command may be under way.
  datatype Setting = Setting(dump: Json -> string, parse: string -> Option<Json>, delay: nat)

  // What a service makes of a failed SELECT: nothing is there, which for a user's role means a viewer.
  function Missed(k: CacheKey): Option<string> {
    if k.UserRoleKey? then Some("viewer") else None
  }

  function Cached(w: World, k: CacheKey, s: Setting, ok: Reads): Option<string> {
    var v := if ok.cache then Visible(w, Print(k)) else None;
    if v.Some? && Usable(k, v.value, s.parse) then v else None
  }

  // One read-through call: answer from the cache, else from the database, storing what was found.
  function Ask(w: World, k: CacheKey, s: Setting, ok: Reads): (World, Option<string>) {
    var cached := Cached(w, k, s, ok);
    if cached.Some? then (w, cached)
    else
      var found := if ok.database then Truth(w.db, k, s.dump) else Missed(k);
      (if found.Some? then Issue(w, SetEx(Print(k), Ttl(k), found.value)) else w, found)
  }

  datatype Event =
    | Call(key: CacheKey, ok: Reads)  // getProjectRole, fetchCurrentVersion, resolveRole, EnvironmentCache::get
    | WarmVersion(user: UUID)            // createTokens inside a login
    | Invalidate(key: CacheKey)          // rotateVersion, EnvironmentCache::invalidate
    | Write(db: Database)                // any change of the database, by anyone
    | Arrive(flight: nat)                // some command under way reaches Redis, in any order
    | Lose(flight: nat)                  // or is lost
    | Evict(entry: string)
    | Tick(seconds: nat)

  function Without<T>(xs: seq<T>, i: nat): seq<T>
    requires i < |xs|
  {
    xs[..i] + xs[i + 1..]
  }

  ghost predicate Legal(w: World, e: Event, s: Setting) {
    match e
    case Write(db) => WellFormed(db)
    case Arrive(i) => i < |w.flights| && w.now - w.flights[i].issued <= s.delay
    case Lose(i) => i < |w.flights|
    case _ => true
  }

  ghost function Step(w: World, e: Event, s: Setting): World
    requires Legal(w, e, s)
  {
    match e
    case Call(k, ok) => Ask(w, k, s, ok).0
    case WarmVersion(u) =>
      var k := TokenVersionKey(u);
      if u in w.db.versions then Issue(w, SetEx(Print(k), Ttl(k), w.db.versions[u])) else w
    case Invalidate(k) => Issue(w, Del(Print(k)))
    case Write(db) => w.(db := db)
    case Arrive(i) => w.(redis := Execute(w.redis, w.flights[i].command, w.now), flights := Without(w.flights, i))
    case Lose(i) => w.(flights := Without(w.flights, i))
    case Evict(k) => w.(redis := w.redis - {k})
    case Tick(n) => w.(now := w.now + n)
  }

  // Event i leads from world i to the next.
  ghost predicate Follows(h: seq<World>, es: seq<Event>, i: nat, s: Setting)
    requires i < |es| && i + 1 < |h|
  {
    Legal(h[i], es[i], s) && h[i + 1] == Step(h[i], es[i], s)
  }

  // A history of worlds, oldest first, with the events between them.
  ghost predicate History(h: seq<World>, es: seq<Event>, s: Setting) {
    && |h| == |es| + 1
    && (forall i :: 0 <= i < |h| ==> WellFormed(h[i].db))
    && h[0].redis == map[] && h[0].flights == []
    && (forall i: nat :: i < |es| ==> Follows(h, es, i, s))
  }

  // v was the database's answer for k at moment m, and an entry stored from it expires by then + ttl + delay.
  ghost predicate WasTrue(h: seq<World>, m: int, k: CacheKey, v: string, s: Setting) {
    0 <= m < |h| && Truth(h[m].db, k, s.dump) == Some(v)
  }

  // At moment m the role of an administrator was asked for, and neither store answered.
  ghost predicate Misread(h: seq<World>, es: seq<Event>, m: int, u: UUID, s: Setting) {
    && 0 <= m < |es| && m < |h| && u in h[m].db.admins && h[m].db.admins[u]
    && es[m].Call? && es[m].key == UserRoleKey(u) && !es[m].ok.database && Cached(h[m], es[m].key, s, es[m].ok).None?
  }

  // What a stored value can come from: the database's answer, or a misread.
  ghost predicate Source(h: seq<World>, es: seq<Event>, m: int, k: CacheKey, v: string, s: Setting) {
    WasTrue(h, m, k, v, s) || (k.UserRoleKey? && v == "viewer" && Misread(h, es, m, k.user, s))
  }

  ghost predicate EntryGrounded(h: seq<World>, es: seq<Event>, key: string, entry: Entry, s: Setting) {
    exists k, m ::
      Print(k) == key && Written(k) && 0 <= m < |h| && Source(h, es, m, k, entry.value, s)
          && entry.expires <= h[m].now + Ttl(k) + s.delay
  }

  ghost predicate FlightGrounded(h: seq<World>, es: seq<Event>, f: Flight, s: Setting) {
    f.command.SetEx? ==>
      exists k, m ::
        Print(k) == f.command.key && Written(k) && 0 <= m < |h| && Source(h, es, m, k, f.command.value, s) &&
        f.command.ttl == Ttl(k) && f.issued == h[m].now
  }

  ghost predicate Grounded(h: seq<World>, es: seq<Event>, s: Setting) {
    && |h| == |es| + 1
    && (var w := h[|h| - 1];
       && (forall key :: key in w.redis ==> EntryGrounded(h, es, key, w.redis[key], s))
       && (forall i :: 0 <= i < |w.flights| ==> FlightGrounded(h, es, w.flights[i], s)))
  }

  lemma SourceLonger(h: seq<World>, es: seq<Event>, w: World, e: Event, m: int, k: CacheKey, v: string, s: Setting)
    requires |h| == |es| + 1 && Source(h, es, m, k, v, s)
    ensures 0 <= m < |h| && (h + [w])[m] == h[m] && Source(h + [w], es + [e], m, k, v, s)
  {
    hide Truth, Cached;
    assert m < |es| ==> (es + [e])[m] == es[m];
  }

  lemma GroundedLonger(h: seq<World>, es: seq<Event>, w: World, e: Event, s: Setting)
    requires |h| == |es| + 1
    ensures forall key, entry :: EntryGrounded(h, es, key, entry, s) ==> EntryGrounded(h + [w], es + [e], key, entry, s)
    ensures forall f :: FlightGrounded(h, es, f, s) ==> FlightGrounded(h + [w], es + [e], f, s)
  {
    hide Source, Print;
    var h', es' := h + [w], es + [e];
    forall key, entry | EntryGrounded(h, es, key, entry, s) ensures EntryGrounded(h', es', key, entry, s) {
      var k, m :| Print(k) == key && Written(k) && 0 <= m < |h| && Source(h, es, m, k, entry.value, s)
        && entry.expires <= h[m].now + Ttl(k) + s.delay;
      SourceLonger(h, es, w, e, m, k, entry.value, s);
    }
    forall f | FlightGrounded(h, es, f, s) ensures FlightGrounded(h', es', f, s) {
      if f.command.SetEx? {
        var k, m :| Print(k) == f.command.key && Written(k) && 0 <= m < |h| && Source(h, es, m, k, f.command.value, s)
          && f.command.ttl == Ttl(k) && f.issued == h[m].now;
        SourceLonger(h, es, w, e, m, k, f.command.value, s);
      }
    }
  }

  lemma TruthIsWritten(db: Database, k: CacheKey, dump: Json -> string)
    requires WellFormed(db) && Truth(db, k, dump).Some?
    ensures Written(k)
  {
  }

  // A store issued now is grounded in the database of now, or in the misread that is happening.
  lemma IssueGrounded(h: seq<World>, es: seq<Event>, m: nat, k: CacheKey, v: string, s: Setting)
    requires m < |h| && WellFormed(h[m].db) && Source(h, es, m, k, v, s)
    ensures FlightGrounded(h, es, Flight(SetEx(Print(k), Ttl(k), v), h[m].now), s)
  {
    if WasTrue(h, m, k, v, s) { TruthIsWritten(h[m].db, k, s.dump); }
    hide Source, Print;
  }

  lemma ArriveGrounded(h: seq<World>, es: seq<Event>, f: Flight, s: Setting, now: int)
    requires FlightGrounded(h, es, f, s) && f.command.SetEx? && now - f.issued <= s.delay
    ensures EntryGrounded(h, es, f.command.key, Entry(f.command.value, now + f.command.ttl), s)
  {
    hide Source, Print;
    var k, m :| Print(k) == f.command.key && Written(k) && 0 <= m < |h| && Source(h, es, m, k, f.command.value, s)
      && f.command.ttl == Ttl(k) && f.issued == h[m].now;
    assert now + f.command.ttl <= h[m].now + Ttl(k) + s.delay;
  }

  // Whatever a call answers itself, not from the cache, has a source.
  lemma AskedHasSource(h: seq<World>, es: seq<Event>, k: CacheKey, ok: Reads, s: Setting)
    requires |es| > 0 && |h| == |es| + 1 && es[|es| - 1] == Call(k, ok)
    requires var w := h[|es| - 1]; Cached(w, k, s, ok).None? && Ask(w, k, s, ok).1.Some?
    ensures Source(h, es, |es| - 1, k, Ask(h[|es| - 1], k, s, ok).1.value, s)
  {
    hide Print, Visible, Usable;
  }

  lemma StepGrounded(h: seq<World>, es: seq<Event>, e: Event, s: Setting)
    requires Grounded(h, es, s) && WellFormed(h[|h| - 1].db) && Legal(h[|h| - 1], e, s)
    ensures Grounded(h + [Step(h[|h| - 1], e, s)], es + [e], s)
  {
    var w := h[|h| - 1];
    var w' := Step(w, e, s);
    var h', es' := h + [w'], es + [e];
    GroundedLonger(h, es, w', e, s);
    assert h'[|h'| - 1] == w' && h'[|es|] == w && es'[|es|] == e;
    forall key | key in w'.redis ensures EntryGrounded(h', es', key, w'.redis[key], s) {
      EntryAfterStep(h, es, e, s, key);
    }
    forall i | 0 <= i < |w'.flights| ensures FlightGrounded(h', es', w'.flights[i], s) {
      FlightAfterStep(h, es, e, s, i);
    }
  }

  lemma EntryAfterStep(h: seq<World>, es: seq<Event>, e: Event, s: Setting, key: string)
    requires Grounded(h, es, s) && Legal(h[|h| - 1], e, s) && key in Step(h[|h| - 1], e, s).redis
    ensures EntryGrounded(h + [Step(h[|h| - 1], e, s)], es + [e], key, Step(h[|h| - 1], e, s).redis[key], s)
  {
    hide FlightGrounded, EntryGrounded, Print, Truth, Cached;
    var w := h[|h| - 1];
    GroundedLonger(h, es, Step(w, e, s), e, s);
    if e.Arrive? && w.flights[e.flight].command.SetEx? && key == w.flights[e.flight].command.key {
      assert FlightGrounded(h, es, w.flights[e.flight], s);
      ArriveGrounded(h, es, w.flights[e.flight], s, w.now);
    } else {
      assert key in w.redis && Step(w, e, s).redis[key] == w.redis[key];
    }
  }

  lemma FlightAfterStep(h: seq<World>, es: seq<Event>, e: Event, s: Setting, i: nat)
    requires Grounded(h, es, s) && WellFormed(h[|h| - 1].db) && Legal(h[|h| - 1], e, s)
    requires i < |Step(h[|h| - 1], e, s).flights|
    ensures FlightGrounded(h + [Step(h[|h| - 1], e, s)], es + [e], Step(h[|h| - 1], e, s).flights[i], s)
  {
    hide FlightGrounded, EntryGrounded, Print, Cached, Source, WellFormed;
    var w := h[|h| - 1];
    var w' := Step(w, e, s);
    var h', es' := h + [w'], es + [e];
    GroundedLonger(h, es, w', e, s);
    assert h'[|es|] == w && es'[|es|] == e;
    if i < |w.flights| && w'.flights[i] == w.flights[i] {
      assert FlightGrounded(h, es, w.flights[i], s);
    } else if i + 1 < |w.flights| && w'.flights[i] == w.flights[i + 1] {
      assert FlightGrounded(h, es, w.flights[i + 1], s);
    } else {
      match e
      case Call(k, ok) =>
        AskedHasSource(h', es', k, ok, s);
        IssueGrounded(h', es', |es|, k, Ask(w, k, s, ok).1.value, s);
      case WarmVersion(u) =>
        VersionIsSource(h', es', |es|, u, s);
        IssueGrounded(h', es', |es|, TokenVersionKey(u), w.db.versions[u], s);
      case Invalidate(k) => DeletionGrounded(h', es', Flight(Del(Print(k)), w.now), s);
      case _ =>
    }
  }

  lemma DeletionGrounded(h: seq<World>, es: seq<Event>, f: Flight, s: Setting)
    requires f.command.Del?
    ensures FlightGrounded(h, es, f, s)
  {
  }

  lemma VersionIsSource(h: seq<World>, es: seq<Event>, m: nat, u: UUID, s: Setting)
    requires m < |h| && u in h[m].db.versions
    ensures Source(h, es, m, TokenVersionKey(u), h[m].db.versions[u], s)
  {
  }

  lemma StartGrounded(w: World, s: Setting)
    requires w.redis == map[] && w.flights == []
    ensures Grounded([w], [], s)
  {
  }

  // The first n steps of a history.
  lemma HistoryPrefix(h: seq<World>, es: seq<Event>, s: Setting, n: nat)
    requires History(h, es, s) && n < |h|
    ensures History(h[..n + 1], es[..n], s)
    ensures n > 0 ==> h[..n + 1] == h[..n] + [h[n]] && es[..n] == es[..n - 1] + [es[n - 1]]
    ensures n > 0 ==> Legal(h[n - 1], es[n - 1], s) && h[n] == Step(h[n - 1], es[n - 1], s)
  {
    hide WellFormed, Legal, Step;
    var g, ds := h[..n + 1], es[..n];
    assert forall i :: 0 <= i < |g| ==> g[i] == h[i];
    forall i: nat | i < n ensures Follows(g, ds, i, s) {
      assert Follows(h, es, i, s) && g[i + 1] == h[i + 1] && ds[i] == es[i];
    }
    if n > 0 {
      assert Follows(h, es, n - 1, s);
    }
  }

  lemma {:induction false} HistoryGrounded(h: seq<World>, es: seq<Event>, s: Setting)
    requires History(h, es, s)
    ensures Grounded(h, es, s)
    decreases |h|
  {
    var n := |es|;
    assert |h| == n + 1 && h[0].redis == map[] && h[0].flights == [];
    assert n > 0 ==> WellFormed(h[n - 1].db);
    HistoryPrefix(h, es, s, n);
    if n > 0 { HistoryPrefix(h, es, s, n - 1); }
    hide History, Grounded, WellFormed, Legal, Step;
    assert h[..n + 1] == h && es[..n] == es;
    if n == 0 {
      StartGrounded(h[0], s);
      assert h == [h[0]] && es == [];
    } else {
      HistoryGrounded(h[..n], es[..n - 1], s);
      StepGrounded(h[..n], es[..n - 1], es[n - 1], s);
    }
  }

  // The moments an answer may stem from: less than the TTL plus the longest command delay ago.
  ghost predicate Recent(h: seq<World>, m: int, k: CacheKey, s: Setting) {
    0 <= m < |h| && h[|h| - 1].now - h[m].now < Ttl(k) + s.delay
  }

  ghost predicate RecentlyTrue(h: seq<World>, k: CacheKey, v: string, s: Setting) {
    exists m :: Recent(h, m, k, s) && WasTrue(h, m, k, v, s)
  }

  // A cached answer has a recent source.
  lemma CachedIsGrounded(h: seq<World>, es: seq<Event>, k: CacheKey, s: Setting, ok: Reads)
    requires History(h, es, s) && Cached(h[|h| - 1], k, s, ok).Some?
    ensures exists m :: Recent(h, m, k, s) && Source(h, es, m, k, Cached(h[|h| - 1], k, s, ok).value, s)
  {
    assert |h| > 0;
    hide Source, Usable, History;
    var w := h[|h| - 1];
    var entry := w.redis[Print(k)];
    EntryHasSource(h, es, Print(k), s);
    var l, m :| Print(l) == Print(k) && Written(l) && 0 <= m < |h| && Source(h, es, m, l, entry.value, s)
      && entry.expires <= h[m].now + Ttl(l) + s.delay;
    PrintInjective(k, l);
    hide Print, Written;
    assert Recent(h, m, k, s);
  }

  lemma EntryHasSource(h: seq<World>, es: seq<Event>, key: string, s: Setting)
    requires History(h, es, s) && key in h[|h| - 1].redis
    ensures EntryGrounded(h, es, key, h[|h| - 1].redis[key], s)
  {
    HistoryGrounded(h, es, s);
    hide EntryGrounded, FlightGrounded;
  }

  /** Bounded staleness: whatever is lost, late, reordered or evicted, and whichever reads fail, an answer about a
      project role, a token version or an environment was the database's answer less than the cache's TTL (plus the
      longest command delay) ago.  Absence is never cached: "nothing there" is wrong exactly when the cache does not
      answer and the read fails while something is there. */
  lemma BoundedStaleness(h: seq<World>, es: seq<Event>, k: CacheKey, s: Setting, ok: Reads)
    requires History(h, es, s) && !k.UserRoleKey?
    ensures var w := h[|h| - 1];
            var answer := Ask(w, k, s, ok).1;
            && (answer.Some? ==> RecentlyTrue(h, k, answer.value, s))
            && (answer.None? && ok.database ==> Truth(w.db, k, s.dump).None?)
            && (answer.None? && Truth(w.db, k, s.dump).Some?
                <==> Cached(w, k, s, ok).None? && !ok.database && Truth(w.db, k, s.dump).Some?)
  {
    var w := h[|h| - 1];
    var answer := Ask(w, k, s, ok).1;
    if Cached(w, k, s, ok).Some? {
      CachedIsGrounded(h, es, k, s, ok);
    } else if answer.Some? {
      assert Recent(h, |h| - 1, k, s) && WasTrue(h, |h| - 1, k, answer.value, s);
    }
  }

  /** The bounds in seconds: a project role is at most 300 seconds old, an environment 600, a token version 3600, each
      plus the longest command delay. */
  lemma BoundInSeconds(h: seq<World>, es: seq<Event>, k: CacheKey, s: Setting, ok: Reads)
    requires History(h, es, s) && !k.UserRoleKey? && Ask(h[|h| - 1], k, s, ok).1.Some?
    ensures exists m ::
              && 0 <= m < |h| && Truth(h[m].db, k, s.dump) == Ask(h[|h| - 1], k, s, ok).1
              && h[|h| - 1].now - h[m].now
                 < (if k.ProjectRoleKey? then 300 else if k.EnvironmentKey? then 600 else 3600) + s.delay
  {
    BoundedStaleness(h, es, k, s, ok);
    hide History, Truth, Ask;
    var m :| Recent(h, m, k, s) && WasTrue(h, m, k, Ask(h[|h| - 1], k, s, ok).1.value, s);
  }

  /** What an entry's time is: an answer that went to the database and was stored at once is found under its key for
      exactly 300 seconds, 600 or 3600. */
  lemma LifetimeInSeconds(w: World, k: CacheKey, s: Setting, ok: Reads, n: int)
    requires Cached(w, k, s, ok).None? && Ask(w, k, s, ok).1.Some? && n >= w.now
    ensures var called := Step(w, Call(k, ok), s);
            var stored := Step(called, Arrive(|w.flights|), s);
            && Legal(called, Arrive(|w.flights|), s)
            && (Visible(stored.(now := n), Print(k)) == Ask(w, k, s, ok).1 <==>
                n < w.now + if k.ProjectRoleKey? then 300 else if k.EnvironmentKey? then 600 else 3600)
  {
    hide Truth, Print, Cached;
  }

  /** What the database answers, when the cache does not: the name of the stored role, the stored version, "admin"
      exactly for administrators; and when its read fails, nothing, or "viewer" for a user's role. */
  lemma ColdAnswers(w: World, p: UUID, u: UUID, s: Setting, ok: Reads)
    ensures Cached(w, ProjectRoleKey(p, u), s, ok).None? ==>
              Ask(w, ProjectRoleKey(p, u), s, ok).1 ==
              if ok.database && (p, u) in w.db.roles then Some(RoleToString(w.db.roles[(p, u)])) else None
    ensures Cached(w, TokenVersionKey(u), s, ok).None? ==>
              Ask(w, TokenVersionKey(u), s, ok).1 ==
              if ok.database && u in w.db.versions then Some(w.db.versions[u]) else None
    ensures Cached(w, UserRoleKey(u), s, ok).None? ==>
              Ask(w, UserRoleKey(u), s, ok).1 ==
              Some(if ok.database && u in w.db.admins && w.db.admins[u] then "admin" else "viewer")
  {
    hide Print, Cached;
  }

  // ---- user roles, where a failed read is stored ----

  /** A user's role was the database's within the same bound, or it is "viewer" because an administrator's read
      failed: in this call, or in one within the bound. */
  lemma UserRoleStaleness(h: seq<World>, es: seq<Event>, u: UUID, s: Setting, ok: Reads)
    requires History(h, es, s)
    ensures var w, k := h[|h| - 1], UserRoleKey(u);
            var answer := Ask(w, k, s, ok).1;
            && answer.Some?
            && (RecentlyTrue(h, k, answer.value, s) ||
                (answer.value == "viewer" &&
                 ((Cached(w, k, s, ok).None? && !ok.database)
                     || exists m :: Recent(h, m, k, s) && Misread(h, es, m, u, s))))
  {
    var w, k := h[|h| - 1], UserRoleKey(u);
    var answer := Ask(w, k, s, ok).1;
    if Cached(w, k, s, ok).Some? {
      CachedIsGrounded(h, es, k, s, ok);
      var m :| Recent(h, m, k, s) && Source(h, es, m, k, answer.value, s);
    } else if ok.database {
      assert Recent(h, |h| - 1, k, s) && WasTrue(h, |h| - 1, k, answer.value, s);
    }
  }

  ghost predicate AlwaysAdmin(h: seq<World>, u: UUID) {
    forall i :: 0 <= i < |h| ==> u in h[i].db.admins && h[i].db.admins[u]
  }

  // The store issued by a misread reached Redis.
  ghost predicate MisreadStored(h: seq<World>, es: seq<Event>, u: UUID, s: Setting) {
    exists m, n :: m < n && Misread(h, es, m, u, s) && Stores(h, es, n, UserRoleKey(u), "viewer")
        && StoredAt(h, es, n) == h[m].now
  }

  // Step n lets a store of v under k reach Redis.
  ghost predicate Stores(h: seq<World>, es: seq<Event>, n: int, k: CacheKey, v: string) {
    && 0 <= n < |es| && n < |h| && es[n].Arrive? && es[n].flight < |h[n].flights|
    && h[n].flights[es[n].flight].command == SetEx(Print(k), Ttl(k), v)
  }

  ghost function StoredAt(h: seq<World>, es: seq<Event>, n: int): int
    requires 0 <= n < |es| && n < |h| && es[n].Arrive? && es[n].flight < |h[n].flights|
  {
    h[n].flights[es[n].flight].issued
  }

  // An entry is there because some step stored it.
  lemma {:induction false} EntryArrived(h: seq<World>, es: seq<Event>, s: Setting, key: string)
    requires History(h, es, s) && key in h[|h| - 1].redis
    ensures exists n :: 0 <= n < |es| && es[n].Arrive? && es[n].flight < |h[n].flights|
              && (var c := h[n].flights[es[n].flight].command;
                  c.SetEx? && c.key == key && c.value == h[|h| - 1].redis[key].value)
    decreases |h|
  {
    var n := |es| - 1;
    if n >= 0 {
      HistoryPrefix(h, es, s, n + 1);
      HistoryPrefix(h, es, s, n);
      hide History;
      var g, ds := h[..n + 1], es[..n];
      assert g[|g| - 1] == h[n];
      var stored := es[n].Arrive? && (var c := h[n].flights[es[n].flight].command; c.SetEx? && c.key == key);
      if !stored {
        EntryStays(h[n], es[n], s, key);
        EntryArrived(g, ds, s, key);
        var m :| 0 <= m < |ds| && ds[m].Arrive? && ds[m].flight < |g[m].flights|
          && (var c := g[m].flights[ds[m].flight].command;
              c.SetEx? && c.key == key && c.value == g[|g| - 1].redis[key].value);
        assert ds[m] == es[m] && g[m] == h[m];
      }
    }
  }

  lemma EntryStays(w: World, e: Event, s: Setting, key: string)
    requires Legal(w, e, s) && key in Step(w, e, s).redis
    requires !(e.Arrive? && w.flights[e.flight].command.SetEx? && w.flights[e.flight].command.key == key)
    ensures key in w.redis && Step(w, e, s).redis[key] == w.redis[key]
  {
    hide Print, Truth, Cached;
  }

  // With the user an administrator all along, a store of "viewer" was issued by a misread.
  lemma ViewerStoreIsMisread(h: seq<World>, es: seq<Event>, u: UUID, s: Setting, n: nat)
    requires History(h, es, s) && AlwaysAdmin(h, u) && n < |es| && es[n].Arrive? && es[n].flight < |h[n].flights|
    requires var c := h[n].flights[es[n].flight].command;
             c.SetEx? && c.key == Print(UserRoleKey(u)) && c.value != "admin"
    ensures MisreadStored(h, es, u, s)
  {
    var k, f := UserRoleKey(u), h[n].flights[es[n].flight];
    HistoryPrefix(h, es, s, n);
    var g, ds := h[..n + 1], es[..n];
    assert forall i :: 0 <= i < |g| ==> g[i] == h[i];
    assert forall i :: 0 <= i < |ds| ==> ds[i] == es[i];
    HistoryGrounded(g, ds, s);
    assert FlightGrounded(g, ds, f, s);
    var l, m :| Print(l) == f.command.key && Written(l) && 0 <= m < |g| && Source(g, ds, m, l, f.command.value, s)
      && f.command.ttl == Ttl(l) && f.issued == g[m].now;
    PrintInjective(k, l);
    hide History, Print, Grounded, FlightGrounded, Cached;
    assert !WasTrue(g, m, k, f.command.value, s);
    assert Misread(h, es, m, u, s);
    assert Stores(h, es, n, k, "viewer") && StoredAt(h, es, n) == h[m].now;
  }

  // An arriving store is what the next call gets.
  lemma StoreIsServed(w: World, i: nat, k: CacheKey, v: string, s: Setting)
    requires Legal(w, Arrive(i), s) && w.flights[i].command == SetEx(Print(k), Ttl(k), v) && v != "" && k.UserRoleKey?
    ensures Ask(Step(w, Arrive(i), s), k, s, WORKING).1 == Some(v)
  {
    hide Print;
  }

  // Every answer along the history is recently true, provided the call's own reads go through.
  ghost predicate RoleAlwaysTrue(h: seq<World>, u: UUID, s: Setting) {
    forall n :: 0 <= n < |h| ==> RoleTrueAt(h, u, s, n)
  }

  ghost predicate RoleTrueAt(h: seq<World>, u: UUID, s: Setting, n: nat)
    requires n < |h|
  {
    var answer := Ask(h[n], UserRoleKey(u), s, WORKING).1;
    answer.Some? && RecentlyTrue(h[..n + 1], UserRoleKey(u), answer.value, s)
  }

  /** For a user who is an administrator throughout, every answer along a history keeps the bound if and only if no
      failed read of that user was stored. */
  lemma UserRoleBoundIff(h: seq<World>, es: seq<Event>, u: UUID, s: Setting)
    requires History(h, es, s) && AlwaysAdmin(h, u)
    ensures RoleAlwaysTrue(h, u, s) <==> !MisreadStored(h, es, u, s)
  {
    if MisreadStored(h, es, u, s) {
      StoredMisreadServed(h, es, u, s);
    } else {
      forall n: nat | n < |h| ensures RoleTrueAt(h, u, s, n) {
        UnstoredRoleTrue(h, es, u, s, n);
      }
    }
  }

  lemma StoredMisreadServed(h: seq<World>, es: seq<Event>, u: UUID, s: Setting)
    requires History(h, es, s) && AlwaysAdmin(h, u) && MisreadStored(h, es, u, s)
    ensures !RoleAlwaysTrue(h, u, s)
  {
    var k := UserRoleKey(u);
    var m, n :| m < n && Misread(h, es, m, u, s) && Stores(h, es, n, k, "viewer") && StoredAt(h, es, n) == h[m].now;
    HistoryPrefix(h, es, s, n + 1);
    StoreIsServed(h[n], es[n].flight, k, "viewer", s);
    hide Ask, History, Print, Step, Legal;
    var g := h[..n + 2];
    forall i | 0 <= i < |g| ensures !WasTrue(g, i, k, "viewer", s) { assert g[i] == h[i]; }
    assert !RoleTrueAt(h, u, s, n + 1);
  }

  lemma UnstoredRoleTrue(h: seq<World>, es: seq<Event>, u: UUID, s: Setting, n: nat)
    requires History(h, es, s) && AlwaysAdmin(h, u) && !MisreadStored(h, es, u, s) && n < |h|
    ensures RoleTrueAt(h, u, s, n)
  {
    var k, w, g := UserRoleKey(u), h[n], h[..n + 1];
    HistoryPrefix(h, es, s, n);
    assert g[n] == w && Recent(g, n, k, s);
    assert WasTrue(g, n, k, "admin", s);
    var answer := Ask(w, k, s, WORKING).1;
    if Cached(w, k, s, WORKING).Some? && answer.value != "admin" {
      hide History;
      EntryArrived(g, es[..n], s, Print(k));
      var a :| 0 <= a < n && es[..n][a].Arrive? && es[..n][a].flight < |g[a].flights|
        && (var c := g[a].flights[es[..n][a].flight].command; c.SetEx? && c.key == Print(k) && c.value == answer.value);
      assert g[a] == h[a] && es[..n][a] == es[a];
      ViewerStoreIsMisread(h, es, u, s, a);
    }
  }

  // ---- two histories ----

  lemma HistorySnoc(h: seq<World>, es: seq<Event>, e: Event, s: Setting)
    requires History(h, es, s) && Legal(h[|h| - 1], e, s) && WellFormed(Step(h[|h| - 1], e, s).db)
    ensures History(h + [Step(h[|h| - 1], e, s)], es + [e], s)
  {
    hide WellFormed, Legal, Step;
    var h', es' := h + [Step(h[|h| - 1], e, s)], es + [e];
    forall i: nat | i < |es'| ensures Follows(h', es', i, s) {
      if i < |es| {
        assert Follows(h, es, i, s) && h'[i] == h[i] && h'[i + 1] == h[i + 1] && es'[i] == es[i];
      }
    }
  }

  lemma Snoc(h: seq<World>, es: seq<Event>, e: Event, w: World, s: Setting)
    requires History(h, es, s) && Legal(h[|h| - 1], e, s) && WellFormed(w.db) && w == Step(h[|h| - 1], e, s)
    ensures History(h + [w], es + [e], s)
  {
    HistorySnoc(h, es, e, s);
  }

  lemma StartHistory(db: Database, s: Setting)
    requires WellFormed(db)
    ensures History([World(db, map[], [], 0)], [], s)
  {
  }

  // A store under way is delivered at the last moment and served until the last second of its time.
  lemma LateDelivery(db: Database, k: CacheKey, v: string, s: Setting)
    requires v != "" && !k.EnvironmentKey?
    ensures var w := World(db, map[], [Flight(SetEx(Print(k), Ttl(k), v), 0)], s.delay);
            var w' := World(db, map[Print(k) := Entry(v, s.delay + Ttl(k))], [], s.delay);
            && Legal(w, Arrive(0), s) && Step(w, Arrive(0), s) == w'
            && Ask(w'.(now := s.delay + Ttl(k) - 1), k, s, WORKING).1 == Some(v)
  {
    hide Print;
    assert Without([Flight(SetEx(Print(k), Ttl(k), v), 0)], 0) == [];
  }

  lemma AskIssues(db: Database, k: CacheKey, v: string, s: Setting, ok: Reads)
    requires (if ok.database then Truth(db, k, s.dump) else Missed(k)) == Some(v)
    ensures var w := World(db, map[], [], 0);
            Step(w, Call(k, ok), s) == World(db, map[], [Flight(SetEx(Print(k), Ttl(k), v), 0)], 0)
  {
    hide Print, Truth;
  }

  lemma RemovingRolesKeepsForm(db: Database)
    requires WellFormed(db)
    ensures WellFormed(db.(roles := map[]))
  {
  }

  /** The bound needs the delay: a role is read, removed from the database at the same moment, and still
      answered a full TTL plus all but one second of the delay later, because its store arrived late. */
  lemma LateStoreOutlivesTtl(db: Database, p: UUID, u: UUID, s: Setting) returns (h: seq<World>, es: seq<Event>)
    requires WellFormed(db) && (p, u) in db.roles && s.delay > 0
    ensures History(h, es, s) && |h| == 6 && h[0].db == db
    ensures h[2].db.roles == map[] && h[2].now == h[0].now
    ensures h[5].db == h[2].db && h[5].now - h[2].now == 300 + s.delay - 1
    ensures Ask(h[5], ProjectRoleKey(p, u), s, WORKING).1 == Some(RoleToString(db.roles[(p, u)]))
  {
    var k := ProjectRoleKey(p, u);
    var role := RoleToString(db.roles[(p, u)]);
    RoleRoundTrip(db.roles[(p, u)]);
    RemovingRolesKeepsForm(db);
    AskIssues(db, k, role, s, WORKING);
    var gone := db.(roles := map[]);
    LateDelivery(gone, k, role, s);
    StartHistory(db, s);
    hide Print, Ask, WellFormed, History, RoleToString;
    var w1 := World(db, map[], [Flight(SetEx(Print(k), 300, role), 0)], 0);
    h, es := [World(db, map[], [], 0)], [];
    Snoc(h, es, Call(k, WORKING), w1, s);
    h, es := h + [w1], es + [Call(k, WORKING)];
    Snoc(h, es, Write(gone), w1.(db := gone), s);
    h, es := h + [w1.(db := gone)], es + [Write(gone)];
    h, es := DeliveredLate(h, es, gone, k, role, s);
  }

  // The last three steps of both histories.
  lemma DeliveredLate(h: seq<World>, es: seq<Event>, db: Database, k: CacheKey, v: string, s: Setting)
    returns (h': seq<World>, es': seq<Event>)
    requires v != "" && !k.EnvironmentKey? && WellFormed(db)
    requires History(h, es, s) && h[|h| - 1] == World(db, map[], [Flight(SetEx(Print(k), Ttl(k), v), 0)], 0)
    ensures History(h', es', s) && |h'| == |h| + 3 && h'[..|h|] == h && es'[..|es|] == es
    ensures forall i :: |h| <= i < |h'| ==> h'[i].db == db
    ensures h'[|h'| - 1].now == s.delay + Ttl(k) - 1 && Ask(h'[|h'| - 1], k, s, WORKING).1 == Some(v)
    ensures |es'| == |es| + 3 && es'[|es| + 1] == Arrive(0) && h'[|h|].flights == h[|h| - 1].flights
  {
    LateDelivery(db, k, v, s);
    hide Print, Ask, WellFormed, History;
    var w2 := h[|h| - 1].(now := s.delay);
    var w3 := World(db, map[Print(k) := Entry(v, s.delay + Ttl(k))], [], s.delay);
    var w4 := w3.(now := s.delay + Ttl(k) - 1);
    h', es' := h, es;
    Snoc(h', es', Tick(s.delay), w2, s);
    h', es' := h' + [w2], es' + [Tick(s.delay)];
    Snoc(h', es', Arrive(0), w3, s);
    h', es' := h' + [w3], es' + [Arrive(0)];
    Snoc(h', es', Tick(Ttl(k) - 1), w4, s);
    h', es' := h' + [w4], es' + [Tick(Ttl(k) - 1)];
  }

  /** One failed read demotes an administrator for an hour: whatever the database, a history in which it never changes
      and the user is an administrator throughout, and yet "viewer" is answered from the cache, with all later reads
      working, for as long as an entry lives. */
  lemma FailedReadDemotesAdmin(db: Database, u: UUID, s: Setting) returns (h: seq<World>, es: seq<Event>)
    requires WellFormed(db) && u in db.admins && db.admins[u]
    ensures History(h, es, s) && |h| == 5 && forall i :: 0 <= i < |h| ==> h[i].db == db
    ensures es[0] == Call(UserRoleKey(u), Reads(true, false)) && h[4].now - h[0].now == 3600 + s.delay - 1
    ensures Ask(h[4], UserRoleKey(u), s, WORKING).1 == Some("viewer") && !RecentlyTrue(h, UserRoleKey(u), "viewer", s)
  {
    var k, failed := UserRoleKey(u), Reads(true, false);
    AskIssues(db, k, "viewer", s, failed);
    StartHistory(db, s);
    hide Print, Ask, WellFormed, History;
    var w0, w1 := World(db, map[], [], 0), World(db, map[], [Flight(SetEx(Print(k), 3600, "viewer"), 0)], 0);
    Snoc([w0], [], Call(k, failed), w1, s);
    assert [w0] + [w1] == [w0, w1] && [] + [Call(k, failed)] == [Call(k, failed)];
    h, es := DeliveredLate([w0, w1], [Call(k, failed)], db, k, "viewer", s);
    assert h[0] == h[..2][0] && h[1] == h[..2][1] && es[0] == es[..1][0];
    forall m | 0 <= m < |h| ensures !WasTrue(h, m, k, "viewer", s) { }
  }

  // ---- the services ----

  class CachedServices {
    const setting: Setting
    var db: Database
    var redis: map<string, Entry>
    var flights: seq<Flight>
    var now: int

    constructor (setting: Setting, db: Database)
      ensures Snapshot() == World(db, map[], [], 0) && this.setting == setting
    {
      this.setting, this.db, redis, flights, now := setting, db, map[], [], 0;
    }

    ghost function Snapshot(): World
      reads this
    {
      World(db, redis, flights, now)
    }

    method Get(key: string, ok: Reads) returns (value: Option<string>)
      ensures value == if ok.cache then Visible(Snapshot(), key) else None
    {
      if ok.cache && key in redis && now < redis[key].expires {
        return Some(redis[key].value);
      }
      return None;
    }

    // RoleService::getProjectRole
    method GetProjectRole(userId: UUID, projectId: UUID, ok: Reads) returns (role: Option<UserRole>)
      modifies this`flights
      ensures var (w, answer) := Ask(old(Snapshot()), ProjectRoleKey(projectId, userId), setting, ok);
              Snapshot() == w && role == (if answer.Some? then Some(RoleFromString(answer.value)) else None)
      ensures role.None? ==> (projectId, userId) !in db.roles || !ok.database
    {
      var key := Print(ProjectRoleKey(projectId, userId));
      var cached := Get(key, ok);
      if cached.Some? && cached.value != "" {
        return Some(RoleFromString(cached.value));
      }
      if !ok.database || (projectId, userId) !in db.roles {
        return None;
      }
      var found := db.roles[(projectId, userId)];
      RoleRoundTrip(found);
      flights := flights + [Flight(SetEx(key, 300, RoleToString(found)), now)];
      return Some(found);
    }

    // JwtAuthFilter::resolveRole
    method ResolveRole(userId: UUID, ok: Reads) returns (role: string)
      modifies this`flights
      ensures var (w, answer) := Ask(old(Snapshot()), UserRoleKey(userId), setting, ok);
              Snapshot() == w && answer == Some(role)
    {
      var key := Print(UserRoleKey(userId));
      var cached := Get(key, ok);
      if cached.Some? && cached.value != "" {
        return cached.value;
      }
      role := if ok.database && userId in db.admins && db.admins[userId] then "admin" else "viewer";
      flights := flights + [Flight(SetEx(key, 3600, role), now)];
    }

    // EnvironmentCache::get
    method GetEnvironment(id: UUID, ok: Reads) returns (environment: Option<Environment>)
      requires WellFormed(db) && InversePair(setting.dump, setting.parse)
      modifies this`flights
      ensures var (w, answer) := Ask(old(Snapshot()), EnvironmentKey(id), setting, ok);
              && Snapshot() == w
              && (answer.None? ==> environment.None?)
              && (answer.Some? ==>
                    environment.Some? && setting.parse(answer.value).Some? &&
                    EnvironmentFromJson(setting.parse(answer.value).value) == Some(WithoutTimes(environment.value)))
    {
      var key := Print(EnvironmentKey(id));
      var cached := Get(key, ok);
      if cached.Some? && cached.value != "" {
        var json := setting.parse(cached.value);
        if json.Some? {
          var decoded := EnvironmentFromJson(json.value);
          if decoded.Some? {
            EnvironmentFromJsonHasNoTimes(json.value);
            return decoded;
          }
        }
      }
      if !ok.database || id !in db.environments {
        return None;
      }
      var found := db.environments[id];
      EnvironmentRoundTrip(found);
      var text := setting.dump(EnvironmentToJson(found));
      flights := flights + [Flight(SetEx(Print(EnvironmentKey(found.id)), 600, text), now)];
      return Some(found);
    }
  }

  lemma EnvironmentFromJsonHasNoTimes(j: Json)
    ensures EnvironmentFromJson(j).Some? ==> WithoutTimes(EnvironmentFromJson(j).value) == EnvironmentFromJson(j).value
  {
  }

  /** A project role served to a caller was the stored role less than 300 seconds (plus the delay) ago. */
  lemma ServedRoleWasStored(h: seq<World>, es: seq<Event>, p: UUID, u: UUID, s: Setting, ok: Reads)
    requires History(h, es, s)
    ensures var k := ProjectRoleKey(p, u);
            var answer := Ask(h[|h| - 1], k, s, ok).1;
            answer.Some? ==>
              exists m :: Recent(h, m, k, s) && (p, u) in h[m].db.roles
                  && h[m].db.roles[(p, u)] == RoleFromString(answer.value)
  {
    var k := ProjectRoleKey(p, u);
    var answer := Ask(h[|h| - 1], k, s, ok).1;
    BoundedStaleness(h, es, k, s, ok);
    if answer.Some? {
      var m :| Recent(h, m, k, s) && WasTrue(h, m, k, answer.value, s);
      RoleRoundTrip(h[m].db.roles[(p, u)]);
    }
  }

  // ---- the environment an execution starts from ----

  // What EnvironmentCache::get makes of an answer.
  function Decoded(answer: Option<string>, parse: string -> Option<Json>): Option<Environment> {
    if answer.Some? && parse(answer.value).Some? then EnvironmentFromJson(parse(answer.value).value) else None
  }

  /** An environment served to an execution is, but for its timestamps, one stored less than 600 seconds (plus the
      delay) ago. */
  lemma ServedEnvironmentWasStored(h: seq<World>, es: seq<Event>, id: UUID, s: Setting, ok: Reads)
    requires History(h, es, s) && InversePair(s.dump, s.parse)
    ensures var k := EnvironmentKey(id);
            var answer := Ask(h[|h| - 1], k, s, ok).1;
            answer.Some? ==>
              exists m :: Recent(h, m, k, s) && id in h[m].db.environments
                && Decoded(answer, s.parse) == Some(WithoutTimes(h[m].db.environments[id]))
  {
    var k := EnvironmentKey(id);
    var answer := Ask(h[|h| - 1], k, s, ok).1;
    BoundedStaleness(h, es, k, s, ok);
    if answer.Some? {
      var m :| Recent(h, m, k, s) && WasTrue(h, m, k, answer.value, s);
      hide Ask, History, EnvironmentToJson, EnvironmentFromJson;
      EnvironmentRoundTrip(h[m].db.environments[id]);
      assert s.parse(answer.value) == Some(EnvironmentToJson(h[m].db.environments[id]));
    }
  }

  function StoredEnvironment(w: World, id: UUID): Option<Environment> {
    if id in w.db.environments then Some(w.db.environments[id]) else None
  }

  /** The variables an execution starts from are the same from a warm cache as straight from the repository, for every
      key, globals and overrides, as long as every environment stored under the id within the bound has the variables
      of the one stored now (none is stored within the bound if none is stored now), and the cache answers or the read
      goes through. */
  lemma WarmEqualsCold(h: seq<World>, es: seq<Event>, id: UUID, s: Setting, ok: Reads, globals: seq<Variable>,
      overrides: Json)
    requires History(h, es, s) && InversePair(s.dump, s.parse)
    requires forall m :: Recent(h, m, EnvironmentKey(id), s) && id in h[m].db.environments ==>
               && id in h[|h| - 1].db.environments
               && h[m].db.environments[id].variables == h[|h| - 1].db.environments[id].variables
    requires id in h[|h| - 1].db.environments ==>
               ok.database || Cached(h[|h| - 1], EnvironmentKey(id), s, ok).Some?
    ensures var w := h[|h| - 1];
            var served := Decoded(Ask(w, EnvironmentKey(id), s, ok).1, s.parse);
            forall k :: Winner(globals, served, overrides, k, s.parse)
                     == Winner(globals, StoredEnvironment(w, id), overrides, k, s.parse)
  {
    var w := h[|h| - 1];
    var answer := Ask(w, EnvironmentKey(id), s, ok).1;
    assert id in w.db.environments ==> answer.Some?;
    ServedEnvironmentWasStored(h, es, id, s, ok);
    assert answer.None? ==> Decoded(answer, s.parse).None?;
    hide Ask, History, Decoded, Winner;
    if answer.Some? {
      var m :| Recent(h, m, EnvironmentKey(id), s) && id in h[m].db.environments
        && Decoded(answer, s.parse) == Some(WithoutTimes(h[m].db.environments[id]));
      WinnerReadsVariables(globals, WithoutTimes(h[m].db.environments[id]), w.db.environments[id], overrides, s.parse);
    }
  }

  lemma WinnerReadsVariables(globals: seq<Variable>, e: Environment, f: Environment, overrides: Json,
      parse: string -> Option<Json>)
    requires e.variables == f.variables
    ensures forall k :: Winner(globals, Some(e), overrides, k, parse) == Winner(globals, Some(f), overrides, k, parse)
  {
  }
}
