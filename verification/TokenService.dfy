/** jwt_token_service.cpp and auth_service.cpp over the user table and the shared Redis connection.

    Each service call is one step.  Commands sent on the one Redis connection run in issue order and are
    not lost; a cache entry may expire, and a read of either store may fail, at any moment. */
module TokenService {
  import opened Common
  import opened CacheKeys

  datatype User = User(id: UUID, username: string, passwordHash: string, isAdmin: bool, isActive: bool,
      tokenVersion: UUID)

  // A signed token, by what decoding and verifying it reveal.
  datatype Token = Malformed | Token(secret: string, issuer: string, subject: UUID, version: UUID, expires: int)

  datatype Claims = Claims(userId: UUID, tokenVersion: UUID)

  const ISSUER := "nexustal"
  const ACCESS_TOKEN_TTL := 900

  datatype State = State(
    secret: string,
    cacheOn: bool,
    users: map<UUID, User>,
    redis: map<string, string>,
    pending: seq<Command<string>>,
    now: int,
    used: set<UUID>)  // every version generated so far

  function KeyOf(user: UUID): string { Print(TokenVersionKey(user)) }

  function Deliver(redis: map<string, string>, c: Command<string>): map<string, string> {
    match c
    case SetEx(k, _, v) => redis[k := v]
    case Del(k) => redis - {k}
  }

  // The store once the commands sent so far have run.
  function Drain(redis: map<string, string>, pending: seq<Command<string>>): map<string, string>
    decreases |pending|
  {
    if pending == [] then redis else Drain(Deliver(redis, pending[0]), pending[1..])
  }

  function Send(s: State, c: Command<string>): State {
    if s.cacheOn then s.(pending := s.pending + [c]) else s
  }

  function Store(user: User): Command<string> {
    SetEx(KeyOf(user.id), Ttl(TokenVersionKey(user.id)), user.tokenVersion)
  }

  function Mint(s: State, user: User): Token {
    Token(s.secret, ISSUER, user.id, user.tokenVersion, s.now + ACCESS_TOKEN_TTL)
  }

  function CreateTokens(s: State, user: User): (State, Token) {
    (Send(s, Store(user)), Mint(s, user))
  }

  function DirectVersion(users: map<UUID, User>, user: UUID): Option<UUID> {
    if user in users then Some(users[user].tokenVersion) else None
  }

  // What a GET answers once the commands sent before it have run.
  function Cached(s: State, user: UUID, ok: Reads): Option<UUID> {
    var store := Drain(s.redis, s.pending);
    if s.cacheOn && ok.cache && KeyOf(user) in store then Some(store[KeyOf(user)]) else None
  }

  function FetchCurrentVersion(s: State, user: UUID, ok: Reads): (State, Option<UUID>) {
    var read := if s.cacheOn && ok.cache then s.(redis := Drain(s.redis, s.pending), pending := []) else s;
    var cached := Cached(s, user, ok);
    if cached.Some? then (read, cached)
    else if ok.database && user in s.users then (Send(read, Store(s.users[user])), Some(s.users[user].tokenVersion))
    else (read, None)
  }

  // Signature, issuer and expiry.
  predicate Verifies(s: State, t: Token) {
    t.Token? && t.secret == s.secret && t.issuer == ISSUER && s.now <= t.expires
  }

  function ValidateAccessToken(s: State, t: Token, ok: Reads): (State, Option<Claims>) {
    if !Verifies(s, t) then (s, None)
    else
      var (s', current) := FetchCurrentVersion(s, t.subject, ok);
      (s', if current == Some(t.version) then Some(Claims(t.subject, t.version)) else None)
  }

  // minted is the generated version; dbOk tells whether the lookup and the UPDATE go through.
  function RotateVersion(s: State, user: UUID, minted: UUID, dbOk: bool): State {
    if user !in s.users || !dbOk then s
    else
      Send(s.(users := s.users[user := s.users[user].(tokenVersion := minted)], used := s.used + {minted}),
          Del(KeyOf(user)))
  }

  // The service without a cache: what every answer should be.
  function DirectVerdict(s: State, t: Token): Option<Claims> {
    if Verifies(s, t) && DirectVersion(s.users, t.subject) == Some(t.version) then Some(Claims(t.subject, t.version))
    else None
  }

  // ---- coherence ----

  ghost predicate EntryCurrent(users: map<UUID, User>, store: map<string, string>, user: UUID) {
    KeyOf(user) in store ==> user in users && store[KeyOf(user)] == users[user].tokenVersion
  }

  /** With pending commands drained, every cached version is the stored one. */
  ghost predicate Coherent(s: State) {
    s.cacheOn ==> forall u: UUID :: EntryCurrent(s.users, Drain(s.redis, s.pending), u)
  }

  ghost predicate Valid(s: State) {
    && Coherent(s)
    && (forall u :: u in s.users ==> s.users[u].id == u && s.users[u].tokenVersion in s.used)
  }

  lemma KeyOfInjective(u: UUID, v: UUID)
    requires KeyOf(u) == KeyOf(v)
    ensures u == v
  {
    KeysDisjoint(TokenVersionKey(u), TokenVersionKey(v));
  }

  lemma {:induction false} DrainSnoc(redis: map<string, string>, pending: seq<Command<string>>, c: Command<string>)
    ensures Drain(redis, pending + [c]) == Deliver(Drain(redis, pending), c)
    decreases |pending|
  {
    if pending == [] {
      assert [c][1..] == [];
    } else {
      assert (pending + [c])[1..] == pending[1..] + [c];
      DrainSnoc(Deliver(redis, pending[0]), pending[1..], c);
    }
  }

  // An entry that disappears early can only be missing later on.
  lemma {:induction false} DrainWithout(redis: map<string, string>, pending: seq<Command<string>>, gone: string,
      k: string)
    ensures k in Drain(redis - {gone}, pending)
        ==> k in Drain(redis, pending) && Drain(redis - {gone}, pending)[k] == Drain(redis, pending)[k]
    decreases |pending|
  {
    if pending != [] {
      var c := pending[0];
      var next := Deliver(redis, c);
      if c.Del? || c.key != gone {
        assert Deliver(redis - {gone}, c) == next - {gone};
        DrainWithout(next, pending[1..], gone, k);
      } else {
        assert Deliver(redis - {gone}, c) == next;
      }
    }
  }

  lemma StoreIsCoherentIff(s: State, user: User)
    requires Coherent(s) && s.cacheOn
    ensures Coherent(Send(s, Store(user))) <==> user.id in s.users && s.users[user.id].tokenVersion == user.tokenVersion
  {
    var before := Drain(s.redis, s.pending);
    var after := before[KeyOf(user.id) := user.tokenVersion];
    DrainSnoc(s.redis, s.pending, Store(user));
    if user.id in s.users && s.users[user.id].tokenVersion == user.tokenVersion {
      forall v: UUID ensures EntryCurrent(s.users, after, v) {
        assert EntryCurrent(s.users, before, v);
        if KeyOf(v) == KeyOf(user.id) { KeyOfInjective(v, user.id); }
      }
    } else {
      assert !EntryCurrent(s.users, after, user.id);
    }
  }

  /** Issuing tokens keeps the cache coherent if and only if the user record is the stored one: a record
      read before a rotation is enough to break it. */
  lemma CreateTokensCoherentIff(s: State, user: User)
    requires Coherent(s) && s.cacheOn
    ensures Coherent(CreateTokens(s, user).0)
        <==> user.id in s.users && s.users[user.id].tokenVersion == user.tokenVersion
  {
    StoreIsCoherentIff(s, user);
  }

  // The version is the stored one, unless neither the cache nor the database answers.
  lemma FetchIsDirect(s: State, user: UUID, ok: Reads)
    requires Valid(s)
    ensures FetchCurrentVersion(s, user, ok).1
         == if Cached(s, user, ok).Some? || ok.database then DirectVersion(s.users, user) else None
    ensures Valid(FetchCurrentVersion(s, user, ok).0) && FetchCurrentVersion(s, user, ok).0.users == s.users
  {
    var store := Drain(s.redis, s.pending);
    if s.cacheOn {
      assert EntryCurrent(s.users, store, user);
      var read := if ok.cache then s.(redis := store, pending := []) else s;
      assert Coherent(read);
      if Cached(s, user, ok).None? && user in s.users { StoreIsCoherentIff(read, s.users[user]); }
    }
  }

  /** The cached service answers as the cacheless one does, for every token, if the cache or the database answers; it
      refuses if neither does. */
  lemma ValidateIsDirect(s: State, t: Token, ok: Reads)
    requires Valid(s)
    ensures ValidateAccessToken(s, t, ok).1
         == if t.Token? && (Cached(s, t.subject, ok).Some? || ok.database) then DirectVerdict(s, t) else None
    ensures Valid(ValidateAccessToken(s, t, ok).0) && ValidateAccessToken(s, t, ok).0.users == s.users
  {
    if Verifies(s, t) { FetchIsDirect(s, t.subject, ok); }
  }

  /** A lookup that answers, and issuing tokens, leave the version in the cache for the next lookup. */
  lemma LookupsWarm(s: State, user: UUID, ok: Reads, record: User)
    requires Valid(s) && s.cacheOn
    ensures var (s', version) := FetchCurrentVersion(s, user, ok);
            version.Some? ==> Cached(s', user, WORKING) == version
    ensures Cached(CreateTokens(s, record).0, record.id, WORKING) == Some(record.tokenVersion)
  {
    DrainSnoc(s.redis, s.pending, Store(record));
    var read := if ok.cache then s.(redis := Drain(s.redis, s.pending), pending := []) else s;
    assert ok.cache ==> Cached(read, user, WORKING) == Cached(s, user, ok);
    if user in s.users {
      DrainSnoc(read.redis, read.pending, Store(s.users[user]));
    }
  }

  /** What makes a token good: it was signed with the service's secret by "nexustal", it has not expired, and it carries
      the stored version of a stored user.  Nothing else is accepted, and if the database answers all of that is. */
  lemma AcceptedTokens(s: State, t: Token, ok: Reads)
    requires Valid(s)
    ensures var claims := ValidateAccessToken(s, t, ok).1;
            var good := && t.Token? && t.secret == s.secret && t.issuer == "nexustal" && s.now <= t.expires
                        && t.subject in s.users && s.users[t.subject].tokenVersion == t.version;
            && (claims.Some? ==> good && claims.value.userId == t.subject && claims.value.tokenVersion == t.version)
            && (ok.database ==> (claims.Some? <==> good))
  {
    ValidateIsDirect(s, t, ok);
  }

  lemma RotateKeepsValid(s: State, user: UUID, minted: UUID, dbOk: bool)
    requires Valid(s)
    ensures Valid(RotateVersion(s, user, minted, dbOk))
  {
    if user in s.users && dbOk && s.cacheOn {
      var s' := RotateVersion(s, user, minted, dbOk);
      var before := Drain(s.redis, s.pending);
      DrainSnoc(s.redis, s.pending, Del(KeyOf(user)));
      forall v: UUID ensures EntryCurrent(s'.users, before - {KeyOf(user)}, v) {
        assert EntryCurrent(s.users, before, v);
        if v != user && KeyOf(v) == KeyOf(user) { KeyOfInjective(v, user); }
      }
    }
  }

  // ---- runs ----

  datatype Event =
    | Login(username: string, password: string, looksUp: bool)
    | Validate(token: Token, ok: Reads)
    | Logout(user: UUID, minted: UUID, dbOk: bool)
    | Register(newUser: User)
    | DeliverFirst                                  // Redis executes the oldest command
    | Expire(key: string)                           // an entry's time is up
    | OtherCache(command: Command<CacheKey>)        // another service uses the same connection
    | Tick(seconds: nat)

  datatype Answer = Silent | LoggedIn(token: Option<Token>) | Claimed(claims: Option<Claims>) | Done(ok: bool)

  // findByUsername: usernames are unique in the table.
  ghost function FindByUsername(users: map<UUID, User>, name: string): Option<User> {
    if exists u :: u in users && users[u].username == name
    then var u :| u in users && users[u].username == name; Some(users[u])
    else None
  }

  ghost predicate LoginSucceeds(users: map<UUID, User>, name: string, password: string,
      verify: (string, string) -> bool)
  {
    var user := FindByUsername(users, name);
    user.Some? && user.value.isActive && verify(password, user.value.passwordHash)
  }

  ghost function Step(s: State, e: Event, verify: (string, string) -> bool): (State, Answer) {
    match e
    case Login(name, password, looksUp) =>
      if looksUp && LoginSucceeds(s.users, name, password, verify)
      then var (s', t) := CreateTokens(s, FindByUsername(s.users, name).value); (s', LoggedIn(Some(t)))
      else (s, LoggedIn(None))
    case Validate(t, ok) => var (s', c) := ValidateAccessToken(s, t, ok); (s', Claimed(c))
    case Logout(user, minted, dbOk) =>
      if user == "" then (s, Done(false)) else (RotateVersion(s, user, minted, dbOk), Done(true))
    case Register(user) => (s.(users := s.users[user.id := user], used := s.used + {user.tokenVersion}), Silent)
    case DeliverFirst =>
      (if s.pending == [] then s else s.(redis := Deliver(s.redis, s.pending[0]), pending := s.pending[1..]), Silent)
    case Expire(k) => (s.(redis := s.redis - {k}), Silent)
    case OtherCache(c) => (Send(s, OnWire(c)), Silent)
    case Tick(n) => (s.(now := s.now + n), Silent)
  }

  // Usernames are unique.
  ghost predicate UniqueNames(users: map<UUID, User>) {
    forall u, v :: u in users && v in users && users[u].username == users[v].username ==> u == v
  }

  /** A login issues a token exactly if a stored user of that name is active and the password matches the stored hash;
      the token is signed with the secret by "nexustal", names that user and the stored version, and expires 900 seconds
      from now. */
  lemma LoginIff(s: State, name: string, password: string, looksUp: bool, verify: (string, string) -> bool)
    requires Valid(s) && UniqueNames(s.users)
    ensures var answer := Step(s, Login(name, password, looksUp), verify).1;
            && answer.LoggedIn?
            && (answer.token.Some? <==>
                  looksUp && exists u ::
                    && u in s.users && s.users[u].username == name && s.users[u].isActive
                    && verify(password, s.users[u].passwordHash))
            && (answer.token.Some? ==>
                  var t := answer.token.value;
                  && t.Token? && t.secret == s.secret && t.issuer == "nexustal" && t.expires == s.now + 900
                  && t.subject in s.users && s.users[t.subject].username == name
                  && t.version == s.users[t.subject].tokenVersion)
  {
  }

  // Generated versions are fresh, registered ids are new, and other services use their own keys.
  ghost predicate Legal(s: State, e: Event) {
    match e
    case Logout(_, minted, _) => minted !in s.used
    case Register(user) => user.id !in s.users && user.tokenVersion !in s.used
    case OtherCache(c) => !c.key.TokenVersionKey?
    case _ => true
  }

  // The same event on the service without a cache, whose validations always reach the database.
  ghost function DirectStep(s: State, e: Event, verify: (string, string) -> bool): (State, Answer) {
    match e
    case Validate(t, _) => (s, Claimed(DirectVerdict(s, t)))
    case _ => Step(s.(cacheOn := false), e, verify)
  }

  // What the two systems share: the user table, the clock and the generated versions.
  ghost predicate SameData(s: State, d: State) {
    s.users == d.users && s.now == d.now && s.used == d.used && s.secret == d.secret
  }

  lemma StepKeepsValid(s: State, e: Event, verify: (string, string) -> bool)
    requires Valid(s) && Legal(s, e)
    ensures Valid(Step(s, e, verify).0)
  {
    var s' := Step(s, e, verify).0;
    var store := Drain(s.redis, s.pending);
    match e
    case Login(name, password, looksUp) =>
      if looksUp && LoginSucceeds(s.users, name, password, verify) && s.cacheOn {
        StoreIsCoherentIff(s, FindByUsername(s.users, name).value);
      }
    case Validate(t, ok) => ValidateIsDirect(s, t, ok);
    case Logout(user, minted, dbOk) => RotateKeepsValid(s, user, minted, dbOk);
    case Register(user) =>
      if s.cacheOn {
        forall v: UUID ensures EntryCurrent(s'.users, store, v) { assert EntryCurrent(s.users, store, v); }
      }
    case DeliverFirst =>
    case Expire(k) =>
      if s.cacheOn {
        forall v: UUID ensures EntryCurrent(s.users, Drain(s'.redis, s.pending), v) {
          assert EntryCurrent(s.users, store, v);
          DrainWithout(s.redis, s.pending, k, KeyOf(v));
        }
      }
    case OtherCache(c) =>
      if s.cacheOn {
        DrainSnoc(s.redis, s.pending, OnWire(c));
        forall v: UUID ensures EntryCurrent(s.users, Deliver(store, OnWire(c)), v) {
          assert EntryCurrent(s.users, store, v);
          if KeyOf(v) == Print(c.key) { KeysDisjoint(TokenVersionKey(v), c.key); }
        }
      }
    case Tick(_) =>
  }

  ghost predicate LegalRun(s: State, es: seq<Event>, verify: (string, string) -> bool)
    decreases |es|
  {
    es == [] || (Legal(s, es[0]) && LegalRun(Step(s, es[0], verify).0, es[1..], verify))
  }

  ghost function Run(s: State, es: seq<Event>, verify: (string, string) -> bool): (State, seq<Answer>)
    decreases |es|
  {
    if es == [] then (s, [])
    else
      var (s1, a) := Step(s, es[0], verify);
      var (s2, as') := Run(s1, es[1..], verify);
      (s2, [a] + as')
  }

  ghost function DirectRun(d: State, es: seq<Event>, verify: (string, string) -> bool): (State, seq<Answer>)
    decreases |es|
  {
    if es == [] then (d, [])
    else
      var (d1, a) := DirectStep(d, es[0], verify);
      var (d2, as') := DirectRun(d1, es[1..], verify);
      (d2, [a] + as')
  }

  // The cached service's answer next to the cacheless one's: the same, or a refusal because the database did not
  // answer.
  predicate Faithful(e: Event, a: Answer, direct: Answer) {
    a == direct || (e.Validate? && !e.ok.database && a == Claimed(None))
  }

  lemma StepRefines(s: State, d: State, e: Event, verify: (string, string) -> bool)
    requires Valid(s) && SameData(s, d)
    ensures Faithful(e, Step(s, e, verify).1, DirectStep(d, e, verify).1)
    ensures SameData(Step(s, e, verify).0, DirectStep(d, e, verify).0)
  {
    match e
    case Validate(t, ok) => ValidateIsDirect(s, t, ok);
    case _ =>
  }

  /** Refinement: over every run, the cached service gives the answers of the service without a cache, but that it may
      refuse where the database does not answer; it leaves the same user table; and it ends coherent. */
  lemma {:induction false} CachedRefinesCacheless(s: State, d: State, es: seq<Event>, verify: (string, string) -> bool)
    requires Valid(s) && SameData(s, d) && LegalRun(s, es, verify)
    ensures var as', ds := Run(s, es, verify).1, DirectRun(d, es, verify).1;
            |as'| == |ds| == |es| && forall i :: 0 <= i < |es| ==> Faithful(es[i], as'[i], ds[i])
    ensures (forall e :: e in es && e.Validate? ==> e.ok.database)
        ==> Run(s, es, verify).1 == DirectRun(d, es, verify).1
    ensures SameData(Run(s, es, verify).0, DirectRun(d, es, verify).0)
    ensures Valid(Run(s, es, verify).0)
    decreases |es|
  {
    hide Step, DirectStep, SameData, Valid, Legal, Faithful;
    if es != [] {
      StepKeepsValid(s, es[0], verify);
      StepRefines(s, d, es[0], verify);
      CachedRefinesCacheless(Step(s, es[0], verify).0, DirectStep(d, es[0], verify).0, es[1..], verify);
      FaithfulIsSame(es, Run(s, es, verify).1, DirectRun(d, es, verify).1);
    }
  }

  lemma FaithfulIsSame(es: seq<Event>, as': seq<Answer>, ds: seq<Answer>)
    requires |as'| == |ds| == |es| && forall i :: 0 <= i < |es| ==> Faithful(es[i], as'[i], ds[i])
    ensures (forall e :: e in es && e.Validate? ==> e.ok.database) ==> as' == ds
  {
    if forall e :: e in es && e.Validate? ==> e.ok.database {
      forall i | 0 <= i < |es| ensures as'[i] == ds[i] { assert es[i] in es; }
    }
  }

  // A version that was generated and is no longer the user's never comes back.
  ghost predicate Retired(s: State, user: UUID, version: UUID) {
    version in s.used && user in s.users && s.users[user].tokenVersion != version
  }

  lemma StepKeepsRetired(s: State, e: Event, verify: (string, string) -> bool, user: UUID, version: UUID)
    requires Valid(s) && Legal(s, e) && Retired(s, user, version)
    ensures Retired(Step(s, e, verify).0, user, version)
  {
    match e
    case Validate(t, ok) => ValidateIsDirect(s, t, ok);
    case _ =>
  }

  lemma {:induction false} RunKeepsRetired(s: State, es: seq<Event>, verify: (string, string) -> bool, user: UUID,
      version: UUID)
    requires Valid(s) && LegalRun(s, es, verify) && Retired(s, user, version)
    ensures Valid(Run(s, es, verify).0) && Retired(Run(s, es, verify).0, user, version)
    decreases |es|
  {
    if es != [] {
      StepKeepsValid(s, es[0], verify);
      StepKeepsRetired(s, es[0], verify, user, version);
      RunKeepsRetired(Step(s, es[0], verify).0, es[1..], verify, user, version);
    }
  }

  /** Logout is final: a token whose version was generated before a successful rotation is refused in every
      continuation, with whatever logins, expiries, failures, deliveries and rotations follow. */
  lemma LogoutRevokesForever(s: State, user: UUID, minted: UUID, t: Token, es: seq<Event>, ok: Reads,
      verify: (string, string) -> bool)
    requires Valid(s) && user != "" && user in s.users && minted !in s.used
    requires t.Token? && t.subject == user && t.version in s.used
    requires LegalRun(Step(s, Logout(user, minted, true), verify).0, es, verify)
    ensures var later := Run(Step(s, Logout(user, minted, true), verify).0, es, verify).0;
            ValidateAccessToken(later, t, ok).1 == None
  {
    var s1 := Step(s, Logout(user, minted, true), verify).0;
    StepKeepsValid(s, Logout(user, minted, true), verify);
    RunKeepsRetired(s1, es, verify, user, t.version);
    ValidateIsDirect(Run(s1, es, verify).0, t, ok);
  }

  // Some event of the run is a logout of the user (an empty id is refused) whose rotation is stored.
  ghost predicate LogsOut(es: seq<Event>, user: UUID) {
    user != "" && exists e :: e in es && e.Logout? && e.user == user && e.dbOk
  }

  lemma StepOnVersion(s: State, e: Event, verify: (string, string) -> bool, user: UUID)
    requires Valid(s) && Legal(s, e) && user in s.users
    ensures var s' := Step(s, e, verify).0;
            && user in s'.users && s'.secret == s.secret && s'.now >= s.now && s.used <= s'.used
            && (if LogsOut([e], user) then Retired(s', user, s.users[user].tokenVersion)
                else s'.users[user].tokenVersion == s.users[user].tokenVersion)
  {
    assert [e][0] == e;
    match e
    case Validate(t, ok) => ValidateIsDirect(s, t, ok);
    case _ =>
  }

  lemma {:induction false} RunOnVersion(s: State, es: seq<Event>, verify: (string, string) -> bool, user: UUID)
    requires Valid(s) && LegalRun(s, es, verify) && user in s.users
    ensures var later := Run(s, es, verify).0;
            && Valid(later) && user in later.users && later.secret == s.secret && later.now >= s.now
            && (later.users[user].tokenVersion == s.users[user].tokenVersion <==> !LogsOut(es, user))
    decreases |es|
  {
    hide Step, Legal, Valid;
    if es != [] {
      StepKeepsValid(s, es[0], verify);
      StepOnVersion(s, es[0], verify, user);
      var s1 := Step(s, es[0], verify).0;
      RunOnVersion(s1, es[1..], verify, user);
      LogsOutCons(es, user);
      if LogsOut([es[0]], user) {
        RunKeepsRetired(s1, es[1..], verify, user, s.users[user].tokenVersion);
      }
    }
  }

  lemma LogsOutCons(es: seq<Event>, user: UUID)
    requires es != []
    ensures LogsOut(es, user) <==> LogsOut([es[0]], user) || LogsOut(es[1..], user)
  {
    assert es == [es[0]] + es[1..] && es[0] in [es[0]];
    assert forall e :: e in es <==> e in [es[0]] || e in es[1..];
  }

  /** The life of a token: issued for the stored user, it is accepted after any run exactly as long as no more than 900
      seconds have passed and no logout of that user was stored; and once refused for either reason, no failure brings
      it back. */
  lemma TokenLifetime(s: State, user: UUID, es: seq<Event>, ok: Reads, verify: (string, string) -> bool)
    requires Valid(s) && user in s.users && LegalRun(CreateTokens(s, s.users[user]).0, es, verify)
    ensures var (s1, t) := CreateTokens(s, s.users[user]);
            var later := Run(s1, es, verify).0;
            var accepted := ValidateAccessToken(later, t, ok).1.Some?;
            && (accepted ==> later.now <= s.now + 900 && !LogsOut(es, user))
            && (ok.database ==> (accepted <==> later.now <= s.now + 900 && !LogsOut(es, user)))
  {
    var (s1, t) := CreateTokens(s, s.users[user]);
    assert Valid(s1) by { if s.cacheOn { StoreIsCoherentIff(s, s.users[user]); } }
    RunOnVersion(s1, es, verify, user);
    AcceptedTokens(Run(s1, es, verify).0, t, ok);
    hide Run, LegalRun, ValidateAccessToken, Valid, LogsOut;
  }

  // The token is refused in every continuation.
  ghost predicate Dead(s: State, t: Token, verify: (string, string) -> bool) {
    forall es, ok :: LegalRun(s, es, verify) ==> ValidateAccessToken(Run(s, es, verify).0, t, ok).1 == None
  }

  /** Logout answers true whether or not the rotation reached the database; a token accepted until then is refused from
      there on if and only if it did. */
  lemma LogoutRevokesIff(s: State, user: UUID, minted: UUID, dbOk: bool, t: Token, verify: (string, string) -> bool)
    requires Valid(s) && user != "" && minted !in s.used && t.Token? && t.subject == user && DirectVerdict(s, t).Some?
    ensures Step(s, Logout(user, minted, dbOk), verify).1 == Done(true)
    ensures Dead(Step(s, Logout(user, minted, dbOk), verify).0, t, verify) <==> dbOk
  {
    var s1 := Step(s, Logout(user, minted, dbOk), verify).0;
    if dbOk {
      hide ValidateAccessToken, Run, LegalRun;
      forall es, ok | LegalRun(s1, es, verify) ensures ValidateAccessToken(Run(s1, es, verify).0, t, ok).1 == None {
        LogoutRevokesForever(s, user, minted, t, es, ok, verify);
      }
    } else {
      ValidateIsDirect(s, t, WORKING);
      assert s1 == s && LegalRun(s1, [], verify) && Run(s1, [], verify).0 == s1;
    }
  }

  /** Why a login must be one step: if the user record was read before the rotation and the tokens are
      issued after it, the revoked version is accepted again. */
  lemma StaleLoginRevives(s: State, user: UUID, minted: UUID)
    requires Valid(s) && s.cacheOn && user in s.users && minted !in s.used
    ensures var stale := s.users[user];
            var (s', t) := CreateTokens(RotateVersion(s, user, minted, true), stale);
            ValidateAccessToken(s', t, WORKING).1 == Some(Claims(user, stale.tokenVersion))
                && DirectVerdict(s', t) == None
  {
    var stale := s.users[user];
    var rotated := RotateVersion(s, user, minted, true);
    var (s', t) := CreateTokens(rotated, stale);
    DrainSnoc(rotated.redis, rotated.pending, Store(stale));
  }

  // ---- the service object ----

  class JwtTokenService {
    const secret: string
    const cacheOn: bool
    var users: map<UUID, User>
    var redis: map<string, string>
    var pending: seq<Command<string>>
    var now: int
    ghost var used: set<UUID>

    constructor (secret: string, cacheOn: bool, users: map<UUID, User>)
      requires forall u :: u in users ==> users[u].id == u
      ensures Valid(Snapshot()) && this.users == users
    {
      this.secret, this.cacheOn, this.users, this.redis, this.pending, this.now := secret, cacheOn, users, map[], [], 0;
      this.used := set u | u in users :: users[u].tokenVersion;
    }

    ghost function Snapshot(): State
      reads this
    {
      State(secret, cacheOn, users, redis, pending, now, used)
    }

    method IssueTokens(user: User) returns (token: Token)
      modifies this`pending
      ensures (Snapshot(), token) == CreateTokens(old(Snapshot()), user)
      ensures Verifies(Snapshot(), token) && token.subject == user.id && token.version == user.tokenVersion
    {
      if cacheOn {
        pending := pending + [SetEx(KeyOf(user.id), 3600, user.tokenVersion)];
      }
      token := Token(secret, ISSUER, user.id, user.tokenVersion, now + ACCESS_TOKEN_TTL);
    }

    method CurrentVersion(userId: UUID, ok: Reads) returns (version: Option<UUID>)
      requires Valid(Snapshot())
      modifies this`redis, this`pending
      ensures (Snapshot(), version) == FetchCurrentVersion(old(Snapshot()), userId, ok)
      ensures Valid(Snapshot()) && (version == DirectVersion(users, userId) || (version == None && !ok.database))
    {
      FetchIsDirect(Snapshot(), userId, ok);
      var key := KeyOf(userId);
      if cacheOn && ok.cache {
        redis, pending := Drain(redis, pending), [];
        if key in redis {
          return Some(redis[key]);
        }
      }
      if !ok.database || userId !in users {
        return None;
      }
      var user := users[userId];
      if cacheOn {
        pending := pending + [SetEx(key, 3600, user.tokenVersion)];
      }
      return Some(user.tokenVersion);
    }

    method CheckAccessToken(token: Token, ok: Reads) returns (claims: Option<Claims>)
      requires Valid(Snapshot())
      modifies this`redis, this`pending
      ensures (Snapshot(), claims) == ValidateAccessToken(old(Snapshot()), token, ok)
      ensures Valid(Snapshot()) && (claims == DirectVerdict(old(Snapshot()), token) || (claims == None && !ok.database))
      ensures claims.Some? ==>
                && token.Token? && token.secret == secret && token.issuer == "nexustal" && now <= token.expires
                && token.subject in users && users[token.subject].tokenVersion == token.version
                && claims.value == Claims(token.subject, token.version)
    {
      ValidateIsDirect(Snapshot(), token, ok);
      if !(token.Token? && token.secret == secret && token.issuer == ISSUER && now <= token.expires) {
        return None;
      }
      var current := CurrentVersion(token.subject, ok);
      if current.None? || current.value != token.version {
        return None;
      }
      return Some(Claims(token.subject, token.version));
    }

    method Rotate(userId: UUID, minted: UUID, dbOk: bool)
      requires Valid(Snapshot()) && minted !in used
      modifies this`users, this`pending, this`used
      ensures Snapshot() == RotateVersion(old(Snapshot()), userId, minted, dbOk)
      ensures Valid(Snapshot())
      ensures forall t: Token ::
                t.Token? && t.subject == userId && userId in old(users) && dbOk && t.version in old(used) ==>
                  DirectVerdict(Snapshot(), t) == None
    {
      RotateKeepsValid(Snapshot(), userId, minted, dbOk);
      if userId !in users {
        return;
      }
      var rotated := users[userId];
      rotated := rotated.(tokenVersion := minted);
      if !dbOk {
        return;
      }
      users := users[userId := rotated];
      used := used + {minted};
      if cacheOn {
        pending := pending + [Del(KeyOf(userId))];
      }
    }
  }
}
