/** The keys under which four caches share one Redis, and why they do not disturb each other. */
module CacheKeys {
  import opened Common

  datatype CacheKey =
    | ProjectRoleKey(project: UUID, user: UUID)
    | TokenVersionKey(user: UUID)
    | UserRoleKey(user: UUID)
    | EnvironmentKey(environment: UUID)

  const PROJECT_ROLE := "project_role:"
  const TOKEN_VERSION := "user_token_version:"
  const USER_ROLE := "user_role:"
  const ENVIRONMENT := "environment:"

  function Print(k: CacheKey): string {
    match k
    case ProjectRoleKey(p, u) => PROJECT_ROLE + (p + ":" + u)
    case TokenVersionKey(u) => TOKEN_VERSION + u
    case UserRoleKey(u) => USER_ROLE + u
    case EnvironmentKey(e) => ENVIRONMENT + e
  }

  // Seconds to live, per cache.
  function Ttl(k: CacheKey): int {
    match k
    case ProjectRoleKey(_, _) => 300
    case TokenVersionKey(_) => 3600
    case UserRoleKey(_) => 3600
    case EnvironmentKey(_) => 600
  }

  /** The four keys as Redis sees them. */
  lemma PrintedKeys(p: UUID, u: UUID, e: UUID)
    ensures Print(ProjectRoleKey(p, u)) == "project_role:" + p + ":" + u
    ensures Print(TokenVersionKey(u)) == "user_token_version:" + u
    ensures Print(UserRoleKey(u)) == "user_role:" + u && Print(EnvironmentKey(e)) == "environment:" + e
  {
    assert PROJECT_ROLE + (p + ":" + u) == PROJECT_ROLE + p + ":" + u;
  }

  lemma PrefixCancels(p: string, a: string, b: string)
    requires p + a == p + b
    ensures a == b
  {
    assert (p + a)[|p|..] == a && (p + b)[|p|..] == b;
  }

  // The sixth character of a key tells its cache.
  function Mark(k: CacheKey): char {
    match k
    case ProjectRoleKey(_, _) => 'c'
    case TokenVersionKey(_) => 't'
    case UserRoleKey(_) => 'r'
    case EnvironmentKey(_) => 'o'
  }

  lemma KeyMark(k: CacheKey)
    ensures |Print(k)| > 5 && Print(k)[5] == Mark(k)
  {
  }

  /** Keys of different caches never coincide, whatever the ids; and within a cache with one id per key
      the id is recovered. */
  lemma KeysDisjoint(k: CacheKey, l: CacheKey)
    requires Print(k) == Print(l)
    ensures k == l || (k.ProjectRoleKey? && l.ProjectRoleKey?)
  {
    KeyMark(k);
    KeyMark(l);
    match k
    case ProjectRoleKey(_, _) =>
    case TokenVersionKey(u) => PrefixCancels(TOKEN_VERSION, u, l.user);
    case UserRoleKey(u) => PrefixCancels(USER_ROLE, u, l.user);
    case EnvironmentKey(e) => PrefixCancels(ENVIRONMENT, e, l.environment);
  }

  predicate ColonFree(s: string) { ':' !in s }

  // The place of the only colon fixes both ids.
  lemma OneColon(p: string, u: string, q: string, v: string)
    requires ColonFree(q) && ColonFree(v) && p + ":" + u == q + ":" + v
    ensures p == q && u == v
  {
    var s, r := p + ":" + u, q + ":" + v;
    assert s[|p|] == ':';
    assert forall i :: 0 <= i < |r| && i != |q| ==> r[i] != ':' by {
      forall i | 0 <= i < |r| && i != |q| ensures r[i] != ':' {
        if i < |q| { assert r[i] == q[i]; } else { assert r[i] == v[i - |q| - 1]; }
      }
    }
    assert |p| == |q|;
    assert p == s[..|p|] && q == r[..|q|];
    assert u == s[|p| + 1..] && v == r[|q| + 1..];
  }

  /** A project-role key is shared with another pair of ids if and only if one of its ids holds a colon. */
  lemma ProjectRoleCollisionIff(p: UUID, u: UUID)
    ensures (exists q: UUID, v: UUID :: (q, v) != (p, u) && Print(ProjectRoleKey(q, v)) == Print(ProjectRoleKey(p, u)))
            <==> !ColonFree(p) || !ColonFree(u)
  {
    if ColonFree(p) && ColonFree(u) {
      forall q: UUID, v: UUID | Print(ProjectRoleKey(q, v)) == Print(ProjectRoleKey(p, u)) ensures (q, v) == (p, u) {
        PrefixCancels(PROJECT_ROLE, q + ":" + v, p + ":" + u);
        OneColon(q, v, p, u);
      }
    } else if !ColonFree(p) {
      var i :| 0 <= i < |p| && p[i] == ':';
      var q, v := p[..i], p[i + 1..] + ":" + u;
      assert p == p[..i] + ":" + p[i + 1..];
      assert q + ":" + v == p + ":" + u;
      assert |q| < |p|;
      assert Print(ProjectRoleKey(q, v)) == Print(ProjectRoleKey(p, u));
    } else {
      var i :| 0 <= i < |u| && u[i] == ':';
      var q, v := p + ":" + u[..i], u[i + 1..];
      assert u == u[..i] + ":" + u[i + 1..];
      assert q + ":" + v == p + ":" + u;
      assert |q| > |p|;
      assert Print(ProjectRoleKey(q, v)) == Print(ProjectRoleKey(p, u));
    }
  }

  // A key as the program writes it: ids from uuid columns hold no colon.
  predicate Written(k: CacheKey) {
    k.ProjectRoleKey? ==> ColonFree(k.project) && ColonFree(k.user)
  }

  /** Whatever key is asked for, an entry found under it was written for that very key. */
  lemma PrintInjective(k: CacheKey, l: CacheKey)
    requires Print(k) == Print(l) && Written(l)
    ensures k == l
  {
    KeysDisjoint(k, l);
    if k.ProjectRoleKey? && l.ProjectRoleKey? {
      PrefixCancels(PROJECT_ROLE, k.project + ":" + k.user, l.project + ":" + l.user);
      OneColon(k.project, k.user, l.project, l.user);
    }
  }

  // Whether the GET and the SELECT of a call go through; both failures are swallowed.
  datatype Reads = Reads(cache: bool, database: bool)

  const WORKING: Reads := Reads(true, true)

  datatype Entry = Entry(value: string, expires: int)

  datatype Command<K> = SetEx(key: K, ttl: int, value: string) | Del(key: K)

  function Execute<K>(store: map<K, Entry>, c: Command<K>, now: int): map<K, Entry> {
    match c
    case SetEx(k, ttl, v) => store[k := Entry(v, now + ttl)]
    case Del(k) => store - {k}
  }

  function OnWire(c: Command<CacheKey>): Command<string> {
    match c
    case SetEx(k, ttl, v) => SetEx(Print(k), ttl, v)
    case Del(k) => Del(Print(k))
  }

  // The shared string map holds exactly the entries of the typed map.
  ghost predicate Represents(redis: map<string, Entry>, typed: map<CacheKey, Entry>) {
    forall k :: (Print(k) in redis <==> k in typed) && (k in typed ==> redis[Print(k)] == typed[k])
  }

  /** One shared string map behaves as four separate typed caches: executing the printed command is
      executing the typed one, so a write in one cache never alters a read in another. */
  lemma SharedRedisRefinesTyped(redis: map<string, Entry>, typed: map<CacheKey, Entry>, c: Command<CacheKey>, now: int)
    requires Represents(redis, typed) && Written(c.key)
    ensures Represents(Execute(redis, OnWire(c), now), Execute(typed, c, now))
  {
    forall k | Print(k) == Print(c.key) ensures k == c.key { PrintInjective(k, c.key); }
  }
}
