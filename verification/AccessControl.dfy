/** The endpoint service over the cached role service: how old is the permission behind a change? */
module AccessControl {
  import opened Common
  import opened Roles
  import opened CacheKeys
  import opened EndpointStore
  import opened EndpointServices
  import Staleness = CacheStaleness

  // The answers of a request are RoleService's, asked in this world.
  ghost predicate AnsweredIn(answers: Answers, w: Staleness.World, s: Staleness.Setting) {
    forall user, project :: (user, project) in answers ==>
      exists ok :: Answered(w, user, project, s, ok) == Some(answers[(user, project)])
  }

  // What getProjectRole answers: a cached name read back, or the stored role.
  function Answered(w: Staleness.World, user: UUID, project: UUID, s: Staleness.Setting, ok: Reads): Option<UserRole> {
    var answer := Staleness.Ask(w, ProjectRoleKey(project, user), s, ok).1;
    if answer.Some? then Some(RoleFromString(answer.value)) else None
  }

  // The user was stored with a role holding the capability, less than 300 seconds and the longest delay ago.
  ghost predicate RecentlyHeld(h: seq<Staleness.World>, user: UUID, project: UUID, capability: Capability,
      s: Staleness.Setting)
  {
    exists m :: Staleness.Recent(h, m, ProjectRoleKey(project, user), s)
      && (project, user) in h[m].db.roles && HasCapability(h[m].db.roles[(project, user)], capability)
  }

  lemma HeldWasStored(h: seq<Staleness.World>, es: seq<Staleness.Event>, s: Staleness.Setting, answers: Answers,
      user: UUID, project: UUID, capability: Capability)
    requires Staleness.History(h, es, s) && AnsweredIn(answers, h[|h| - 1], s)
        && Holds(answers, user, project, capability)
    ensures RecentlyHeld(h, user, project, capability, s)
  {
    var ok :| Answered(h[|h| - 1], user, project, s, ok) == Some(answers[(user, project)]);
    Staleness.ServedRoleWasStored(h, es, project, user, s, ok);
  }

  // The world in which each request of a run asked for roles, as a history up to it.
  datatype Moment = Moment(h: seq<Staleness.World>, es: seq<Staleness.Event>)

  /** Whoever changed an endpoint was allowed to, a moment ago: over any run whose roles come from the cached role
      service, through lost, late and evicted entries and failing reads, an endpoint that differs at the end and was
      never deleted was changed by a request whose user was stored, less than 300 seconds plus the longest command
      delay before, with a role holding what the request needs in the endpoint's project. */
  lemma ChangesWereAllowed(t: Tables, rs: seq<Request>, moments: seq<Moment>, driver: Abandoned, x: UUID,
      s: Staleness.Setting)
    requires Survives(t, rs, driver, x) && !SameAt(t, ServeAll(t, rs, driver), x)
    requires |moments| == |rs|
    requires forall i :: 0 <= i < |rs| ==>
               && Staleness.History(moments[i].h, moments[i].es, s)
               && AnsweredIn(rs[i].answers, moments[i].h[|moments[i].h| - 1], s)
    ensures exists i ::
              && 0 <= i < |rs|
              && Causes(ServeAll(t, rs[..i], driver), rs[i], driver, x, t.endpoints[x].projectId)
              && RecentlyHeld(moments[i].h, rs[i].user, t.endpoints[x].projectId, CapabilityFor(rs[i].call), s)
  {
    RunKeepsOrigin(t, rs, driver, x);
    hide ServeAll, Survives, SameAt, Staleness.History, AnsweredIn, Holds, RecentlyHeld;
    var project := t.endpoints[x].projectId;
    var i :| 0 <= i < |rs| && Causes(ServeAll(t, rs[..i], driver), rs[i], driver, x, project);
    HeldWasStored(moments[i].h, moments[i].es, s, rs[i].answers, rs[i].user, project, CapabilityFor(rs[i].call));
  }
}
