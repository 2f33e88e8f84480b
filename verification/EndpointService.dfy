/** EndpointService: role-guarded calls over the endpoint repository, and whole runs of them. */
module EndpointServices {
  import opened Common
  import opened JsonValues
  import opened Endpoints
  import opened Roles
  import opened EndpointStore
  import opened EndpointWire

  // What RoleService answers during one call; an absent pair is "no role".
  type Answers = map<(UUID, UUID), UserRole>

  predicate Holds(answers: Answers, user: UUID, project: UUID, capability: Capability) {
    (user, project) in answers && HasCapability(answers[(user, project)], capability)
  }

  datatype Call =
    | CreateEndpoint(projectId: UUID, endpoint: Endpoint, generated: UUID)
    | UpdateEndpoint(id: UUID, endpoint: Endpoint)
    | DeleteEndpoint(id: UUID)
    | PublishEndpoint(id: UUID)

  // A call with its caller, the roles answered and the database's clock.
  datatype Request = Request(call: Call, user: UUID, answers: Answers, now: int)

  datatype Reply = Id(created: UUID) | Flag(ok: bool) | Threw

  function Flagged(r: (Tables, Outcome<bool>)): (Tables, Reply) {
    match r.1
    case Returned(ok) => (r.0, Flag(ok))
    case Thrown => (r.0, Threw)
  }

  function ServeCreate(t: Tables, projectId: UUID, endpoint: Endpoint, generated: UUID, user: UUID, answers: Answers,
      now: int, driver: Abandoned)
    : (Tables, Reply)
  {
    if !Holds(answers, user, projectId, EditEndpoints) then (t, Id(""))
    else
      var r := Created(t, endpoint.(projectId := projectId, createdBy := user), generated, now, driver);
      match r.1
      case Returned(id) => (r.0, Id(id))
      case Thrown => (r.0, Threw)
  }

  function ServeUpdate(t: Tables, id: UUID, endpoint: Endpoint, user: UUID, answers: Answers, now: int,
      driver: Abandoned): (Tables, Reply) {
    match Found(t, id)
    case Thrown => (t, Threw)
    case Returned(None) => (t, Flag(false))
    case Returned(Some(current)) =>
      if !Holds(answers, user, current.projectId, EditEndpoints) then (t, Flag(false))
      else Flagged(Updated(t, Overwritten(endpoint, current), now, driver))
  }

  // The caller's endpoint with the identity of the stored one.
  function Overwritten(endpoint: Endpoint, current: Endpoint): Endpoint {
    endpoint.(id := current.id, projectId := current.projectId, createdBy := current.createdBy,
        createdAt := current.createdAt)
  }

  function ServeDelete(t: Tables, id: UUID, user: UUID, answers: Answers): (Tables, Reply) {
    match Found(t, id)
    case Thrown => (t, Threw)
    case Returned(None) => (t, Flag(false))
    case Returned(Some(current)) =>
      if !Holds(answers, user, current.projectId, DeleteEndpoints) then (t, Flag(false))
      else (Removed(t, id).0, Flag(Removed(t, id).1))
  }

  function ServePublish(t: Tables, id: UUID, user: UUID, answers: Answers, now: int,
      driver: Abandoned): (Tables, Reply) {
    match Found(t, id)
    case Thrown => (t, Threw)
    case Returned(None) => (t, Flag(false))
    case Returned(Some(current)) =>
      if !Holds(answers, user, current.projectId, PublishEndpoints) then (t, Flag(false))
      else Flagged(Updated(t, current.(status := "published"), now, driver))
  }

  function Serve(t: Tables, r: Request, driver: Abandoned): (Tables, Reply) {
    match r.call
    case CreateEndpoint(p, e, generated) => ServeCreate(t, p, e, generated, r.user, r.answers, r.now, driver)
    case UpdateEndpoint(id, e) => ServeUpdate(t, id, e, r.user, r.answers, r.now, driver)
    case DeleteEndpoint(id) => ServeDelete(t, id, r.user, r.answers)
    case PublishEndpoint(id) => ServePublish(t, id, r.user, r.answers, r.now, driver)
  }

  function ServeAll(t: Tables, rs: seq<Request>, driver: Abandoned): Tables
    decreases |rs|
  {
    if rs == [] then t else ServeAll(Serve(t, rs[0], driver).0, rs[1..], driver)
  }

  // ---- one call ----

  // The one repository write a call may lead to.
  function WriteOf(t: Tables, r: Request): Option<Write> {
    match r.call
    case CreateEndpoint(p, e, generated) =>
      if Holds(r.answers, r.user, p, EditEndpoints) then
        Some(CreateWrite(e.(projectId := p, createdBy := r.user), generated, r.now)) else None
    case UpdateEndpoint(id, e) =>
      if Readable(t, id) && Holds(r.answers, r.user, t.endpoints[id].projectId, EditEndpoints) then
        Some(UpdateWrite(Overwritten(e, Found(t, id).value.value), r.now)) else None
    case DeleteEndpoint(id) =>
      if Readable(t, id) && Holds(r.answers, r.user, t.endpoints[id].projectId, DeleteEndpoints)
      then Some(RemoveWrite(id)) else None
    case PublishEndpoint(id) =>
      if Readable(t, id) && Holds(r.answers, r.user, t.endpoints[id].projectId, PublishEndpoints) then
        Some(UpdateWrite(Found(t, id).value.value.(status := "published"), r.now)) else None
  }

  predicate Readable(t: Tables, id: UUID) {
    id in t.endpoints && Found(t, id).Returned?
  }

  lemma ServeIsWrite(t: Tables, r: Request, driver: Abandoned)
    ensures Serve(t, r, driver).0 == match WriteOf(t, r)
                                     case None => t
                                     case Some(w) => Apply(t, w, driver)
  {
    hide LoadDetails, Removed, Updated, Created, HasCapability;
  }

  function TargetOf(r: Request): UUID {
    match r.call
    case CreateEndpoint(_, e, generated) => CreatedId(e, generated)
    case UpdateEndpoint(id, _) => id
    case DeleteEndpoint(id) => id
    case PublishEndpoint(id) => id
  }

  function CapabilityFor(call: Call): Capability {
    match call
    case CreateEndpoint(_, _, _) => EditEndpoints
    case UpdateEndpoint(_, _) => EditEndpoints
    case DeleteEndpoint(_) => DeleteEndpoints
    case PublishEndpoint(_) => PublishEndpoints
  }

  // The request addresses x, and its user holds what the call needs in the project.
  predicate Authorised(r: Request, x: UUID, project: UUID) {
    TargetOf(r) == x && Holds(r.answers, r.user, project, CapabilityFor(r.call))
  }

  /** One call: whatever changes about an endpoint was asked for by that endpoint's name, by a user holding the call's
      capability in the project it is stored under; its project, creator and creation time stay; it goes only by
      deletion. */
  lemma ServeFrame(t: Tables, r: Request, driver: Abandoned, x: UUID)
    requires x in t.endpoints
    ensures var t' := Serve(t, r, driver).0;
            && (!SameAt(t, t', x) ==> Authorised(r, x, t.endpoints[x].projectId) && !r.call.CreateEndpoint?)
            && SameOrigin(t, t', x)
            && (x !in t'.endpoints ==> r.call.DeleteEndpoint?)
  {
    ServeIsWrite(t, r, driver);
    match WriteOf(t, r)
    case None => SameAtReflexive(t, x);
    case Some(w) =>
      FoundId(t, TargetOf(r));
      WriteFrame(t, w, driver, x);
      TakenIdIsKept(t, w, driver, x);
      if !w.RemoveWrite? { SurvivesUpdate(t, w, driver, x); }
      hide Serve, Found, Apply, SameAt, SameOrigin, HasCapability;
  }

  lemma FoundId(t: Tables, id: UUID)
    ensures id in t.endpoints && Found(t, id).Returned? ==>
              Found(t, id).value.Some? && Found(t, id).value.value.id == id
                  && Found(t, id).value.value.projectId == t.endpoints[id].projectId
  {
  }

  lemma TakenIdIsKept(t: Tables, w: Write, driver: Abandoned, x: UUID)
    requires x in t.endpoints
    ensures w.CreateWrite? ==> SameAt(t, Apply(t, w, driver), x)
  {
    SameAtReflexive(t, x);
    if w.CreateWrite? && Target(w) == x {
      assert !ParentFits(t, w.endpoint, x);
    } else {
      WriteFrame(t, w, driver, x);
    }
  }

  lemma SurvivesUpdate(t: Tables, w: Write, driver: Abandoned, x: UUID)
    requires x in t.endpoints && !w.RemoveWrite?
    ensures x in Apply(t, w, driver).endpoints
  {
    if w.CreateWrite? {
      TakenIdIsKept(t, w, driver, x);
    } else if w.UpdateWrite? && ReachesDetails(t, w) {
      var e, status := w.endpoint, Varchar(w.endpoint.status, STATUS_WIDTH).value;
      ClearedFacts(t, e, status, w.now);
      FinishedFacts(t, Cleared(t, e, status, w.now), e.id, e.details, true, false, driver);
      hide Finished, Cleared, HasDetail, TypeFromString, SameAt, Typed, DetailsFit;
    }
  }

  /** A new endpoint appears only by a creation, under the project named, in the name of the caller, who may edit
      there. */
  lemma ServeCreates(t: Tables, r: Request, driver: Abandoned, x: UUID)
    requires x !in t.endpoints && x in Serve(t, r, driver).0.endpoints
    ensures r.call.CreateEndpoint? && TargetOf(r) == x && Holds(r.answers, r.user, r.call.projectId, EditEndpoints)
    ensures var row := Serve(t, r, driver).0.endpoints[x];
            row.projectId == r.call.projectId && row.createdBy == r.user && row.createdAt == row.updatedAt == r.now
  {
    ServeIsWrite(t, r, driver);
    var w := WriteOf(t, r).value;
    FoundId(t, TargetOf(r));
    if !w.CreateWrite? || Target(w) != x {
      WriteFrame(t, w, driver, x);
      UpdateAddsNone(t, w, driver);
    } else {
      var id := CreatedId(w.endpoint, w.generated);
      var status := Varchar(w.endpoint.status, STATUS_WIDTH).value;
      var t1 := t.(endpoints := t.endpoints[id := NewRow(w.endpoint, status, w.now)]);
      FinishedFrame(t, t1, id, w.endpoint.details, id, "", driver, id);
      hide Finished, Serve, TypeToString;
    }
  }

  lemma UpdateAddsNone(t: Tables, w: Write, driver: Abandoned)
    requires !w.CreateWrite?
    ensures Apply(t, w, driver).endpoints.Keys <= t.endpoints.Keys
  {
    if w.UpdateWrite? && ReachesDetails(t, w) {
      var e, status := w.endpoint, Varchar(w.endpoint.status, STATUS_WIDTH).value;
      ClearedFacts(t, e, status, w.now);
      FinishedFacts(t, Cleared(t, e, status, w.now), e.id, e.details, true, false, driver);
      hide Finished, Cleared, HasDetail, TypeFromString, SameAt, Typed, DetailsFit;
    }
  }

  /** Publishing a readable endpoint always succeeds for a holder, and changes status and updated_at of that one row
      alone exactly if the endpoint has its detail row and both are as this repository writes them. */
  lemma PublishChanges(t: Tables, id: UUID, user: UUID, answers: Answers, now: int, driver: Abandoned)
    requires Typed(t) && Readable(t, id) && Holds(answers, user, t.endpoints[id].projectId, PublishEndpoints)
    ensures var (t', reply) := ServePublish(t, id, user, answers, now, driver);
            && reply == Flag(true)
            && (t' == t.(endpoints := t.endpoints[id := t.endpoints[id].(status := "published", updatedAt := now)])
                <==> Canonical(t, id) && HasDetail(t, id, TypeFromString(t.endpoints[id].kind)))
  {
    WriteBack(t, id, now, driver);
    FoundId(t, id);
    var e := Found(t, id).value.value;
    UpdateAtStatus(t, e, "published", now, driver);
    StatusKept(t, e, now, driver);
    CanonicalAtStatus(t, id, Updated(t, e, now, driver).0, now, "published");
    hide Updated, Found, Canonical, Typed, HasCapability, TypeFromString;
  }

  // The status passes through an accepted update without touching anything else.
  lemma UpdateAtStatus(t: Tables, e: Endpoint, status: string, now: int, driver: Abandoned)
    requires |status| <= STATUS_WIDTH && Updated(t, e, now, driver).1 == Returned(true)
    ensures Updated(t, e.(status := status), now, driver).1 == Returned(true)
    ensures var t1 := Updated(t, e, now, driver).0;
            && e.id in t1.endpoints
            && Updated(t, e.(status := status), now, driver).0
               == t1.(endpoints := t1.endpoints[e.id := t1.endpoints[e.id].(status := status)])
  {
    AcceptedUpdate(t, e, now, driver);
    var kept := Varchar(e.status, STATUS_WIDTH).value;
    var c, c' := Cleared(t, e, kept, now), Cleared(t, e.(status := status), status, now);
    assert c' == c.(endpoints := c.endpoints[e.id := c.endpoints[e.id].(status := status)]) by {
      hide WithoutDetails, TypeToString, TypeFromString;
      var row := t.endpoints[e.id];
      WithoutFrame(t, t.endpoints[e.id := RewrittenRow(row, e, kept, now)], e.id, TypeFromString(row.kind));
      WithoutFrame(t, t.endpoints[e.id := RewrittenRow(row, e.(status := status), status, now)], e.id,
          TypeFromString(row.kind));
    }
    hide Cleared, TypeFromString, LoadDetails;
    WithDetailsFrame(c, c'.endpoints, e.id, e.details);
  }

  lemma WithDetailsFrame(t: Tables, rows: map<UUID, Row>, id: UUID, d: Details)
    ensures InsertOutcome(t.(endpoints := rows), id, d) == InsertOutcome(t, id, d)
    ensures InsertOutcome(t, id, d).Inserted?
        ==> WithDetails(t.(endpoints := rows), id, d) == WithDetails(t, id, d).(endpoints := rows)
  {
  }

  lemma CanonicalAtStatus(t: Tables, id: UUID, t1: Tables, now: int, status: string)
    requires id in t.endpoints && id in t1.endpoints && t1.endpoints[id].status == t.endpoints[id].status
    ensures t1 == t.(endpoints := t.endpoints[id := t.endpoints[id].(updatedAt := now)])
            <==> t1.(endpoints := t1.endpoints[id := t1.endpoints[id].(status := status)])
                 == t.(endpoints := t.endpoints[id := t.endpoints[id].(status := status, updatedAt := now)])
  {
    var to := t.(endpoints := t.endpoints[id := t.endpoints[id].(status := status, updatedAt := now)]);
    var from := t1.(endpoints := t1.endpoints[id := t1.endpoints[id].(status := status)]);
    if from == to {
      assert t1.endpoints[id] == from.endpoints[id].(status := t.endpoints[id].status);
      assert t1.endpoints == from.endpoints[id := t1.endpoints[id]];
      assert to.endpoints[id := t1.endpoints[id]] == t.endpoints[id := t.endpoints[id].(updatedAt := now)];
    }
  }

  lemma StatusKept(t: Tables, e: Endpoint, now: int, driver: Abandoned)
    requires Updated(t, e, now, driver).1 == Returned(true) && |e.status| <= STATUS_WIDTH
    ensures var t1 := Updated(t, e, now, driver).0;
            e.id in t1.endpoints && t1.endpoints[e.id].status == e.status
  {
    AcceptedUpdate(t, e, now, driver);
    ClearedFacts(t, e, e.status, now);
    InsertionFacts(Cleared(t, e, e.status, now), e.id, e.details);
    hide Updated, Cleared, WithDetails, InsertOutcome, HasDetail, SameAt, TypeFromString, TypeToString;
  }

  /** GET then PUT is a no-op: the printed form of any loaded endpoint, parsed and sent back by an editor, is
      accepted; it reads back as it was but for updated_at, and no other endpoint is touched.  At the level of rows
      nothing else changes exactly if the endpoint has its detail row and both are as this repository writes them. */
  lemma GetThenPut(t: Tables, id: UUID, user: UUID, answers: Answers, now: int, driver: Abandoned)
    requires Typed(t) && Readable(t, id) && Holds(answers, user, t.endpoints[id].projectId, EditEndpoints)
    ensures var e := Found(t, id).value.value;
            var sent := Parsed(Printed(e), e.projectId, user);
            && sent.Returned?
            && var (t', reply) := ServeUpdate(t, id, sent.value, user, answers, now, driver);
               && reply == Flag(true)
               && Found(t', id) == Returned(Some(e.(updatedAt := now)))
               && (t' == t.(endpoints := t.endpoints[id := t.endpoints[id].(updatedAt := now)])
                   <==> Canonical(t, id) && HasDetail(t, id, e.kind))
               && forall x :: x != id ==> SameAt(t, t', x)
  {
    FoundId(t, id);
    WriteBack(t, id, now, driver);
    var e := Found(t, id).value.value;
    LoadedMatches(t, id);
    ParsePrintIff(e, e.projectId, user);
    var sent := Parsed(Printed(e), e.projectId, user).value;
    UpdateKeeps(t, e, now, driver);
    UpdateIgnores(t, e, Overwritten(sent, e), now, driver);
    hide Updated, Found, Canonical, Typed, SameAt, SameOrigin, Parsed, Printed, HasCapability, HasDetail;
  }

  lemma LoadedMatches(t: Tables, id: UUID)
    requires id in t.endpoints && Found(t, id).Returned?
    ensures Matching(Found(t, id).value.value)
  {
    hide TypeFromString;
  }

  // The repository's update reads id, name, description, type, status and details only.
  lemma UpdateIgnores(t: Tables, e: Endpoint, f: Endpoint, now: int, driver: Abandoned)
    requires f
        == e.(projectId := f.projectId, createdBy := f.createdBy, createdAt := f.createdAt, updatedAt := f.updatedAt)
    ensures Updated(t, f, now, driver) == Updated(t, e, now, driver)
  {
    hide Found, WithoutDetails, TypeToString, TypeFromString, Varchar;
  }

  // ---- who is refused ----

  // The caller's role in the project allows the call: creating and updating are for all but viewers, publishing for
  // administrators and backend developers, deleting for administrators.
  predicate RoleAllows(role: UserRole, call: Call) {
    match call
    case CreateEndpoint(_, _, _) => role == Admin || role == BackendDev || role == FrontendDev
    case UpdateEndpoint(_, _) => role == Admin || role == BackendDev || role == FrontendDev
    case PublishEndpoint(_) => role == Admin || role == BackendDev
    case DeleteEndpoint(_) => role == Admin
  }

  /** A caller without a role in the project (for a creation the project named, else the one the endpoint is stored
      under), or with a role that does not allow the call, is told no, and nothing changes. */
  lemma RefusedByRole(t: Tables, r: Request, driver: Abandoned, project: UUID)
    requires r.call.CreateEndpoint? ==> r.call.projectId == project
    requires !r.call.CreateEndpoint? ==> Readable(t, r.call.id) && t.endpoints[r.call.id].projectId == project
    requires (r.user, project) in r.answers ==> !RoleAllows(r.answers[(r.user, project)], r.call)
    ensures Serve(t, r, driver) == (t, if r.call.CreateEndpoint? then Id("") else Flag(false))
  {
    FoundId(t, TargetOf(r));
    if (r.user, project) in r.answers {
      CapabilityTable(r.answers[(r.user, project)], CapabilityFor(r.call));
    }
    hide HasCapability, Found, Updated, Created, Removed;
  }

  /** And what is answered otherwise, on sound tables: a creation gives the new id, an update true, exactly if the
      caller's role allows it and the write is accepted; a deletion gives true exactly if the role allows it and the
      endpoint can be read. */
  lemma RepliesIff(t: Tables, r: Request, driver: Abandoned)
    requires Sound(t) && (r.call.CreateEndpoint? ==> r.call.generated != "")
    ensures var reply := Serve(t, r, driver).1;
            match r.call
            case CreateEndpoint(p, e, generated) =>
              reply == Id(if e.id == "" then generated else e.id) <==>
                && Holds(r.answers, r.user, p, EditEndpoints)
                && (if e.id == "" then generated else e.id) !in t.endpoints && p in t.projects && r.user in t.users
                && FitsColumn(e.status, 20) && Storable(e.details)
            case UpdateEndpoint(id, e) =>
              reply == Flag(true) <==>
                && Readable(t, id) && Holds(r.answers, r.user, t.endpoints[id].projectId, EditEndpoints)
                && FitsColumn(e.status, 20) && Storable(e.details)
            case DeleteEndpoint(id) =>
              reply == Flag(true) <==>
                Readable(t, id) && Holds(r.answers, r.user, t.endpoints[id].projectId, DeleteEndpoints)
            case PublishEndpoint(id) =>
              reply == Flag(true) <==>
                Readable(t, id) && Holds(r.answers, r.user, t.endpoints[id].projectId, PublishEndpoints)
  {
    FoundId(t, TargetOf(r));
    match r.call
    case CreateEndpoint(p, e, generated) =>
      CreateAcceptedIff(t, e.(projectId := p, createdBy := r.user), generated, r.now, driver);
      hide Created, HasCapability, Sound, FitsColumn, Storable;
    case UpdateEndpoint(id, e) =>
      if Readable(t, id) {
        UpdateAcceptedIff(t, Overwritten(e, Found(t, id).value.value), r.now, driver);
      }
      hide Updated, LoadDetails, HasCapability, Sound, FitsColumn, Storable;
    case DeleteEndpoint(id) => hide LoadDetails, HasCapability, Sound;
    case PublishEndpoint(id) =>
      if Readable(t, id) && Holds(r.answers, r.user, t.endpoints[id].projectId, PublishEndpoints) {
        PublishChanges(t, id, r.user, r.answers, r.now, driver);
      }
      hide Updated, LoadDetails, HasCapability, Sound, Canonical, HasDetail;
  }

  // ---- who sets the status ----

  // The status a request asks for, as the column would hold it.
  function StatusAsked(r: Request): Option<string> {
    match r.call
    case UpdateEndpoint(_, e) => Varchar(e.status, STATUS_WIDTH)
    case PublishEndpoint(_) => Some("published")
    case _ => None
  }

  // An update with these details writes the parent row: the insertion goes through, or throws on a committing driver.
  predicate Lands(t: Tables, x: UUID, d: Details, driver: Abandoned)
    requires x in t.endpoints
  {
    if DetailsFit(d) then KindOf(d) == TypeFromString(t.endpoints[x].kind) || !HasDetail(t, x, KindOf(d))
    else d.RestDetails? && driver.Commits?
  }

  predicate Effective(t: Tables, r: Request, driver: Abandoned, x: UUID)
    requires x in t.endpoints
  {
    && Readable(t, x) && Authorised(r, x, t.endpoints[x].projectId)
    && (r.call.PublishEndpoint? || (r.call.UpdateEndpoint? && Lands(t, x, r.call.endpoint.details, driver)))
  }

  lemma UpdateSetsStatus(t: Tables, e: Endpoint, now: int, driver: Abandoned)
    requires Readable(t, e.id)
    ensures var t', column := Updated(t, e, now, driver).0, Varchar(e.status, STATUS_WIDTH);
            && e.id in t'.endpoints
            && t'.endpoints[e.id].status
               == if column.Some? && Lands(t, e.id, e.details, driver) then column.value else t.endpoints[e.id].status
  {
    var column := Varchar(e.status, STATUS_WIDTH);
    if column.Some? {
      ClearedFacts(t, e, column.value, now);
      FinishedFacts(t, Cleared(t, e, column.value, now), e.id, e.details, true, false, driver);
    }
    hide Finished, Cleared, HasDetail, TypeFromString, TypeToString, SameAt, Typed, DetailsFit, LoadDetails, Varchar;
  }

  lemma LoadedLands(t: Tables, id: UUID, driver: Abandoned)
    requires Typed(t) && Readable(t, id)
    ensures Lands(t, id, Found(t, id).value.value.details, driver)
  {
    LoadedIsNormal(t, id, TypeFromString(t.endpoints[id].kind));
    NormalisationFacts(Found(t, id).value.value.details);
    hide NormalForm, Normalised, TypeFromString, DetailsFit, HasDetail;
  }

  /** A request changes the status of an endpoint that stays exactly if it is an effective update or publication that
      asks for another status: an update needs the edit capability only, whatever status it asks for. */
  lemma StatusChangesIff(t: Tables, r: Request, driver: Abandoned, x: UUID)
    requires Typed(t) && x in t.endpoints && x in Serve(t, r, driver).0.endpoints
    ensures Serve(t, r, driver).0.endpoints[x].status != t.endpoints[x].status <==>
              Effective(t, r, driver, x) && StatusAsked(r).Some? && StatusAsked(r).value != t.endpoints[x].status
  {
    ServeIsWrite(t, r, driver);
    ServeFrame(t, r, driver, x);
    FoundId(t, x);
    if Readable(t, x) && Authorised(r, x, t.endpoints[x].projectId) && !r.call.CreateEndpoint?
        && !r.call.DeleteEndpoint? {
      var e := WriteOf(t, r).value.endpoint;
      UpdateSetsStatus(t, e, r.now, driver);
      LoadedLands(t, x, driver);
    }
    hide Serve, Found, Updated, Created, Varchar, Lands, HasCapability, Typed;
    if !Effective(t, r, driver, x) && SameAt(t, Serve(t, r, driver).0, x) {
      assert Agree(t.endpoints, Serve(t, r, driver).0.endpoints, x);
    }
  }

  /** The publish capability can be gone round: a loaded endpoint, sent back with its status set to "published" by
      anyone who may edit it, is then published, and the tables are those a holder of the publish capability would
      have left.  A frontend developer may edit and may not publish. */
  lemma PutPublishes(t: Tables, id: UUID, editor: UUID, answers: Answers, now: int, driver: Abandoned)
    requires Typed(t) && Readable(t, id) && Holds(answers, editor, t.endpoints[id].projectId, EditEndpoints)
    ensures var e := Found(t, id).value.value;
            var sent := Parsed(Printed(e.(status := "published")), e.projectId, editor);
            && sent.Returned?
            && var outcome := ServeUpdate(t, id, sent.value, editor, answers, now, driver);
               && outcome.1 == Flag(true)
               && Found(outcome.0, id) == Returned(Some(e.(status := "published", updatedAt := now)))
               && forall publisher, others: Answers ::
                    Holds(others, publisher, t.endpoints[id].projectId, PublishEndpoints) ==>
                      ServePublish(t, id, publisher, others, now, driver) == outcome
    ensures HasCapability(FrontendDev, EditEndpoints) && !HasCapability(FrontendDev, PublishEndpoints)
  {
    FoundId(t, id);
    LoadedMatches(t, id);
    var e := Found(t, id).value.value;
    var published := e.(status := "published");
    ParsePrintIff(published, e.projectId, editor);
    UpdateIgnores(t, published, Overwritten(Parsed(Printed(published), e.projectId, editor).value, e), now, driver);
    WriteBack(t, id, now, driver);
    UpdateAtStatus(t, e, "published", now, driver);
    UpdateThenFind(t, published, now, driver);
    LoadedIsNormal(t, id, TypeFromString(t.endpoints[id].kind));
    NormalisationFacts(e.details);
    var outcome := Updated(t, published, now, driver);
    assert Found(outcome.0, id) == Returned(Some(e.(status := "published", updatedAt := now))) by {
      hide Updated, Parsed, Printed, Normalised, NormalForm, TypeFromString;
    }
    hide Updated, Found, Typed, Parsed, Printed, Normalised, NormalForm;
  }

  // ---- whole runs ----

  // x is stored in every state of the run.
  predicate Survives(t: Tables, rs: seq<Request>, driver: Abandoned, x: UUID)
    decreases |rs|
  {
    x in t.endpoints && (rs == [] || Survives(Serve(t, rs[0], driver).0, rs[1..], driver, x))
  }

  // The request, served in t, changes endpoint x: it names x, for a user holding what it needs in the project.
  ghost predicate Causes(t: Tables, r: Request, driver: Abandoned, x: UUID, project: UUID) {
    !SameAt(t, Serve(t, r, driver).0, x) && Authorised(r, x, project) && !r.call.CreateEndpoint?
  }

  lemma ServeAllTail(t: Tables, rs: seq<Request>, driver: Abandoned, i: nat)
    requires i < |rs|
    ensures ServeAll(t, rs[..i + 1], driver) == ServeAll(Serve(t, rs[0], driver).0, rs[1..][..i], driver)
  {
    hide Serve;
    assert rs[..i + 1][0] == rs[0] && rs[..i + 1][1..] == rs[1..][..i];
  }

  /** Over any run, an endpoint that is never deleted keeps its project, creator and creation time; and if anything
      about it differs at the end, some request of the run, in the state it met, changed it, named it, and was made by
      a user who then held the capability it needs in that project. */
  lemma {:induction false} RunKeepsOrigin(t: Tables, rs: seq<Request>, driver: Abandoned, x: UUID)
    requires Survives(t, rs, driver, x)
    ensures var t' := ServeAll(t, rs, driver);
            && x in t'.endpoints && SameOrigin(t, t', x)
            && (!SameAt(t, t', x) ==>
                  exists i :: 0 <= i < |rs|
                    && Causes(ServeAll(t, rs[..i], driver), rs[i], driver, x, t.endpoints[x].projectId))
    decreases |rs|
  {
    hide Serve, SameAt, Authorised;
    if rs == [] {
      SameAtReflexive(t, x);
    } else {
      var project, rest := t.endpoints[x].projectId, rs[1..];
      var t1 := Serve(t, rs[0], driver).0;
      ServeFrame(t, rs[0], driver, x);
      RunKeepsOrigin(t1, rest, driver, x);
      var t' := ServeAll(t, rs, driver);
      assert t' == ServeAll(t1, rest, driver);
      if !SameAt(t, t', x) {
        if !SameAt(t, t1, x) {
          assert rs[..0] == [];
          assert Causes(ServeAll(t, rs[..0], driver), rs[0], driver, x, project);
        } else {
          if SameAt(t1, t', x) { SameAtTransitive(t, t1, t', x); }
          var i :| 0 <= i < |rest| && Causes(ServeAll(t1, rest[..i], driver), rest[i], driver, x, project);
          ServeAllTail(t, rs, driver, i + 1);
          ServeAllTail(t, rs, driver, i);
          assert rs[i + 1] == rest[i];
          assert Causes(ServeAll(t, rs[..i + 1], driver), rs[i + 1], driver, x, project);
        }
      }
    }
  }

  // Every role answered is one the database can hold.
  ghost predicate FromStorage(answers: Answers) {
    forall p :: p in answers ==> exists s :: StorableRole(s) && answers[p] == RoleFromString(s)
  }

  lemma NobodyDeletes(answers: Answers, user: UUID, project: UUID)
    requires FromStorage(answers)
    ensures !Holds(answers, user, project, DeleteEndpoints)
  {
    if (user, project) in answers {
      var s :| StorableRole(s) && answers[(user, project)] == RoleFromString(s);
      StoredRoleCapabilities(s);
    }
  }

  /** Deletion is out of reach: the role column refuses "admin", the only role that may delete, so with roles read from
      the database deleteEndpoint never returns true and every endpoint survives every run. */
  lemma {:induction false} NothingIsEverDeleted(t: Tables, rs: seq<Request>, driver: Abandoned, x: UUID)
    requires x in t.endpoints && forall r :: r in rs ==> FromStorage(r.answers)
    ensures Survives(t, rs, driver, x)
    ensures forall r, id ::
             r in rs && r.call == DeleteEndpoint(id) ==>
               Serve(t, r, driver).0 == t && Serve(t, r, driver).1 != Flag(true)
    decreases |rs|
  {
    forall r, id | r in rs && r.call == DeleteEndpoint(id)
      ensures Serve(t, r, driver).0 == t && Serve(t, r, driver).1 != Flag(true)
    {
      DeleteRefused(t, r, driver);
    }
    if rs != [] {
      assert rs[0] in rs;
      ServeFrame(t, rs[0], driver, x);
      hide Serve, SameAt, FromStorage, Authorised;
      NothingIsEverDeleted(Serve(t, rs[0], driver).0, rs[1..], driver, x);
    }
  }

  lemma DeleteRefused(t: Tables, r: Request, driver: Abandoned)
    requires r.call.DeleteEndpoint? && FromStorage(r.answers)
    ensures Serve(t, r, driver).0 == t && Serve(t, r, driver).1 != Flag(true)
  {
    FoundId(t, r.call.id);
    if r.call.id in t.endpoints {
      NobodyDeletes(r.answers, r.user, t.endpoints[r.call.id].projectId);
    }
    hide LoadDetails, HasCapability, FromStorage;
  }

  /** An endpoint that cannot be read is stuck: every call that names it throws, so no run changes it. */
  lemma {:induction false} UnreadableIsStuck(t: Tables, rs: seq<Request>, driver: Abandoned, x: UUID)
    requires Found(t, x).Thrown?
    ensures SameAt(t, ServeAll(t, rs, driver), x) && Found(ServeAll(t, rs, driver), x).Thrown?
    ensures forall r :: r in rs && TargetOf(r) == x && !r.call.CreateEndpoint? ==> Serve(t, r, driver) == (t, Threw)
    decreases |rs|
  {
    if rs == [] {
      SameAtReflexive(t, x);
    } else {
      var t1 := Serve(t, rs[0], driver).0;
      assert x in t.endpoints;
      ServeIsWrite(t, rs[0], driver);
      if WriteOf(t, rs[0]).None? {
        SameAtReflexive(t, x);
      } else {
        FoundId(t, TargetOf(rs[0]));
        TakenIdIsKept(t, WriteOf(t, rs[0]).value, driver, x);
        WriteFrame(t, WriteOf(t, rs[0]).value, driver, x);
      }
      assert SameAt(t, t1, x);
      SameReads(t, t1, x);
      hide Serve, SameAt, Found;
      UnreadableIsStuck(t1, rs[1..], driver, x);
      SameAtTransitive(t, t1, ServeAll(t1, rs[1..], driver), x);
    }
    CallsThrow(t, rs, driver, x);
  }

  lemma CallsThrow(t: Tables, rs: seq<Request>, driver: Abandoned, x: UUID)
    requires Found(t, x).Thrown?
    ensures forall r :: r in rs && TargetOf(r) == x && !r.call.CreateEndpoint? ==> Serve(t, r, driver) == (t, Threw)
  {
    hide Found;
  }

  lemma SameReads(t: Tables, t': Tables, x: UUID)
    requires SameAt(t, t', x)
    ensures Found(t', x) == Found(t, x)
  {
    hide TypeFromString;
  }

  // A request whose endpoint came through the controller.
  ghost predicate FromWire(r: Request) {
    r.call.CreateEndpoint? || r.call.UpdateEndpoint? ==>
      exists json, project, user :: Parsed(json, project, user) == Returned(r.call.endpoint)
  }

  // On a driver that commits abandoned transactions the REST bodies sent must be able to take their raw text.
  predicate Sendable(r: Request, driver: Abandoned) {
    (r.call.CreateEndpoint? || r.call.UpdateEndpoint?) && driver.Commits? && r.call.endpoint.details.RestDetails? ==>
      DetailsFit(r.call.endpoint.details)
  }

  /** Over any run of requests that come through the controller the tables stay sound: each endpoint has one detail
      row, in the table of its type.  A driver that rolls abandoned transactions back needs nothing more; one that
      commits them needs bodies that can take their raw text. */
  lemma {:induction false} ServiceRunStaysSound(t: Tables, rs: seq<Request>, driver: Abandoned)
    requires Sound(t) && forall r :: r in rs ==> FromWire(r) && Sendable(r, driver)
    ensures Sound(ServeAll(t, rs, driver))
    decreases |rs|
  {
    if rs != [] {
      assert rs[0] in rs;
      ServeStaysSound(t, rs[0], driver);
      hide Serve, Sound, FromWire, Sendable;
      ServiceRunStaysSound(Serve(t, rs[0], driver).0, rs[1..], driver);
    }
  }

  lemma ServeStaysSound(t: Tables, r: Request, driver: Abandoned)
    requires Sound(t) && FromWire(r) && Sendable(r, driver)
    ensures Sound(Serve(t, r, driver).0)
  {
    ServeIsWrite(t, r, driver);
    if WriteOf(t, r).Some? {
      var w := WriteOf(t, r).value;
      if !w.RemoveWrite? { WriteConforms(t, r, driver); }
      hide WriteOf, Serve, Apply, FromWire, Sendable, Conforming;
      WriteKeepsIff(t, w, driver);
    }
  }

  // What a request through the controller writes carries details of its type that the driver can handle.
  lemma WriteConforms(t: Tables, r: Request, driver: Abandoned)
    requires Sound(t) && FromWire(r) && Sendable(r, driver) && WriteOf(t, r).Some? && !WriteOf(t, r).value.RemoveWrite?
    ensures Conforming(WriteOf(t, r).value.endpoint, driver)
  {
    FoundId(t, TargetOf(r));
    match r.call {
      case CreateEndpoint(_, e, _) =>
        var json, project, user :| Parsed(json, project, user) == Returned(e);
        ParsedIsMatching(json, project, user);
      case UpdateEndpoint(_, e) =>
        var json, project, user :| Parsed(json, project, user) == Returned(e);
        ParsedIsMatching(json, project, user);
      case PublishEndpoint(id) =>
        LoadedMatches(t, id);
        LoadedIsNormal(t, id, TypeFromString(t.endpoints[id].kind));
        NormalisationFacts(Found(t, id).value.value.details);
      case DeleteEndpoint(_) =>
    }
    hide Parsed, Printed, FromWire, LoadDetails, HasCapability, FoldRaw, NormalForm, Normalised;
  }

  // ---- the service object ----

  class EndpointService {
    const repository: PostgresEndpointRepository

    constructor (repository: PostgresEndpointRepository)
      ensures this.repository == repository
    {
      this.repository := repository;
    }

    method GetEndpoint(id: UUID, user: UUID, answers: Answers) returns (r: Outcome<Option<Endpoint>>)
      ensures r == match Found(repository.Db(), id)
                   case Thrown => Thrown
                   case Returned(None) => Returned(None)
                   case Returned(Some(e)) =>
                     Returned(if Holds(answers, user, e.projectId, ViewEndpoints) then Some(e) else None)
    {
      r := repository.FindById(id);
      if r.Returned? && r.value.Some? && !Holds(answers, user, r.value.value.projectId, ViewEndpoints) {
        r := Returned(None);
      }
    }

    method Create(projectId: UUID, endpoint: Endpoint, user: UUID, answers: Answers, generated: UUID,
        now: int) returns (r: Reply)
      modifies repository
      ensures var request := Request(CreateEndpoint(projectId, endpoint, generated), user, answers, now);
              (repository.Db(), r) == Serve(old(repository.Db()), request, repository.driver)
    {
      if !Holds(answers, user, projectId, EditEndpoints) {
        return Id("");
      }
      var mine := endpoint;
      mine := mine.(projectId := projectId);
      mine := mine.(createdBy := user);
      var created := repository.Create(mine, generated, now);
      match created {
        case Returned(id) => return Id(id);
        case Thrown => return Threw;
      }
    }

    method Update(id: UUID, endpoint: Endpoint, user: UUID, answers: Answers, now: int) returns (r: Reply)
      modifies repository
      ensures (repository.Db(), r)
          == Serve(old(repository.Db()), Request(UpdateEndpoint(id, endpoint), user, answers, now), repository.driver)
      ensures forall x ::
               SameOrigin(old(repository.Db()), repository.Db(), x)
               && (x != id ==> SameAt(old(repository.Db()), repository.Db(), x))
    {
      forall x { SameAtReflexive(repository.Db(), x); }
      var current := repository.FindById(id);
      if current.Thrown? {
        return Threw;
      }
      if current.value.None? || !Holds(answers, user, current.value.value.projectId, EditEndpoints) {
        return Flag(false);
      }
      var mine := endpoint;
      mine := mine.(id := id);
      mine := mine.(projectId := current.value.value.projectId);
      mine := mine.(createdBy := current.value.value.createdBy);
      mine := mine.(createdAt := current.value.value.createdAt);
      hide Found, Updated, SameAt, SameOrigin;
      var updated := repository.Update(mine, now);
      match updated {
        case Returned(ok) => return Flag(ok);
        case Thrown => return Threw;
      }
    }

    method Delete(id: UUID, user: UUID, answers: Answers) returns (r: Reply)
      modifies repository
      ensures forall now ::
               (repository.Db(), r)
               == Serve(old(repository.Db()), Request(DeleteEndpoint(id), user, answers, now), repository.driver)
      ensures FromStorage(answers) ==> r != Flag(true) && repository.Db() == old(repository.Db())
    {
      ghost var before := repository.Db();
      if FromStorage(answers) {
        DeleteRefused(before, Request(DeleteEndpoint(id), user, answers, 0), repository.driver);
      }
      var current := repository.FindById(id);
      if current.Thrown? {
        return Threw;
      }
      if current.value.None? || !Holds(answers, user, current.value.value.projectId, DeleteEndpoints) {
        return Flag(false);
      }
      hide Found, FromStorage;
      var removed := repository.Remove(id);
      return Flag(removed);
    }

    method Publish(id: UUID, user: UUID, answers: Answers, now: int) returns (r: Reply)
      modifies repository
      ensures (repository.Db(), r)
          == Serve(old(repository.Db()), Request(PublishEndpoint(id), user, answers, now), repository.driver)
      ensures forall x :: x != id ==> SameAt(old(repository.Db()), repository.Db(), x)
    {
      forall x { SameAtReflexive(repository.Db(), x); }
      var current := repository.FindById(id);
      if current.Thrown? {
        return Threw;
      }
      if current.value.None? || !Holds(answers, user, current.value.value.projectId, PublishEndpoints) {
        return Flag(false);
      }
      var updated := current.value.value;
      updated := updated.(status := "published");
      hide Found, Updated, SameAt, SameOrigin;
      var ok := repository.Update(updated, now);
      match ok {
        case Returned(done) => return Flag(done);
        case Thrown => return Threw;
      }
    }
  }
}
