/** The endpoint tables of migrations/002_endpoints.sql and the repository that writes them. */
module EndpointStore {
  import opened Common
  import opened JsonValues
  import opened Endpoints

  // A call returns a value or lets an exception of the JSON library through; database errors are values.
  datatype Outcome<+T> = Returned(value: T) | Thrown

  datatype Row = Row(
    projectId: UUID,
    name: Json,
    description: Option<Json>,
    kind: string,
    status: string,
    createdBy: UUID,
    createdAt: int,
    updatedAt: int)

  datatype RestRow = RestRow(httpMethod: string, urlPath: string, queryParams: Json, headers: Json, body: Json)
  datatype GraphqlRow = GraphqlRow(query: string, variables: Json, schemaUrl: Option<string>)
  datatype SoapRow = SoapRow(wsdlUrl: string, operation: string, requestXml: string)
  datatype WebsocketRow = WebsocketRow(connectionUrl: string, protocols: Json, sampleMessages: Json)

  datatype Tables = Tables(
    projects: set<UUID>,
    users: set<UUID>,
    endpoints: map<UUID, Row>,
    rest: map<UUID, RestRow>,
    graphql: map<UUID, GraphqlRow>,
    soap: map<UUID, SoapRow>,
    websocket: map<UUID, WebsocketRow>)

  // varchar(n): longer text is refused, unless all it has beyond n is spaces, which are cut off.
  function Varchar(s: string, n: nat): Option<string> {
    if |s| <= n then Some(s)
    else if forall i :: n <= i < |s| ==> s[i] == ' ' then Some(s[..n])
    else None
  }

  const STATUS_WIDTH: nat := 20
  const OPERATION_WIDTH: nat := 255

  // ---- the REST body and its raw text ----

  // Storing a raw text in a body: null becomes an object, anything else that is not an object throws.
  function FoldRaw(body: Json, raw: string): Option<Json> {
    if raw == "" then Some(body)
    else match body
      case Null => Some(Obj(map["raw" := Str(raw)]))
      case Obj(fields) => Some(Obj(fields["raw" := Str(raw)]))
      case _ => None
  }

  // The raw text a loaded body carries: none if it has no such member, and an exception if the member is not text.
  function RawOf(body: Json): Option<string> {
    match body.Field("raw")
    case None => Some("")
    case Some(Str(s)) => Some(s)
    case Some(_) => None
  }

  function StringsToJson(ss: seq<string>): (j: Json)
    ensures j.Arr? && |j.items| == |ss| && forall i :: 0 <= i < |ss| ==> j.items[i] == Str(ss[i])
  {
    Arr(seq(|ss|, i requires 0 <= i < |ss| => Str(ss[i])))
  }

  // get<std::vector<std::string>>()
  function JsonToStrings(j: Json): (r: Option<seq<string>>)
    ensures r.Some? <==> j.Arr? && forall i :: 0 <= i < |j.items| ==> j.items[i].Str?
    ensures r.Some? ==> StringsToJson(r.value) == j
  {
    if j.Arr? && forall i :: 0 <= i < |j.items| ==> j.items[i].Str? then
      var ss := seq(|j.items|, i requires 0 <= i < |j.items| => j.items[i].s);
      assert StringsToJson(ss).items == j.items;
      Some(ss)
    else None
  }

  lemma StringsRoundTrip(ss: seq<string>)
    ensures JsonToStrings(StringsToJson(ss)) == Some(ss)
  {
    var back := JsonToStrings(StringsToJson(ss)).value;
    assert StringsToJson(back).items == StringsToJson(ss).items;
    assert forall i ::
            0 <= i < |ss| ==> StringsToJson(back).items[i] == Str(back[i]) && StringsToJson(ss).items[i] == Str(ss[i]);
    assert back == ss;
  }

  // ---- reading ----

  predicate HasDetail(t: Tables, id: UUID, kind: EndpointType) {
    match kind
    case Rest => id in t.rest
    case Graphql => id in t.graphql
    case Soap => id in t.soap
    case Websocket => id in t.websocket
  }

  // loadDetails: a missing row reads as the default details of the type.
  function LoadDetails(t: Tables, id: UUID, kind: EndpointType): Option<Details> {
    match kind
    case Rest =>
      if id !in t.rest then Some(DEFAULT_REST)
      else
        var row := t.rest[id];
        var raw := RawOf(row.body);
        if raw.None? then None
        else Some(RestDetails(MethodFromString(row.httpMethod), row.urlPath, row.queryParams, row.headers, row.body,
            raw.value))
    case Graphql =>
      if id !in t.graphql then Some(GraphqlDetails("", EMPTY_OBJECT, None))
      else Some(GraphqlDetails(t.graphql[id].query, t.graphql[id].variables, t.graphql[id].schemaUrl))
    case Soap =>
      if id !in t.soap then Some(SoapDetails("", "", ""))
      else Some(SoapDetails(t.soap[id].wsdlUrl, t.soap[id].operation, t.soap[id].requestXml))
    case Websocket =>
      if id !in t.websocket then Some(WebsocketDetails("", [], EMPTY_ARRAY))
      else
        var row := t.websocket[id];
        var protocols := JsonToStrings(row.protocols);
        if protocols.None? then None
        else Some(WebsocketDetails(row.connectionUrl, protocols.value, row.sampleMessages))
  }

  function Base(id: UUID, row: Row, details: Details): Endpoint {
    Endpoint(id, row.projectId, row.name, row.description.GetOr(EMPTY_OBJECT), TypeFromString(row.kind), row.status,
             row.createdBy, row.createdAt, row.updatedAt, details)
  }

  function Found(t: Tables, id: UUID): Outcome<Option<Endpoint>> {
    if id !in t.endpoints then Returned(None)
    else match LoadDetails(t, id, TypeFromString(t.endpoints[id].kind))
      case None => Thrown
      case Some(details) => Returned(Some(Base(id, t.endpoints[id], details)))
  }

  // ---- writing ----

  datatype Insertion = Inserted | Refused | TypeError

  function InsertOutcome(t: Tables, id: UUID, d: Details): Insertion {
    match d
    case RestDetails(_, _, _, _, body, raw) =>
      if FoldRaw(body, raw).None? then TypeError else if id in t.rest then Refused else Inserted
    case GraphqlDetails(_, _, _) => if id in t.graphql then Refused else Inserted
    case SoapDetails(_, operation, _) =>
      if Varchar(operation, OPERATION_WIDTH).None? || id in t.soap then Refused else Inserted
    case WebsocketDetails(_, _, _) => if id in t.websocket then Refused else Inserted
  }

  function WithDetails(t: Tables, id: UUID, d: Details): Tables
    requires InsertOutcome(t, id, d).Inserted?
  {
    match d
    case RestDetails(m, url, params, headers, body, raw) =>
      t.(rest := t.rest[id := RestRow(MethodToString(m), url, params, headers, FoldRaw(body, raw).value)])
    case GraphqlDetails(query, variables, schemaUrl) =>
      t.(graphql := t.graphql[id := GraphqlRow(query, variables, schemaUrl)])
    case SoapDetails(wsdl, operation, xml) =>
      t.(soap := t.soap[id := SoapRow(wsdl, Varchar(operation, OPERATION_WIDTH).value, xml)])
    case WebsocketDetails(url, protocols, samples) =>
      t.(websocket := t.websocket[id := WebsocketRow(url, StringsToJson(protocols), samples)])
  }

  function WithoutDetails(t: Tables, id: UUID, kind: EndpointType): Tables {
    match kind
    case Rest => t.(rest := t.rest - {id})
    case Graphql => t.(graphql := t.graphql - {id})
    case Soap => t.(soap := t.soap - {id})
    case Websocket => t.(websocket := t.websocket - {id})
  }

  // What the driver does with a transaction that an exception leaves without commit.
  datatype Abandoned = RollsBack | Commits

  // The details go in last: the transaction commits, or is rolled back by a database error, or is abandoned.
  function Finished<T>(before: Tables, t: Tables, id: UUID, d: Details, done: T, failed: T,
      driver: Abandoned): (Tables, Outcome<T>) {
    match InsertOutcome(t, id, d)
    case Inserted => (WithDetails(t, id, d), Returned(done))
    case Refused => (before, Returned(failed))
    case TypeError => (if driver.Commits? then t else before, Thrown)
  }

  function NewRow(e: Endpoint, status: string, now: int): Row {
    Row(e.projectId, e.name, Some(e.description), TypeToString(e.kind), status, e.createdBy, now, now)
  }

  function RewrittenRow(row: Row, e: Endpoint, status: string, now: int): Row {
    row.(name := e.name, description := Some(e.description), kind := TypeToString(e.kind), status := status,
        updatedAt := now)
  }

  function CreatedId(e: Endpoint, generated: UUID): UUID { if e.id == "" then generated else e.id }

  // The parent row is refused for a taken id, an unknown project or user, or a status that does not fit.
  predicate ParentFits(t: Tables, e: Endpoint, id: UUID) {
    id !in t.endpoints && e.projectId in t.projects && e.createdBy in t.users && Varchar(e.status, STATUS_WIDTH).Some?
  }

  function Created(t: Tables, e: Endpoint, generated: UUID, now: int, driver: Abandoned): (Tables, Outcome<UUID>) {
    var id := CreatedId(e, generated);
    if !ParentFits(t, e, id) then (t, Returned(""))
    else
      var row := NewRow(e, Varchar(e.status, STATUS_WIDTH).value, now);
      Finished(t, t.(endpoints := t.endpoints[id := row]), id, e.details, id, "", driver)
  }

  // UPDATE of the parent row, then DELETE of the detail row of the type it had.
  function Cleared(t: Tables, e: Endpoint, status: string, now: int): Tables
    requires e.id in t.endpoints
  {
    var row := t.endpoints[e.id];
    WithoutDetails(t.(endpoints := t.endpoints[e.id := RewrittenRow(row, e, status, now)]), e.id,
        TypeFromString(row.kind))
  }

  function Updated(t: Tables, e: Endpoint, now: int, driver: Abandoned): (Tables, Outcome<bool>) {
    match Found(t, e.id)
    case Thrown => (t, Thrown)
    case Returned(None) => (t, Returned(false))
    case Returned(Some(_)) =>
      match Varchar(e.status, STATUS_WIDTH)
      case None => (t, Returned(false))
      case Some(status) => Finished(t, Cleared(t, e, status, now), e.id, e.details, true, false, driver)
  }

  // Every detail table cascades from its endpoint.
  function Removed(t: Tables, id: UUID): (Tables, bool) {
    if id !in t.endpoints then (t, false)
    else (t.(endpoints := t.endpoints - {id}, rest := t.rest - {id}, graphql := t.graphql - {id},
             soap := t.soap - {id}, websocket := t.websocket - {id}), true)
  }

  // ---- one detail row each ----

  // The column's check constraint and width.
  predicate Typed(t: Tables) {
    && (forall id :: id in t.endpoints ==>
          TypeToString(TypeFromString(t.endpoints[id].kind)) == t.endpoints[id].kind
              && |t.endpoints[id].status| <= STATUS_WIDTH)
    && (forall id :: id in t.soap ==> |t.soap[id].operation| <= OPERATION_WIDTH)
  }

  // Every endpoint row has a detail row in the table of its type and in no other, and no detail row is orphaned.
  ghost predicate OneDetailEach(t: Tables) {
    forall id, kind :: HasDetail(t, id, kind) <==> id in t.endpoints && TypeFromString(t.endpoints[id].kind) == kind
  }

  lemma TypeReadsBack(kind: EndpointType)
    ensures TypeFromString(TypeToString(kind)) == kind
  {
    CodecsRoundTrip(kind, Get, "");
  }

  lemma InsertionFacts(t: Tables, id: UUID, d: Details)
    requires InsertOutcome(t, id, d).Inserted?
    ensures !HasDetail(t, id, KindOf(d))
    ensures var t' := WithDetails(t, id, d);
            && t'.endpoints == t.endpoints && t'.projects == t.projects && t'.users == t.users
            && (forall x, kind :: HasDetail(t', x, kind) <==> HasDetail(t, x, kind) || (x == id && kind == KindOf(d)))
            && (Typed(t) ==> Typed(t'))
  {
  }

  // What an accepted insertion needs, when the table is free.
  predicate DetailsFit(d: Details) {
    match d
    case RestDetails(_, _, _, _, body, raw) => FoldRaw(body, raw).Some?
    case SoapDetails(_, operation, _) => Varchar(operation, OPERATION_WIDTH).Some?
    case _ => true
  }

  lemma InsertOutcomeIs(t: Tables, id: UUID, d: Details)
    ensures InsertOutcome(t, id, d).Inserted? <==> DetailsFit(d) && !HasDetail(t, id, KindOf(d))
    ensures InsertOutcome(t, id, d).TypeError? <==> d.RestDetails? && !DetailsFit(d)
  {
  }

  datatype Write =
    | CreateWrite(endpoint: Endpoint, generated: UUID, now: int)
    | UpdateWrite(endpoint: Endpoint, now: int)
    | RemoveWrite(id: UUID)

  function Apply(t: Tables, w: Write, driver: Abandoned): Tables {
    match w
    case CreateWrite(e, generated, now) => Created(t, e, generated, now, driver).0
    case UpdateWrite(e, now) => Updated(t, e, now, driver).0
    case RemoveWrite(id) => Removed(t, id).0
  }

  function ApplyAll(t: Tables, ws: seq<Write>, driver: Abandoned): Tables
    decreases |ws|
  {
    if ws == [] then t else ApplyAll(Apply(t, ws[0], driver), ws[1..], driver)
  }

  // The write reaches the detail table: known before the call from the tables and the argument.
  predicate ReachesDetails(t: Tables, w: Write) {
    match w
    case CreateWrite(e, generated, _) => ParentFits(t, e, CreatedId(e, generated))
    case UpdateWrite(e, _) =>
      Found(t, e.id).Returned? && Found(t, e.id).value.Some? && Varchar(e.status, STATUS_WIDTH).Some?
    case RemoveWrite(_) => false
  }

  // The details agree with the declared type, and no exception leaves the transaction half done for the driver to
  // commit.
  predicate Conforming(e: Endpoint, driver: Abandoned) {
    if DetailsFit(e.details) then Matching(e) else e.details.RestDetails? ==> driver.RollsBack?
  }

  // How a transaction ends, in terms of what the details need.
  lemma FinishedFacts<T>(before: Tables, t: Tables, id: UUID, d: Details, done: T, failed: T, driver: Abandoned)
    ensures var (t', r) := Finished(before, t, id, d, done, failed, driver);
            if DetailsFit(d) && !HasDetail(t, id, KindOf(d)) then
              && r == Returned(done)
              && t'.endpoints == t.endpoints && t'.projects == t.projects && t'.users == t.users
              && (forall x, kind :: HasDetail(t', x, kind) <==> HasDetail(t, x, kind) || (x == id && kind == KindOf(d)))
              && (forall x :: x != id ==> SameAt(t, t', x))
              && (Typed(t) ==> Typed(t'))
            else if d.RestDetails? && !DetailsFit(d) then r == Thrown && t' == if driver.Commits? then t else before
            else r == Returned(failed) && t' == before
  {
    InsertOutcomeIs(t, id, d);
    if InsertOutcome(t, id, d).Inserted? {
      InsertionFacts(t, id, d);
    }
  }

  // A parent row of type kind, in tables where its endpoint has no other detail row, completed with details d.
  lemma FinishedKeepsIff<T>(before: Tables, t: Tables, id: UUID, d: Details, kind: EndpointType, done: T, failed: T,
      driver: Abandoned)
    requires Typed(before) && OneDetailEach(before) && Typed(t)
    requires id in t.endpoints && TypeFromString(t.endpoints[id].kind) == kind
    requires forall k :: !HasDetail(t, id, k)
    requires forall x, k ::
              x != id ==> (HasDetail(t, x, k) <==> x in t.endpoints && TypeFromString(t.endpoints[x].kind) == k)
    ensures var t' := Finished(before, t, id, d, done, failed, driver).0;
            && Typed(t')
            && (OneDetailEach(t')
                <==> if DetailsFit(d) then KindOf(d) == kind else d.RestDetails? ==> driver.RollsBack?)
  {
    FinishedFacts(before, t, id, d, done, failed, driver);
    hide Finished, DetailsFit, KindOf, HasDetail, TypeFromString, Typed, SameAt;
    var t' := Finished(before, t, id, d, done, failed, driver).0;
    if DetailsFit(d) {
      assert HasDetail(t', id, KindOf(d));
    } else if d.RestDetails? && driver.Commits? {
      assert !HasDetail(t', id, kind);
    }
  }

  lemma CreateFacts(t: Tables, e: Endpoint, generated: UUID, now: int)
    requires Typed(t) && OneDetailEach(t) && ParentFits(t, e, CreatedId(e, generated))
    ensures var id := CreatedId(e, generated);
            var t1 := t.(endpoints := t.endpoints[id := NewRow(e, Varchar(e.status, STATUS_WIDTH).value, now)]);
            && Typed(t1) && TypeFromString(t1.endpoints[id].kind) == e.kind
            && (forall k :: !HasDetail(t1, id, k))
            && (forall x, k ::
                 x != id ==> (HasDetail(t1, x, k) <==> x in t1.endpoints && TypeFromString(t1.endpoints[x].kind) == k))
  {
    TypeReadsBack(e.kind);
    hide TypeFromString, TypeToString;
    var id := CreatedId(e, generated);
    var t1 := t.(endpoints := t.endpoints[id := NewRow(e, Varchar(e.status, STATUS_WIDTH).value, now)]);
    assert forall x, k :: HasDetail(t1, x, k) <==> HasDetail(t, x, k);
  }

  lemma ClearedFacts(t: Tables, e: Endpoint, status: string, now: int)
    requires e.id in t.endpoints
    ensures var t1 := Cleared(t, e, status, now);
            && t1.projects == t.projects && t1.users == t.users
            && t1.endpoints == t.endpoints[e.id := RewrittenRow(t.endpoints[e.id], e, status, now)]
            && TypeFromString(t1.endpoints[e.id].kind) == e.kind
            && (forall x, k ::
                 HasDetail(t1, x, k) <==>
                   HasDetail(t, x, k) && !(x == e.id && k == TypeFromString(t.endpoints[e.id].kind)))
            && (forall x :: x != e.id ==> SameAt(t, t1, x))
            && (Typed(t) && |status| <= STATUS_WIDTH ==> Typed(t1))
  {
    TypeReadsBack(e.kind);
    hide TypeFromString, TypeToString;
    var t0 := t.(endpoints := t.endpoints[e.id := RewrittenRow(t.endpoints[e.id], e, status, now)]);
    WithoutFacts(t0, e.id, TypeFromString(t.endpoints[e.id].kind));
    assert forall x, k :: HasDetail(t0, x, k) <==> HasDetail(t, x, k);
    hide WithoutDetails, HasDetail;
    var t1 := Cleared(t, e, status, now);
    forall x | x != e.id ensures SameAt(t, t1, x) {
      assert SameAt(t, t0, x);
      SameAtTransitive(t, t0, t1, x);
    }
  }

  lemma WithoutFacts(t: Tables, id: UUID, kind: EndpointType)
    ensures var t' := WithoutDetails(t, id, kind);
            && t'.endpoints == t.endpoints && t'.projects == t.projects && t'.users == t.users
            && (forall x, k :: HasDetail(t', x, k) <==> HasDetail(t, x, k) && !(x == id && k == kind))
            && (forall x :: x != id ==> SameAt(t, t', x))
            && (Typed(t) ==> Typed(t'))
  {
    hide TypeFromString, TypeToString;
  }

  lemma UpdateKeepsIff(t: Tables, e: Endpoint, status: string, now: int, driver: Abandoned)
    requires Typed(t) && OneDetailEach(t) && e.id in t.endpoints && |status| <= STATUS_WIDTH
    ensures var t' := Finished(t, Cleared(t, e, status, now), e.id, e.details, true, false, driver).0;
            Typed(t') && (OneDetailEach(t') <==> Conforming(e, driver))
  {
    ClearedFacts(t, e, status, now);
    hide Cleared, HasDetail, TypeFromString, Typed, SameAt;
    FinishedKeepsIff(t, Cleared(t, e, status, now), e.id, e.details, e.kind, true, false, driver);
  }

  /** A write keeps "one detail row each" exactly when it does not reach the detail tables, or carries details of the
      declared type, or (if the REST body cannot take its raw text) the driver rolls the transaction back. */
  lemma WriteKeepsIff(t: Tables, w: Write, driver: Abandoned)
    requires Typed(t) && OneDetailEach(t)
    ensures Typed(Apply(t, w, driver))
    ensures OneDetailEach(Apply(t, w, driver))
        <==> w.RemoveWrite? || !ReachesDetails(t, w) || Conforming(w.endpoint, driver)
  {
    match w
    case CreateWrite(e, generated, now) =>
      if ReachesDetails(t, w) {
        var id := CreatedId(e, generated);
        CreateFacts(t, e, generated, now);
        var t1 := t.(endpoints := t.endpoints[id := NewRow(e, Varchar(e.status, STATUS_WIDTH).value, now)]);
        hide HasDetail, Finished, TypeFromString, Varchar;
        FinishedKeepsIff(t, t1, id, e.details, e.kind, id, "", driver);
      }
    case UpdateWrite(e, now) =>
      if ReachesDetails(t, w) {
        UpdateKeepsIff(t, e, Varchar(e.status, STATUS_WIDTH).value, now, driver);
      }
    case RemoveWrite(id) =>
      RemoveKeeps(t, id);
  }

  lemma RemoveKeeps(t: Tables, id: UUID)
    requires Typed(t) && OneDetailEach(t)
    ensures Typed(Removed(t, id).0) && OneDetailEach(Removed(t, id).0)
  {
    hide TypeFromString, TypeToString;
    var t' := Removed(t, id).0;
    assert forall x, k :: HasDetail(t', x, k) <==> HasDetail(t, x, k) && !(id in t.endpoints && x == id);
  }

  /** Over any run of conforming writes, type changes included, every endpoint keeps exactly one detail row. */
  lemma {:induction false} RunKeepsOneDetailEach(t: Tables, ws: seq<Write>, driver: Abandoned)
    requires Typed(t) && OneDetailEach(t)
    requires forall w :: w in ws && !w.RemoveWrite? ==> Conforming(w.endpoint, driver)
    ensures Typed(ApplyAll(t, ws, driver)) && OneDetailEach(ApplyAll(t, ws, driver))
    decreases |ws|
  {
    if ws != [] {
      WriteKeepsIff(t, ws[0], driver);
      RunKeepsOneDetailEach(Apply(t, ws[0], driver), ws[1..], driver);
    }
  }

  // A detail row that does not belong to the type of its endpoint.
  ghost predicate Orphan(t: Tables, id: UUID, kind: EndpointType) {
    id in t.endpoints && TypeFromString(t.endpoints[id].kind) != kind && HasDetail(t, id, kind)
  }

  predicate Spares(w: Write, id: UUID) { w.RemoveWrite? ==> w.id != id }

  predicate Proper(w: Write) { w.RemoveWrite? || (Matching(w.endpoint) && DetailsFit(w.endpoint.details)) }

  lemma WriteKeepsOrphan(t: Tables, w: Write, driver: Abandoned, id: UUID, kind: EndpointType)
    requires Orphan(t, id, kind) && Spares(w, id) && Proper(w)
    ensures Orphan(Apply(t, w, driver), id, kind)
  {
    match w
    case CreateWrite(e, generated, now) =>
      if ReachesDetails(t, w) {
        var x := CreatedId(e, generated);
        var t1 := t.(endpoints := t.endpoints[x := NewRow(e, Varchar(e.status, STATUS_WIDTH).value, now)]);
        FinishedFacts(t, t1, x, e.details, x, "", driver);
        hide Finished, TypeFromString, Varchar;
      }
    case UpdateWrite(e, now) =>
      if ReachesDetails(t, w) {
        UpdateKeepsOrphan(t, e, Varchar(e.status, STATUS_WIDTH).value, now, driver, id, kind);
      }
    case RemoveWrite(_) =>
  }

  lemma UpdateKeepsOrphan(t: Tables, e: Endpoint, status: string, now: int, driver: Abandoned, id: UUID,
      kind: EndpointType)
    requires Orphan(t, id, kind) && e.id in t.endpoints && Matching(e) && DetailsFit(e.details)
    ensures var (t', r) := Finished(t, Cleared(t, e, status, now), e.id, e.details, true, false, driver);
            Orphan(t', id, kind) && (e.id == id && e.kind == kind ==> r == Returned(false))
  {
    var t1 := Cleared(t, e, status, now);
    ClearedFacts(t, e, status, now);
    FinishedFacts(t, t1, e.id, e.details, true, false, driver);
    hide Finished, Cleared, HasDetail, TypeFromString, SameAt, Typed;
  }

  lemma OrphanBlocks(t: Tables, e: Endpoint, now: int, driver: Abandoned)
    requires Orphan(t, e.id, e.kind) && Matching(e) && DetailsFit(e.details)
    ensures Updated(t, e, now, driver).1 != Returned(true)
  {
    if ReachesDetails(t, UpdateWrite(e, now)) {
      UpdateKeepsOrphan(t, e, Varchar(e.status, STATUS_WIDTH).value, now, driver, e.id, e.kind);
    }
  }

  /** Why the types must match: an accepted mismatched update leaves an orphan, which no later run of matching
      writes clears short of removing the endpoint; and as long as it is there the endpoint can never take that type. */
  lemma {:induction false} MismatchIsPermanent(t: Tables, e: Endpoint, now: int, ws: seq<Write>, retry: Endpoint,
      driver: Abandoned)
    requires !Matching(e) && Updated(t, e, now, driver).1 == Returned(true)
    requires forall w :: w in ws ==> Spares(w, e.id) && Proper(w)
    requires retry.id == e.id && Matching(retry) && retry.kind == KindOf(e.details) && DetailsFit(retry.details)
    ensures var later := ApplyAll(Updated(t, e, now, driver).0, ws, driver);
            Orphan(later, e.id, KindOf(e.details)) && Updated(later, retry, now, driver).1 != Returned(true)
  {
    MismatchLeavesOrphan(t, e, now, driver);
    hide Updated;
    var t' := Updated(t, e, now, driver).0;
    RunKeepsOrphan(t', ws, driver, e.id, KindOf(e.details));
    OrphanBlocks(ApplyAll(t', ws, driver), retry, now, driver);
  }

  lemma MismatchLeavesOrphan(t: Tables, e: Endpoint, now: int, driver: Abandoned)
    requires !Matching(e) && Updated(t, e, now, driver).1 == Returned(true)
    ensures Orphan(Updated(t, e, now, driver).0, e.id, KindOf(e.details))
  {
    var status := Varchar(e.status, STATUS_WIDTH).value;
    ClearedFacts(t, e, status, now);
    FinishedFacts(t, Cleared(t, e, status, now), e.id, e.details, true, false, driver);
    hide Finished, Cleared, HasDetail, TypeFromString, SameAt, Typed;
  }

  lemma {:induction false} RunKeepsOrphan(t: Tables, ws: seq<Write>, driver: Abandoned, id: UUID, kind: EndpointType)
    requires Orphan(t, id, kind)
    requires forall w :: w in ws ==> Spares(w, id) && Proper(w)
    ensures Orphan(ApplyAll(t, ws, driver), id, kind)
    decreases |ws|
  {
    hide Apply, Orphan, Spares, Proper;
    if ws != [] {
      assert ws[0] in ws;
      WriteKeepsOrphan(t, ws[0], driver, id, kind);
      RunKeepsOrphan(Apply(t, ws[0], driver), ws[1..], driver, id, kind);
    }
  }

  // ---- storing and loading ----

  // What reading back gives for details that were stored, computed from the details alone.
  function Normalised(d: Details): Option<Details>
    requires DetailsFit(d)
  {
    match d
    case RestDetails(m, url, params, headers, body, raw) =>
      var folded := FoldRaw(body, raw).value;
      if RawOf(folded).None? then None else Some(RestDetails(m, url, params, headers, folded, RawOf(folded).value))
    case SoapDetails(wsdl, operation, xml) => Some(SoapDetails(wsdl, Varchar(operation, OPERATION_WIDTH).value, xml))
    case _ => Some(d)
  }

  // The body and the raw text agree, and the operation fits its column.
  predicate NormalForm(d: Details) {
    match d
    case RestDetails(_, _, _, _, body, raw) => RawOf(body) == Some(raw)
    case SoapDetails(_, operation, _) => |operation| <= OPERATION_WIDTH
    case _ => true
  }

  /** Normalisation is idempotent, its fixed points are the normal forms, and it fails exactly on a REST body
      that already holds a "raw" that is not text while no raw text is given. */
  lemma NormalisationFacts(d: Details)
    ensures NormalForm(d) ==> DetailsFit(d) && Normalised(d) == Some(d)
    ensures DetailsFit(d) && Normalised(d).Some? ==>
              NormalForm(Normalised(d).value) && KindOf(Normalised(d).value) == KindOf(d)
                  && Normalised(Normalised(d).value) == Normalised(d)
    ensures DetailsFit(d) && Normalised(d) == Some(d) ==> NormalForm(d)
    ensures DetailsFit(d) ==> (Normalised(d).None? <==>
              d.RestDetails? && d.bodyRaw == "" && d.body.Obj? && "raw" in d.body.fields && !d.body.fields["raw"].Str?)
  {
    if d.RestDetails? && NormalForm(d) && d.bodyRaw != "" {
      assert d.body.fields["raw" := Str(d.bodyRaw)] == d.body.fields;
    }
    if d.RestDetails? && DetailsFit(d) && Normalised(d).Some? {
      var n := Normalised(d).value;
      if n.bodyRaw != "" {
        assert n.body.fields["raw" := Str(n.bodyRaw)] == n.body.fields;
      }
    }
  }

  /** Store then load: after an accepted update of matching details the endpoint reads back with the written fields,
      its own project, creator and creation time, and the normalised details; or reading throws, exactly when there is
      no normal form. */
  lemma UpdateThenFind(t: Tables, e: Endpoint, now: int, driver: Abandoned)
    requires Matching(e) && Updated(t, e, now, driver).1 == Returned(true)
    ensures DetailsFit(e.details)
    ensures var t' := Updated(t, e, now, driver).0;
            var row := t.endpoints[e.id];
            Found(t', e.id)
            == match Normalised(e.details)
               case None => Thrown
               case Some(d) =>
                 Returned(Some(Endpoint(e.id, row.projectId, e.name, e.description, e.kind,
                   Varchar(e.status, STATUS_WIDTH).value, row.createdBy, row.createdAt, now, d)))
  {
    AcceptedUpdate(t, e, now, driver);
    var status := Varchar(e.status, STATUS_WIDTH).value;
    var t1 := Cleared(t, e, status, now);
    TypeReadsBack(e.kind);
    InsertOutcomeIs(t1, e.id, e.details);
    DetailsReadBack(t1, e.id, e.details);
    InsertionFacts(t1, e.id, e.details);
    ClearedFacts(t, e, status, now);
    hide Updated, Cleared, SameAt, Typed;
    hide LoadDetails, Normalised, InsertOutcome, WithDetails, TypeFromString, TypeToString, Varchar, HasDetail,
        DetailsFit;
  }

  lemma CreateThenFind(t: Tables, e: Endpoint, generated: UUID, now: int, driver: Abandoned)
    requires Matching(e) && generated != ""
    requires Created(t, e, generated, now, driver).1 != Returned("")
        && Created(t, e, generated, now, driver).1 != Thrown
    ensures DetailsFit(e.details)
    ensures var (t', created) := Created(t, e, generated, now, driver);
            && created == Returned(CreatedId(e, generated)) && created.value !in t.endpoints
            && Found(t', created.value)
               == match Normalised(e.details)
                  case None => Thrown
                  case Some(d) =>
                    Returned(Some(Endpoint(created.value, e.projectId, e.name, e.description, e.kind,
                      Varchar(e.status, STATUS_WIDTH).value, e.createdBy, now, now, d)))
  {
    var id := CreatedId(e, generated);
    var t1 := t.(endpoints := t.endpoints[id := NewRow(e, Varchar(e.status, STATUS_WIDTH).value, now)]);
    TypeReadsBack(e.kind);
    InsertOutcomeIs(t1, id, e.details);
    DetailsReadBack(t1, id, e.details);
    InsertionFacts(t1, id, e.details);
    hide LoadDetails, Normalised, InsertOutcome, WithDetails, TypeFromString, TypeToString, Varchar, HasDetail,
        DetailsFit;
  }

  lemma DetailsReadBack(t: Tables, id: UUID, d: Details)
    requires InsertOutcome(t, id, d).Inserted?
    ensures DetailsFit(d) && LoadDetails(WithDetails(t, id, d), id, KindOf(d)) == Normalised(d)
  {
    match d
    case RestDetails(m, _, _, _, _, _) => CodecsRoundTrip(Rest, m, "");
    case WebsocketDetails(_, protocols, _) => StringsRoundTrip(protocols);
    case _ =>
  }

  /** A raw text that is stored is the body's member "raw" (a null body becomes an object for it) and reads back as the
      raw text, in place of any that was there. */
  lemma RawIsKept(d: Details)
    requires d.RestDetails? && DetailsFit(d) && d.bodyRaw != ""
    ensures Normalised(d).Some? && Normalised(d).value.bodyRaw == d.bodyRaw
    ensures Normalised(d).value.body == Obj((if d.body.Obj? then d.body.fields else map[])["raw" := Str(d.bodyRaw)])
  {
  }

  // Text for a column of n characters: no longer, or with nothing but spaces beyond.
  predicate FitsColumn(s: string, n: nat) { |s| <= n || forall i :: n <= i < |s| ==> s[i] == ' ' }

  // What the detail tables take: a REST body with a raw text must be null or an object, a SOAP operation has 255
  // characters.
  predicate Storable(d: Details) {
    match d
    case RestDetails(_, _, _, _, body, raw) => raw == "" || body.Null? || body.Obj?
    case SoapDetails(_, operation, _) => FitsColumn(operation, 255)
    case _ => true
  }

  lemma ColumnsFit(s: string, d: Details)
    ensures Varchar(s, STATUS_WIDTH).Some? <==> FitsColumn(s, 20)
    ensures DetailsFit(d) <==> Storable(d)
  {
  }

  /** Exactly when a creation is accepted, on sound tables: the id is new, project and creator exist, the status fits 20
      characters, and the details can be stored. */
  lemma CreateAcceptedIff(t: Tables, e: Endpoint, generated: UUID, now: int, driver: Abandoned)
    requires Typed(t) && OneDetailEach(t) && generated != ""
    ensures var id := if e.id == "" then generated else e.id;
            Created(t, e, generated, now, driver).1 == Returned(id) <==>
              && id !in t.endpoints && e.projectId in t.projects && e.createdBy in t.users
              && FitsColumn(e.status, 20) && Storable(e.details)
  {
    var id := CreatedId(e, generated);
    ColumnsFit(e.status, e.details);
    hide FitsColumn, Storable, DetailsFit, TypeFromString, TypeToString, Varchar;
    if ParentFits(t, e, id) {
      CreateFacts(t, e, generated, now);
      var t1 := t.(endpoints := t.endpoints[id := NewRow(e, Varchar(e.status, STATUS_WIDTH).value, now)]);
      FinishedFacts(t, t1, id, e.details, id, "", driver);
      hide Finished, HasDetail, SameAt, Typed;
    }
  }

  /** And an update: the endpoint can be read, and status and details can be stored; details of another type than the
      endpoint has are no obstacle. */
  lemma UpdateAcceptedIff(t: Tables, e: Endpoint, now: int, driver: Abandoned)
    requires Typed(t) && OneDetailEach(t)
    ensures Updated(t, e, now, driver).1 == Returned(true) <==>
              && e.id in t.endpoints && Found(t, e.id).Returned? && FitsColumn(e.status, 20) && Storable(e.details)
  {
    ColumnsFit(e.status, e.details);
    hide FitsColumn, Storable, DetailsFit, TypeFromString, TypeToString, Varchar, LoadDetails;
    if ReachesDetails(t, UpdateWrite(e, now)) {
      var status := Varchar(e.status, STATUS_WIDTH).value;
      ClearedFacts(t, e, status, now);
      FinishedFacts(t, Cleared(t, e, status, now), e.id, e.details, true, false, driver);
      hide Finished, Cleared, HasDetail, SameAt, Typed;
    }
  }

  /** An endpoint without its detail row reads with empty details of its type, and one without a description with an
      empty object. */
  lemma MissingReads(t: Tables, id: UUID)
    requires id in t.endpoints && Found(t, id).Returned?
    ensures var row, e := t.endpoints[id], Found(t, id).value.value;
            && (row.description == None ==> e.description == Obj(map[]))
            && (!HasDetail(t, id, e.kind) ==>
                  match e.kind
                  case Rest => e.details == RestDetails(Get, "", Arr([]), Arr([]), Obj(map[]), "")
                  case Graphql => e.details == GraphqlDetails("", Obj(map[]), None)
                  case Soap => e.details == SoapDetails("", "", "")
                  case Websocket => e.details == WebsocketDetails("", [], Arr([])))
  {
    hide TypeFromString;
  }

  // Rows as this repository writes them: a printed method name, no null description.
  predicate Canonical(t: Tables, id: UUID)
    requires id in t.endpoints
  {
    && t.endpoints[id].description.Some?
    && (TypeFromString(t.endpoints[id].kind).Rest? && id in t.rest ==>
          MethodToString(MethodFromString(t.rest[id].httpMethod)) == t.rest[id].httpMethod)
  }

  lemma LoadedIsNormal(t: Tables, id: UUID, kind: EndpointType)
    requires Typed(t) && LoadDetails(t, id, kind).Some?
    ensures NormalForm(LoadDetails(t, id, kind).value) && KindOf(LoadDetails(t, id, kind).value) == kind
  {
  }

  /** Writing back what was read is always accepted, and what is read afterwards is the same but for updated_at.  At
      the level of rows nothing else changes exactly when the endpoint has its detail row and both rows are as this
      repository writes them; otherwise the write brings them to that form. */
  lemma WriteBack(t: Tables, id: UUID, now: int, driver: Abandoned)
    requires Typed(t) && Found(t, id).Returned? && Found(t, id).value.Some?
    ensures var e := Found(t, id).value.value;
            var (t', accepted) := Updated(t, e, now, driver);
            && accepted == Returned(true)
            && Found(t', id) == Returned(Some(e.(updatedAt := now)))
            && (t' == t.(endpoints := t.endpoints[id := t.endpoints[id].(updatedAt := now)])
                <==> Canonical(t, id) && HasDetail(t, id, e.kind))
  {
    var e := Found(t, id).value.value;
    var row := t.endpoints[id];
    var kind := TypeFromString(row.kind);
    LoadedIsNormal(t, id, kind);
    NormalisationFacts(e.details);
    var t1 := Cleared(t, e, e.status, now);
    ClearedFacts(t, e, e.status, now);
    InsertOutcomeIs(t1, id, e.details);
    UpdateThenFind(t, e, now, driver);
    var t' := Updated(t, e, now, driver).0;
    assert t' == WithDetails(t1, id, e.details);
    InsertionFacts(t1, id, e.details);
    WriteBackRows(t, t1, t', id, e, now);
  }

  lemma WriteBackParent(t: Tables, id: UUID, e: Endpoint, now: int)
    requires Typed(t) && id in t.endpoints && e == Base(id, t.endpoints[id], e.details)
    ensures var row := t.endpoints[id];
            t.endpoints[id := RewrittenRow(row, e, e.status, now)] == t.endpoints[id := row.(updatedAt := now)]
            <==> row.description.Some?
  {
    hide TypeFromString, TypeToString;
    var row := t.endpoints[id];
    var written := t.endpoints[id := RewrittenRow(row, e, e.status, now)];
    assert written[id].description == Some(e.description);
  }

  lemma WriteBackRows(t: Tables, t1: Tables, t': Tables, id: UUID, e: Endpoint, now: int)
    requires Typed(t) && id in t.endpoints && e == Base(id, t.endpoints[id], e.details) && KindOf(e.details) == e.kind
    requires LoadDetails(t, id, e.kind) == Some(e.details)
    requires NormalForm(e.details) && Normalised(e.details) == Some(e.details)
    requires t1 == Cleared(t, e, e.status, now) && InsertOutcome(t1, id, e.details).Inserted?
    requires t' == WithDetails(t1, id, e.details) && HasDetail(t', id, e.kind) && t'.endpoints == t1.endpoints
    requires t'.projects == t.projects && t'.users == t.users
    ensures t' == t.(endpoints := t.endpoints[id := t.endpoints[id].(updatedAt := now)])
            <==> Canonical(t, id) && HasDetail(t, id, e.kind)
  {
    var row := t.endpoints[id];
    var target := t.(endpoints := t.endpoints[id := row.(updatedAt := now)]);
    WriteBackParent(t, id, e, now);
    WithoutRows(t, e, now);
    assert t1.endpoints == t.endpoints[id := RewrittenRow(row, e, e.status, now)];
    if HasDetail(t, id, e.kind) {
      DetailRewritten(t, t1, id, e.details);
    } else {
      assert !HasDetail(target, id, e.kind);
    }
    hide WithDetails, Cleared, LoadDetails, InsertOutcome, Normalised, NormalForm, TypeFromString, MethodToString,
         MethodFromString, RewrittenRow, Typed;
  }

  lemma WithoutRows(t: Tables, e: Endpoint, now: int)
    requires e.id in t.endpoints
    ensures var row, t1 := t.endpoints[e.id], Cleared(t, e, e.status, now);
            && t1.endpoints == t.endpoints[e.id := RewrittenRow(row, e, e.status, now)]
            && t1 == WithoutDetails(t, e.id, TypeFromString(row.kind)).(endpoints := t1.endpoints)
  {
    var row := t.endpoints[e.id];
    WithoutFrame(t, t.endpoints[e.id := RewrittenRow(row, e, e.status, now)], e.id, TypeFromString(row.kind));
    hide TypeFromString, RewrittenRow, WithoutDetails;
  }

  lemma WithoutFrame(t: Tables, rows: map<UUID, Row>, id: UUID, kind: EndpointType)
    ensures WithoutDetails(t.(endpoints := rows), id, kind) == WithoutDetails(t, id, kind).(endpoints := rows)
    ensures WithoutDetails(t.(endpoints := rows), id, kind).endpoints == rows
  {
  }

  // Putting a loaded detail row back where it was deleted restores the four tables, up to the method's spelling.
  lemma DetailRewritten(t: Tables, t1: Tables, id: UUID, d: Details)
    requires HasDetail(t, id, KindOf(d)) && LoadDetails(t, id, KindOf(d)) == Some(d) && NormalForm(d)
        && Normalised(d) == Some(d)
    requires t1 == WithoutDetails(t, id, KindOf(d)).(endpoints := t1.endpoints)
    requires InsertOutcome(t1, id, d).Inserted?
    ensures var t' := WithDetails(t1, id, d);
            t'.graphql == t.graphql && t'.soap == t.soap && t'.websocket == t.websocket
    ensures WithDetails(t1, id, d).rest == t.rest <==>
              (d.RestDetails? ==> MethodToString(MethodFromString(t.rest[id].httpMethod)) == t.rest[id].httpMethod)
  {
    var t' := WithDetails(t1, id, d);
    match d
    case RestDetails(_, _, _, _, _, _) =>
      assert t'.rest[id].httpMethod == MethodToString(MethodFromString(t.rest[id].httpMethod));
      assert t'.rest[id] == t.rest[id].(httpMethod := t'.rest[id].httpMethod);
      if t'.rest[id].httpMethod == t.rest[id].httpMethod {
        assert t'.rest == t.rest;
      }
    case GraphqlDetails(_, _, _) =>
      assert t'.graphql == t.graphql;
    case SoapDetails(_, _, _) =>
      assert t'.soap == t.soap;
    case WebsocketDetails(_, _, _) =>
      assert t'.websocket[id] == t.websocket[id];
      assert t'.websocket == t.websocket;
  }

  // Every row is one this repository wrote.
  ghost predicate AllCanonical(t: Tables) {
    && (forall id :: id in t.endpoints ==> t.endpoints[id].description.Some?)
    && (forall id :: id in t.rest ==> MethodToString(MethodFromString(t.rest[id].httpMethod)) == t.rest[id].httpMethod)
  }

  lemma InsertionIsCanonical(t: Tables, id: UUID, d: Details)
    requires AllCanonical(t) && InsertOutcome(t, id, d).Inserted?
    ensures AllCanonical(WithDetails(t, id, d))
  {
    if d.RestDetails? {
      CodecsRoundTrip(Rest, d.httpMethod, "");
    }
    hide MethodToString, MethodFromString;
  }

  /** Tables that start with rows of this repository (or empty) keep them so. */
  lemma WriteKeepsCanonical(t: Tables, w: Write, driver: Abandoned)
    requires AllCanonical(t)
    ensures AllCanonical(Apply(t, w, driver))
  {
    match w
    case CreateWrite(e, generated, now) =>
      if ReachesDetails(t, w) {
        var id := CreatedId(e, generated);
        var t1 := t.(endpoints := t.endpoints[id := NewRow(e, Varchar(e.status, STATUS_WIDTH).value, now)]);
        FinishedIsCanonical(t, t1, id, e.details, id, "", driver);
      }
    case UpdateWrite(e, now) =>
      if ReachesDetails(t, w) {
        ClearedIsCanonical(t, e, Varchar(e.status, STATUS_WIDTH).value, now);
        hide AllCanonical, Cleared;
        FinishedIsCanonical(t, Cleared(t, e, Varchar(e.status, STATUS_WIDTH).value, now), e.id, e.details, true, false,
            driver);
      }
    case RemoveWrite(_) =>
  }

  lemma ClearedIsCanonical(t: Tables, e: Endpoint, status: string, now: int)
    requires AllCanonical(t) && e.id in t.endpoints
    ensures AllCanonical(Cleared(t, e, status, now))
  {
    hide MethodToString, MethodFromString;
  }

  lemma FinishedIsCanonical<T>(before: Tables, t: Tables, id: UUID, d: Details, done: T, failed: T, driver: Abandoned)
    requires AllCanonical(before) && AllCanonical(t)
    ensures AllCanonical(Finished(before, t, id, d, done, failed, driver).0)
  {
    if InsertOutcome(t, id, d).Inserted? {
      InsertionIsCanonical(t, id, d);
    }
  }

  // ---- frame ----

  predicate Agree<V(==)>(m: map<UUID, V>, m': map<UUID, V>, x: UUID) {
    (x in m' <==> x in m) && (x in m ==> m'[x] == m[x])
  }

  // Nothing about endpoint x differs.
  predicate SameAt(t: Tables, t': Tables, x: UUID) {
    && Agree(t.endpoints, t'.endpoints, x) && Agree(t.rest, t'.rest, x) && Agree(t.graphql, t'.graphql, x)
    && Agree(t.soap, t'.soap, x) && Agree(t.websocket, t'.websocket, x)
  }

  lemma SameAtTransitive(t: Tables, t1: Tables, t2: Tables, x: UUID)
    requires SameAt(t, t1, x) && SameAt(t1, t2, x)
    ensures SameAt(t, t2, x)
  {
  }

  function Target(w: Write): UUID {
    match w
    case CreateWrite(e, generated, _) => CreatedId(e, generated)
    case UpdateWrite(e, _) => e.id
    case RemoveWrite(id) => id
  }

  // What no update may change.
  predicate SameOrigin(t: Tables, t': Tables, x: UUID) {
    x in t.endpoints && x in t'.endpoints ==>
      && t'.endpoints[x].projectId == t.endpoints[x].projectId
      && t'.endpoints[x].createdBy == t.endpoints[x].createdBy
      && t'.endpoints[x].createdAt == t.endpoints[x].createdAt
  }

  lemma FinishedFrame<T>(before: Tables, t: Tables, id: UUID, d: Details, done: T, failed: T, driver: Abandoned,
      x: UUID)
    requires t.projects == before.projects && t.users == before.users && (x != id ==> SameAt(before, t, x))
    ensures var t' := Finished(before, t, id, d, done, failed, driver).0;
            && (x != id ==> SameAt(before, t', x))
            && (t'.endpoints == before.endpoints || t'.endpoints == t.endpoints)
            && t'.projects == before.projects && t'.users == before.users
  {
    FinishedFacts(before, t, id, d, done, failed, driver);
    SameAtReflexive(before, x);
    hide Finished, DetailsFit, HasDetail, Typed, SameAt;
    var t' := Finished(before, t, id, d, done, failed, driver).0;
    if x != id && t' != before && t' != t {
      SameAtTransitive(before, t, t', x);
    }
  }

  lemma SameAtReflexive(t: Tables, x: UUID)
    ensures SameAt(t, t, x)
  {
  }

  /** A write touches one endpoint only, and never the project, creator or creation time of an endpoint that exists. */
  lemma WriteFrame(t: Tables, w: Write, driver: Abandoned, x: UUID)
    ensures x != Target(w) ==> SameAt(t, Apply(t, w, driver), x)
    ensures SameOrigin(t, Apply(t, w, driver), x)
    ensures Apply(t, w, driver).projects == t.projects && Apply(t, w, driver).users == t.users
  {
    SameAtReflexive(t, x);
    match w
    case CreateWrite(e, generated, now) =>
      if ReachesDetails(t, w) {
        CreateFrame(t, e, CreatedId(e, generated), Varchar(e.status, STATUS_WIDTH).value, now, driver, x);
      }
    case UpdateWrite(e, now) =>
      if ReachesDetails(t, w) {
        UpdateFrame(t, e, Varchar(e.status, STATUS_WIDTH).value, now, driver, x);
      }
    case RemoveWrite(_) =>
  }

  lemma CreateFrame(t: Tables, e: Endpoint, id: UUID, status: string, now: int, driver: Abandoned, x: UUID)
    requires id !in t.endpoints
    ensures var t1 := t.(endpoints := t.endpoints[id := NewRow(e, status, now)]);
            var t' := Finished(t, t1, id, e.details, id, "", driver).0;
            (x != id ==> SameAt(t, t', x)) && SameOrigin(t, t', x) && t'.projects == t.projects && t'.users == t.users
  {
    FinishedFrame(t, t.(endpoints := t.endpoints[id := NewRow(e, status, now)]), id, e.details, id, "", driver, x);
    hide Finished, TypeToString, SameAt;
  }

  lemma UpdateFrame(t: Tables, e: Endpoint, status: string, now: int, driver: Abandoned, x: UUID)
    requires e.id in t.endpoints
    ensures var t' := Finished(t, Cleared(t, e, status, now), e.id, e.details, true, false, driver).0;
            (x != e.id ==> SameAt(t, t', x)) && SameOrigin(t, t', x) && t'.projects == t.projects && t'.users == t.users
  {
    ClearedFacts(t, e, status, now);
    hide Finished, Cleared, TypeFromString, SameAt, HasDetail, Typed;
    FinishedFrame(t, Cleared(t, e, status, now), e.id, e.details, true, false, driver, x);
  }

  ghost predicate Sound(t: Tables) { Typed(t) && OneDetailEach(t) }

  lemma CreateKeeps(t: Tables, e: Endpoint, generated: UUID, now: int, driver: Abandoned)
    ensures Sound(t) && Conforming(e, driver) ==> Sound(Created(t, e, generated, now, driver).0)
  {
    if Sound(t) { WriteKeepsIff(t, CreateWrite(e, generated, now), driver); }
  }

  lemma UpdateKeeps(t: Tables, e: Endpoint, now: int, driver: Abandoned)
    ensures Sound(t) && Conforming(e, driver) ==> Sound(Updated(t, e, now, driver).0)
    ensures forall x ::
             SameOrigin(t, Updated(t, e, now, driver).0, x)
             && (x != e.id ==> SameAt(t, Updated(t, e, now, driver).0, x))
  {
    hide Updated, SameAt, SameOrigin, Typed, OneDetailEach, Conforming;
    if Sound(t) { WriteKeepsIff(t, UpdateWrite(e, now), driver); }
    forall x
      ensures SameOrigin(t, Updated(t, e, now, driver).0, x)
          && (x != e.id ==> SameAt(t, Updated(t, e, now, driver).0, x))
    {
      WriteFrame(t, UpdateWrite(e, now), driver, x);
    }
  }

  lemma AcceptedUpdate(t: Tables, e: Endpoint, now: int, driver: Abandoned)
    requires Updated(t, e, now, driver).1 == Returned(true)
    ensures e.id in t.endpoints && Varchar(e.status, STATUS_WIDTH).Some?
    ensures var t1 := Cleared(t, e, Varchar(e.status, STATUS_WIDTH).value, now);
            InsertOutcome(t1, e.id, e.details).Inserted?
                && Updated(t, e, now, driver).0 == WithDetails(t1, e.id, e.details)
  {
    hide LoadDetails, InsertOutcome, WithDetails, Varchar;
  }

  // ---- the repository object ----

  class PostgresEndpointRepository {
    const driver: Abandoned
    var projects: set<UUID>
    var users: set<UUID>
    var endpoints: map<UUID, Row>
    var rest: map<UUID, RestRow>
    var graphql: map<UUID, GraphqlRow>
    var soap: map<UUID, SoapRow>
    var websocket: map<UUID, WebsocketRow>

    constructor (driver: Abandoned, t: Tables)
      ensures Db() == t && this.driver == driver
    {
      this.driver := driver;
      projects, users := t.projects, t.users;
      endpoints, rest, graphql, soap, websocket := t.endpoints, t.rest, t.graphql, t.soap, t.websocket;
    }

    function Db(): Tables
      reads this
    {
      Tables(projects, users, endpoints, rest, graphql, soap, websocket)
    }

    method Rollback(begun: Tables)
      requires begun.projects == projects && begun.users == users
      modifies this
      ensures Db() == begun
    {
      endpoints, rest, graphql, soap, websocket := begun.endpoints, begun.rest, begun.graphql, begun.soap,
          begun.websocket;
    }

    method FindById(id: UUID) returns (r: Outcome<Option<Endpoint>>)
      ensures r == Found(Db(), id)
      ensures r.Returned? && r.value.Some? ==> id in endpoints && r.value.value.id == id && Matching(r.value.value)
    {
      if id !in endpoints {
        return Returned(None);
      }
      var row := endpoints[id];
      var details := LoadDetails(Db(), id, TypeFromString(row.kind));
      if details.None? {
        return Thrown;
      }
      return Returned(Some(Base(id, row, details.value)));
    }

    // The rows of the project, in the order the query gives them; one that cannot be read makes the whole list throw.
    method FindByProject(project: UUID, rows: seq<UUID>) returns (r: Outcome<seq<Endpoint>>)
      requires forall id :: id in rows <==> id in endpoints && endpoints[id].projectId == project
      ensures r.Thrown?
          <==> exists id :: id in endpoints && endpoints[id].projectId == project && Found(Db(), id).Thrown?
      ensures r.Returned? ==> |r.value| == |rows| && forall i ::
                                                      0 <= i < |rows| ==>
                                                        Found(Db(), rows[i]) == Returned(Some(r.value[i]))
    {
      hide LoadDetails;
      var listed: seq<Endpoint> := [];
      for i := 0 to |rows|
        invariant |listed| == i && forall k :: 0 <= k < i ==> Found(Db(), rows[k]) == Returned(Some(listed[k]))
      {
        assert rows[i] in rows;
        var e := FindById(rows[i]);
        if e.Thrown? {
          return Thrown;
        }
        listed := listed + [e.value.value];
      }
      return Returned(listed);
    }

    method InsertTypeDetails(id: UUID, details: Details) returns (r: Insertion)
      modifies this
      ensures r == InsertOutcome(old(Db()), id, details)
      ensures Db() == if r.Inserted? then WithDetails(old(Db()), id, details) else old(Db())
    {
      r := Refused;
      match details {
        case RestDetails(m, url, params, headers, original, raw) =>
          var body := original;
          if raw != "" {
            match body {
              case Null => body := Obj(map["raw" := Str(raw)]);
              case Obj(fields) => body := Obj(fields["raw" := Str(raw)]);
              case _ => return TypeError;
            }
          }
          if id !in rest {
            rest := rest[id := RestRow(MethodToString(m), url, params, headers, body)];
            r := Inserted;
          }
        case GraphqlDetails(query, variables, schemaUrl) =>
          if id !in graphql {
            graphql := graphql[id := GraphqlRow(query, variables, schemaUrl)];
            r := Inserted;
          }
        case SoapDetails(wsdl, operation, xml) =>
          var column := Varchar(operation, OPERATION_WIDTH);
          if column.Some? && id !in soap {
            soap := soap[id := SoapRow(wsdl, column.value, xml)];
            r := Inserted;
          }
        case WebsocketDetails(url, protocols, samples) =>
          if id !in websocket {
            websocket := websocket[id := WebsocketRow(url, StringsToJson(protocols), samples)];
            r := Inserted;
          }
      }
    }

    method DeleteTypeDetails(id: UUID, kind: EndpointType)
      modifies this
      ensures Db() == WithoutDetails(old(Db()), id, kind)
      ensures !HasDetail(Db(), id, kind)
    {
      match kind {
        case Graphql => graphql := graphql - {id};
        case Soap => soap := soap - {id};
        case Websocket => websocket := websocket - {id};
        case Rest => rest := rest - {id};
      }
    }

    method Create(e: Endpoint, generated: UUID, now: int) returns (r: Outcome<UUID>)
      modifies this
      ensures (Db(), r) == Created(old(Db()), e, generated, now, driver)
      ensures old(Sound(Db())) && Conforming(e, driver) ==> Sound(Db())
    {
      var begun := Db();
      CreateKeeps(begun, e, generated, now, driver);
      hide Sound, Conforming, InsertOutcome, WithDetails, Varchar, TypeToString;
      var id := if e.id == "" then generated else e.id;
      var status := Varchar(e.status, STATUS_WIDTH);
      if id in endpoints || e.projectId !in projects || e.createdBy !in users || status.None? {
        return Returned("");
      }
      var kind := TypeToString(e.kind);
      var row := Row(e.projectId, e.name, Some(e.description), kind, status.value, e.createdBy, now, now);
      endpoints := endpoints[id := row];
      var inserted := InsertTypeDetails(id, e.details);
      match inserted {
        case Inserted => return Returned(id);
        case Refused => Rollback(begun); return Returned("");
        case TypeError =>
          if driver.RollsBack? { Rollback(begun); }
          return Thrown;
      }
    }

    method Update(e: Endpoint, now: int) returns (r: Outcome<bool>)
      modifies this
      ensures (Db(), r) == Updated(old(Db()), e, now, driver)
      ensures old(Sound(Db())) && Conforming(e, driver) ==> Sound(Db())
      ensures forall x :: SameOrigin(old(Db()), Db(), x) && (x != e.id ==> SameAt(old(Db()), Db(), x))
    {
      var begun := Db();
      UpdateKeeps(begun, e, now, driver);
      hide Sound, Conforming, SameAt, SameOrigin, InsertOutcome, WithDetails, Varchar, TypeToString, TypeFromString,
          LoadDetails;
      var existing := FindById(e.id);
      if existing.Thrown? {
        return Thrown;
      }
      if existing.value.None? {
        return Returned(false);
      }
      var status := Varchar(e.status, STATUS_WIDTH);
      if status.None? {
        return Returned(false);
      }
      var row := endpoints[e.id];
      row := row.(name := e.name, description := Some(e.description));
      row := row.(kind := TypeToString(e.kind), status := status.value, updatedAt := now);
      endpoints := endpoints[e.id := row];
      DeleteTypeDetails(e.id, existing.value.value.kind);
      var inserted := InsertTypeDetails(e.id, e.details);
      match inserted {
        case Inserted => return Returned(true);
        case Refused => Rollback(begun); return Returned(false);
        case TypeError =>
          if driver.RollsBack? { Rollback(begun); }
          return Thrown;
      }
    }

    method Remove(id: UUID) returns (affected: bool)
      modifies this
      ensures (Db(), affected) == Removed(old(Db()), id)
      ensures affected <==> id in old(endpoints)
      ensures forall kind :: affected ==> !HasDetail(Db(), id, kind)
    {
      affected := id in endpoints;
      if affected {
        endpoints := endpoints - {id};
        rest, graphql, soap, websocket := rest - {id}, graphql - {id}, soap - {id}, websocket - {id};
      }
    }
  }
}
