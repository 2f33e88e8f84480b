/** The wire form of an endpoint: endpointToJson and parseEndpointPayload of the controller. */
module EndpointWire {
  import opened Common
  import opened JsonValues
  import opened Endpoints
  import opened Printing
  import opened EndpointStore

  // ---- JsonCpp accessors; None stands for its exception ----

  // value[key] and value.isMember(key): null reads as an object without members, any other non-object throws.
  function Member(j: Json, key: string): Option<Option<Json>> {
    match j
    case Null => Some(None)
    case Obj(fields) => Some(if key in fields then Some(fields[key]) else None)
    case _ => None
  }

  // asString(): numbers and booleans are printed, null is empty, arrays and objects throw.
  function AsString(j: Json): Option<string> {
    match j
    case Null => Some("")
    case Str(s) => Some(s)
    case Bool(b) => Some(if b then "true" else "false")
    case Num(n) => Some(Decimal(n))
    case _ => None
  }

  // value[key].asString()
  function TextOr(j: Json, key: string, missing: string): Option<string> {
    match Member(j, key)
    case None => None
    case Some(None) => Some(missing)
    case Some(Some(v)) => AsString(v)
  }

  function ValueOr(j: Json, key: string, missing: Json): Option<Json> {
    match Member(j, key)
    case None => None
    case Some(v) => Some(v.GetOr(missing))
  }

  // ---- the two directions as functions ----

  function DetailsToJson(d: Details): Json {
    match d
    case RestDetails(m, url, params, headers, body, raw) =>
      Obj(map["method" := Str(MethodToString(m)), "url_path" := Str(url), "query_params" := params,
              "headers" := headers, "body" := body, "body_raw" := Str(raw)])
    case GraphqlDetails(query, variables, schemaUrl) =>
      var fields := map["query" := Str(query), "variables" := variables];
      Obj(if schemaUrl.Some? then fields["schema_url" := Str(schemaUrl.value)] else fields)
    case SoapDetails(wsdl, operation, xml) =>
      Obj(map["wsdl_url" := Str(wsdl), "operation" := Str(operation), "request_xml" := Str(xml)])
    case WebsocketDetails(url, protocols, samples) =>
      Obj(map["connection_url" := Str(url), "protocols" := StringsToJson(protocols), "sample_messages" := samples])
  }

  function Printed(e: Endpoint): Json {
    Obj(map["id" := Str(e.id), "project_id" := Str(e.projectId), "type" := Str(TypeToString(e.kind)),
            "status" := Str(e.status), "created_by" := Str(e.createdBy), "name" := e.name,
            "description" := e.description, "details" := DetailsToJson(e.details)])
  }

  function RestFromJson(j: Json): Option<Details> {
    var m, url := TextOr(j, "method", ""), TextOr(j, "url_path", "");
    var params, headers := ValueOr(j, "query_params", EMPTY_ARRAY), ValueOr(j, "headers", EMPTY_ARRAY);
    var body, raw := ValueOr(j, "body", EMPTY_OBJECT), TextOr(j, "body_raw", "");
    if m.None? || url.None? || params.None? || headers.None? || body.None? || raw.None? then None
    else Some(RestDetails(MethodFromString(m.value), url.value, params.value, headers.value, body.value, raw.value))
  }

  function GraphqlFromJson(j: Json): Option<Details> {
    var query, variables, schema := TextOr(j, "query", ""), ValueOr(j, "variables", EMPTY_OBJECT),
        Member(j, "schema_url");
    if query.None? || variables.None? || schema.None? then None
    else if schema.value.None? then Some(GraphqlDetails(query.value, variables.value, None))
    else if AsString(schema.value.value).None? then None
    else Some(GraphqlDetails(query.value, variables.value, AsString(schema.value.value)))
  }

  function SoapFromJson(j: Json): Option<Details> {
    var wsdl, operation, xml := TextOr(j, "wsdl_url", ""), TextOr(j, "operation", ""), TextOr(j, "request_xml", "");
    if wsdl.None? || operation.None? || xml.None? then None
    else Some(SoapDetails(wsdl.value, operation.value, xml.value))
  }

  function WebsocketFromJson(j: Json): Option<Details> {
    var url, protocols, samples := TextOr(j, "connection_url", ""), ValueOr(j, "protocols", EMPTY_ARRAY),
        ValueOr(j, "sample_messages", EMPTY_ARRAY);
    if url.None? || protocols.None? || samples.None? || JsonToStrings(protocols.value).None? then None
    else Some(WebsocketDetails(url.value, JsonToStrings(protocols.value).value, samples.value))
  }

  function DetailsFromJson(j: Json, kind: EndpointType): (d: Option<Details>)
    ensures d.Some? ==> KindOf(d.value) == kind
  {
    match kind
    case Rest => RestFromJson(j)
    case Graphql => GraphqlFromJson(j)
    case Soap => SoapFromJson(j)
    case Websocket => WebsocketFromJson(j)
  }

  // The id and the timestamps are not read: they keep their defaults.
  function Parsed(json: Json, projectId: UUID, userId: UUID): Outcome<Endpoint> {
    var kind, status := TextOr(json, "type", ""), TextOr(json, "status", "draft");
    var name, description := ValueOr(json, "name", Null), ValueOr(json, "description", EMPTY_OBJECT);
    var details := ValueOr(json, "details", Null);
    if kind.None? || status.None? || name.None? || description.None? || details.None? then Thrown
    else match DetailsFromJson(details.value, TypeFromString(kind.value))
      case None => Thrown
      case Some(d) =>
        Returned(Endpoint("", projectId, name.value, description.value, TypeFromString(kind.value), status.value,
            userId, 0, 0, d))
  }

  // ---- they are inverse on matching endpoints ----

  lemma DetailsWire(d: Details)
    ensures DetailsFromJson(DetailsToJson(d), KindOf(d)) == Some(d)
  {
    match d
    case RestDetails(m, url, params, headers, body, raw) => RestWire(d);
    case GraphqlDetails(query, variables, schemaUrl) =>
      assert "query" != "variables" && |"schema_url"| > |"variables"|;
    case SoapDetails(wsdl, operation, xml) =>
      assert "wsdl_url" != "operation" && "operation" != "request_xml" && "wsdl_url" != "request_xml";
    case WebsocketDetails(url, protocols, samples) =>
      assert "connection_url" != "protocols" && "protocols" != "sample_messages"
          && "connection_url" != "sample_messages";
      StringsRoundTrip(protocols);
  }

  lemma RestWire(d: Details)
    requires d.RestDetails?
    ensures RestFromJson(DetailsToJson(d)) == Some(d)
  {
    CodecsRoundTrip(Rest, d.httpMethod, "");
    RestMembers(d);
    hide MethodToString, MethodFromString, DetailsToJson;
  }

  lemma RestMembers(d: Details)
    requires d.RestDetails?
    ensures var f := DetailsToJson(d);
            && f.Field("method") == Some(Str(MethodToString(d.httpMethod)))
            && f.Field("url_path") == Some(Str(d.urlPath))
            && f.Field("query_params") == Some(d.queryParams) && f.Field("headers") == Some(d.headers)
            && f.Field("body") == Some(d.body) && f.Field("body_raw") == Some(Str(d.bodyRaw))
  {
    hide MethodToString;
    var f := DetailsToJson(d).fields;
    assert "body_raw"[0] != "url_path"[0] && "body_raw" != "body" && |"headers"| == 7 && |"method"| == 6
        && |"query_params"| == 12;
    assert f["method"] == Str(MethodToString(d.httpMethod)) && f["url_path"] == Str(d.urlPath)
        && f["query_params"] == d.queryParams;
    assert f["headers"] == d.headers && f["body"] == d.body && f["body_raw"] == Str(d.bodyRaw);
  }

  /** The members of a printed endpoint. */
  lemma PrintedFields(e: Endpoint)
    ensures Printed(e).Field("id") == Some(Str(e.id)) && Printed(e).Field("project_id") == Some(Str(e.projectId))
    ensures Printed(e).Field("created_by") == Some(Str(e.createdBy))
    ensures Printed(e).Field("type") == Some(Str(TypeToString(e.kind)))
        && Printed(e).Field("status") == Some(Str(e.status))
    ensures Printed(e).Field("name") == Some(e.name) && Printed(e).Field("description") == Some(e.description)
    ensures Printed(e).Field("details") == Some(DetailsToJson(e.details))
  {
    hide TypeToString, DetailsToJson;
    assert |"id"| == 2 && |"project_id"| == 10 && |"created_by"| == 10 && |"status"| == 6 && |"description"| == 11
        && |"details"| == 7;
    assert "type"[0] != "name"[0] && "project_id"[0] != "created_by"[0];
  }

  /** And of its details, for each variant; the schema URL is there only if the endpoint has one. */
  lemma PrintedDetails(d: Details)
    ensures var j := DetailsToJson(d);
            match d
            case RestDetails(m, url, params, headers, body, raw) =>
              && j.Field("method") == Some(Str(MethodToString(m))) && j.Field("url_path") == Some(Str(url))
              && j.Field("query_params") == Some(params) && j.Field("headers") == Some(headers)
              && j.Field("body") == Some(body) && j.Field("body_raw") == Some(Str(raw))
            case GraphqlDetails(query, variables, schemaUrl) =>
              && j.Field("query") == Some(Str(query)) && j.Field("variables") == Some(variables)
              && j.Field("schema_url") == if schemaUrl.Some? then Some(Str(schemaUrl.value)) else None
            case SoapDetails(wsdl, operation, xml) =>
              && j.Field("wsdl_url") == Some(Str(wsdl)) && j.Field("operation") == Some(Str(operation))
              && j.Field("request_xml") == Some(Str(xml))
            case WebsocketDetails(url, protocols, samples) =>
              && j.Field("connection_url") == Some(Str(url)) && j.Field("sample_messages") == Some(samples)
              && j.Field("protocols")
                 == Some(Arr(seq(|protocols|, i requires 0 <= i < |protocols| => Str(protocols[i]))))
  {
    hide MethodToString;
    match d
    case RestDetails(_, _, _, _, _, _) => RestMembers(d);
    case GraphqlDetails(_, _, _) => assert |"query"| == 5 && |"variables"| == 9 && |"schema_url"| == 10;
    case SoapDetails(_, _, _) => assert |"wsdl_url"| == 8 && |"operation"| == 9 && |"request_xml"| == 11;
    case WebsocketDetails(_, _, _) =>
      assert |"connection_url"| == 14 && |"protocols"| == 9 && |"sample_messages"| == 15;
  }

  /** For every endpoint: printing then parsing gives back all the payload carries (name, description, type, status,
      details), with the identity the caller supplies, exactly when the details agree with the type. */
  lemma ParsePrintIff(e: Endpoint, projectId: UUID, userId: UUID)
    ensures Matching(e) <==>
              Parsed(Printed(e), projectId, userId) ==
              Returned(e.(id := "", projectId := projectId, createdBy := userId, createdAt := 0, updatedAt := 0))
  {
    PrintedFields(e);
    TypeReadsBack(e.kind);
    hide TypeFromString, TypeToString, DetailsToJson, Printed;
    if Matching(e) {
      DetailsWire(e.details);
    }
  }

  /** Whatever JSON arrives, an accepted payload is an endpoint whose details match its type, and printing it
      loses nothing: it parses to itself again. */
  lemma ParsedIsMatching(json: Json, projectId: UUID, userId: UUID)
    requires Parsed(json, projectId, userId).Returned?
    ensures var e := Parsed(json, projectId, userId).value;
            && Matching(e) && e.id == "" && e.projectId == projectId && e.createdBy == userId
            && Parsed(Printed(e), projectId, userId) == Returned(e)
  {
    ParsePrintIff(Parsed(json, projectId, userId).value, projectId, userId);
  }

  // ---- what a payload may leave out, and what is refused ----

  // The members of a payload's details: none if they are absent or null.
  function DetailMembers(fields: map<string, Json>): map<string, Json> {
    if "details" in fields && fields["details"].Obj? then fields["details"].fields else map[]
  }

  lemma AbsentDetails(j: Json, kind: EndpointType)
    requires DetailsFromJson(j, kind).Some?
    ensures var d := if j.Obj? then j.fields else map[];
            match DetailsFromJson(j, kind).value
            case RestDetails(m, url, params, headers, body, raw) =>
              && ("method" !in d ==> m == Get) && ("url_path" !in d ==> url == "")
              && ("query_params" !in d ==> params == Arr([])) && ("headers" !in d ==> headers == Arr([]))
              && ("body" !in d ==> body == Obj(map[])) && ("body_raw" !in d ==> raw == "")
            case GraphqlDetails(query, variables, schemaUrl) =>
              && ("query" !in d ==> query == "") && ("variables" !in d ==> variables == Obj(map[]))
              && ("schema_url" !in d <==> schemaUrl == None)
            case SoapDetails(wsdl, operation, xml) =>
              && ("wsdl_url" !in d ==> wsdl == "") && ("operation" !in d ==> operation == "")
              && ("request_xml" !in d ==> xml == "")
            case WebsocketDetails(url, protocols, samples) =>
              && ("connection_url" !in d ==> url == "") && ("protocols" !in d ==> protocols == [])
              && ("sample_messages" !in d ==> samples == Arr([]))
  {
    hide Decimal;
  }

  /** What is taken for members that are not there: type REST, status "draft", a null name, an empty description, and
      details without members, for which AbsentDetails says that they are GET, empty texts, empty collections and no
      schema URL. */
  lemma AbsentMembers(fields: map<string, Json>, projectId: UUID, userId: UUID)
    requires Parsed(Obj(fields), projectId, userId).Returned?
    ensures var e := Parsed(Obj(fields), projectId, userId).value;
            && ("type" !in fields ==> e.kind == Rest) && ("status" !in fields ==> e.status == "draft")
            && ("name" !in fields ==> e.name == Null) && ("description" !in fields ==> e.description == Obj(map[]))
            && DetailsFromJson(Obj(DetailMembers(fields)), e.kind) == Some(e.details)
  {
    hide Decimal, RestFromJson, GraphqlFromJson, SoapFromJson, WebsocketFromJson;
    var e := Parsed(Obj(fields), projectId, userId).value;
    if "details" !in fields || fields["details"].Null? {
      NullDetails(e.kind);
    } else {
      DetailsAccepted(fields["details"], e.kind);
    }
  }

  lemma NullDetails(kind: EndpointType)
    ensures DetailsFromJson(Null, kind) == DetailsFromJson(Obj(map[]), kind)
  {
    hide MethodFromString;
  }

  // The member is absent or converts to text: only arrays and objects do not.
  predicate Texty(fields: map<string, Json>, key: string) {
    key in fields ==> !fields[key].Arr? && !fields[key].Obj?
  }

  // The type a payload names, if it names one by a string.
  function NamedType(fields: map<string, Json>): EndpointType {
    if "type" in fields && fields["type"].Str? then TypeFromString(fields["type"].s) else Rest
  }

  lemma PrintedIsNoType(n: int, b: bool)
    ensures TypeFromString(Decimal(n)) == Rest && TypeFromString(if b then "true" else "false") == Rest
    ensures TypeFromString("") == Rest
  {
    var s := Decimal(n);
    var i :| 0 <= i < |s| && IsDigit(s[i]);
    assert "true"[0] != "GRAPHQL"[0] && "false"[0] != "SOAP"[0] && "true"[0] != "SOAP"[0];
  }

  // The details' members convert, for the type.
  predicate DetailsConvert(d: map<string, Json>, kind: EndpointType) {
    match kind
    case Rest => Texty(d, "method") && Texty(d, "url_path") && Texty(d, "body_raw")
    case Graphql => Texty(d, "query") && Texty(d, "schema_url")
    case Soap => Texty(d, "wsdl_url") && Texty(d, "operation") && Texty(d, "request_xml")
    case Websocket =>
      && Texty(d, "connection_url")
      && ("protocols" in d ==> d["protocols"].Arr? && forall p :: p in d["protocols"].items ==> p.Str?)
  }

  lemma DetailsAccepted(j: Json, kind: EndpointType)
    ensures DetailsFromJson(j, kind).Some? <==>
              (j.Null? || j.Obj?) && DetailsConvert(if j.Obj? then j.fields else map[], kind)
  {
    hide MethodFromString, Decimal;
  }

  /** Exactly what is refused with an exception: an object payload whose type or status is an array or an object, whose
      details are neither null nor an object, or whose details hold, for their type, an array or an object where a text
      belongs, or protocols that are not an array of strings. */
  lemma AcceptedPayloads(fields: map<string, Json>, projectId: UUID, userId: UUID)
    ensures Parsed(Obj(fields), projectId, userId).Returned? <==>
              && Texty(fields, "type") && Texty(fields, "status")
              && ("details" in fields ==> fields["details"].Null? || fields["details"].Obj?)
              && DetailsConvert(DetailMembers(fields), NamedType(fields))
  {
    TypeNamed(fields);
    var details := if "details" in fields then fields["details"] else Null;
    forall kind { DetailsAccepted(details, kind); }
    hide TypeFromString, Decimal, DetailsFromJson, DetailsConvert;
  }

  lemma TypeNamed(fields: map<string, Json>)
    ensures TextOr(Obj(fields), "type", "").Some? <==> Texty(fields, "type")
    ensures Texty(fields, "type") ==> TypeFromString(TextOr(Obj(fields), "type", "").value) == NamedType(fields)
  {
    PrintedIsNoType(0, true);
    if "type" in fields {
      match fields["type"]
      case Num(n) => PrintedIsNoType(n, true);
      case Bool(b) => PrintedIsNoType(0, b);
      case _ =>
    }
    hide TypeFromString, Decimal;
  }

  // ---- the controller's methods ----

  method EndpointToJson(e: Endpoint) returns (payload: Json)
    ensures payload == Printed(e)
  {
    var fields: map<string, Json> := map[];
    fields := fields["id" := Str(e.id)];
    fields := fields["project_id" := Str(e.projectId)];
    fields := fields["type" := Str(TypeToString(e.kind))];
    fields := fields["status" := Str(e.status)];
    fields := fields["created_by" := Str(e.createdBy)];
    fields := fields["name" := e.name];
    fields := fields["description" := e.description];

    var details: map<string, Json> := map[];
    match e.details {
      case RestDetails(m, url, params, headers, body, raw) =>
        details := details["method" := Str(MethodToString(m))];
        details := details["url_path" := Str(url)];
        details := details["query_params" := params];
        details := details["headers" := headers];
        details := details["body" := body];
        details := details["body_raw" := Str(raw)];
      case GraphqlDetails(query, variables, schemaUrl) =>
        details := details["query" := Str(query)];
        details := details["variables" := variables];
        if schemaUrl.Some? {
          details := details["schema_url" := Str(schemaUrl.value)];
        }
      case SoapDetails(wsdl, operation, xml) =>
        details := details["wsdl_url" := Str(wsdl)];
        details := details["operation" := Str(operation)];
        details := details["request_xml" := Str(xml)];
      case WebsocketDetails(url, protocols, samples) =>
        details := details["connection_url" := Str(url)];
        details := details["protocols" := StringsToJson(protocols)];
        details := details["sample_messages" := samples];
    }
    fields := fields["details" := Obj(details)];
    return Obj(fields);
  }

  const EMPTY_ENDPOINT: Endpoint := Endpoint("", "", EMPTY_OBJECT, EMPTY_OBJECT, Rest, "draft", "", 0, 0, DEFAULT_REST)

  method ParseEndpointPayload(json: Json, projectId: UUID, userId: UUID) returns (r: Outcome<Endpoint>)
    ensures r == Parsed(json, projectId, userId)
    ensures r.Returned? ==> Matching(r.value) && r.value.projectId == projectId && r.value.createdBy == userId
  {
    var e := EMPTY_ENDPOINT;
    e := e.(projectId := projectId);
    e := e.(createdBy := userId);
    var kind := TextOr(json, "type", "");
    if kind.None? { return Thrown; }
    e := e.(kind := TypeFromString(kind.value));
    var status := TextOr(json, "status", "draft");
    if status.None? { return Thrown; }
    e := e.(status := status.value);
    var name := ValueOr(json, "name", Null);
    if name.None? { return Thrown; }
    e := e.(name := name.value);
    var description := ValueOr(json, "description", EMPTY_OBJECT);
    if description.None? { return Thrown; }
    e := e.(description := description.value);
    var details := ValueOr(json, "details", Null);
    if details.None? { return Thrown; }
    var parsed := DetailsFromJson(details.value, e.kind);
    if parsed.None? { return Thrown; }
    e := e.(details := parsed.value);
    return Returned(e);
  }
}
