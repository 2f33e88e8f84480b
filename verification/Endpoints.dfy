/** The endpoint aggregate of domain/endpoint.hpp and its string codecs. */
module Endpoints {
  import opened Common
  import opened JsonValues

  datatype EndpointType = Rest | Graphql | Soap | Websocket

  datatype HttpMethod = Get | Post | Put | Delete | Patch | Head | Options

  datatype Details =
    | RestDetails(httpMethod: HttpMethod, urlPath: string, queryParams: Json, headers: Json, body: Json,
        bodyRaw: string)
    | GraphqlDetails(query: string, variables: Json, schemaUrl: Option<string>)
    | SoapDetails(wsdlUrl: string, operation: string, requestXml: string)
    | WebsocketDetails(connectionUrl: string, protocols: seq<string>, sampleMessages: Json)

  datatype Endpoint = Endpoint(
    id: UUID,
    projectId: UUID,
    name: Json,
    description: Json,
    kind: EndpointType,
    status: string,
    createdBy: UUID,
    createdAt: int,
    updatedAt: int,
    details: Details)

  function KindOf(details: Details): EndpointType {
    match details
    case RestDetails(_, _, _, _, _, _) => Rest
    case GraphqlDetails(_, _, _) => Graphql
    case SoapDetails(_, _, _) => Soap
    case WebsocketDetails(_, _, _) => Websocket
  }

  // The details variant agrees with the declared type.
  predicate Matching(e: Endpoint) { KindOf(e.details) == e.kind }

  const DEFAULT_REST: Details := RestDetails(Get, "", EMPTY_ARRAY, EMPTY_ARRAY, EMPTY_OBJECT, "")

  function TypeToString(t: EndpointType): string {
    match t
    case Graphql => "GRAPHQL"
    case Soap => "SOAP"
    case Websocket => "WEBSOCKET"
    case Rest => "REST"
  }

  function TypeFromString(s: string): EndpointType {
    if s == "GRAPHQL" then Graphql
    else if s == "SOAP" then Soap
    else if s == "WEBSOCKET" then Websocket
    else Rest
  }

  function MethodToString(m: HttpMethod): string {
    match m
    case Post => "POST"
    case Put => "PUT"
    case Delete => "DELETE"
    case Patch => "PATCH"
    case Head => "HEAD"
    case Options => "OPTIONS"
    case Get => "GET"
  }

  function MethodFromString(s: string): HttpMethod {
    if s == "POST" then Post
    else if s == "PUT" then Put
    else if s == "DELETE" then Delete
    else if s == "PATCH" then Patch
    else if s == "HEAD" then Head
    else if s == "OPTIONS" then Options
    else Get
  }

  /** Both codecs read back what they print; a string survives the way in and out only if it is a printed one. */
  lemma CodecsRoundTrip(t: EndpointType, m: HttpMethod, s: string)
    ensures TypeFromString(TypeToString(t)) == t && MethodFromString(MethodToString(m)) == m
    ensures TypeToString(TypeFromString(s)) == s <==> s in ["REST", "GRAPHQL", "SOAP", "WEBSOCKET"]
    ensures MethodToString(MethodFromString(s)) == s
        <==> s in ["GET", "POST", "PUT", "DELETE", "PATCH", "HEAD", "OPTIONS"]
  {
    assert "GRAPHQL" != "SOAP" && "GRAPHQL" != "WEBSOCKET" && "SOAP" != "REST" && "SOAP"[0] != "WEBSOCKET"[0];
    var types := ["REST", "GRAPHQL", "SOAP", "WEBSOCKET"];
    assert types[0] == "REST" && types[1] == "GRAPHQL" && types[2] == "SOAP" && types[3] == "WEBSOCKET";
    var methods := ["GET", "POST", "PUT", "DELETE", "PATCH", "HEAD", "OPTIONS"];
    assert methods[0] == "GET" && methods[1] == "POST" && methods[2] == "PUT" && methods[3] == "DELETE";
    assert methods[4] == "PATCH" && methods[5] == "HEAD" && methods[6] == "OPTIONS";
    assert "POST"[1] != "PUT"[1];
  }

  /** The names themselves, as rows and payloads carry them. */
  lemma CodecNames()
    ensures TypeToString(Rest) == "REST" && TypeToString(Graphql) == "GRAPHQL" && TypeToString(Soap) == "SOAP"
         && TypeToString(Websocket) == "WEBSOCKET"
    ensures MethodToString(Get) == "GET" && MethodToString(Post) == "POST" && MethodToString(Put) == "PUT"
         && MethodToString(Delete) == "DELETE" && MethodToString(Patch) == "PATCH" && MethodToString(Head) == "HEAD"
         && MethodToString(Options) == "OPTIONS"
  {
  }

  /** Any other name reads as REST, or as GET. */
  lemma OtherNames(s: string)
    ensures s !in ["GRAPHQL", "SOAP", "WEBSOCKET"] ==> TypeFromString(s) == Rest
    ensures s !in ["POST", "PUT", "DELETE", "PATCH", "HEAD", "OPTIONS"] ==> MethodFromString(s) == Get
  {
    var types, methods := ["GRAPHQL", "SOAP", "WEBSOCKET"], ["POST", "PUT", "DELETE", "PATCH", "HEAD", "OPTIONS"];
    assert types[0] == "GRAPHQL" && types[1] == "SOAP" && types[2] == "WEBSOCKET";
    assert methods[0] == "POST" && methods[1] == "PUT" && methods[2] == "DELETE" && methods[3] == "PATCH"
        && methods[4] == "HEAD" && methods[5] == "OPTIONS";
  }
}
