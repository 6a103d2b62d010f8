/**
 * Request routing of `lambda_handler`: the path and the HTTP method are
 * probed, in a fixed order, from the fields of the two API Gateway event
 * shapes (REST and HTTP API), and the route is chosen by path suffix and
 * method.
 */
module Routing {
  import opened Wrappers
  import opened Text

  /** A decoded JSON value, the shape of the Lambda event. */
  datatype Json =
    | JNull
    | JBool(b: bool)
    | JNumber(n: int)
    | JString(s: string)
    | JArray(items: seq<Json>)
    | JObject(fields: map<string, Json>)

  /** `dict.get(key, default)`. */
  function Get(fields: map<string, Json>, key: string, default: Json): Json {
    if key in fields then fields[key] else default
  }

  /** The value of the first of `keys` present in `fields`, else `default`. */
  function FirstPresent(fields: map<string, Json>, keys: seq<string>, default: Json): Json {
    if keys == [] then default
    else if keys[0] in fields then fields[keys[0]]
    else FirstPresent(fields, keys[1..], default)
  }

  /** The path: `resource`, else `rawPath`, else `path`, else "". It never raises. */
  function ExtractPath(event: map<string, Json>): (path: Json)
    ensures path == FirstPresent(event, ["resource", "rawPath", "path"], JString(""))
  {
    var keys := ["resource", "rawPath", "path"];
    var none := JString("");
    assert keys[1..] == ["rawPath", "path"] && keys[1..][1..] == ["path"] && keys[1..][1..][1..] == [];
    assert FirstPresent(event, ["path"], none) == Get(event, "path", none);
    assert FirstPresent(event, ["rawPath", "path"], none) == Get(event, "rawPath", Get(event, "path", none));
    Get(event, "resource", Get(event, "rawPath", Get(event, "path", JString(""))))
  }

  /**
   * The method probe calls `.get` on `requestContext` and on its `http`
   * member whether or not `httpMethod` is present (Python evaluates the
   * default argument first); it raises when either is present but not an
   * object.
   */
  predicate ProbeRaises(event: map<string, Json>) {
    "requestContext" in event &&
    var context := event["requestContext"];
    !context.JObject? || ("http" in context.fields && !context.fields["http"].JObject?)
  }

  /** `requestContext.http.method` where every level is present and an object. */
  predicate HasNestedMethod(event: map<string, Json>) {
    && "requestContext" in event && event["requestContext"].JObject?
    && "http" in event["requestContext"].fields && event["requestContext"].fields["http"].JObject?
    && "method" in event["requestContext"].fields["http"].fields
  }

  /** The method: `httpMethod`, else `requestContext.http.method`, else ""; None when the probe raises. */
  function ExtractMethod(event: map<string, Json>): (verb: Option<Json>)
    ensures verb.None? <==> ProbeRaises(event)
    ensures verb.Some? && "httpMethod" in event ==> verb.value == event["httpMethod"]
    ensures verb.Some? && "httpMethod" !in event && HasNestedMethod(event) ==>
      verb.value == event["requestContext"].fields["http"].fields["method"]
    ensures verb.Some? && "httpMethod" !in event && !HasNestedMethod(event) ==> verb.value == JString("")
  {
    var context := Get(event, "requestContext", JObject(map[]));
    if !context.JObject? then None
    else
      var http := Get(context.fields, "http", JObject(map[]));
      if !http.JObject? then None
      else Some(Get(event, "httpMethod", Get(http.fields, "method", JString(""))))
  }

  /**
   * The nested default is evaluated before `httpMethod` is looked at, so
   * setting `httpMethod` neither causes nor prevents the raise.
   */
  lemma HttpMethodDoesNotGuardProbe(event: map<string, Json>, verb: Json)
    ensures ExtractMethod(event["httpMethod" := verb]).None? <==> ProbeRaises(event)
  {
  }

  /** A REST API event: `resource` and `httpMethod` are read directly. */
  lemma RestEnvelope(event: map<string, Json>)
    requires "resource" in event && "httpMethod" in event
    requires "requestContext" in event ==> event["requestContext"].JObject?
    requires "requestContext" in event && "http" in event["requestContext"].fields ==>
      event["requestContext"].fields["http"].JObject?
    ensures ExtractPath(event) == event["resource"]
    ensures ExtractMethod(event) == Some(event["httpMethod"])
  {
  }

  /** An HTTP API event: `rawPath` and `requestContext.http.method`. */
  lemma HttpApiEnvelope(event: map<string, Json>)
    requires "resource" !in event && "rawPath" in event && "httpMethod" !in event
    requires HasNestedMethod(event)
    ensures ExtractPath(event) == event["rawPath"]
    ensures ExtractMethod(event) == Some(event["requestContext"].fields["http"].fields["method"])
  {
  }

  /** An event with none of the probed fields reads as path "" and method "" without raising. */
  lemma MissingFieldsDoNotRaise(event: map<string, Json>)
    requires forall key :: key in ["resource", "rawPath", "path", "httpMethod", "requestContext"] ==> key !in event
    ensures ExtractPath(event) == JString("")
    ensures ExtractMethod(event) == Some(JString(""))
  {
  }

  datatype Route = CreateRoute | DestroyRoute | InvalidRoute

  const Post := JString("POST")

  /** No path ends with both `/create` and `/destroy`. */
  lemma SuffixesExclusive(path: string)
    ensures !(EndsWith(path, "/create") && EndsWith(path, "/destroy"))
  {
    if EndsWith(path, "/create") {
      assert path[|path| - 1] == "/create"[6] == 'e';
    }
  }

  /** The route; the `/create` test comes first in the source, though the suffixes never overlap. */
  function RouteOf(path: string, verb: Json): (r: Route)
    ensures r == CreateRoute <==> EndsWith(path, "/create") && verb == Post
    ensures r == DestroyRoute <==> EndsWith(path, "/destroy") && verb == Post
    ensures r == InvalidRoute <==> verb != Post || (!EndsWith(path, "/create") && !EndsWith(path, "/destroy"))
  {
    SuffixesExclusive(path);
    if EndsWith(path, "/create") && verb == Post then CreateRoute
    else if EndsWith(path, "/destroy") && verb == Post then DestroyRoute
    else InvalidRoute
  }
}
