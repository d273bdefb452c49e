/**
  * The edge function supabase/functions/proxy-vagas/index.ts: it answers the CORS preflight,
  * works out which sensor is asked for, forwards the request to the backend and unwraps the
  * history it returns. The HTTP server and `fetch` are outside the model: the backend is the
  * function parameter `backend`, from the URL it is called with to what it answers.
  */
module ProxyVagas {
  import opened Wrappers
  import opened Text
  import opened Sequences

  const BackendUrlBase: string := "https://25382ca97f25.ngrok-free.app"
  const MissingSensorError: string := "Parâmetro sensor é obrigatório"
  const ConnectError: string := "Erro ao conectar com backend"

  /** What the function reads of a request: its HTTP method, the `sensor` query parameter and the path. */
  datatype Request = Request(verb: string, sensorQuery: Option<string>, pathname: string)

  /** A JSON value; the numbers the backend sends are kept as reals. */
  datatype JsonValue =
    | JNull
    | JBool(b: bool)
    | JNumber(n: real)
    | JString(s: string)
    | JArray(elems: seq<JsonValue>)
    | JObject(fields: seq<(string, JsonValue)>)

  /** JavaScript truthiness of a parsed JSON value. */
  predicate Truthy(v: JsonValue) {
    match v
    case JNull => false
    case JBool(b) => b
    case JNumber(n) => n != 0.0
    case JString(s) => s != ""
    case JArray(_) => true
    case JObject(_) => true
  }

  /** A field of a parsed object; with a repeated key `JSON.parse` keeps the last value. */
  function Get(fields: seq<(string, JsonValue)>, key: string): (r: Option<JsonValue>)
    ensures r.None? <==> forall i :: 0 <= i < |fields| ==> fields[i].0 != key
    ensures r.Some? ==> exists i :: 0 <= i < |fields| && fields[i] == (key, r.value)
  {
    if fields == [] then None
    else if fields[|fields| - 1].0 == key then Some(fields[|fields| - 1].1)
    else Get(fields[..|fields| - 1], key)
  }

  /** What the backend does: no answer at all, or a status with a body that may not be JSON. */
  datatype BackendOutcome =
    | FetchFails
    | Answered(status: int, body: Option<JsonValue>)

  /** `response.ok`: a status in the 2xx range. */
  predicate Ok(status: int) {
    200 <= status <= 299
  }

  datatype ResponseBody =
    | TextBody(text: string)
    | JsonBody(value: JsonValue)
    | ErrorBody(error: string)

  /** A response; every one carries the CORS headers, so only the JSON content type varies. */
  datatype Response = Response(status: int, body: ResponseBody, jsonContentType: bool)

  /** `/^A\d{2}$/`: "A" and exactly two ASCII digits. */
  predicate IsSensorId(s: string) {
    |s| == 3 && s[0] == 'A' && IsDigit(s[1]) && IsDigit(s[2])
  }

  function NonEmpty(s: string): bool { s != "" }

  /** `url.pathname.split('/').filter(Boolean)`. */
  function PathParts(pathname: string): (parts: seq<string>)
    ensures forall i :: 0 <= i < |parts| ==> parts[i] != "" && '/' !in parts[i]
  {
    var split := Split(pathname);
    FilterMembers(split, NonEmpty);
    var parts := Filter(split, NonEmpty);
    assert forall i :: 0 <= i < |parts| ==> parts[i] in split && NonEmpty(parts[i]);
    parts
  }

  /** The last path segment, when it is shaped like a sensor id. */
  function PathSensor(pathname: string): (r: Option<string>)
    ensures r.Some? ==> IsSensorId(r.value) && r.value in PathParts(pathname)
  {
    var parts := PathParts(pathname);
    if |parts| > 0 && IsSensorId(parts[|parts| - 1]) then Some(parts[|parts| - 1]) else None
  }

  /** `sensorFromQuery || (path match ? sensorFromPath : null)`. */
  function ResolveSensor(req: Request): (r: Option<string>)
    ensures req.sensorQuery.Some? && req.sensorQuery.value != "" ==> r == req.sensorQuery
    ensures !(req.sensorQuery.Some? && req.sensorQuery.value != "") ==> r == PathSensor(req.pathname)
    ensures r.Some? ==> r.value != ""
  {
    if req.sensorQuery.Some? && req.sensorQuery.value != "" then req.sensorQuery else PathSensor(req.pathname)
  }

  /** `${BACKEND_URL}/vaga${sensor}.json`. */
  function BackendUrl(sensor: string): string {
    BackendUrlBase + "/vaga" + sensor + ".json"
  }

  /** The sensor a backend URL asks for: the text between the fixed prefix and ".json". */
  function SensorOfBackendUrl(url: string): Option<string> {
    var p := BackendUrlBase + "/vaga";
    if |url| >= |p| + 5 && url[..|p|] == p && url[|url| - 5..] == ".json" then Some(url[|p|..|url| - 5])
    else None
  }

  /** Every sensor, checked or not, is read back from the URL built for it. */
  lemma BackendUrlRoundTrip(sensor: string)
    ensures SensorOfBackendUrl(BackendUrl(sensor)) == Some(sensor)
  {
    var p := BackendUrlBase + "/vaga";
    var u := BackendUrl(sensor);
    assert u == p + sensor + ".json";
    assert u[..|p|] == p && u[|u| - 5..] == ".json" && u[|p|..|u| - 5] == sensor;
  }

  /**
    * `Array.isArray(data) ? data : (data.dados || data)`; `None` where reading `dados` throws,
    * which is on `null`.
    */
  function Unwrap(data: JsonValue): (r: Option<JsonValue>)
    ensures data.JArray? ==> r == Some(data)
    ensures data.JNull? <==> r.None?
    ensures data.JObject? ==>
      var d := Get(data.fields, "dados");
      r == if d.Some? && Truthy(d.value) then d else Some(data)
    ensures data.JBool? || data.JNumber? || data.JString? ==> r == Some(data)
  {
    match data
    case JArray(_) => Some(data)
    case JNull => None
    case JObject(fields) =>
      var d := Get(fields, "dados");
      if d.Some? && Truthy(d.value) then d else Some(data)
    case _ => Some(data)
  }

  /** The backend's `{ dados: [...] }` envelope is opened, and a bare history passes through. */
  lemma UnwrapEnvelope(history: seq<JsonValue>, others: seq<(string, JsonValue)>)
    requires forall i :: 0 <= i < |others| ==> others[i].0 != "dados"
    ensures Unwrap(JObject(others + [("dados", JArray(history))])) == Some(JArray(history))
    ensures Unwrap(JObject([("dados", JArray(history))] + others)) == Some(JArray(history))
    ensures Unwrap(JArray(history)) == Some(JArray(history))
  {
    var f := [("dados", JArray(history))] + others;
    GetSkipsOthers([("dados", JArray(history))], others, "dados");
  }

  lemma {:induction false} GetSkipsOthers(a: seq<(string, JsonValue)>, b: seq<(string, JsonValue)>, key: string)
    requires forall i :: 0 <= i < |b| ==> b[i].0 != key
    ensures Get(a + b, key) == Get(a, key)
  {
    if b != [] {
      var b' := b[..|b| - 1];
      assert (a + b)[..|a + b| - 1] == a + b';
      GetSkipsOthers(a, b', key);
    } else {
      assert a + b == a;
    }
  }

  function Error(status: int, message: string): Response {
    Response(status, ErrorBody(message), true)
  }

  /**
    * The whole handler: the response, and the URL the backend was called with, if it was.
    */
  function Handle(req: Request, backend: string -> BackendOutcome): (out: (Response, Option<string>))
    ensures req.verb == "OPTIONS" ==> out == (Response(200, TextBody("ok"), false), None)
    ensures req.verb != "OPTIONS" && ResolveSensor(req).None? ==>
      out == (Error(400, MissingSensorError), None)
    ensures req.verb != "OPTIONS" && ResolveSensor(req).Some? ==>
      out.1 == Some(BackendUrl(ResolveSensor(req).value)) &&
      out.0 == Forward(backend(BackendUrl(ResolveSensor(req).value)))
    ensures out.0.status == 200 <==> req.verb == "OPTIONS" || out.0.body.JsonBody?
  {
    if req.verb == "OPTIONS" then (Response(200, TextBody("ok"), false), None)
    else
      var sensor := ResolveSensor(req);
      if sensor.None? then (Error(400, MissingSensorError), None)
      else
        var url := BackendUrl(sensor.value);
        (Forward(backend(url)), Some(url))
  }

  /**
    * Whether `new Response(body, { status })` accepts a status for a response with a body: the
    * Fetch standard allows 200..599 only, and no body on 204, 205 and 304. On any other status
    * the constructor throws, and the handler's `catch` answers 500.
    */
  predicate ResponseAccepts(status: int) {
    200 <= status <= 599 && status != 204 && status != 205 && status != 304
  }

  /** What the handler answers once the backend was called. */
  function Forward(outcome: BackendOutcome): (r: Response)
    ensures outcome.Answered? && !Ok(outcome.status) ==>
      r == if ResponseAccepts(outcome.status) then Error(outcome.status, "Backend retornou " + IntToString(outcome.status))
        else Error(500, ConnectError)
    ensures outcome.FetchFails? ==> r == Error(500, ConnectError)
    ensures outcome.Answered? && Ok(outcome.status) ==>
      r == match outcome.body
        case None => Error(500, ConnectError)
        case Some(data) => if Unwrap(data).Some? then Response(200, JsonBody(Unwrap(data).value), true) else Error(500, ConnectError)
    ensures r.body.JsonBody? <==> r.status == 200
  {
    match outcome
    case FetchFails => Error(500, ConnectError)
    case Answered(status, body) =>
      if !Ok(status) then
        if ResponseAccepts(status) then Error(status, "Backend retornou " + IntToString(status)) else Error(500, ConnectError)
      else if body.None? then Error(500, ConnectError)
      else
        var h := Unwrap(body.value);
        if h.Some? then Response(200, JsonBody(h.value), true) else Error(500, ConnectError)
  }

  /** Whatever the backend does, the proxy answers with a status the Response constructor accepts. */
  lemma ForwardStatusAccepted(outcome: BackendOutcome)
    ensures ResponseAccepts(Forward(outcome).status)
  {
  }

  /** A backend status the constructor rejects, such as 304, becomes the 500 of the `catch`. */
  lemma RejectedStatusBecomes500(status: int, body: Option<JsonValue>)
    requires !Ok(status) && !ResponseAccepts(status)
    ensures Forward(Answered(status, body)) == Error(500, ConnectError)
  {
  }

  /**
    * Once the backend is called, its non-OK status reaches the client (when the constructor
    * accepts it) and a good reply reaches it unwrapped.
    */
  lemma HandlePassesBackendThrough(req: Request, backend: string -> BackendOutcome)
    requires req.verb != "OPTIONS" && ResolveSensor(req).Some?
    ensures var outcome := backend(BackendUrl(ResolveSensor(req).value));
      var r := Handle(req, backend).0;
      (outcome.Answered? && !Ok(outcome.status) && ResponseAccepts(outcome.status) ==> r.status == outcome.status) &&
      (outcome.Answered? && Ok(outcome.status) && outcome.body.Some? && Unwrap(outcome.body.value).Some? ==>
        r == Response(200, JsonBody(Unwrap(outcome.body.value).value), true))
  {
  }

  /** A segment after a last "/" is the last path part, unless it is empty. */
  lemma PathPartsAppend(t: string, b: string)
    requires '/' !in b
    ensures PathParts(t + "/" + b) == PathParts(t) + (if b != "" then [b] else [])
  {
    SplitAfterSeparator(t, b);
    var s := Split(t);
    assert (s + [b])[..|s|] == s;
  }

  /** A well-shaped path names the sensor at its end, with or without a trailing "/". */
  lemma PathNamesSensor(prefix: string, sensor: string)
    requires IsSensorId(sensor)
    ensures PathSensor(prefix + "/" + sensor) == Some(sensor)
    ensures PathSensor(prefix + "/" + sensor + "/") == Some(sensor)
  {
    assert '/' !in sensor;
    PathPartsAppend(prefix, sensor);
    PathPartsAppend(prefix + "/" + sensor, "");
    assert prefix + "/" + sensor + "/" == prefix + "/" + sensor + "/" + "";
  }

  /** A non-empty query parameter wins over the path, whatever either holds. */
  lemma QueryWins(q: string, pathname: string, verb: string)
    requires q != "" && verb != "OPTIONS"
    ensures ResolveSensor(Request(verb, Some(q), pathname)) == Some(q)
  {
  }

  /** Without the query parameter, a last path segment that is not a sensor id gives a 400. */
  lemma BadPathIsRejected(pathname: string, backend: string -> BackendOutcome)
    requires var parts := PathParts(pathname); |parts| == 0 || !IsSensorId(parts[|parts| - 1])
    ensures Handle(Request("GET", None, pathname), backend) == (Error(400, MissingSensorError), None)
    ensures Handle(Request("GET", Some(""), pathname), backend) == (Error(400, MissingSensorError), None)
  {
  }
}
