/**
 * The API client of the admin front end (src/services/api.js): one `request`
 * function that builds the URL and headers, hands the request to `fetch`, and
 * turns the response into a value or a failure message; plus one endpoint per
 * REST operation. `fetch`, `localStorage` and `JSON.parse` are parameters:
 * the stored token, the fetch outcome and a parser function.
 */
module Api {
  import opened Wrappers
  import opened JsValue
  import JsNumber

  datatype Method = GET | POST | PUT | DELETE

  /** The three managed collections. */
  datatype Collection = Users | Roles | Permissions

  function CollectionPath(c: Collection): string {
    match c
    case Users => "/users"
    case Roles => "/roles"
    case Permissions => "/permissions"
  }

  /** The `options` argument of `request`; absent members are `undefined`. */
  datatype Options = Options(verb: Option<Method>, body: Option<Json>, headers: Option<map<string, string>>)

  const NoOptions := Options(None, None, None)

  /** One call of `request(path, options)`; the body is the value handed to `JSON.stringify`. */
  datatype Call = Call(path: string, options: Options)

  // ---------------------------------------------------------------------------
  // Building the request

  /** `process.env.REACT_APP_API_BASE_URL || ''` */
  function ApiBase(env: Option<string>): (base: string)
    ensures env.None? ==> base == ""
    ensures env.Some? ==> base == env.value
  {
    OrElse(env.GetOr(""), "")
  }

  /** `localStorage.getItem` yields a string or null; only a non-empty string is truthy. */
  predicate TokenSet(stored: Option<string>) {
    stored.Some? && stored.value != ""
  }

  const ContentType := "Content-Type"
  const Authorization := "Authorization"

  /**
   * The header object: the JSON content type, then the bearer header when the
   * stored token is truthy, then the caller's headers. Later entries of an
   * object spread win, so caller headers override both defaults.
   */
  function Headers(stored: Option<string>, extra: Option<map<string, string>>): (h: map<string, string>)
    ensures h.Keys == {ContentType} + (if TokenSet(stored) then {Authorization} else {}) + extra.GetOr(map[]).Keys
    ensures forall k :: k in extra.GetOr(map[]) ==> h[k] == extra.GetOr(map[])[k]
    ensures ContentType !in extra.GetOr(map[]) ==> h[ContentType] == "application/json"
    ensures Authorization !in extra.GetOr(map[]) ==>
              (Authorization in h <==> TokenSet(stored))
    ensures Authorization !in extra.GetOr(map[]) && TokenSet(stored) ==>
              h[Authorization] == "Bearer " + stored.value
  {
    var defaults := map[ContentType := "application/json"];
    var bearer := if TokenSet(stored) then map[Authorization := "Bearer " + stored.value] else map[];
    defaults + bearer + extra.GetOr(map[])
  }

  /** What is handed to `fetch`: the URL and the init object. */
  datatype HttpRequest = HttpRequest(url: string, verb: Method, headers: map<string, string>, body: Option<Json>)

  /** `fetch(`${API_BASE}${path}`, { ...options, headers })`; fetch defaults the method to GET. */
  function Prepare(base: string, stored: Option<string>, call: Call): HttpRequest {
    HttpRequest(base + call.path, call.options.verb.GetOr(GET),
                Headers(stored, call.options.headers), call.options.body)
  }

  // ---------------------------------------------------------------------------
  // Reading the response

  /** The parts of a fetch `Response` that `request` reads. */
  datatype Response = Response(status: int, statusText: string, text: string)

  /** `res.ok`: the status is in the range 200 to 299. */
  predicate Ok(r: Response) {
    200 <= r.status <= 299
  }

  /** The outcome of `JSON.parse(text)`: a value, or a thrown SyntaxError with its message. */
  datatype Parsed = Parsed(value: Json) | SyntaxError(message: string)

  /**
   * The outcome of `await fetch(...)` and, unless the status is 204, of
   * `await res.text()`: a response with its body, a rejected fetch (network
   * failure), or a response whose body could not be read (the connection
   * dropped while it streamed), with the rejection's message.
   */
  datatype Fetched =
    | Received(response: Response)
    | NetworkError(message: string)
    | BodyUnreadable(status: int, message: string)

  /** How `request` settles: resolved with a value (null included), or rejected with an Error's message. */
  datatype ApiResult = Done(data: Json) | Failed(message: string)

  /**
   * The message of the Error thrown for a non-ok response with body `data`:
   * `data?.message || data?.detail || res.statusText`, converted by `new Error`.
   */
  function FailureMessage(data: Json, statusText: string): (m: string)
    ensures data.JObj? && "message" in data.fields && Truthy(data.fields["message"]) ==>
              m == ToJsString(data.fields["message"])
    ensures !(data.JObj? && "message" in data.fields && Truthy(data.fields["message"])) &&
            data.JObj? && "detail" in data.fields && Truthy(data.fields["detail"]) ==>
              m == ToJsString(data.fields["detail"])
    ensures !(data.JObj? && "message" in data.fields && Truthy(data.fields["message"])) &&
            !(data.JObj? && "detail" in data.fields && Truthy(data.fields["detail"])) ==>
              m == statusText
  {
    var message := Member(data, "message");
    var detail := Member(data, "detail");
    var chosen := if Present(message) then message.value
                  else if Present(detail) then detail.value
                  else JStr(statusText);
    ToJsString(chosen)
  }

  /** Lines 11-18 of `request`, once `fetch` has produced a response. */
  function Classify(r: Response, parse: string -> Parsed): (res: ApiResult)
    ensures r.status == 204 ==> res == Done(JNull)
    ensures r.status != 204 && r.text == "" ==>
              res == (if Ok(r) then Done(JNull) else Failed(r.statusText))
    ensures r.status != 204 && r.text != "" && parse(r.text).SyntaxError? ==>
              res == Failed(parse(r.text).message)
    ensures r.status != 204 && r.text != "" && parse(r.text).Parsed? && Ok(r) ==>
              res == Done(parse(r.text).value)
    ensures r.status != 204 && r.text != "" && parse(r.text).Parsed? && !Ok(r) ==>
              res == Failed(FailureMessage(parse(r.text).value, r.statusText))
    ensures !Ok(r) ==> res.Failed?
  {
    if r.status == 204 then Done(JNull)
    else
      var data := if r.text != "" then parse(r.text) else Parsed(JNull);
      match data
      case SyntaxError(m) => Failed(m)
      case Parsed(v) => if !Ok(r) then Failed(FailureMessage(v, r.statusText)) else Done(v)
  }

  /**
   * The whole of `request` after the call to `fetch`: a rejected fetch or a
   * rejected body read propagates its message, whatever the status (only a
   * 204 skips the read); a read body is classified.
   */
  function Settle(f: Fetched, parse: string -> Parsed): (res: ApiResult)
    ensures f.NetworkError? ==> res == Failed(f.message)
    ensures f.BodyUnreadable? ==> res == (if f.status == 204 then Done(JNull) else Failed(f.message))
    ensures f.Received? ==> res == Classify(f.response, parse)
  {
    match f
    case NetworkError(m) => Failed(m)
    case BodyUnreadable(status, m) => if status == 204 then Done(JNull) else Failed(m)
    case Received(r) => Classify(r, parse)
  }

  // ---------------------------------------------------------------------------
  // Endpoints (the `api` object)

  function ItemPath(c: Collection, id: int): string {
    CollectionPath(c) + "/" + JsNumber.IntToString(id)
  }

  /** The item paths written out: the collection path, a slash and the decimal id. */
  lemma ItemPaths(id: int)
    ensures ItemPath(Users, id) == "/users/" + JsNumber.IntToString(id)
    ensures ItemPath(Roles, id) == "/roles/" + JsNumber.IntToString(id)
    ensures ItemPath(Permissions, id) == "/permissions/" + JsNumber.IntToString(id)
  {
    assert "/users" + "/" == "/users/";
    assert "/roles" + "/" == "/roles/";
    assert "/permissions" + "/" == "/permissions/";
  }

  function LoginCall(email: string, password: string): Call {
    Call("/auth/login", Options(Some(POST), Some(JObj(map["email" := JStr(email), "password" := JStr(password)])), None))
  }

  function MeCall(): Call {
    Call("/auth/me", NoOptions)
  }

  function ListCall(c: Collection): Call {
    Call(CollectionPath(c), NoOptions)
  }

  function CreateCall(c: Collection, payload: Json): Call {
    Call(CollectionPath(c), Options(Some(POST), Some(payload), None))
  }

  function UpdateCall(c: Collection, id: int, payload: Json): Call {
    Call(ItemPath(c, id), Options(Some(PUT), Some(payload), None))
  }

  function DeleteCall(c: Collection, id: int): Call {
    Call(ItemPath(c, id), Options(Some(DELETE), None, None))
  }

  /** `JSON.stringify` writes NaN as null. */
  function NumToJson(n: JsNumber.Num): Json {
    match n
    case Int(v) => JNum(v)
    case NaN => JNull
  }

  function NumsToJson(ns: seq<JsNumber.Num>): (r: seq<Json>)
    ensures |r| == |ns|
    ensures forall i :: 0 <= i < |ns| ==> r[i] == NumToJson(ns[i])
  {
    seq(|ns|, i requires 0 <= i < |ns| => NumToJson(ns[i]))
  }

  function AssignRolesCall(userId: int, roleIds: seq<JsNumber.Num>): Call {
    Call(ItemPath(Users, userId) + "/roles",
         Options(Some(PUT), Some(JObj(map["role_ids" := JArr(NumsToJson(roleIds))])), None))
  }

  function AssignPermissionsCall(roleId: int, permissionIds: seq<JsNumber.Num>): Call {
    Call(ItemPath(Roles, roleId) + "/permissions",
         Options(Some(PUT), Some(JObj(map["permission_ids" := JArr(NumsToJson(permissionIds))])), None))
  }

  function StatsCall(): Call {
    Call("/stats", NoOptions)
  }

  // ---------------------------------------------------------------------------
  // Properties

  /** The request URL is the base followed by the path; with no base configured it is the path. */
  lemma UrlIsBasePlusPath(env: Option<string>, stored: Option<string>, call: Call)
    ensures Prepare(ApiBase(env), stored, call).url == env.GetOr("") + call.path
    ensures env.None? || env == Some("") ==> Prepare(ApiBase(env), stored, call).url == call.path
  {
  }

  /** No endpoint passes headers, so every call carries the bearer header exactly when a truthy token is stored. */
  lemma EndpointsCarryToken(stored: Option<string>, base: string, c: Collection, id: int, payload: Json, ns: seq<JsNumber.Num>, email: string, password: string)
    ensures forall call | call in [LoginCall(email, password), MeCall(), ListCall(c), CreateCall(c, payload),
                                   UpdateCall(c, id, payload), DeleteCall(c, id), AssignRolesCall(id, ns),
                                   AssignPermissionsCall(id, ns), StatsCall()] ::
              var h := Prepare(base, stored, call).headers;
              && h[ContentType] == "application/json"
              && (Authorization in h <==> TokenSet(stored))
              && (TokenSet(stored) ==> h[Authorization] == "Bearer " + stored.value)
  {
  }

  /** Collection calls address `/<collection>`; item calls address `/<collection>/<id>`. */
  lemma EndpointShapes(c: Collection, id: int, payload: Json)
    ensures ListCall(c).path == CreateCall(c, payload).path == CollectionPath(c)
    ensures UpdateCall(c, id, payload).path == DeleteCall(c, id).path == CollectionPath(c) + "/" + JsNumber.IntToString(id)
    ensures Prepare("", None, ListCall(c)).verb == GET
    ensures CreateCall(c, payload).options.verb == Some(POST)
    ensures UpdateCall(c, id, payload).options.verb == Some(PUT)
    ensures DeleteCall(c, id).options.verb == Some(DELETE)
    ensures CreateCall(c, payload).options.body == UpdateCall(c, id, payload).options.body == Some(payload)
    ensures DeleteCall(c, id).options.body == None
  {
  }

  /** An item path names exactly one collection and one id. */
  lemma ItemPathInjective(c1: Collection, id1: int, c2: Collection, id2: int)
    requires ItemPath(c1, id1) == ItemPath(c2, id2)
    ensures c1 == c2 && id1 == id2
  {
    var p1, p2 := ItemPath(c1, id1), ItemPath(c2, id2);
    assert p1[1] == CollectionPath(c1)[1];
    assert p2[1] == CollectionPath(c2)[1];
    assert c1 == c2;
    var prefix := CollectionPath(c1) + "/";
    assert p1 == prefix + JsNumber.IntToString(id1);
    assert p2 == prefix + JsNumber.IntToString(id2);
    assert p1[|prefix|..] == JsNumber.IntToString(id1);
    assert p2[|prefix|..] == JsNumber.IntToString(id2);
    JsNumber.StringOfIntInjective(id1, id2);
  }

  /** The assignment calls PUT the given numbers, in order, as the complete id list. */
  lemma AssignSendsWholeList(id: int, ids: seq<int>)
    ensures var call := AssignRolesCall(id, seq(|ids|, i requires 0 <= i < |ids| => JsNumber.Int(ids[i])));
            && call.path == "/users/" + JsNumber.IntToString(id) + "/roles"
            && call.options.verb == Some(PUT)
            && call.options.body == Some(JObj(map["role_ids" := JArr(seq(|ids|, i requires 0 <= i < |ids| => JNum(ids[i])))]))
    ensures var call := AssignPermissionsCall(id, seq(|ids|, i requires 0 <= i < |ids| => JsNumber.Int(ids[i])));
            && call.path == "/roles/" + JsNumber.IntToString(id) + "/permissions"
            && call.options.verb == Some(PUT)
            && call.options.body == Some(JObj(map["permission_ids" := JArr(seq(|ids|, i requires 0 <= i < |ids| => JNum(ids[i])))]))
  {
    var nums := seq(|ids|, i requires 0 <= i < |ids| => JsNumber.Int(ids[i]));
    assert NumsToJson(nums) == seq(|ids|, i requires 0 <= i < |ids| => JNum(ids[i]));
  }

  /** A 204 response is a success with no value, whatever its status text and body. */
  lemma NoContentNeverReadsBody(r1: Response, r2: Response, p1: string -> Parsed, p2: string -> Parsed)
    requires r1.status == 204 && r2.status == 204
    ensures Classify(r1, p1) == Classify(r2, p2) == Done(JNull)
  {
  }

  /** A parsable response succeeds exactly when it is ok, and then yields the parsed body unchanged. */
  lemma OkIffDone(r: Response, parse: string -> Parsed)
    requires r.text == "" || parse(r.text).Parsed?
    ensures Classify(r, parse).Done? <==> Ok(r)
    ensures Ok(r) && r.status != 204 && r.text != "" ==> Classify(r, parse).data == parse(r.text).value
  {
  }

  /**
   * A body that cannot be read fails the request with the read's own
   * message even for a 2xx status, where the same response with an empty
   * body would succeed with null.
   */
  lemma UnreadableBodyFailsEvenWhenOk(status: int, statusText: string, message: string, parse: string -> Parsed)
    requires 200 <= status <= 299 && status != 204
    ensures Settle(BodyUnreadable(status, message), parse) == Failed(message)
    ensures Settle(Received(Response(status, statusText, "")), parse) == Done(JNull)
  {
  }

  /** An empty or falsy `message` falls through to `detail`, then to the status text. */
  lemma MessageFallsThrough(statusText: string, detail: string)
    ensures FailureMessage(JObj(map["message" := JStr(""), "detail" := JStr(detail)]), statusText)
            == (if detail != "" then detail else statusText)
    ensures FailureMessage(JNull, statusText) == statusText
    ensures FailureMessage(JArr([]), statusText) == statusText
  {
  }

  /**
   * A validation error whose `detail` is a list of plain objects reads as one
   * "[object Object]" per object, joined by ","; an empty list is truthy and
   * reads as the empty message.
   */
  lemma DetailListMessage(objs: seq<map<string, Json>>, statusText: string)
    ensures var detail := JArr(seq(|objs|, i requires 0 <= i < |objs| => JObj(objs[i])));
            FailureMessage(JObj(map["detail" := detail]), statusText)
            == Join(seq(|objs|, i requires 0 <= i < |objs| => "[object Object]"), ",")
    ensures |objs| == 0 ==>
              FailureMessage(JObj(map["detail" := JArr([])]), statusText) == ""
    ensures |objs| == 1 ==>
              FailureMessage(JObj(map["detail" := JArr([JObj(objs[0])])]), statusText) == "[object Object]"
    ensures |objs| == 2 ==>
              FailureMessage(JObj(map["detail" := JArr([JObj(objs[0]), JObj(objs[1])])]), statusText)
              == "[object Object],[object Object]"
  {
    ObjectArrayPrints(objs);
    var detail := JArr(seq(|objs|, i requires 0 <= i < |objs| => JObj(objs[i])));
    var parts := seq(|objs|, i requires 0 <= i < |objs| => "[object Object]");
    if |objs| == 0 {
      assert detail == JArr([]);
    } else if |objs| == 1 {
      assert detail == JArr([JObj(objs[0])]);
      assert parts == ["[object Object]"];
    } else if |objs| == 2 {
      assert detail == JArr([JObj(objs[0]), JObj(objs[1])]);
      assert parts[1..] == ["[object Object]"];
    }
  }
}
