/**
 * The front end's HTTP client (frontend/services/api.ts): how a response is turned into a result
 * or an `ApiError` carrying a normalised error record, how the list queries build their query
 * strings, and the delete helpers. The network is left out: a response arrives as its status,
 * URL and body, and the body is the text the server sent together with its JSON reading (`None`
 * when the text is not JSON).
 */
module ApiClient {
  import opened Wrappers
  import Text

  const BaseUrl := "https://zoo-production.up.railway.app/api"

  datatype Json =
    | JNull
    | JBool(b: bool)
    | JNum(n: int)
    | JStr(s: string)
    | JArr(items: seq<Json>)
    | JObj(members: map<string, Json>)

  predicate JTruthy(j: Json)
  {
    match j
    case JNull => false
    case JBool(b) => b
    case JNum(n) => n != 0
    case JStr(s) => s != ""
    case JArr(_) => true
    case JObj(_) => true
  }

  /** `body.key || fallback` on a parsed object. */
  function MemberOr(body: Json, key: string, fallback: Json): (r: Json)
    requires body.JObj?
    ensures key in body.members && JTruthy(body.members[key]) ==> r == body.members[key]
    ensures !(key in body.members && JTruthy(body.members[key])) ==> r == fallback
  {
    if key in body.members && JTruthy(body.members[key]) then body.members[key] else fallback
  }

  /** What the server sent: the raw text, and its JSON reading when it is JSON. */
  datatype Content = Content(text: string, parsed: Option<Json>)

  /** A fetched response. Its body can be read once: a second read is refused. */
  class Response {
    const status: int
    const url: string
    const content: Content
    var bodyUsed: bool

    constructor(status: int, url: string, content: Content)
      ensures this.status == status && this.url == url && this.content == content && !bodyUsed
    {
      this.status := status;
      this.url := url;
      this.content := content;
      bodyUsed := false;
    }

    predicate Ok()
      reads this
    {
      200 <= status <= 299
    }

    /** `response.json()`: a `TypeError` once the body was read, a `SyntaxError` if it is not JSON. */
    method ReadJson() returns (r: Result<Json, string>)
      modifies this
      ensures bodyUsed
      ensures old(bodyUsed) ==> r == Failure("TypeError")
      ensures !old(bodyUsed) && content.parsed.Some? ==> r == Success(content.parsed.value)
      ensures !old(bodyUsed) && content.parsed.None? ==> r == Failure("SyntaxError")
    {
      if bodyUsed {
        r := Failure("TypeError");
      } else if content.parsed.Some? {
        r := Success(content.parsed.value);
      } else {
        r := Failure("SyntaxError");
      }
      bodyUsed := true;
    }

    /** `response.text()`: a `TypeError` once the body was read. */
    method ReadText() returns (r: Result<string, string>)
      modifies this
      ensures bodyUsed
      ensures old(bodyUsed) ==> r == Failure("TypeError")
      ensures !old(bodyUsed) ==> r == Success(content.text)
    {
      if bodyUsed {
        r := Failure("TypeError");
      } else {
        r := Success(content.text);
      }
      bodyUsed := true;
    }
  }

  /** The `BackendError` record an `ApiError` carries. */
  datatype ErrorRecord = ErrorRecord(timestamp: Json, status: Json, error: Json, message: Json, path: Json)

  /** What a call produces: a value, `null`, or a rejection. */
  datatype Outcome =
    | Returned(value: Json)
    | ReturnedNull
    | RaisedApiError(message: Json, record: ErrorRecord)
    | RaisedOther(kind: string)
    | Done

  const StatusPrefix := "Network response was not ok (Status: "

  /** The record a failed response starts from. */
  function DefaultError(status: int, url: string, now: string): ErrorRecord
  {
    ErrorRecord(JStr(now), JNum(status), JStr("Unknown Error"),
      JStr(StatusPrefix + Text.IntText(status) + ")"), JStr(url))
  }

  /** The error record of a failed response whose body has been read as `content`. */
  function Normalised(status: int, url: string, content: Content, now: string): ErrorRecord
  {
    var d := DefaultError(status, url, now);
    match content.parsed
    case Some(body) =>
      if body.JObj? && "message" in body.members && JTruthy(body.members["message"]) then
        ErrorRecord(MemberOr(body, "timestamp", d.timestamp), MemberOr(body, "status", d.status),
          MemberOr(body, "error", d.error), body.members["message"], MemberOr(body, "path", d.path))
      else if body.JStr? then d.(message := body)
      else d
    case None =>
      if content.text != "" then d.(message := JStr(content.text)) else d
  }

  /** The outcome `handleResponse` is meant to have. */
  function Expected(status: int, url: string, content: Content, now: string): Outcome
  {
    if !(200 <= status <= 299) then
      var e := Normalised(status, url, content, now);
      RaisedApiError(e.message, e)
    else if status == 204 then ReturnedNull
    else if content.parsed.Some? then Returned(content.parsed.value)
    else RaisedOther("SyntaxError")
  }

  /**
   * A failed response always raises an `ApiError`, whose message is its record's message. The
   * record starts from the status, 'Unknown Error', the generic message and the URL; an object
   * body with a truthy message supplies the message and each of its other truthy fields; a string
   * body replaces only the message; a body that is not JSON replaces the message with its text
   * when that text is not empty. A successful 204 gives `null`, any other success the body.
   */
  lemma ExpectedSpec(status: int, url: string, content: Content, now: string)
    ensures var out := Expected(status, url, content, now);
      var d := DefaultError(status, url, now);
      && (!(200 <= status <= 299) ==> out.RaisedApiError? && out.message == out.record.message)
      && (!(200 <= status <= 299) && content.parsed.Some? && content.parsed.value.JObj? &&
          "message" in content.parsed.value.members && JTruthy(content.parsed.value.members["message"]) ==>
            var m := content.parsed.value.members;
            && out.record.message == m["message"]
            && out.record.timestamp == (if "timestamp" in m && JTruthy(m["timestamp"]) then m["timestamp"] else d.timestamp)
            && out.record.status == (if "status" in m && JTruthy(m["status"]) then m["status"] else d.status)
            && out.record.error == (if "error" in m && JTruthy(m["error"]) then m["error"] else d.error)
            && out.record.path == (if "path" in m && JTruthy(m["path"]) then m["path"] else d.path))
      && (!(200 <= status <= 299) && content.parsed.Some? && content.parsed.value.JStr? ==>
            out.record == d.(message := content.parsed.value))
      && (!(200 <= status <= 299) && content.parsed.None? ==>
            out.record == (if content.text == "" then d else d.(message := JStr(content.text))))
      && (200 <= status <= 299 && status == 204 ==> out == ReturnedNull)
      && (200 <= status <= 299 && status != 204 && content.parsed.Some? ==> out == Returned(content.parsed.value))
  {
  }

  /** The generic message names the status, which `parseInt` reads back from it. */
  lemma DefaultMessageNamesStatus(status: int, url: string, now: string)
    ensures var m := DefaultError(status, url, now).message.s;
      && Text.StartsWith(m, StatusPrefix)
      && Text.ParseInt(m[|StatusPrefix|..]) == Some(status)
  {
    var m := DefaultError(status, url, now).message.s;
    assert m[|StatusPrefix|..] == Text.IntText(status) + ")";
    Text.ParseIntTextThen(status, ")");
  }

  /**
   * `handleResponse` as written: after `response.json()` fails, it reads `response.text()`,
   * which is refused because the body has been read, so the `TypeError` escapes instead of an
   * `ApiError`.
   */
  method HandleResponseAsWritten(resp: Response, now: string) returns (out: Outcome)
    requires !resp.bodyUsed
    modifies resp
    ensures !resp.Ok() && resp.content.parsed.None? ==> out == RaisedOther("TypeError")
    ensures resp.Ok() || resp.content.parsed.Some? ==> out == Expected(resp.status, resp.url, resp.content, now)
  {
    if !resp.Ok() {
      var errorData := DefaultError(resp.status, resp.url, now);
      var parsed := resp.ReadJson();
      if parsed.Success? {
        var body := parsed.value;
        if body.JObj? && "message" in body.members && JTruthy(body.members["message"]) {
          errorData := ErrorRecord(
            MemberOr(body, "timestamp", errorData.timestamp),
            MemberOr(body, "status", errorData.status),
            MemberOr(body, "error", errorData.error),
            body.members["message"],
            MemberOr(body, "path", errorData.path));
        } else if body.JStr? {
          errorData := errorData.(message := body);
        }
      } else {
        // The body was consumed by the failed `json()`: `text()` is refused and its rejection
        // propagates, so the code that would use the text is never reached.
        var text := resp.ReadText();
        match text {
          case Failure(e) => return RaisedOther(e);
        }
      }
      return RaisedApiError(errorData.message, errorData);
    }
    if resp.status == 204 {
      return ReturnedNull;
    }
    var parsed := resp.ReadJson();
    if parsed.Failure? {
      return RaisedOther(parsed.error);
    }
    return Returned(parsed.value);
  }

  /**
   * `handleResponse` reading the body once, as text, and then reading that text as JSON: every
   * failed response raises an `ApiError`.
   */
  method HandleResponse(resp: Response, now: string) returns (out: Outcome)
    requires !resp.bodyUsed
    modifies resp
    ensures out == Expected(resp.status, resp.url, resp.content, now)
  {
    if !resp.Ok() {
      var errorData := DefaultError(resp.status, resp.url, now);
      var text := resp.ReadText();
      match resp.content.parsed {
        case Some(body) =>
          if body.JObj? && "message" in body.members && JTruthy(body.members["message"]) {
            errorData := ErrorRecord(
              MemberOr(body, "timestamp", errorData.timestamp),
              MemberOr(body, "status", errorData.status),
              MemberOr(body, "error", errorData.error),
              body.members["message"],
              MemberOr(body, "path", errorData.path));
          } else if body.JStr? {
            errorData := errorData.(message := body);
          }
        case None =>
          if text.value != "" {
            errorData := errorData.(message := JStr(text.value));
          }
      }
      return RaisedApiError(errorData.message, errorData);
    }
    if resp.status == 204 {
      return ReturnedNull;
    }
    var parsed := resp.ReadJson();
    if parsed.Failure? {
      return RaisedOther(parsed.error);
    }
    return Returned(parsed.value);
  }

  /** A 502 from a proxy with an HTML page as its body. */
  const GatewayPage := Content("<html>Bad Gateway</html>", None)

  /**
   * The two readings part on a failed response whose body is not JSON: as written the caller
   * gets a `TypeError`; read once, it gets an `ApiError` whose message is the page.
   */
  method BadGatewayDiffers() returns (asWritten: Outcome, corrected: Outcome)
    ensures asWritten == RaisedOther("TypeError")
    ensures corrected.RaisedApiError? && corrected.message == JStr(GatewayPage.text)
  {
    var r1 := new Response(502, BaseUrl + "/animals", GatewayPage);
    asWritten := HandleResponseAsWritten(r1, "2025-01-01T00:00:00.000Z");
    var r2 := new Response(502, BaseUrl + "/animals", GatewayPage);
    corrected := HandleResponse(r2, "2025-01-01T00:00:00.000Z");
  }

  /**
   * The delete helpers: the response is never looked at, so a failed delete completes where the
   * same response read by `handleResponse` would raise an `ApiError`.
   */
  method Delete(resp: Response) returns (out: Outcome)
    ensures out == Done
    ensures !resp.Ok() ==> forall now :: Expected(resp.status, resp.url, resp.content, now).RaisedApiError?
    ensures !resp.Ok() ==> forall now :: out != Expected(resp.status, resp.url, resp.content, now)
  {
    out := Done;
    forall now | !resp.Ok()
      ensures Expected(resp.status, resp.url, resp.content, now).RaisedApiError?
    {
      DeleteIgnoresFailure(resp.status, resp.url, resp.content, now);
    }
  }

  /** Every failed response makes `handleResponse` raise an `ApiError`, which a delete never does. */
  lemma DeleteIgnoresFailure(status: int, url: string, content: Content, now: string)
    requires !(200 <= status <= 299)
    ensures Expected(status, url, content, now).RaisedApiError?
    ensures Expected(status, url, content, now) != Done
  {
  }

  /** `params.toString()` with its `?`; keys and values are written as they are. */
  function Query(params: seq<(string, string)>): (q: string)
    ensures q == "" <==> params == []
    ensures params != [] ==> q[0] == '?'
  {
    if params == [] then "" else "?" + Joined(params)
  }

  function Joined(params: seq<(string, string)>): (r: string)
    requires params != []
    ensures r != ""
  {
    var p := params[0].0 + "=" + params[0].1;
    if |params| == 1 then p else p + "&" + Joined(params[1..])
  }

  /** A text filter's parameter: present only when the text is truthy. */
  function TextParam(key: string, v: Option<string>): seq<(string, string)>
  {
    if v.Some? && v.value != "" then [(key, v.value)] else []
  }

  /** A number filter's parameter: present only when the number is truthy, written in decimal. */
  function NumParam(key: string, v: Option<int>): seq<(string, string)>
  {
    if v.Some? && v.value != 0 then [(key, Text.IntText(v.value))] else []
  }

  /** The parameters `getAnimals` appends: each filter only when truthy, in a fixed order. */
  function AnimalParams(species: Option<string>, ageMin: Option<int>, ageMax: Option<int>, name: Option<string>): seq<(string, string)>
  {
    TextParam("species", species) + NumParam("ageMin", ageMin) + NumParam("ageMax", ageMax) + TextParam("name", name)
  }

  const AnimalKeys: seq<string> := ["species", "ageMin", "ageMax", "name"]

  /**
   * A filter is sent exactly when it is truthy, so an age bound of 0 and an empty text are
   * dropped, and it is sent as typed.
   */
  lemma AnimalParamsPresence(species: Option<string>, ageMin: Option<int>, ageMax: Option<int>, name: Option<string>)
    ensures var ps := AnimalParams(species, ageMin, ageMax, name);
      && (forall s :: ("species", s) in ps <==> species == Some(s) && s != "")
      && (forall s :: ("name", s) in ps <==> name == Some(s) && s != "")
      && (forall s :: ("ageMin", s) in ps <==> ageMin.Some? && ageMin.value != 0 && s == Text.IntText(ageMin.value))
      && (forall s :: ("ageMax", s) in ps <==> ageMax.Some? && ageMax.value != 0 && s == Text.IntText(ageMax.value))
  {
  }

  /** The keys appear in the fixed order species, ageMin, ageMax, name, each at most once. */
  lemma AnimalParamsOrder(species: Option<string>, ageMin: Option<int>, ageMax: Option<int>, name: Option<string>)
    ensures var ps := AnimalParams(species, ageMin, ageMax, name);
      forall i, j :: 0 <= i < j < |ps| ==> KeyRank(ps[i].0) < KeyRank(ps[j].0)
  {
  }

  /** With no truthy filter the URL has no query at all. */
  lemma AnimalParamsEmpty(species: Option<string>, ageMin: Option<int>, ageMax: Option<int>, name: Option<string>)
    ensures Query(AnimalParams(species, ageMin, ageMax, name)) == "" <==>
      (species.None? || species.value == "") && (ageMin.None? || ageMin.value == 0) &&
      (ageMax.None? || ageMax.value == 0) && (name.None? || name.value == "")
  {
  }

  /** Position of a key in the fixed order. */
  function KeyRank(key: string): int
  {
    if key == "species" then 0 else if key == "ageMin" then 1 else if key == "ageMax" then 2 else 3
  }

  /** `getAnimals`: the request URL. */
  method AnimalsUrl(species: Option<string>, ageMin: Option<int>, ageMax: Option<int>, name: Option<string>) returns (url: string)
    ensures url == BaseUrl + "/animals" + Query(AnimalParams(species, ageMin, ageMax, name))
  {
    var params: seq<(string, string)> := [];
    if species.Some? && species.value != "" {
      params := params + [("species", species.value)];
    }
    assert params == TextParam("species", species);
    if ageMin.Some? && ageMin.value != 0 {
      params := params + [("ageMin", Text.IntText(ageMin.value))];
    }
    assert params == TextParam("species", species) + NumParam("ageMin", ageMin);
    if ageMax.Some? && ageMax.value != 0 {
      params := params + [("ageMax", Text.IntText(ageMax.value))];
    }
    assert params == TextParam("species", species) + NumParam("ageMin", ageMin) + NumParam("ageMax", ageMax);
    if name.Some? && name.value != "" {
      params := params + [("name", name.value)];
    }
    assert params == AnimalParams(species, ageMin, ageMax, name);
    var queryString := if params == [] then "" else Joined(params);
    url := BaseUrl + "/animals" + (if queryString != "" then "?" + queryString else "");
  }

  /** The parameters of `getAlimentacoes`: `foodType`, then `animalId`, each only when truthy. */
  function FeedingParams(foodType: Option<string>, animalId: Option<int>): seq<(string, string)>
  {
    (if foodType.Some? && foodType.value != "" then [("foodType", foodType.value)] else [])
    + (if animalId.Some? && animalId.value != 0 then [("animalId", Text.IntText(animalId.value))] else [])
  }

  /** Each feeding filter is sent exactly when it is truthy, `foodType` before `animalId`. */
  lemma FeedingParamsPresence(foodType: Option<string>, animalId: Option<int>)
    ensures var ps := FeedingParams(foodType, animalId);
      && (forall s :: ("foodType", s) in ps <==> foodType == Some(s) && s != "")
      && (forall s :: ("animalId", s) in ps <==> animalId.Some? && animalId.value != 0 && s == Text.IntText(animalId.value))
      && |ps| <= 2
      && (|ps| == 2 ==> ps[0].0 == "foodType" && ps[1].0 == "animalId")
  {
  }

  /** `getAlimentacoes`: the request URL. */
  method AlimentacoesUrl(foodType: Option<string>, animalId: Option<int>) returns (url: string)
    ensures url == BaseUrl + "/alimentacoes" + Query(FeedingParams(foodType, animalId))
  {
    var params: seq<(string, string)> := [];
    if foodType.Some? && foodType.value != "" {
      params := params + [("foodType", foodType.value)];
    }
    if animalId.Some? && animalId.value != 0 {
      params := params + [("animalId", Text.IntText(animalId.value))];
    }
    var queryString := if params == [] then "" else Joined(params);
    url := BaseUrl + "/alimentacoes" + (if queryString != "" then "?" + queryString else "");
  }

  /** `getHabitats`, `getCuidadores` and `getVeterinarios`: one optional text filter. */
  method SingleFilterUrl(path: string, key: string, value: Option<string>) returns (url: string)
    ensures value.Some? && value.value != "" ==> url == BaseUrl + path + Query([(key, value.value)])
    ensures value.None? || value.value == "" ==> url == BaseUrl + path
  {
    var params: seq<(string, string)> := [];
    if value.Some? && value.value != "" {
      params := params + [(key, value.value)];
    }
    var queryString := if params == [] then "" else Joined(params);
    url := BaseUrl + path + (if queryString != "" then "?" + queryString else "");
  }
}
