/** The read side: HTTP handlers that rebuild a store key and publish what is stored under it. */
module Handler {
  import opened Wrappers
  import opened Cluster
  import opened Stores
  import Keys

  const STATUS_OK: nat := 200
  const STATUS_BAD_REQUEST: nat := 400
  const STATUS_NOT_FOUND: nat := 404
  const STATUS_METHOD_NOT_ALLOWED: nat := 405

  const HSTS_HEADER := "Strict-Transport-Security"
  const HSTS_VALUE := "max-age=31536000; includeSubDomains"
  const CONTENT_TYPE := "Content-Type"
  const MIME_APP_JSON := "application/json"
  const CACHE_CONTROL := "Cache-Control"
  const PUB_CACHE_CONTROL := "public, max-age=3600"

  const GET := "GET"
  const HEAD := "HEAD"

  /** The bytes of an ASCII text. */
  function Text(s: string): Bytes {
    seq(|s|, i requires 0 <= i < |s| => (s[i] as int % 256) as Byte)
  }

  const INVALID_UID := Text("{\"code\":400,\"message\":\"invalid UID\"}")
  const NOT_FOUND := Text("{\"code\":404,\"message\":\"not found\"}")
  const METHOD_NOT_ALLOWED := Text("{\"code\":405,\"message\":\"method not allowed\"}")

  datatype Request = Request(httpMethod: string, project: string, uid: string)

  datatype Response = Response(status: nat, headers: map<string, string>, body: Bytes)

  /** `http.ResponseWriter`: the first status wins, and writing a body implies 200. */
  class ResponseWriter {
    var headers: map<string, string>
    var status: Option<nat>
    var body: Bytes

    constructor ()
      ensures headers == map[] && status == None && body == []
    {
      headers, status, body := map[], None, [];
    }

    function Result(): Response
      reads this
    {
      Response(if status.Some? then status.value else STATUS_OK, headers, body)
    }

    method Set(name: string, value: string)
      modifies this`headers
      ensures headers == old(headers)[name := value]
    {
      headers := headers[name := value];
    }

    method WriteHeader(code: nat)
      modifies this`status
      ensures status == if old(status).None? then Some(code) else old(status)
    {
      if status.None? { status := Some(code); }
    }

    method Write(bytes: Bytes)
      modifies this`status, this`body
      ensures status == if old(status).None? then Some(STATUS_OK) else old(status)
      ensures body == old(body) + bytes
    {
      WriteHeader(STATUS_OK);
      body := body + bytes;
    }
  }

  /** `SetHSTS`, up to the point where it calls the next handler. */
  method SetHSTS(w: ResponseWriter)
    modifies w`headers
    ensures w.headers == if Lookup(old(w.headers), HSTS_HEADER) in {None, Some("")}
                         then old(w.headers)[HSTS_HEADER := HSTS_VALUE] else old(w.headers)
  {
    if HSTS_HEADER !in w.headers || w.headers[HSTS_HEADER] == "" {
      w.Set(HSTS_HEADER, HSTS_VALUE);
    }
  }

  /** The three calls every error reply consists of. */
  method Reject(w: ResponseWriter, code: nat, message: Bytes)
    requires w.status == None && w.body == []
    modifies w
    ensures w.Result() == Response(code, old(w.headers)[CONTENT_TYPE := MIME_APP_JSON], message)
  {
    w.Set(CONTENT_TYPE, MIME_APP_JSON);
    w.WriteHeader(code);
    w.Write(message);
  }

  method NotFound(w: ResponseWriter)
    requires w.status == None && w.body == []
    modifies w
    ensures w.Result() == Response(STATUS_NOT_FOUND, old(w.headers)[CONTENT_TYPE := MIME_APP_JSON], NOT_FOUND)
  {
    Reject(w, STATUS_NOT_FOUND, NOT_FOUND);
  }

  /** `AllowMethods`: whether the next handler is called; if not, the request has been answered. */
  method AllowMethods(w: ResponseWriter, allowed: seq<string>, httpMethod: string) returns (next: bool)
    requires w.status == None && w.body == []
    modifies w
    ensures next <==> httpMethod in allowed
    ensures next ==> unchanged(w)
    ensures !next ==>
              w.Result() ==
              Response(STATUS_METHOD_NOT_ALLOWED, old(w.headers)[CONTENT_TYPE := MIME_APP_JSON], METHOD_NOT_ALLOWED)
  {
    var methods := {};
    for i := 0 to |allowed|
      invariant methods == set m | m in allowed[..i]
    {
      methods := methods + {allowed[i]};
      assert allowed[..i + 1] == allowed[..i] + [allowed[i]];
    }
    assert allowed[..|allowed|] == allowed;
    next := httpMethod in methods;
    if !next {
      Reject(w, STATUS_METHOD_NOT_ALLOWED, METHOD_NOT_ALLOWED);
    }
  }

  method Publish(w: ResponseWriter, content: Bytes)
    requires w.status == None && w.body == []
    modifies w
    ensures w.Result() ==
        Response(STATUS_OK, old(w.headers)[CONTENT_TYPE := MIME_APP_JSON][CACHE_CONTROL := PUB_CACHE_CONTROL], content)
  {
    w.Set(CACHE_CONTROL, PUB_CACHE_CONTROL);
    w.Set(CONTENT_TYPE, MIME_APP_JSON);
    w.Write(content);
    assert w.headers == old(w.headers)[CONTENT_TYPE := MIME_APP_JSON][CACHE_CONTROL := PUB_CACHE_CONTROL];
  }

  /** `StoreRequest`; `acceptsUID` is `uuid.Parse` succeeding. */
  method StoreRequest(
      w: ResponseWriter, s: Store, getContent: Content -> Bytes, acceptsUID: string -> bool, project: string,
      uid: string)
    requires w.status == None && w.body == [] && s.Valid()
    modifies w
    ensures w.Result() == Stored(s.contents, getContent, acceptsUID, project, uid, old(w.headers))
    ensures !acceptsUID(uid) ==> w.Result() == Response(400, old(w.headers)[CONTENT_TYPE := MIME_APP_JSON], INVALID_UID)
    ensures acceptsUID(uid) && project + "--" + uid !in s.contents ==>
              w.Result() == Response(404, old(w.headers)[CONTENT_TYPE := MIME_APP_JSON], NOT_FOUND)
    ensures acceptsUID(uid) && project + "--" + uid in s.contents ==>
              w.Result() == Response(200,
                  old(w.headers)[CONTENT_TYPE := MIME_APP_JSON][CACHE_CONTROL := PUB_CACHE_CONTROL],
                                     getContent(s.contents[project + "--" + uid]))
  {
    if !acceptsUID(uid) {
      Reject(w, STATUS_BAD_REQUEST, INVALID_UID);
      return;
    }
    var data := s.Read(project + "--" + uid);
    if data.None? {
      NotFound(w);
      return;
    }
    Publish(w, getContent(Value(data.value)));
  }

  /** What a store request is answered, given what is stored. */
  function Stored<T>(stored: map<string, T>, getContent: T -> Bytes, acceptsUID: string -> bool,
                     project: string, uid: string, headers: map<string, string>): Response
  {
    var json := headers[CONTENT_TYPE := MIME_APP_JSON];
    if !acceptsUID(uid) then Response(STATUS_BAD_REQUEST, json, INVALID_UID)
    else if Keys.Join(project, uid) !in stored then Response(STATUS_NOT_FOUND, json, NOT_FOUND)
    else Response(STATUS_OK, json[CACHE_CONTROL := PUB_CACHE_CONTROL], getContent(stored[Keys.Join(project, uid)]))
  }

  /** The endpoints over a store: SetHSTS, then AllowMethods for GET and HEAD, then the store request. */
  method Serve(w: ResponseWriter, s: Store, getContent: Content -> Bytes, acceptsUID: string -> bool, req: Request)
    requires w.headers == map[] && w.status == None && w.body == [] && s.Valid()
    modifies w
    ensures w.Result() == Served(s.contents, getContent, acceptsUID, req)
  {
    SetHSTS(w);
    var next := AllowMethods(w, [GET, HEAD], req.httpMethod);
    if next {
      StoreRequest(w, s, getContent, acceptsUID, req.project, req.uid);
    }
  }

  /** A reply is 200 exactly for an allowed method, an accepted UID and a stored key; then it is that entry. */
  function Served<T>(
      stored: map<string, T>, getContent: T -> Bytes, acceptsUID: string -> bool, req: Request): (reply: Response)
    ensures reply.status == 200 <==>
              req.httpMethod in ["GET", "HEAD"] && acceptsUID(req.uid) && req.project + "--" + req.uid in stored
    ensures reply.status == 200 ==> reply.body == getContent(stored[req.project + "--" + req.uid])
    ensures reply.status == 400 <==> req.httpMethod in ["GET", "HEAD"] && !acceptsUID(req.uid)
    ensures reply.status == 404 <==>
              req.httpMethod in ["GET", "HEAD"] && acceptsUID(req.uid) && req.project + "--" + req.uid !in stored
    ensures reply.status == 405 <==> req.httpMethod !in ["GET", "HEAD"]
    ensures reply.status == 400 ==> reply.body == Text("{\"code\":400,\"message\":\"invalid UID\"}")
    ensures reply.status == 404 ==> reply.body == Text("{\"code\":404,\"message\":\"not found\"}")
    ensures reply.status == 405 ==> reply.body == Text("{\"code\":405,\"message\":\"method not allowed\"}")
    ensures Lookup(reply.headers, "Strict-Transport-Security") == Some("max-age=31536000; includeSubDomains")
    ensures Lookup(reply.headers, "Content-Type") == Some("application/json")
    ensures Lookup(reply.headers, "Cache-Control") == if reply.status == 200 then Some("public, max-age=3600") else None
  {
    var headers := map[HSTS_HEADER := HSTS_VALUE];
    if req.httpMethod !in [GET, HEAD] then
      Response(STATUS_METHOD_NOT_ALLOWED, headers[CONTENT_TYPE := MIME_APP_JSON], METHOD_NOT_ALLOWED)
    else Stored(stored, getContent, acceptsUID, req.project, req.uid, headers)
  }
}
