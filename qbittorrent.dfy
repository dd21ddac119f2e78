/** The qBittorrent Web API client of internal/qbittorrent/client.go. The HTTP transport is left
    out: each operation receives the reply the service would give (a `Reply`) and records the
    request it sends in `sent`, so the model keeps what the client decides (status handling,
    session cookie, form fields) and what it puts on the wire. */
module QBittorrent {
  import opened Wrappers

  const LoginPath: string := "/api/v2/auth/login"
  const InfoPath: string := "/api/v2/torrents/info"
  const AddPath: string := "/api/v2/torrents/add"
  const DeletePath: string := "/api/v2/torrents/delete"

  /** Name of the session cookie the service sets on login and expects on every other call. */
  const SessionCookieName: string := "SID"

  const StatusOK: int := 200
  const StatusUnauthorized: int := 401

  /** The fields of a torrent record the client decodes from /api/v2/torrents/info. */
  datatype TorrentInfo = TorrentInfo(
    addedOn: int,
    amountLeft: int,
    contentPath: string,
    hash: string,
    magnetURI: string,
    name: string,
    size: int,
    state: string,
    totalSize: int,
    timeActive: int)

  datatype Cookie = Cookie(name: string, value: string)

  /** A response body as JSON decoding sees it: a list of records, or text that does not decode. */
  datatype Body = Records(records: seq<TorrentInfo>) | Undecodable(cause: string)

  /** What one HTTP round trip gives back: a transport failure, or a response with its status
      code, its status line (Go's resp.Status, e.g. "404 Not Found"), its cookies and its body. */
  datatype Reply =
    | TransportFailure(cause: string)
    | Response(status: int, statusLine: string, cookies: seq<Cookie>, body: Body)

  datatype HttpMethod = Get | Post

  /** How the form fields of a request are encoded in its body. */
  datatype Encoding = NoBody | UrlEncoded | Multipart

  datatype Field = Field(key: string, value: string)

  /** A request as the client sends it; `form` lists the fields in the order they are encoded. */
  datatype Request = Request(verb: HttpMethod, url: string, cookies: seq<Cookie>, encoding: Encoding, form: seq<Field>)

  /** The four remote operations, named as the source names them in its error texts. */
  datatype Operation = LoginOp | ListOp | AddOp | DeleteOp {
    function Description(): string {
      match this
      case LoginOp => "login to qbittorrent"
      case ListOp => "get torrents info list"
      case AddOp => "add torrent"
      case DeleteOp => "delete torrent"
    }
  }

  /** The errors the client returns, each with the text the source formats for it. */
  datatype ClientError =
    | RequestFailed(op: Operation, cause: string)
    | BadStatus(op: Operation, statusLine: string)
    | Unauthorized
    | DecodeFailed(cause: string)
    | NoSessionID
    | ListFailed(inner: ClientError)
  {
    function Error(): string {
      match this
      case RequestFailed(op, cause) => "failed to " + op.Description() + ": " + cause
      case BadStatus(op, line) => "failed to " + op.Description() + ". Status: " + line
      case Unauthorized => "unauthorized access to qbittorrent"
      case DecodeFailed(cause) => "failed to parse torrents info list: " + cause
      case NoSessionID => "failed to get session ID from qbittorrent response"
      case ListFailed(inner) => "failed to get torrents info list: " + inner.Error()
    }
  }

  /** strings.TrimSuffix: `s` without one trailing `suffix`, or `s` itself when it does not end so. */
  function TrimSuffix(s: string, suffix: string): (r: string)
    ensures r == s || r + suffix == s
    ensures |suffix| <= |s| && s[|s| - |suffix|..] == suffix <==> r + suffix == s
  {
    if |suffix| <= |s| && s[|s| - |suffix|..] == suffix then s[..|s| - |suffix|] else s
  }

  /** Exactly one trailing slash is trimmed, however many the URL has. */
  lemma TrimsOneSlash(base: string)
    ensures TrimSuffix(base + "/", "/") == base
  {
    assert (base + "/")[|base|..] == "/";
    assert (base + "/")[..|base|] == base;
  }

  /** A URL without a trailing slash is kept as it is. */
  lemma KeepsUnslashed(base: string)
    requires base == [] || base[|base| - 1] != '/'
    ensures TrimSuffix(base, "/") == base
  {
    if |base| >= 1 {
      assert base[|base| - 1..] == [base[|base| - 1]];
    }
  }

  /** The value of the first cookie called `name`, if any: what the source's scan with `break`
      stops at. */
  function FirstCookie(cookies: seq<Cookie>, name: string): (r: Option<string>)
    ensures r.None? <==> forall i :: 0 <= i < |cookies| ==> cookies[i].name != name
    ensures r.Some? ==> Cookie(name, r.value) in cookies
  {
    if cookies == [] then None
    else if cookies[0].name == name then Some(cookies[0].value)
    else FirstCookie(cookies[1..], name)
  }

  /** How List, Add and Delete classify a reply: a transport failure is wrapped, 200 is success,
      401 is the "unauthorized" error and any other status a failure carrying the status line. */
  function ReplyError(op: Operation, reply: Reply): (r: Option<ClientError>)
    ensures reply.TransportFailure? ==> r == Some(RequestFailed(op, reply.cause))
    ensures reply.Response? ==> (r.None? <==> reply.status == StatusOK)
    ensures reply.Response? ==> (r == Some(Unauthorized) <==> reply.status == StatusUnauthorized)
    ensures (reply.Response? && reply.status != StatusOK && reply.status != StatusUnauthorized)
              ==> r == Some(BadStatus(op, reply.statusLine))
  {
    match reply
    case TransportFailure(cause) => Some(RequestFailed(op, cause))
    case Response(status, line, _, _) =>
      if status != StatusOK then
        if status == StatusUnauthorized then Some(Unauthorized) else Some(BadStatus(op, line))
      else None
  }

  /** What GetTorrentsInfo returns for a reply: classification first, then decoding of the body. */
  function ListResult(reply: Reply): (r: Result<seq<TorrentInfo>, ClientError>)
    ensures ReplyError(ListOp, reply).Some? ==> r == Failure(ReplyError(ListOp, reply).value)
    ensures ReplyError(ListOp, reply).None? && reply.body.Undecodable? ==> r == Failure(DecodeFailed(reply.body.cause))
    ensures r.Success? <==> reply.Response? && reply.status == StatusOK && reply.body.Records?
    ensures r.Success? ==> r.value == reply.body.records
  {
    match ReplyError(ListOp, reply)
    case Some(e) => Failure(e)
    case None =>
      match reply.body
      case Undecodable(cause) => Failure(DecodeFailed(cause))
      case Records(rs) => Success(rs)
  }

  /** The first record whose hash equals `hash`, or None when no record has it. */
  function FirstWithHash(records: seq<TorrentInfo>, hash: string): (r: Option<TorrentInfo>)
    ensures r.None? <==> forall i :: 0 <= i < |records| ==> records[i].hash != hash
    ensures r.Some? ==> r.value.hash == hash && r.value in records
  {
    if records == [] then None
    else if records[0].hash == hash then Some(records[0])
    else FirstWithHash(records[1..], hash)
  }

  /** What GetTorrentInfo returns for the list reply: the list error wrapped, or the lookup. */
  function LookupResult(hash: string, reply: Reply): (r: Result<Option<TorrentInfo>, ClientError>)
    ensures ListResult(reply).Failure? ==> r == Failure(ListFailed(ListResult(reply).error))
    ensures ListResult(reply).Success? ==> r == Success(FirstWithHash(ListResult(reply).value, hash))
  {
    match ListResult(reply)
    case Failure(e) => Failure(ListFailed(e))
    case Success(rs) => Success(FirstWithHash(rs, hash))
  }

  /** fmt's %t rendering of a boolean. */
  function FormatBool(b: bool): string {
    if b then "true" else "false"
  }

  /** The value of the first field called `key` in a form. */
  function FormValue(form: seq<Field>, key: string): Option<string> {
    if form == [] then None
    else if form[0].key == key then Some(form[0].value)
    else FormValue(form[1..], key)
  }

  /** The url.Values that DeleteTorrent encodes; Encode writes the keys in sorted order. */
  function DeleteForm(hash: string, deleteFiles: bool): (f: seq<Field>)
    ensures FormValue(f, "hashes") == Some(hash)
    ensures FormValue(f, "deleteFiles") == Some(if deleteFiles then "true" else "false")
    ensures |f| == 2
  {
    [Field("deleteFiles", FormatBool(deleteFiles)), Field("hashes", hash)]
  }

  /** The cookie list every authenticated request carries. */
  function SessionCookies(sessionID: string): seq<Cookie> {
    [Cookie(SessionCookieName, sessionID)]
  }

  function LoginRequest(baseURL: string, username: string, password: string): Request {
    Request(Post, baseURL + LoginPath, [], UrlEncoded, [Field("password", password), Field("username", username)])
  }

  function ListRequest(baseURL: string, sessionID: string): Request {
    Request(Get, baseURL + InfoPath, SessionCookies(sessionID), NoBody, [])
  }

  /** The multipart body carries the URI twice under "urls": once by WriteField, once through
      CreateFormField. */
  function AddRequest(baseURL: string, sessionID: string, magnetURI: string): Request {
    Request(Post, baseURL + AddPath, SessionCookies(sessionID), Multipart, [Field("urls", magnetURI), Field("urls", magnetURI)])
  }

  function DeleteRequest(baseURL: string, sessionID: string, hash: string, deleteFiles: bool): Request {
    Request(Post, baseURL + DeletePath, SessionCookies(sessionID), UrlEncoded, DeleteForm(hash, deleteFiles))
  }

  /** An authenticated request carries exactly one cookie, the session cookie holding `sessionID`. */
  predicate CarriesSession(req: Request, sessionID: string) {
    req.cookies == [Cookie(SessionCookieName, sessionID)]
  }

  /** List, Add and Delete send the session as their only cookie, each to its endpoint under the
      base URL; Login sends no cookie and the credentials as its form. */
  lemma RequestsCarrySession(baseURL: string, sessionID: string, username: string, password: string,
                             magnetURI: string, hash: string, deleteFiles: bool)
    ensures CarriesSession(ListRequest(baseURL, sessionID), sessionID)
    ensures CarriesSession(AddRequest(baseURL, sessionID, magnetURI), sessionID)
    ensures CarriesSession(DeleteRequest(baseURL, sessionID, hash, deleteFiles), sessionID)
    ensures LoginRequest(baseURL, username, password).cookies == []
    ensures FormValue(LoginRequest(baseURL, username, password).form, "username") == Some(username)
    ensures FormValue(LoginRequest(baseURL, username, password).form, "password") == Some(password)
    ensures FormValue(AddRequest(baseURL, sessionID, magnetURI).form, "urls") == Some(magnetURI)
    ensures ListRequest(baseURL, sessionID).url == baseURL + InfoPath && ListRequest(baseURL, sessionID).verb == Get
  {
  }

  /** A client holds the base URL, the session ID obtained by Login, and (in this model) the
      requests it has sent. */
  class Client {
    const baseURL: string
    var sessionID: string
    var sent: seq<Request>

    /** NewClient: the base URL loses one trailing slash and there is no session yet. */
    constructor NewClient(baseURL: string)
      ensures this.baseURL == TrimSuffix(baseURL, "/")
      ensures sessionID == "" && sent == []
    {
      this.baseURL := TrimSuffix(baseURL, "/");
      sessionID := "";
      sent := [];
    }

    /** Login posts the credentials. A transport failure or a non-200 status is an error and leaves
        the session alone. On 200 the first SID cookie, if any, replaces the session; Login then
        fails exactly when the session is empty, so a stale session survives a 200 without SID. */
    method Login(username: string, password: string, reply: Reply) returns (err: Option<ClientError>)
      modifies this`sessionID, this`sent
      ensures sent == old(sent) + [LoginRequest(baseURL, username, password)]
      ensures reply.TransportFailure? ==> err == Some(RequestFailed(LoginOp, reply.cause)) && sessionID == old(sessionID)
      ensures (reply.Response? && reply.status != StatusOK)
                ==> err == Some(BadStatus(LoginOp, reply.statusLine)) && sessionID == old(sessionID)
      ensures reply.Response? && reply.status == StatusOK ==>
                && sessionID == (match FirstCookie(reply.cookies, SessionCookieName)
                                 case Some(v) => v
                                 case None => old(sessionID))
                && (err.None? <==> sessionID != "")
                && (err.Some? ==> err == Some(NoSessionID))
    {
      sent := sent + [LoginRequest(baseURL, username, password)];
      if reply.TransportFailure? {
        return Some(RequestFailed(LoginOp, reply.cause));
      }
      if reply.status != StatusOK {
        return Some(BadStatus(LoginOp, reply.statusLine));
      }
      var cookies := reply.cookies;
      var i := 0;
      while i < |cookies|
        invariant 0 <= i <= |cookies|
        invariant sessionID == old(sessionID)
        invariant forall j :: 0 <= j < i ==> cookies[j].name != SessionCookieName
      {
        if cookies[i].name == SessionCookieName {
          FirstCookieAt(cookies, SessionCookieName, i);
          sessionID := cookies[i].value;
          break;
        }
        i := i + 1;
      }
      if sessionID == "" {
        return Some(NoSessionID);
      }
      return None;
    }

    /** GetTorrentsInfo: the records of a 200 reply, or the classified error. */
    method GetTorrentsInfo(reply: Reply) returns (r: Result<seq<TorrentInfo>, ClientError>)
      modifies this`sent
      ensures sent == old(sent) + [ListRequest(baseURL, sessionID)]
      ensures r == ListResult(reply)
    {
      sent := sent + [ListRequest(baseURL, sessionID)];
      var e := ReplyError(ListOp, reply);
      if e.Some? {
        return Failure(e.value);
      }
      match reply.body
      case Undecodable(cause) => return Failure(DecodeFailed(cause));
      case Records(rs) => return Success(rs);
    }

    /** GetTorrentInfo: lists the torrents and scans for the first record with this hash; no match
        is None with no error, and a list error is wrapped and passed on. */
    method GetTorrentInfo(hash: string, reply: Reply) returns (r: Result<Option<TorrentInfo>, ClientError>)
      modifies this`sent
      ensures sent == old(sent) + [ListRequest(baseURL, sessionID)]
      ensures r == LookupResult(hash, reply)
    {
      var infos := GetTorrentsInfo(reply);
      if infos.Failure? {
        return Failure(ListFailed(infos.error));
      }
      var records := infos.value;
      for i := 0 to |records|
        invariant forall j :: 0 <= j < i ==> records[j].hash != hash
      {
        if records[i].hash == hash {
          FirstIsFound(records, hash, i);
          return Success(Some(records[i]));
        }
      }
      return Success(None);
    }

    /** AddTorrent: posts the magnet URI with the session cookie and classifies the reply. */
    method AddTorrent(magnetURI: string, reply: Reply) returns (err: Option<ClientError>)
      modifies this`sent
      ensures sent == old(sent) + [AddRequest(baseURL, sessionID, magnetURI)]
      ensures err == ReplyError(AddOp, reply)
    {
      sent := sent + [AddRequest(baseURL, sessionID, magnetURI)];
      err := ReplyError(AddOp, reply);
    }

    /** DeleteTorrent: posts the hash and the delete-files flag with the session cookie and
        classifies the reply. */
    method DeleteTorrent(hash: string, deleteFiles: bool, reply: Reply) returns (err: Option<ClientError>)
      modifies this`sent
      ensures sent == old(sent) + [DeleteRequest(baseURL, sessionID, hash, deleteFiles)]
      ensures err == ReplyError(DeleteOp, reply)
    {
      sent := sent + [DeleteRequest(baseURL, sessionID, hash, deleteFiles)];
      err := ReplyError(DeleteOp, reply);
    }
  }

  /** Where a scan that has seen no match before index i matches at i, that record is the first. */
  lemma {:induction false} FirstIsFound(records: seq<TorrentInfo>, hash: string, i: nat)
    requires i < |records| && records[i].hash == hash
    requires forall j :: 0 <= j < i ==> records[j].hash != hash
    ensures FirstWithHash(records, hash) == Some(records[i])
  {
    if i > 0 {
      assert records[1..][i - 1] == records[i];
      FirstIsFound(records[1..], hash, i - 1);
    }
  }

  /** The cookie the scan stops at is the first one with the name, so later ones are ignored. */
  lemma {:induction false} FirstCookieAt(cookies: seq<Cookie>, name: string, i: nat)
    requires i < |cookies| && cookies[i].name == name
    requires forall j :: 0 <= j < i ==> cookies[j].name != name
    ensures FirstCookie(cookies, name) == Some(cookies[i].value)
  {
    if i > 0 {
      assert cookies[1..][i - 1] == cookies[i];
      FirstCookieAt(cookies[1..], name, i - 1);
    }
  }

  /** The base URL in the form the client keeps, on the example of its tests. */
  lemma NewClientExamples()
    ensures TrimSuffix("http://localhost:8080/", "/") == "http://localhost:8080"
    ensures TrimSuffix("http://localhost:8080", "/") == "http://localhost:8080"
  {
    TrimsOneSlash("http://localhost:8080");
    assert "http://localhost:8080" + "/" == "http://localhost:8080/";
    KeepsUnslashed("http://localhost:8080");
  }
}
