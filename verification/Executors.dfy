/** Executing a request for a remote app, and its two separately written URI rewriters: one for tasks
    (`execute_http_task` of the task executor) and one for requests that come through a socket
    (`execute_http_task` of the socket executor). */
module Executors {
  import opened Wrappers
  import opened Http
  import opened Uris
  import opened Tables

  const CONNECT := "CONNECT"

  datatype Sender = App(id: string) | Proxy(id: string)

  datatype HttpRequest = HttpRequest(method_: string, url: Uri, headers: HeaderMap, body: Bytes)

  datatype TaskRequest = TaskRequest(id: nat, from: Sender, to: seq<string>, ttl: string, body: HttpRequest)

  datatype TaskRefusal = NoLocalMapping | NotAuthorized | BuildFailed

  // ---------- the task executor ----------

  /** The scheme is taken over, or forced to https; the path gets a prefix; the authority is replaced.  A URI
      without scheme keeps nothing but the new authority. */
  function BuildTaskUri(lib: Lib, target: Entry, url: Uri): Option<Uri> {
    var authority := Some(target.replace.authority);
    match url.scheme
    case None => FromParts(Uri(None, authority, None))
    case Some(scheme) =>
      var newScheme := Some(if target.forceHttps then HTTPS else scheme);
      match target.replace.path
      case Some(path) =>
        var original := if url.pathAndQuery.Some? then AsStr(url.pathAndQuery.value) else "";
        (match ParsePath(lib, "/" + path + original)
         case None => None
         case Some(p) => FromParts(Uri(newScheme, authority, Some(p))))
      case None =>
        var original := if url.pathAndQuery.Some? then url.pathAndQuery.value else "/";
        FromParts(Uri(newScheme, authority, Some(original)))
  }

  function TaskDestination(lib: Lib, table: seq<Entry>, url: Uri, from: Sender): Result<Uri, TaskRefusal> {
    match FirstEntry(lib, table, url)
    case None => Failure(NoLocalMapping)
    case Some(target) =>
      if !(from.App? && CanBeAccessedBy(lib, target, from.id)) then Failure(NotAuthorized)
      else
        match BuildTaskUri(lib, target, url)
        case None => Failure(BuildFailed)
        case Some(uri) => Success(uri)
  }

  /** The request that goes out to the target. */
  function Outgoing(task: TaskRequest, target: Entry, uri: Uri): HttpRequest {
    HttpRequest(task.body.method_, uri,
                if target.resetHost then task.body.headers - {HOST} else task.body.headers,
                task.body.body)
  }

  method ExecuteTask(lib: Lib, table: seq<Entry>, task: TaskRequest) returns (r: Result<HttpRequest, TaskRefusal>)
    ensures match TaskDestination(lib, table, task.body.url, task.from)
            case Failure(refusal) => r == Failure(refusal)
            case Success(uri) => r == Success(Outgoing(task, FirstEntry(lib, table, task.body.url).value, uri))
  {
    var url := task.body.url;
    var found, _ := GetEntry(lib, table, url);
    if found == None {
      return Failure(NoLocalMapping);
    }
    var target := found.value;
    if !task.from.App? || !CanBeAccessedBy(lib, target, task.from.id) {
      return Failure(NotAuthorized);
    }
    var builder := Uri(None, None, None);
    if url.scheme.Some? {
      builder := builder.(scheme := Some(if target.forceHttps then HTTPS else url.scheme.value));
      if target.replace.path.Some? {
        var original := if url.pathAndQuery.Some? then AsStr(url.pathAndQuery.value) else "";
        var parsed := ParsePath(lib, "/" + target.replace.path.value + original);
        if parsed == None {
          return Failure(BuildFailed);
        }
        builder := builder.(pathAndQuery := parsed);
      } else {
        builder := builder.(pathAndQuery := Some(if url.pathAndQuery.Some? then url.pathAndQuery.value else "/"));
      }
    }
    builder := builder.(authority := Some(target.replace.authority));
    var uri := FromParts(builder);
    if uri == None {
      return Failure(BuildFailed);
    }
    var headers := task.body.headers;
    if target.resetHost {
      headers := headers - {HOST};
    }
    return Success(HttpRequest(task.body.method_, uri.value, headers, task.body.body));
  }

  // ---------- the socket executor ----------

  /** The parts of the URI are changed one by one and put together again. */
  function BuildSocketUri(lib: Lib, target: Entry, url: Uri): Option<Uri> {
    var parts := url.(
      scheme := if target.forceHttps then Some(HTTPS) else url.scheme,
      authority := Some(target.replace.authority));
    match target.replace.path
    case None => FromParts(parts)
    case Some(path) =>
      var original := if url.pathAndQuery.Some? then AsStr(url.pathAndQuery.value) else "";
      match ParsePath(lib, "/" + path + original)
      case None => None
      case Some(p) => FromParts(parts.(pathAndQuery := Some(p)))
  }

  /** For requests other than CONNECT. */
  function SocketDestination(lib: Lib, table: seq<Entry>, url: Uri, app: string): Result<Uri, nat> {
    match FirstEntry(lib, table, url)
    case None => Failure(BAD_REQUEST)
    case Some(target) =>
      if !CanBeAccessedBy(lib, target, app) then Failure(UNAUTHORIZED)
      else
        match BuildSocketUri(lib, target, url)
        case None => Failure(INTERNAL_SERVER_ERROR)
        case Some(uri) => Success(uri)
  }

  /** A request in the making: its fields are changed in place. */
  class Request {
    var method_: string
    var uri: Uri
    var headers: HeaderMap
    var body: Bytes

    function View(): HttpRequest
      reads this
    {
      HttpRequest(method_, uri, headers, body)
    }

    constructor (view: HttpRequest)
      ensures View() == view
    {
      method_, uri, headers, body := view.method_, view.url, view.headers, view.body;
    }
  }

  /** What the socket executor does with a request: refuse it with a status, connect to the target of a CONNECT
      request, or send it on. */
  datatype SocketAction = Refuse(status: nat) | ConnectTo(authority: string) | SendOn

  /** For CONNECT requests. */
  function ConnectAction(lib: Lib, table: seq<Entry>, url: Uri, app: string): SocketAction {
    match FirstEntry(lib, table, url)
    case None => Refuse(BAD_REQUEST)
    case Some(target) =>
      if CanBeAccessedBy(lib, target, app) then ConnectTo(target.replace.authority) else Refuse(UNAUTHORIZED)
  }

  method ExecuteSocketRequest(lib: Lib, table: seq<Entry>, req: Request, app: string) returns (r: SocketAction)
    modifies req`uri
    ensures req.method_ == CONNECT ==>
              req.uri == old(req.uri) && r == ConnectAction(lib, table, req.uri, app)
    ensures req.method_ != CONNECT ==>
              match SocketDestination(lib, table, old(req.uri), app)
              case Failure(status) => r == Refuse(status) && req.uri == old(req.uri)
              case Success(uri) => r == SendOn && req.uri == uri
  {
    var found, _ := GetEntry(lib, table, req.uri);
    if found == None {
      return Refuse(BAD_REQUEST);
    }
    var target := found.value;
    if !CanBeAccessedBy(lib, target, app) {
      return Refuse(UNAUTHORIZED);
    }
    if req.method_ == CONNECT {
      return ConnectTo(target.replace.authority);
    }
    var parts := req.uri;
    if target.forceHttps {
      parts := parts.(scheme := Some(HTTPS));
    }
    parts := parts.(authority := Some(target.replace.authority));
    if target.replace.path.Some? {
      var original := if parts.pathAndQuery.Some? then AsStr(parts.pathAndQuery.value) else "";
      var parsed := ParsePath(lib, "/" + target.replace.path.value + original);
      if parsed == None {
        return Refuse(INTERNAL_SERVER_ERROR);
      }
      parts := parts.(pathAndQuery := parsed);
    }
    var uri := FromParts(parts);
    if uri == None {
      return Refuse(INTERNAL_SERVER_ERROR);
    }
    req.uri := uri.value;
    return SendOn;
  }

  // ---------- who is refused, and why ----------

  /** A task has no local target exactly if no entry is for its URI; it is not authorised exactly if its sender is
      not an app that the first such entry allows, so never if it is a proxy; and nothing else keeps it from being
      sent than a URI that cannot be built. */
  lemma TaskRefusalsExactly(lib: Lib, table: seq<Entry>, url: Uri, from: Sender)
    ensures var r := TaskDestination(lib, table, url, from);
            && (r == Failure(NoLocalMapping) <==> forall j :: 0 <= j < |table| ==> !IsFor(lib, table[j], url))
            && (forall k: nat :: IsFirstEntry(lib, table, url, k) ==>
                  if from.App? && IsAllowed(lib, table[k].allowed, from.id)
                  then r.Success? || r == Failure(BuildFailed)
                  else r == Failure(NotAuthorized))
  {
    EntryExactly(lib, table, url);
    forall k: nat | IsFirstEntry(lib, table, url, k) && from.App?
      ensures CanBeAccessedBy(lib, table[k], from.id) <==> IsAllowed(lib, table[k].allowed, from.id)
    {
      AccessExactly(lib, table[k], from.id);
    }
  }

  /** The socket executor answers 400, 401 and 500 in the same cases; a CONNECT request is connected to the authority
      of the entry, or refused with 400 or 401. */
  lemma SocketRefusalsExactly(lib: Lib, table: seq<Entry>, url: Uri, app: string)
    ensures var r, c := SocketDestination(lib, table, url, app), ConnectAction(lib, table, url, app);
            && (r == Failure(400) <==> forall j :: 0 <= j < |table| ==> !IsFor(lib, table[j], url))
            && (c == Refuse(400) <==> forall j :: 0 <= j < |table| ==> !IsFor(lib, table[j], url))
            && (forall k: nat :: IsFirstEntry(lib, table, url, k) ==>
                  if IsAllowed(lib, table[k].allowed, app)
                  then (r.Success? || r == Failure(500)) && c == ConnectTo(table[k].replace.authority)
                  else r == Failure(401) && c == Refuse(401))
  {
    EntryExactly(lib, table, url);
    forall k: nat | IsFirstEntry(lib, table, url, k)
      ensures CanBeAccessedBy(lib, table[k], app) <==> IsAllowed(lib, table[k].allowed, app)
    {
      AccessExactly(lib, table[k], app);
    }
  }

  // ---------- the two agree ----------

  predicate Agree(task: Result<Uri, TaskRefusal>, socket: Result<Uri, nat>) {
    if task.Success? then socket == Success(task.value) else socket.Failure?
  }

  /** For a URI with a scheme the two rewriters refuse the same requests and send the others to the same URI, for
      every table and every app. */
  lemma RewritersAgree(lib: Lib, table: seq<Entry>, url: Uri, app: string)
    requires WellFormed(url) && url.scheme.Some?
    ensures Agree(TaskDestination(lib, table, url, App(app)), SocketDestination(lib, table, url, app))
  {
  }

  /** Over all URIs there are, they agree exactly when the request is refused for want of an entry or of access,
      or the URI has a scheme, or the entry neither forces https nor adds a path. */
  lemma RewritersAgreeIff(lib: Lib, table: seq<Entry>, url: Uri, app: string)
    requires WellFormed(url)
    ensures Agree(TaskDestination(lib, table, url, App(app)), SocketDestination(lib, table, url, app)) <==>
            match FirstEntry(lib, table, url)
            case None => true
            case Some(target) =>
              || !CanBeAccessedBy(lib, target, app)
              || url.scheme.Some?
              || (!target.forceHttps && target.replace.path == None)
  {
    var target := FirstEntry(lib, table, url);
    if target.Some? {
      var _ := FirstEntryFound(lib, table, url);
    }
  }
}
