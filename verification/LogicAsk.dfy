/** The asking side: what `handler_http` decides about a request and how it rewrites it, and how
    `handle_via_tasks` posts it as a task and fetches the reply. */
module LogicAsk {
  import opened Wrappers
  import opened Http
  import opened Uris
  import opened Tables
  import opened Executors
  import opened Retry
  import R = Reply

  datatype Config = Config(myAppId: string, proxyAuth: string, noAuth: bool, retries: nat, ttl: string)

  datatype Outcome =
    | ShowSites
    | Refused(status: nat)
    | Forward(target: string, auth: string)

  function HeaderAuthority(lib: Lib, headers: HeaderMap, name: string): Option<string> {
    match Get(headers, name)
    case Some(value) => if IsText(value) then lib.parseAuthority(value) else None
    case None => None
  }

  function Or<T>(a: Option<T>, b: Option<T>): Option<T> {
    if a.Some? then a else b
  }

  /** The authority a request is for: a header that replaces it, that of the TLS connection it came through, that
      of its URI, its host header. */
  function RequestedAuthority(lib: Lib, req: HttpRequest, https: Option<string>): Option<string> {
    Or(HeaderAuthority(lib, req.headers, X_REPLACE_HOST),
       Or(Or(https, req.url.authority), HeaderAuthority(lib, req.headers, HOST)))
  }

  function ViaValue(cfg: Config): string {
    "Via: Samply.Beam.Connect/0.1 " + cfg.myAppId
  }

  /** The headers that go on: with Via, without the credentials for the proxy. */
  function ForwardedHeaders(cfg: Config, headers: HeaderMap): HeaderMap {
    headers[VIA := [ViaValue(cfg)]] - {PROXY_AUTHORIZATION}
  }

  function Credentials(cfg: Config, headers: HeaderMap): Option<string> {
    Or(Get(headers, PROXY_AUTHORIZATION), if cfg.noAuth then Some(cfg.proxyAuth) else None)
  }

  function ForwardedUri(req: HttpRequest, authority: string, https: Option<string>, site: Site): Option<Uri> {
    FromParts(req.url.(
      authority := Some(if site.remapVhost.Some? then site.remapVhost.value else authority),
      scheme := if req.method_ == CONNECT then req.url.scheme else Some(if https.Some? then HTTPS else HTTP)))
  }

  /** The decision once the authority is known. */
  function HandledFor(cfg: Config, sites: seq<Site>, req: HttpRequest, https: Option<string>, authority: string)
    : (Outcome, Option<HttpRequest>)
  {
    match Credentials(cfg, req.headers)
    case None => (Refused(PROXY_AUTHENTICATION_REQUIRED), None)
    case Some(auth) =>
      match FirstSite(sites, authority)
      case None => if Path(req.url) == "/sites" then (ShowSites, None) else (Refused(UNAUTHORIZED), None)
      case Some(site) =>
        match ForwardedUri(req, authority, https, site)
        case None => (Refused(INTERNAL_SERVER_ERROR), None)
        case Some(uri) =>
          (Forward(site.beamconnect, auth),
           Some(HttpRequest(req.method_, uri, ForwardedHeaders(cfg, req.headers), req.body)))
  }

  /** The decision and the request as it is forwarded. */
  function Handled(lib: Lib, cfg: Config, sites: seq<Site>, req: HttpRequest, https: Option<string>)
    : (Outcome, Option<HttpRequest>)
  {
    if Or(https, req.url.authority) == None && Path(req.url) == "/sites" then (ShowSites, None)
    else
      match RequestedAuthority(lib, req, https)
      case None => (Refused(BAD_REQUEST), None)
      case Some(authority) => HandledFor(cfg, sites, req, https, authority)
  }

  method HandlerHttp(lib: Lib, cfg: Config, sites: seq<Site>, req: Request, https: Option<string>)
    returns (r: Outcome)
    modifies req`uri, req`headers
    ensures r == Handled(lib, cfg, sites, old(req.View()), https).0
    ensures r.Forward? ==> Some(req.View()) == Handled(lib, cfg, sites, old(req.View()), https).1
  {
    var hostAuthority := HeaderAuthority(lib, req.headers, HOST);
    var replaceAuthority := HeaderAuthority(lib, req.headers, X_REPLACE_HOST);
    var authority := if https.Some? then https else req.uri.authority;
    if authority == None && Path(req.uri) == "/sites" {
      return ShowSites;
    }
    authority := if replaceAuthority.Some? then replaceAuthority
                 else if authority.Some? then authority else hostAuthority;
    if authority == None {
      return Refused(BAD_REQUEST);
    }
    var auth := PrepareHeaders(cfg, req);
    if auth == None {
      return Refused(PROXY_AUTHENTICATION_REQUIRED);
    }
    var found, _ := GetSite(sites, authority.value);
    if found == None {
      return if Path(req.uri) == "/sites" then ShowSites else Refused(UNAUTHORIZED);
    }
    var site := found.value;
    var ok := SetUri(req, authority.value, https, site);
    return if ok then Forward(site.beamconnect, auth.value) else Refused(INTERNAL_SERVER_ERROR);
  }

  /** Sets Via and takes the credentials out. */
  method PrepareHeaders(cfg: Config, req: Request) returns (auth: Option<string>)
    modifies req`headers
    ensures req.headers == ForwardedHeaders(cfg, old(req.headers))
    ensures auth == Credentials(cfg, old(req.headers))
  {
    req.headers := req.headers[VIA := [ViaValue(cfg)]];
    auth := Get(req.headers, PROXY_AUTHORIZATION);
    req.headers := req.headers - {PROXY_AUTHORIZATION};
    if auth == None && cfg.noAuth {
      auth := Some(cfg.proxyAuth);
    }
  }

  /** Sets the authority, as it may have come with a CONNECT request, and the scheme. */
  method SetUri(req: Request, authority: string, https: Option<string>, site: Site) returns (ok: bool)
    modifies req`uri
    ensures match ForwardedUri(old(req.View()), authority, https, site)
            case None => !ok && req.uri == old(req.uri)
            case Some(uri) => ok && req.uri == uri
  {
    var parts := req.uri;
    parts := parts.(authority := Some(if site.remapVhost.Some? then site.remapVhost.value else authority));
    if req.method_ != CONNECT {
      if https.Some? {
        parts := parts.(scheme := Some(HTTPS));
      } else {
        parts := parts.(scheme := Some(HTTP));
      }
    }
    var uri := FromParts(parts);
    ok := uri.Some?;
    if ok {
      req.uri := uri.value;
    }
  }

  // ---------- what is decided, read off the request alone ----------

  /** The first value of the header is text that reads as the authority. */
  predicate HeaderGives(lib: Lib, headers: HeaderMap, name: string, authority: string) {
    && name in headers && headers[name] != []
    && (forall i :: 0 <= i < |headers[name][0]| ==>
          ' ' <= headers[name][0][i] <= '~' || headers[name][0][i] == '\t')
    && lib.parseAuthority(headers[name][0]) == Some(authority)
  }

  ghost predicate HeaderGivesNone(lib: Lib, headers: HeaderMap, name: string) {
    forall authority: string :: !HeaderGives(lib, headers, name, authority)
  }

  /** The authority the request is for: that of x-replace-host; without one that of the TLS connection it came
      through; without that, too, that of its URI; and without all of these that of its host header. */
  ghost predicate IsAskedFor(lib: Lib, req: HttpRequest, https: Option<string>, authority: string) {
    || HeaderGives(lib, req.headers, "x-replace-host", authority)
    || (HeaderGivesNone(lib, req.headers, "x-replace-host") &&
        (|| https == Some(authority)
         || (https == None && req.url.authority == Some(authority))
         || (https == None && req.url.authority == None && HeaderGives(lib, req.headers, "host", authority))))
  }

  predicate AsksForSites(req: HttpRequest) {
    req.url.pathAndQuery.Some? && (req.url.pathAndQuery.value == "/sites" || "/sites?" <= req.url.pathAndQuery.value)
  }

  /** The credentials are those the request brings, or else the configured ones if it need not bring any. */
  predicate BringsCredentials(cfg: Config, headers: HeaderMap, auth: Option<string>) {
    if "proxy-authorization" in headers && headers["proxy-authorization"] != []
    then auth == Some(headers["proxy-authorization"][0])
    else auth == if cfg.noAuth then Some(cfg.proxyAuth) else None
  }

  /** Via is set, the credentials are gone, and everything else is as it was. */
  predicate PassesHeaders(cfg: Config, before: HeaderMap, after: HeaderMap) {
    && after.Keys == before.Keys + {"via"} - {"proxy-authorization"}
    && after["via"] == ["Via: Samply.Beam.Connect/0.1 " + cfg.myAppId]
    && forall name :: name in after && name != "via" ==> after[name] == before[name]
  }

  /** The request goes on under the site's own authority or, without one, the one asked for; with https or http as
      it came, unless it is a CONNECT request. */
  predicate GoesOnAs(cfg: Config, req: HttpRequest, https: Option<string>, authority: string, site: Site,
                     forwarded: HttpRequest)
  {
    && forwarded.method_ == req.method_ && forwarded.body == req.body
    && PassesHeaders(cfg, req.headers, forwarded.headers)
    && forwarded.url.pathAndQuery == req.url.pathAndQuery
    && forwarded.url.authority == (if site.remapVhost == None then Some(authority) else site.remapVhost)
    && forwarded.url.scheme == if req.method_ == "CONNECT" then req.url.scheme
                               else if https == None then Some("http") else Some("https")
  }

  /** A scheme, that of a CONNECT request or the one to be set, needs a path, and a path needs a scheme. */
  predicate CanGoOn(req: HttpRequest) {
    req.url.pathAndQuery.Some? == (req.method_ == "CONNECT" ==> req.url.scheme.Some?)
  }

  /** The decision about a request for the authority. */
  ghost predicate DecidesFor(cfg: Config, sites: seq<Site>, req: HttpRequest, https: Option<string>,
                             authority: string, r: Outcome, forwarded: Option<HttpRequest>)
  {
    if BringsCredentials(cfg, req.headers, None) then r == Refused(407) && forwarded == None
    else if forall k: nat :: !IsFirstSite(sites, authority, k) then
      forwarded == None && r == if AsksForSites(req) then ShowSites else Refused(401)
    else if !CanGoOn(req) then r == Refused(500) && forwarded == None
    else
      && r.Forward? && forwarded.Some? && BringsCredentials(cfg, req.headers, Some(r.auth))
      && exists k: nat ::
           && IsFirstSite(sites, authority, k) && r.target == sites[k].beamconnect
           && GoesOnAs(cfg, req, https, authority, sites[k], forwarded.value)
  }

  ghost predicate Decides(lib: Lib, cfg: Config, sites: seq<Site>, req: HttpRequest, https: Option<string>,
                          r: Outcome, forwarded: Option<HttpRequest>)
  {
    if https == None && req.url.authority == None && AsksForSites(req) then r == ShowSites && forwarded == None
    else if forall authority: string :: !IsAskedFor(lib, req, https, authority) then
      r == Refused(400) && forwarded == None
    else
      exists authority: string ::
        IsAskedFor(lib, req, https, authority) && DecidesFor(cfg, sites, req, https, authority, r, forwarded)
  }

  lemma HeaderExactly(lib: Lib, headers: HeaderMap, name: string)
    ensures forall authority: string ::
              HeaderAuthority(lib, headers, name) == Some(authority) <==> HeaderGives(lib, headers, name, authority)
    ensures HeaderAuthority(lib, headers, name) == None <==> HeaderGivesNone(lib, headers, name)
  {
    if HeaderAuthority(lib, headers, name).Some? {
      assert HeaderGives(lib, headers, name, HeaderAuthority(lib, headers, name).value);
    }
  }

  lemma AuthorityExactly(lib: Lib, req: HttpRequest, https: Option<string>)
    ensures forall authority: string ::
              RequestedAuthority(lib, req, https) == Some(authority) <==> IsAskedFor(lib, req, https, authority)
    ensures RequestedAuthority(lib, req, https) == None <==>
            forall authority: string :: !IsAskedFor(lib, req, https, authority)
  {
    HeaderExactly(lib, req.headers, "x-replace-host");
    HeaderExactly(lib, req.headers, "host");
    if RequestedAuthority(lib, req, https).Some? {
      assert IsAskedFor(lib, req, https, RequestedAuthority(lib, req, https).value);
    }
  }

  lemma SitesPathExactly(req: HttpRequest)
    ensures Path(req.url) == "/sites" <==> AsksForSites(req)
  {
    PathExactly(req.url, "/sites");
    if req.url.pathAndQuery.Some? {
      var p := req.url.pathAndQuery.value;
      assert "/sites" + ['?'] == "/sites?";
      if AsksForSites(req) {
        assert UpTo(p, '?', "/sites");
      }
    }
  }

  lemma HeadersExactly(cfg: Config, before: HeaderMap, after: HeaderMap)
    ensures ForwardedHeaders(cfg, before) == after <==> PassesHeaders(cfg, before, after)
  {
    if PassesHeaders(cfg, before, after) {
      assert ForwardedHeaders(cfg, before).Keys == after.Keys;
    }
  }

  lemma UriExactly(cfg: Config, req: HttpRequest, https: Option<string>, authority: string, site: Site,
                   forwarded: HttpRequest)
    ensures ForwardedUri(req, authority, https, site) == None <==> !CanGoOn(req)
    ensures CanGoOn(req) ==>
              (forwarded == HttpRequest(req.method_, ForwardedUri(req, authority, https, site).value,
                                        ForwardedHeaders(cfg, req.headers), req.body)
               <==> GoesOnAs(cfg, req, https, authority, site, forwarded))
  {
    HeadersExactly(cfg, req.headers, forwarded.headers);
  }

  /** `handler_http` decides so and only so, for every request. */
  lemma HandledExactly(lib: Lib, cfg: Config, sites: seq<Site>, req: HttpRequest, https: Option<string>,
                       r: Outcome, forwarded: Option<HttpRequest>)
    ensures Handled(lib, cfg, sites, req, https) == (r, forwarded)
            <==> Decides(lib, cfg, sites, req, https, r, forwarded)
  {
    SitesPathExactly(req);
    AuthorityExactly(lib, req, https);
    if authority: string :| IsAskedFor(lib, req, https, authority) {
      HandledForExactly(cfg, sites, req, https, authority, r, forwarded);
    }
  }

  lemma HandledForExactly(cfg: Config, sites: seq<Site>, req: HttpRequest, https: Option<string>,
                          authority: string, r: Outcome, forwarded: Option<HttpRequest>)
    ensures HandledFor(cfg, sites, req, https, authority) == (r, forwarded)
            <==> DecidesFor(cfg, sites, req, https, authority, r, forwarded)
  {
    SitesPathExactly(req);
    SitesExactly(sites, authority);
    if FirstSite(sites, authority).Some? {
      var k := FirstSiteFound(sites, authority);
      assert IsFirstSite(sites, authority, k);
      if forwarded.Some? {
        UriExactly(cfg, req, https, authority, sites[k], forwarded.value);
      } else {
        UriExactly(cfg, req, https, authority, sites[k], req);
      }
    } else {
      NoSiteIff(sites, authority);
    }
  }

  /** The list of sites is shown for the path "/sites" alone: to a request without authority in its URI or TLS
      connection, whatever its headers; or to one with credentials whose authority no site has. */
  lemma SitesAreShownExactly(lib: Lib, cfg: Config, sites: seq<Site>, req: HttpRequest, https: Option<string>)
    ensures Handled(lib, cfg, sites, req, https).0 == ShowSites <==>
            && AsksForSites(req)
            && (|| (https == None && req.url.authority == None)
                || (&& !BringsCredentials(cfg, req.headers, None)
                    && exists authority: string ::
                         IsAskedFor(lib, req, https, authority)
                         && forall k: nat :: !IsFirstSite(sites, authority, k)))
  {
    HandledExactly(lib, cfg, sites, req, https, ShowSites, None);
    AuthorityExactly(lib, req, https);
  }

  lemma {:induction false} NoSiteIff(sites: seq<Site>, authority: string)
    ensures FirstSite(sites, authority) == None <==>
            forall i :: 0 <= i < |sites| ==> !SameAuthority(sites[i].virtualhost, authority)
  {
    if sites != [] {
      NoSiteIff(sites[1..], authority);
    }
  }

  // ---------- sending the request as a task ----------

  /** One request to the proxy: posting the task, or fetching its results. */
  datatype Sent = PostTask(msg: TaskRequest, auth: string) | FetchResults(id: nat, auth: string)

  function TaskOf(cfg: Config, id: nat, target: string, req: HttpRequest): TaskRequest {
    TaskRequest(id, App(cfg.myAppId), [target], cfg.ttl, req)
  }

  function StatusOf(e: RetryError): nat {
    match e
    case BadStatus(status) => status
    case Transport(_) => BAD_GATEWAY
  }

  /** `bodyRead` says whether the client's body arrives whole.  `post(k)` and `fetch(k)` are what the k-th attempt to
      post and to fetch bring back; the fetched body is None if it cannot be decoded.  `id` is the fresh message id.
      `posts` and `fetches` count the attempts. */
  method HandleViaTasks(cfg: Config, id: nat, target: string, auth: string, req: HttpRequest, bodyRead: bool,
                        post: nat -> Attempt<()>, fetch: nat -> Attempt<Option<seq<R.TaskResult>>>)
    returns (r: Result<R.HttpResponse, nat>, sent: seq<Sent>, posts: nat, fetches: nat)
    ensures sent == Repeat(posts, PostTask(TaskRequest(id, App(cfg.myAppId), [target], cfg.ttl, req), auth))
                    + Repeat(fetches, FetchResults(id, auth))
    ensures req.method_ == "CONNECT" ==> posts == fetches == 0 && r == Failure(501)
    ensures req.method_ != "CONNECT" && !bodyRead ==> posts == fetches == 0 && r == Failure(400)
    ensures req.method_ != "CONNECT" && bodyRead ==>
              && StopsAt(post, cfg.retries, posts)
              && match post(posts)
                 case TransportError(_) => fetches == 0 && r == Failure(502)
                 case Response(status, _) =>
                   if 400 <= status <= 599 then fetches == 0 && r == Failure(status)
                   else
                     && StopsAt(fetch, cfg.retries, fetches)
                     && match fetch(fetches)
                        case TransportError(_) => r == Failure(502)
                        case Response(status, payload) =>
                          if 400 <= status <= 599 then r == Failure(status)
                          else
                            match payload
                            case None => r == Failure(500)
                            case Some(results) => r == R.Unpacked(results)
  {
    posts, fetches, sent := 0, 0, [];
    if req.method_ == CONNECT {
      return Failure(NOT_IMPLEMENTED), sent, posts, fetches;
    }
    if !bodyRead {
      return Failure(BAD_REQUEST), sent, posts, fetches;
    }
    var msg := TaskOf(cfg, id, target, req);
    var posted, _, _, postings := RetryBeamReq(_ => PostTask(msg, auth), post, cfg.retries);
    posts, sent := |postings|, sent + postings;
    assert postings == Repeat(posts, PostTask(TaskOf(cfg, id, target, req), auth));
    if posted.Failure? {
      return Failure(StatusOf(posted.error)), sent, posts, fetches;
    }
    var fetched, _, _, fetchings := RetryBeamReq(_ => FetchResults(msg.id, auth), fetch, cfg.retries);
    fetches, sent := |fetchings|, sent + fetchings;
    assert fetchings == Repeat(fetches, FetchResults(id, auth));
    if fetched.Failure? {
      return Failure(StatusOf(fetched.error)), sent, posts, fetches;
    }
    if fetched.value.payload == None {
      return Failure(INTERNAL_SERVER_ERROR), sent, posts, fetches;
    }
    r := R.Unpack(fetched.value.payload.value);
  }
}
