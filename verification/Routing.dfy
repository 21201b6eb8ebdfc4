/** Both sides together: a request handled by `handler_http`, sent as a task to the app of its site, and executed
    there by the task executor with that app's local table. */
module Routing {
  import opened Wrappers
  import opened Http
  import opened Uris
  import opened Tables
  import opened Executors
  import opened LogicAsk

  /** The local table of each app. */
  type Network = string -> seq<Entry>

  /** The broker gives a task to the app it is addressed to. */
  function Addressee(task: TaskRequest): Option<string> {
    if |task.to| == 1 then Some(task.to[0]) else None
  }

  /** The app that executes the request, and the request it sends to the target; None if it is not forwarded as
      a task, or refused there. */
  function Deliver(lib: Lib, cfg: Config, sites: seq<Site>, net: Network, id: nat, req: HttpRequest,
                   https: Option<string>): Option<(string, HttpRequest)>
  {
    match Handled(lib, cfg, sites, req, https)
    case (Forward(target, _), Some(forwarded)) =>
      if forwarded.method_ == CONNECT then None else Execute(lib, net, TaskOf(cfg, id, target, forwarded))
    case _ => None
  }

  function Execute(lib: Lib, net: Network, task: TaskRequest): Option<(string, HttpRequest)> {
    match Addressee(task)
    case None => None
    case Some(app) =>
      match TaskDestination(lib, net(app), task.body.url, task.from)
      case Failure(_) => None
      case Success(uri) => Some((app, Outgoing(task, FirstEntry(lib, net(app), task.body.url).value, uri)))
  }

  // ---------- the declarative specification ----------

  /** The URI under which the executing app looks the request up. */
  function LookupUri(site: Site, authority: string, pathAndQuery: string, https: Option<string>): Uri {
    Uri(Some(if https == None then "http" else "https"),
        if site.remapVhost == None then Some(authority) else site.remapVhost,
        Some(pathAndQuery))
  }

  /** A path with query as it is written. */
  function Written(pathAndQuery: string): string {
    if pathAndQuery == "" then "/" else pathAndQuery
  }

  /** The entry's authority, https if the request came through TLS or the entry forces it, and the original path
      and query behind the entry's path if it has one, up to a fragment. */
  ghost predicate IsTarget(lib: Lib, entry: Entry, lookup: Uri, uri: Uri)
    requires lookup.scheme.Some? && lookup.pathAndQuery.Some?
  {
    && uri.authority == Some(entry.replace.authority)
    && uri.scheme == (if entry.forceHttps then Some("https") else lookup.scheme)
    && match entry.replace.path
       case None => uri.pathAndQuery == lookup.pathAndQuery
       case Some(path) =>
         && uri.pathAndQuery.Some? && lib.validPath(uri.pathAndQuery.value)
         && UpTo("/" + path + Written(lookup.pathAndQuery.value), '#', uri.pathAndQuery.value)
  }

  /** Entry `j` is the first one for the lookup, it allows `who`, and `uri` is its target. */
  ghost predicate ServedBy(lib: Lib, table: seq<Entry>, who: string, lookup: Uri, j: nat, uri: Uri)
    requires lookup.scheme.Some? && lookup.pathAndQuery.Some?
  {
    && IsFirstEntry(lib, table, lookup, j)
    && IsAllowed(lib, table[j].allowed, who)
    && IsTarget(lib, table[j], lookup, uri)
  }

  /** The request, which has credentials and is not one for the list of sites, is for an authority whose first
      site is site `i`; entry `j` of that site's app serves it under the (remapped) authority.  All of this is
      read off the request and the tables, by none of the functions above. */
  ghost predicate RoutesVia(lib: Lib, cfg: Config, sites: seq<Site>, net: Network, req: HttpRequest,
                            https: Option<string>, authority: string, i: nat, j: nat, app: string, uri: Uri)
  {
    && req.method_ != "CONNECT"
    && !BringsCredentials(cfg, req.headers, None)
    && !(https == None && req.url.authority == None && AsksForSites(req))
    && IsAskedFor(lib, req, https, authority)
    && IsFirstSite(sites, authority, i)
    && app == sites[i].beamconnect
    && req.url.pathAndQuery.Some?
    && ServedBy(lib, net(app), cfg.myAppId, LookupUri(sites[i], authority, req.url.pathAndQuery.value, https), j, uri)
  }

  ghost predicate Routes(lib: Lib, cfg: Config, sites: seq<Site>, net: Network, req: HttpRequest,
                         https: Option<string>, app: string, uri: Uri)
  {
    exists authority: string, i: nat, j: nat :: RoutesVia(lib, cfg, sites, net, req, https, authority, i, j, app, uri)
  }

  /** End-to-end routing: a request is delivered to exactly the app and the URI that the specification gives. */
  lemma DeliveredExactlyWhereRouted(lib: Lib, cfg: Config, sites: seq<Site>, net: Network, id: nat,
                                    req: HttpRequest, https: Option<string>, app: string, uri: Uri)
    ensures (Deliver(lib, cfg, sites, net, id, req, https).Some?
             && Deliver(lib, cfg, sites, net, id, req, https).value.0 == app
             && Deliver(lib, cfg, sites, net, id, req, https).value.1.url == uri)
            <==> Routes(lib, cfg, sites, net, req, https, app, uri)
  {
    if Routes(lib, cfg, sites, net, req, https, app, uri) {
      var authority: string, i: nat, j: nat :|
        RoutesVia(lib, cfg, sites, net, req, https, authority, i, j, app, uri);
      RoutedIsDelivered(lib, cfg, sites, net, id, req, https, authority, i, j, app, uri);
    }
    if Deliver(lib, cfg, sites, net, id, req, https).Some? {
      var authority, i, j := DeliveredIsRouted(lib, cfg, sites, net, id, req, https);
    }
  }

  /** What `handler_http` makes of a request that may be routed. */
  lemma Forwarded(lib: Lib, cfg: Config, sites: seq<Site>, req: HttpRequest, https: Option<string>,
                  authority: string, i: nat)
    requires req.method_ != "CONNECT" && req.url.pathAndQuery.Some?
    requires !BringsCredentials(cfg, req.headers, None)
    requires !(https == None && req.url.authority == None && AsksForSites(req))
    requires IsAskedFor(lib, req, https, authority) && IsFirstSite(sites, authority, i)
    ensures var (r, forwarded) := Handled(lib, cfg, sites, req, https);
            && r.Forward? && r.target == sites[i].beamconnect && forwarded.Some?
            && forwarded.value.url == LookupUri(sites[i], authority, req.url.pathAndQuery.value, https)
            && forwarded.value.method_ == req.method_ && forwarded.value.body == req.body
            && forwarded.value.headers == ForwardedHeaders(cfg, req.headers)
  {
    SitesPathExactly(req);
    AuthorityExactly(lib, req, https);
    SitesExactly(sites, authority);
    FirstSiteIsFirst(sites, authority, i);
  }

  /** Executing a task for a URI with a scheme and a path. */
  lemma ExecutedExactly(lib: Lib, table: seq<Entry>, who: string, lookup: Uri, j: nat, uri: Uri)
    requires lookup.scheme.Some? && lookup.pathAndQuery.Some? && IsFirstEntry(lib, table, lookup, j)
    ensures TaskDestination(lib, table, lookup, App(who)) == Success(uri)
            <==> ServedBy(lib, table, who, lookup, j, uri)
  {
    EntryExactly(lib, table, lookup);
    AccessExactly(lib, table[j], who);
    if table[j].replace.path.Some? {
      var whole := "/" + table[j].replace.path.value + Written(lookup.pathAndQuery.value);
      BeforeExactly(whole, '#', Before(whole, '#'));
      if uri.pathAndQuery.Some? {
        BeforeExactly(whole, '#', uri.pathAndQuery.value);
      }
    }
  }

  lemma RoutedIsDelivered(lib: Lib, cfg: Config, sites: seq<Site>, net: Network, id: nat, req: HttpRequest,
                          https: Option<string>, authority: string, i: nat, j: nat, app: string, uri: Uri)
    requires RoutesVia(lib, cfg, sites, net, req, https, authority, i, j, app, uri)
    ensures Deliver(lib, cfg, sites, net, id, req, https).Some?
    ensures Deliver(lib, cfg, sites, net, id, req, https).value.0 == app
    ensures Deliver(lib, cfg, sites, net, id, req, https).value.1.url == uri
  {
    Forwarded(lib, cfg, sites, req, https, authority, i);
    var lookup := LookupUri(sites[i], authority, req.url.pathAndQuery.value, https);
    ExecutedExactly(lib, net(app), cfg.myAppId, lookup, j, uri);
  }

  lemma DeliveredIsRouted(lib: Lib, cfg: Config, sites: seq<Site>, net: Network, id: nat, req: HttpRequest,
                          https: Option<string>) returns (authority: string, i: nat, j: nat)
    requires Deliver(lib, cfg, sites, net, id, req, https).Some?
    ensures var (app, sent) := Deliver(lib, cfg, sites, net, id, req, https).value;
            RoutesVia(lib, cfg, sites, net, req, https, authority, i, j, app, sent.url)
  {
    SitesPathExactly(req);
    AuthorityExactly(lib, req, https);
    authority := RequestedAuthority(lib, req, https).value;
    SitesExactly(sites, authority);
    i := FirstSiteFound(sites, authority);
    Forwarded(lib, cfg, sites, req, https, authority, i);
    var app, lookup := sites[i].beamconnect, LookupUri(sites[i], authority, req.url.pathAndQuery.value, https);
    EntriesExactly(lib, net(app), lookup);
    j := FirstEntryFound(lib, net(app), lookup);
    ExecutedExactly(lib, net(app), cfg.myAppId, lookup, j,
                    Deliver(lib, cfg, sites, net, id, req, https).value.1.url);
  }

  /** Sent through a socket instead of as a task, a forwarded request is delivered or refused alike. */
  lemma EitherTransport(lib: Lib, cfg: Config, sites: seq<Site>, net: Network, id: nat, req: HttpRequest,
                        https: Option<string>)
    requires Handled(lib, cfg, sites, req, https).0.Forward? && req.method_ != CONNECT
    ensures var app := Handled(lib, cfg, sites, req, https).0.target;
            var forwarded := Handled(lib, cfg, sites, req, https).1;
            && forwarded.Some?
            && match SocketDestination(lib, net(app), forwarded.value.url, cfg.myAppId)
               case Failure(_) => Deliver(lib, cfg, sites, net, id, req, https) == None
               case Success(uri) =>
                 var delivered := Deliver(lib, cfg, sites, net, id, req, https);
                 delivered.Some? && delivered.value.0 == app && delivered.value.1.url == uri
  {
    var app := Handled(lib, cfg, sites, req, https).0.target;
    RewritersAgree(lib, net(app), Handled(lib, cfg, sites, req, https).1.value.url, cfg.myAppId);
  }

  /** The path of the target is the entry's path followed by the whole original path and query, exactly when the
      entry's path has no fragment; otherwise the original is cut off. */
  lemma OriginalPathIsKept(lib: Lib, entry: Entry, lookup: Uri, uri: Uri)
    requires lookup.scheme.Some? && lookup.pathAndQuery.Some? && IsTarget(lib, entry, lookup, uri)
    requires '#' !in lookup.pathAndQuery.value
    ensures match entry.replace.path
            case None => uri.pathAndQuery == lookup.pathAndQuery
            case Some(path) =>
              uri.pathAndQuery == Some("/" + path + Written(lookup.pathAndQuery.value)) <==> '#' !in path
  {
    if entry.replace.path.Some? {
      var path, original := entry.replace.path.value, Written(lookup.pathAndQuery.value);
      var whole := "/" + path + original;
      BeforeExactly(whole, '#', uri.pathAndQuery.value);
      BeforeIsAll(whole, '#');
      if '#' in path {
        var k :| 0 <= k < |path| && path[k] == '#';
        assert whole[k + 1] == '#';
      }
    }
  }

  // ---------- letter case ----------

  /** Two texts that read as the same authority up to letter case, or both as none. */
  ghost predicate SameHeader(lib: Lib, a: HeaderMap, b: HeaderMap, name: string) {
    || (HeaderGivesNone(lib, a, name) && HeaderGivesNone(lib, b, name))
    || exists x: string, y: string ::
         HeaderGives(lib, a, name, x) && HeaderGives(lib, b, name, y) && EqualUpToCase(x, y)
  }

  ghost predicate SameOption(a: Option<string>, b: Option<string>) {
    match (a, b)
    case (None, None) => true
    case (Some(x), Some(y)) => EqualUpToCase(x, y)
    case _ => false
  }

  /** Two requests that differ at most in the letter case of their authorities (and in headers that carry none). */
  ghost predicate SameUpToCase(lib: Lib, cfg: Config, a: HttpRequest, aHttps: Option<string>,
                               b: HttpRequest, bHttps: Option<string>)
  {
    && a.method_ == b.method_ && a.url.pathAndQuery == b.url.pathAndQuery
    && SameOption(a.url.authority, b.url.authority) && SameOption(aHttps, bHttps)
    && SameHeader(lib, a.headers, b.headers, "x-replace-host") && SameHeader(lib, a.headers, b.headers, "host")
    && (BringsCredentials(cfg, a.headers, None) <==> BringsCredentials(cfg, b.headers, None))
  }

  lemma SameIsSymmetric(lib: Lib, cfg: Config, a: HttpRequest, aHttps: Option<string>,
                        b: HttpRequest, bHttps: Option<string>)
    requires SameUpToCase(lib, cfg, a, aHttps, b, bHttps)
    ensures SameUpToCase(lib, cfg, b, bHttps, a, aHttps)
  {
  }

  /** Equality up to letter case is passed on. */
  lemma CaseIsTransitive(a: string, b: string, c: string)
    requires EqualUpToCase(a, b)
    ensures EqualUpToCase(c, a) <==> EqualUpToCase(c, b)
  {
    SameAuthorityExactly(a, b);
    SameAuthorityExactly(c, a);
    SameAuthorityExactly(c, b);
  }

  lemma SameFirstSite(sites: seq<Site>, x: string, y: string, i: nat)
    requires EqualUpToCase(x, y) && IsFirstSite(sites, x, i)
    ensures IsFirstSite(sites, y, i)
  {
    forall k | 0 <= k < |sites|
      ensures EqualUpToCase(sites[k].virtualhost, x) <==> EqualUpToCase(sites[k].virtualhost, y)
    {
      CaseIsTransitive(x, y, sites[k].virtualhost);
    }
  }

  /** Two lookups that differ only in letter case find the same entry. */
  lemma SameEntry(lib: Lib, table: seq<Entry>, a: Uri, b: Uri, j: nat)
    requires SameOption(a.authority, b.authority) && a.pathAndQuery == b.pathAndQuery
    requires IsFirstEntry(lib, table, a, j)
    ensures IsFirstEntry(lib, table, b, j)
  {
    forall k | 0 <= k < |table| ensures IsFor(lib, table[k], a) <==> IsFor(lib, table[k], b) {
      CaseIsTransitive(a.authority.value, b.authority.value, table[k].needle);
    }
  }

  /** The letter case of the authorities a request carries decides nothing: neither the app nor the target. */
  lemma LetterCaseIsIrrelevant(lib: Lib, cfg: Config, sites: seq<Site>, net: Network,
                               a: HttpRequest, aHttps: Option<string>, b: HttpRequest, bHttps: Option<string>,
                               app: string, uri: Uri)
    requires SameUpToCase(lib, cfg, a, aHttps, b, bHttps)
    ensures Routes(lib, cfg, sites, net, a, aHttps, app, uri) <==> Routes(lib, cfg, sites, net, b, bHttps, app, uri)
  {
    if Routes(lib, cfg, sites, net, a, aHttps, app, uri) {
      CaseOneWay(lib, cfg, sites, net, a, aHttps, b, bHttps, app, uri);
    }
    if Routes(lib, cfg, sites, net, b, bHttps, app, uri) {
      SameIsSymmetric(lib, cfg, a, aHttps, b, bHttps);
      CaseOneWay(lib, cfg, sites, net, b, bHttps, a, aHttps, app, uri);
    }
  }

  /** They are asked for the same authority. */
  lemma SameAskedFor(lib: Lib, cfg: Config, a: HttpRequest, aHttps: Option<string>,
                     b: HttpRequest, bHttps: Option<string>, x: string) returns (y: string)
    requires SameUpToCase(lib, cfg, a, aHttps, b, bHttps) && IsAskedFor(lib, a, aHttps, x)
    ensures IsAskedFor(lib, b, bHttps, y) && EqualUpToCase(x, y)
  {
    if HeaderGives(lib, a.headers, "x-replace-host", x) {
      var v: string, w: string :| HeaderGives(lib, a.headers, "x-replace-host", v)
                                  && HeaderGives(lib, b.headers, "x-replace-host", w) && EqualUpToCase(v, w);
      y := w;
    } else if aHttps.Some? {
      y := bHttps.value;
    } else if a.url.authority.Some? {
      y := b.url.authority.value;
    } else {
      var v: string, w: string :| HeaderGives(lib, a.headers, "host", v)
                                  && HeaderGives(lib, b.headers, "host", w) && EqualUpToCase(v, w);
      y := w;
    }
  }

  lemma CaseOneWay(lib: Lib, cfg: Config, sites: seq<Site>, net: Network,
                   a: HttpRequest, aHttps: Option<string>, b: HttpRequest, bHttps: Option<string>,
                   app: string, uri: Uri)
    requires SameUpToCase(lib, cfg, a, aHttps, b, bHttps) && Routes(lib, cfg, sites, net, a, aHttps, app, uri)
    ensures Routes(lib, cfg, sites, net, b, bHttps, app, uri)
  {
    var x: string, i: nat, j: nat :| RoutesVia(lib, cfg, sites, net, a, aHttps, x, i, j, app, uri);
    var y := SameAskedFor(lib, cfg, a, aHttps, b, bHttps, x);
    SameFirstSite(sites, x, y, i);
    SameEntry(lib, net(app), LookupUri(sites[i], x, a.url.pathAndQuery.value, aHttps),
              LookupUri(sites[i], y, b.url.pathAndQuery.value, bHttps), j);
    assert RoutesVia(lib, cfg, sites, net, b, bHttps, y, i, j, app, uri);
  }

  // ---------- headers ----------

  /** The target gets the original headers, with Via set and without the credentials for the proxy; its Host
      header is missing exactly when the entry resets it.  Body and method are the original ones. */
  lemma DeliveredHeaders(lib: Lib, cfg: Config, sites: seq<Site>, net: Network, id: nat, req: HttpRequest,
                         https: Option<string>, authority: string, i: nat, j: nat)
    requires Deliver(lib, cfg, sites, net, id, req, https).Some?
    requires var (app, sent) := Deliver(lib, cfg, sites, net, id, req, https).value;
             RoutesVia(lib, cfg, sites, net, req, https, authority, i, j, app, sent.url)
    ensures var (app, sent) := Deliver(lib, cfg, sites, net, id, req, https).value;
            && sent.method_ == req.method_ && sent.body == req.body
            && "proxy-authorization" !in sent.headers
            && "via" in sent.headers && sent.headers["via"] == ["Via: Samply.Beam.Connect/0.1 " + cfg.myAppId]
            && (forall name :: name !in {"via", "proxy-authorization", "host"} ==>
                  (name in sent.headers <==> name in req.headers) &&
                  (name in req.headers ==> sent.headers[name] == req.headers[name]))
            && ("host" in sent.headers <==> "host" in req.headers && !net(app)[j].resetHost)
            && ("host" in sent.headers ==> sent.headers["host"] == req.headers["host"])
  {
    Forwarded(lib, cfg, sites, req, https, authority, i);
    EntryExactly(lib, net(sites[i].beamconnect),
                 LookupUri(sites[i], authority, req.url.pathAndQuery.value, https));
  }
}
