/** The routing tables: sites of the central discovery, and local targets with their access lists. */
module Tables {
  import opened Wrappers
  import opened Uris

  datatype Site = Site(virtualhost: string, remapVhost: Option<string>, beamconnect: string)

  /** What an authority is replaced by: another authority, and a path to put in front. */
  datatype Replacement = Replacement(authority: string, path: Option<string>)

  datatype AllowListEntry = AllowApp(app: string) | AllowProxy(proxy: string) | AllowGlob(pattern: string)

  datatype Entry = Entry(
    needle: string, replace: Replacement, allowed: seq<AllowListEntry>,
    forceHttps: bool, resetHost: bool, externalPath: Option<string>)

  // ---------- lookups ----------

  /** Site `k` is the first one for this authority. */
  predicate FirstSiteAt(sites: seq<Site>, authority: string, k: nat) {
    && k < |sites|
    && SameAuthority(sites[k].virtualhost, authority)
    && forall j :: 0 <= j < k ==> !SameAuthority(sites[j].virtualhost, authority)
  }

  function FirstSite(sites: seq<Site>, authority: string): Option<Site> {
    if sites == [] then None
    else if SameAuthority(sites[0].virtualhost, authority) then Some(sites[0])
    else FirstSite(sites[1..], authority)
  }

  method GetSite(sites: seq<Site>, authority: string) returns (r: Option<Site>, ghost k: nat)
    ensures r.Some? ==> FirstSiteAt(sites, authority, k) && r.value == sites[k]
    ensures r.None? ==> forall j :: 0 <= j < |sites| ==> !SameAuthority(sites[j].virtualhost, authority)
    ensures r == FirstSite(sites, authority)
  {
    k := 0;
    for i := 0 to |sites|
      invariant forall j :: 0 <= j < i ==> !SameAuthority(sites[j].virtualhost, authority)
      invariant FirstSite(sites, authority) == FirstSite(sites[i..], authority)
    {
      assert sites[i..][0] == sites[i] && sites[i..][1..] == sites[i + 1..];
      if SameAuthority(sites[i].virtualhost, authority) {
        return Some(sites[i]), i;
      }
    }
    return None, k;
  }

  lemma {:induction false} FirstSiteIsFirst(sites: seq<Site>, authority: string, k: nat)
    requires FirstSiteAt(sites, authority, k)
    ensures FirstSite(sites, authority) == Some(sites[k])
  {
    if k > 0 {
      FirstSiteIsFirst(sites[1..], authority, k - 1);
    }
  }

  lemma {:induction false} FirstSiteFound(sites: seq<Site>, authority: string) returns (k: nat)
    requires FirstSite(sites, authority).Some?
    ensures FirstSiteAt(sites, authority, k) && FirstSite(sites, authority) == Some(sites[k])
  {
    if SameAuthority(sites[0].virtualhost, authority) {
      k := 0;
    } else {
      var before := FirstSiteFound(sites[1..], authority);
      k := before + 1;
    }
  }

  /** The entry is for this authority, and its regular expression, if it has one, matches the path. */
  predicate Matches(lib: Lib, e: Entry, uri: Uri) {
    && uri.authority.Some? && SameAuthority(e.needle, uri.authority.value)
    && (e.externalPath.Some? ==> lib.regexMatches(e.externalPath.value, Path(uri)))
  }

  predicate FirstEntryAt(lib: Lib, table: seq<Entry>, uri: Uri, k: nat) {
    && k < |table|
    && Matches(lib, table[k], uri)
    && forall j :: 0 <= j < k ==> !Matches(lib, table[j], uri)
  }

  function FirstEntry(lib: Lib, table: seq<Entry>, uri: Uri): Option<Entry> {
    if table == [] then None
    else if Matches(lib, table[0], uri) then Some(table[0])
    else FirstEntry(lib, table[1..], uri)
  }

  method GetEntry(lib: Lib, table: seq<Entry>, uri: Uri) returns (r: Option<Entry>, ghost k: nat)
    ensures r.Some? ==> FirstEntryAt(lib, table, uri, k) && r.value == table[k]
    ensures r.None? ==> forall j :: 0 <= j < |table| ==> !Matches(lib, table[j], uri)
    ensures r == FirstEntry(lib, table, uri)
  {
    k := 0;
    for i := 0 to |table|
      invariant forall j :: 0 <= j < i ==> !Matches(lib, table[j], uri)
      invariant FirstEntry(lib, table, uri) == FirstEntry(lib, table[i..], uri)
    {
      assert table[i..][0] == table[i] && table[i..][1..] == table[i + 1..];
      if Matches(lib, table[i], uri) {
        return Some(table[i]), i;
      }
    }
    return None, k;
  }

  lemma {:induction false} FirstEntryIsFirst(lib: Lib, table: seq<Entry>, uri: Uri, k: nat)
    requires FirstEntryAt(lib, table, uri, k)
    ensures FirstEntry(lib, table, uri) == Some(table[k])
  {
    if k > 0 {
      FirstEntryIsFirst(lib, table[1..], uri, k - 1);
    }
  }

  lemma {:induction false} FirstEntryFound(lib: Lib, table: seq<Entry>, uri: Uri) returns (k: nat)
    requires FirstEntry(lib, table, uri).Some?
    ensures FirstEntryAt(lib, table, uri, k) && FirstEntry(lib, table, uri) == Some(table[k])
  {
    if Matches(lib, table[0], uri) {
      k := 0;
    } else {
      var before := FirstEntryFound(lib, table[1..], uri);
      k := before + 1;
    }
  }

  /** Site `k` is the first one whose virtual host is the authority up to letter case. */
  predicate IsFirstSite(sites: seq<Site>, authority: string, k: nat) {
    && k < |sites|
    && EqualUpToCase(sites[k].virtualhost, authority)
    && forall j :: 0 <= j < k ==> !EqualUpToCase(sites[j].virtualhost, authority)
  }

  lemma SitesExactly(sites: seq<Site>, authority: string)
    ensures forall j :: 0 <= j < |sites| ==>
              (SameAuthority(sites[j].virtualhost, authority) <==> EqualUpToCase(sites[j].virtualhost, authority))
    ensures forall k: nat :: FirstSiteAt(sites, authority, k) <==> IsFirstSite(sites, authority, k)
  {
    forall j | 0 <= j < |sites|
      ensures SameAuthority(sites[j].virtualhost, authority) <==> EqualUpToCase(sites[j].virtualhost, authority)
    {
      SameAuthorityExactly(sites[j].virtualhost, authority);
    }
  }

  /** The URI has the entry's authority up to letter case, and a path that its expression, if it has one, matches. */
  ghost predicate IsFor(lib: Lib, e: Entry, uri: Uri) {
    && uri.authority.Some? && EqualUpToCase(e.needle, uri.authority.value)
    && (e.externalPath.Some? ==>
          exists path: string :: HasPath(uri, path) && lib.regexMatches(e.externalPath.value, path))
  }

  lemma MatchesExactly(lib: Lib, e: Entry, uri: Uri)
    ensures Matches(lib, e, uri) <==> IsFor(lib, e, uri)
  {
    if uri.authority.Some? {
      SameAuthorityExactly(e.needle, uri.authority.value);
    }
    forall path: string ensures Path(uri) == path <==> HasPath(uri, path) {
      PathExactly(uri, path);
    }
    assert HasPath(uri, Path(uri));
  }

  ghost predicate IsFirstEntry(lib: Lib, table: seq<Entry>, uri: Uri, k: nat) {
    && k < |table|
    && IsFor(lib, table[k], uri)
    && forall j :: 0 <= j < k ==> !IsFor(lib, table[j], uri)
  }

  lemma EntriesExactly(lib: Lib, table: seq<Entry>, uri: Uri)
    ensures forall j :: 0 <= j < |table| ==> (Matches(lib, table[j], uri) <==> IsFor(lib, table[j], uri))
    ensures forall k: nat :: FirstEntryAt(lib, table, uri, k) <==> IsFirstEntry(lib, table, uri, k)
  {
    forall j | 0 <= j < |table| ensures Matches(lib, table[j], uri) <==> IsFor(lib, table[j], uri) {
      MatchesExactly(lib, table[j], uri);
    }
  }

  /** The entry found is the first one, and none is found exactly if none is for the URI. */
  lemma EntryExactly(lib: Lib, table: seq<Entry>, uri: Uri)
    ensures FirstEntry(lib, table, uri) == None <==> forall j :: 0 <= j < |table| ==> !IsFor(lib, table[j], uri)
    ensures forall k: nat :: IsFirstEntry(lib, table, uri, k) ==> FirstEntry(lib, table, uri) == Some(table[k])
  {
    EntriesExactly(lib, table, uri);
    forall k: nat | IsFirstEntry(lib, table, uri, k) ensures FirstEntry(lib, table, uri) == Some(table[k]) {
      FirstEntryIsFirst(lib, table, uri, k);
    }
    if FirstEntry(lib, table, uri).Some? {
      var k := FirstEntryFound(lib, table, uri);
    } else {
      NoEntry(lib, table, uri);
    }
  }

  lemma {:induction false} NoEntry(lib: Lib, table: seq<Entry>, uri: Uri)
    requires FirstEntry(lib, table, uri) == None
    ensures forall j :: 0 <= j < |table| ==> !Matches(lib, table[j], uri)
  {
    if table != [] {
      NoEntry(lib, table[1..], uri);
    }
  }

  // ---------- access ----------

  predicate EndsWith(s: string, suffix: string) {
    |suffix| <= |s| && s[|s| - |suffix|..] == suffix
  }

  predicate Admits(lib: Lib, a: AllowListEntry, who: string) {
    match a
    case AllowApp(app) => app == who
    case AllowProxy(proxy) => EndsWith(who, proxy)
    case AllowGlob(pattern) => lib.globMatches(pattern, who)
  }

  predicate CanBeAccessedBy(lib: Lib, e: Entry, who: string) {
    exists a :: a in e.allowed && Admits(lib, a, who)
  }

  /** Access is given to an app by its own id, by a proxy id that ends its id, or by a pattern that matches it, and in
      no other way. */
  ghost predicate IsAllowed(lib: Lib, allowed: seq<AllowListEntry>, who: string) {
    || AllowApp(who) in allowed
    || (exists before: string, proxy: string :: who == before + proxy && AllowProxy(proxy) in allowed)
    || (exists pattern: string :: AllowGlob(pattern) in allowed && lib.globMatches(pattern, who))
  }

  lemma AccessExactly(lib: Lib, e: Entry, who: string)
    ensures CanBeAccessedBy(lib, e, who) <==> IsAllowed(lib, e.allowed, who)
  {
    if CanBeAccessedBy(lib, e, who) {
      var a :| a in e.allowed && Admits(lib, a, who);
      match a
      case AllowProxy(proxy) => assert who == who[..|who| - |proxy|] + proxy;
      case _ =>
    }
    if AllowApp(who) in e.allowed {
      assert Admits(lib, AllowApp(who), who);
    }
    if before: string, proxy: string :| who == before + proxy && AllowProxy(proxy) in e.allowed {
      assert Admits(lib, AllowProxy(proxy), who);
    }
    if pattern: string :| AllowGlob(pattern) in e.allowed && lib.globMatches(pattern, who) {
      assert Admits(lib, AllowGlob(pattern), who);
    }
  }

  // ---------- reading a replacement ----------

  /** "authority" or "authority/path", split at the first slash. */
  function ParseReplacement(lib: Lib, s: string): Option<Replacement> {
    var host := Before(s, '/');
    match lib.parseAuthority(host)
    case None => None
    case Some(authority) =>
      if |host| < |s| then Some(Replacement(authority, Some(s[|host| + 1..])))
      else Some(Replacement(authority, None))
  }

  function PrintReplacement(r: Replacement): string {
    match r.path
    case None => r.authority
    case Some(path) => r.authority + ("/" + path)
  }

  /** Whatever comes before the first slash must be an authority, and everything behind it is the path. */
  lemma ReplacementExactly(lib: Lib, host: string, path: string)
    requires '/' !in host
    ensures ParseReplacement(lib, host)
            == match lib.parseAuthority(host) case None => None case Some(a) => Some(Replacement(a, None))
    ensures ParseReplacement(lib, host + ("/" + path))
            == match lib.parseAuthority(host) case None => None case Some(a) => Some(Replacement(a, Some(path)))
  {
    BeforeIsAll(host, '/');
    BeforeSlash(host, path);
    assert (host + ("/" + path))[|host| + 1..] == path;
  }

  /** Every replacement whose authority the library reads as written is read back, including paths that are
      empty or contain slashes. */
  lemma ReplacementReadsBack(lib: Lib, r: Replacement)
    requires '/' !in r.authority && lib.parseAuthority(r.authority) == Some(r.authority)
    ensures ParseReplacement(lib, PrintReplacement(r)) == Some(r)
  {
    ReplacementExactly(lib, r.authority, if r.path.Some? then r.path.value else "");
  }

  lemma {:induction false} BeforeSlash(a: string, b: string)
    requires '/' !in a
    ensures Before(a + ("/" + b), '/') == a
  {
    if a != [] {
      assert (a + ("/" + b))[1..] == a[1..] + ("/" + b);
      BeforeSlash(a[1..], b);
    }
  }
}
