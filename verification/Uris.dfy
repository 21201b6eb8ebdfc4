/** URIs as the HTTP library has them: scheme, authority, and path with query, each possibly absent. */
module Uris {
  import opened Wrappers

  const HTTP := "http"
  const HTTPS := "https"

  /** Both a URI and its parts. */
  datatype Uri = Uri(scheme: Option<string>, authority: Option<string>, pathAndQuery: Option<string>)

  /** What the libraries decide, fixed but arbitrary: which texts are a valid path with query, which text is an
      authority, and what a regular expression and a glob pattern match. */
  datatype Lib = Lib(
    validPath: string -> bool,
    parseAuthority: string -> Option<string>,
    regexMatches: (string, string) -> bool,
    globMatches: (string, string) -> bool)

  /** Parts form a URI unless a scheme comes without authority or path, or an authority and a path without scheme. */
  function FromParts(parts: Uri): Option<Uri> {
    if parts.scheme.Some? then
      if parts.authority.Some? && parts.pathAndQuery.Some? then Some(parts) else None
    else if parts.authority.Some? && parts.pathAndQuery.Some? then None
    else Some(parts)
  }

  /** The URIs there are. */
  predicate WellFormed(u: Uri) {
    FromParts(u) == Some(u) && (u.authority == None ==> u.pathAndQuery.Some?)
  }

  /** An empty path is written "/". */
  function AsStr(pathAndQuery: string): string {
    if pathAndQuery == [] then "/" else pathAndQuery
  }

  function Before(s: string, stop: char): string {
    if s == [] || s[0] == stop then [] else [s[0]] + Before(s[1..], stop)
  }

  function Path(u: Uri): string {
    match u.pathAndQuery
    case None => ""
    case Some(p) => AsStr(Before(p, '?'))
  }

  /** Parsing a path with query: a fragment is dropped (RFC 3986, section 3.5), the rest must be valid. */
  function ParsePath(lib: Lib, s: string): Option<string> {
    if lib.validPath(Before(s, '#')) then Some(Before(s, '#')) else None
  }

  /** Nothing is dropped exactly from a text without fragment. */
  lemma {:induction false} BeforeIsAll(s: string, stop: char)
    ensures Before(s, stop) == s <==> stop !in s
    ensures |Before(s, stop)| <= |s|
    ensures Before(s, stop) <= s
  {
    if s != [] && s[0] != stop {
      BeforeIsAll(s[1..], stop);
      assert s == [s[0]] + s[1..];
    }
  }

  /** `part` is what `s` has before the first `stop`. */
  predicate UpTo(s: string, stop: char, part: string) {
    stop !in part && (s == part || part + [stop] <= s)
  }

  lemma {:induction false} BeforeExactly(s: string, stop: char, part: string)
    ensures Before(s, stop) == part <==> UpTo(s, stop, part)
  {
    if s != [] && s[0] != stop && part != [] {
      BeforeExactly(s[1..], stop, part[1..]);
      assert s == [s[0]] + s[1..] && part == [part[0]] + part[1..];
      if UpTo(s, stop, part) {
        assert s != part ==> (part + [stop])[1..] == part[1..] + [stop] <= s[1..];
      }
      if UpTo(s[1..], stop, part[1..]) && s[0] == part[0] {
        assert s != part ==> part + [stop] == [s[0]] + (part[1..] + [stop]);
      }
    }
  }

  /** The path of a path with query is what comes before the question mark, or "/" if that is nothing. */
  ghost predicate IsPath(pathAndQuery: string, path: string) {
    exists part: string :: UpTo(pathAndQuery, '?', part) && path == if part == "" then "/" else part
  }

  ghost predicate HasPath(u: Uri, path: string) {
    match u.pathAndQuery
    case None => path == ""
    case Some(p) => IsPath(p, path)
  }

  lemma PathExactly(u: Uri, path: string)
    ensures Path(u) == path <==> HasPath(u, path)
  {
    if u.pathAndQuery.Some? {
      var p := u.pathAndQuery.value;
      BeforeExactly(p, '?', Before(p, '?'));
      if IsPath(p, path) {
        var part: string :| UpTo(p, '?', part) && path == if part == "" then "/" else part;
        BeforeExactly(p, '?', part);
      }
    }
  }

  /** URIs can be formed from a scheme, an authority and a path; from an authority; from a path; or from nothing. */
  lemma FormedExactly(parts: Uri)
    ensures FromParts(parts) ==
            match (parts.scheme, parts.authority, parts.pathAndQuery)
            case (Some(_), Some(_), Some(_)) => Some(parts)
            case (None, Some(_), None) => Some(parts)
            case (None, None, _) => Some(parts)
            case _ => None
  {
  }

  // ---------- authorities ----------

  function LowerChar(c: char): char {
    if 'A' <= c <= 'Z' then (c - 'A') + 'a' else c
  }

  function Lower(s: string): string {
    seq(|s|, i requires 0 <= i < |s| => LowerChar(s[i]))
  }

  /** Authorities are equal whatever their letter case (RFC 3986, section 6.2.2.1). */
  predicate SameAuthority(a: string, b: string) {
    Lower(a) == Lower(b)
  }

  /** One is the other's capital, 32 places before it. */
  predicate IsCapitalOf(a: char, b: char) {
    'A' <= a <= 'Z' && a as int + 32 == b as int
  }

  predicate EqualUpToCase(a: string, b: string) {
    && |a| == |b|
    && forall i :: 0 <= i < |a| ==> a[i] == b[i] || IsCapitalOf(a[i], b[i]) || IsCapitalOf(b[i], a[i])
  }

  lemma SameCharExactly(a: char, b: char)
    ensures LowerChar(a) == LowerChar(b) <==> a == b || IsCapitalOf(a, b) || IsCapitalOf(b, a)
  {
  }

  lemma SameAuthorityExactly(a: string, b: string)
    ensures SameAuthority(a, b) <==> EqualUpToCase(a, b)
  {
    if SameAuthority(a, b) {
      forall i | 0 <= i < |a| ensures a[i] == b[i] || IsCapitalOf(a[i], b[i]) || IsCapitalOf(b[i], a[i]) {
        assert Lower(a)[i] == Lower(b)[i];
        SameCharExactly(a[i], b[i]);
      }
    }
    if EqualUpToCase(a, b) {
      forall i | 0 <= i < |a| ensures Lower(a)[i] == Lower(b)[i] {
        SameCharExactly(a[i], b[i]);
      }
    }
  }
}
