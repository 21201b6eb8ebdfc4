/** What is needed of HTTP: bodies, status codes, and header maps, in which each (lower-case) name has a
    non-empty list of values. */
module Http {
  import opened Wrappers

  newtype Byte = x: int | 0 <= x < 256

  type Bytes = seq<Byte>

  const SWITCHING_PROTOCOLS := 101
  const BAD_REQUEST := 400
  const UNAUTHORIZED := 401
  const PROXY_AUTHENTICATION_REQUIRED := 407
  const INTERNAL_SERVER_ERROR := 500
  const NOT_IMPLEMENTED := 501
  const BAD_GATEWAY := 502

  type HeaderMap = map<string, seq<string>>

  const HOST := "host"
  const X_REPLACE_HOST := "x-replace-host"
  const VIA := "via"
  const PROXY_AUTHORIZATION := "proxy-authorization"
  const CONTENT_LENGTH := "content-length"

  /** The first value of a header. */
  function Get(h: HeaderMap, name: string): Option<string> {
    if name in h && h[name] != [] then Some(h[name][0]) else None
  }

  /** A value that can be read as text: printable ASCII and tabs only. */
  predicate IsText(value: string) {
    forall i :: 0 <= i < |value| ==> ' ' <= value[i] <= '~' || value[i] == '\t'
  }
}
