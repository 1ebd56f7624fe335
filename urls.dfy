/**
 * The identity and URL helpers of `wikihow2zim/utils.py`: resolving in-source
 * links, category and article identities, `first`, `rebuild_uri` and the
 * header precedence of `get_version_ident_for`.
 *
 * `urllib.parse` is not modelled: `urlparse`, `urlunparse` (also
 * `ParseResult.geturl()`), the derived `username`/`password`/`hostname`/`port`
 * properties and `unquote` are the uninterpreted fields of a `UrlLib`.
 */
module Urls {
  import opened Wrappers
  import opened PyStr
  import Decimal

  /** `urllib.parse.ParseResult`: the six components of a URL. */
  datatype ParseResult = ParseResult(
    scheme: string, netloc: string, path: string, params: string, query: string, fragment: string)

  /** `ParseResult.port` raises ValueError for a non-numeric or out-of-range port. */
  datatype PortError = PortError

  datatype UrlLib = UrlLib(
    urlparse: string -> Option<ParseResult>,  // None where urlparse raises (e.g. "Invalid IPv6 URL")
    urlunparse: ParseResult -> string,
    username: ParseResult -> Option<string>,
    password: ParseResult -> Option<string>,
    hostname: ParseResult -> Option<string>,
    port: ParseResult -> Result<Option<nat>, PortError>,
    unquote: string -> string)

  /** `ParseResult.geturl()`. */
  function GetUrl(lib: UrlLib, uri: ParseResult): string {
    lib.urlunparse(uri)
  }

  /** `to_url`: absolute links are kept, anything else is appended to the site's URL. */
  function ToUrl(mainUrl: string, value: string): (r: string)
    ensures StartsWith(value, "http") ==> r == value
    ensures !StartsWith(value, "http") ==> r == mainUrl + value
  {
    if StartsWith(value, "http") then value else mainUrl + value
  }

  /** With an http(s) site URL, `to_url` always yields an absolute URL and is idempotent. */
  lemma ToUrlIdempotent(mainUrl: string, value: string)
    requires StartsWith(mainUrl, "http")
    ensures StartsWith(ToUrl(mainUrl, value), "http")
    ensures ToUrl(mainUrl, ToUrl(mainUrl, value)) == ToUrl(mainUrl, value)
  {
    if !StartsWith(value, "http") {
      assert (mainUrl + value)[..4] == mainUrl[..4];
    }
  }

  /** An exception raised by `urlparse` or by a missing value. */
  datatype UrlError = ParseFailed | NotOnDomain | NoColon

  /** `to_rel`: the path if the URL's netloc is the site's domain, else None; urlparse errors propagate. */
  function ToRel(lib: UrlLib, domain: string, url: string): (r: Result<Option<string>, UrlError>)
    ensures r.Err? <==> lib.urlparse(url).None?
    ensures r.Ok? && r.value.Some? <==> lib.urlparse(url).Some? && lib.urlparse(url).value.netloc == domain
    ensures r.Ok? && r.value.Some? ==> r.value.value == lib.urlparse(url).value.path
  {
    match lib.urlparse(url)
    case None => Err(ParseFailed)
    case Some(uri) => if uri.netloc != domain then Ok(None) else Ok(Some(uri.path))
  }

  /** `normalize_ident`: URL-decoding. */
  function NormalizeIdent(lib: UrlLib, ident: string): string {
    lib.unquote(ident)
  }

  /** `cat_ident_for`: the decoded text after the first ":"; an href without ":" raises IndexError. */
  function CatIdentFor(lib: UrlLib, href: string): (r: Result<string, UrlError>)
    ensures r.Err? <==> ':' !in href
    ensures r.Err? ==> r.error == NoColon
  {
    if ':' !in href then Err(NoColon)
    else Ok(NormalizeIdent(lib, href[IndexOfChar(href, ':') + 1..]))
  }

  /** Only the first ":" splits: later colons stay in the identity. */
  lemma {:induction false} CatIdentForFirstColon(lib: UrlLib, prefix: string, rest: string)
    requires ':' !in prefix
    ensures CatIdentFor(lib, prefix + ":" + rest) == Ok(lib.unquote(rest))
  {
    var href := prefix + ":" + rest;
    assert href[|prefix|] == ':';
    var i := IndexOfChar(href, ':');
    assert href[..|prefix|] == prefix;
    assert i == |prefix|;
    assert href[i + 1..] == rest;
  }

  /**
   * `article_ident_for`: the decoded on-domain path minus its first character.
   * A URL that does not parse or is off the domain raises (`unquote(None)` is a TypeError).
   */
  function ArticleIdentFor(lib: UrlLib, domain: string, href: string): (r: Result<string, UrlError>)
    ensures r.Ok? <==> (lib.urlparse(href).Some? && lib.urlparse(href).value.netloc == domain)
    ensures r.Ok? ==>
      (var decoded := lib.unquote(lib.urlparse(href).value.path);
       (decoded == [] ==> r.value == []) && (decoded != [] ==> [decoded[0]] + r.value == decoded))
  {
    match ToRel(lib, domain, href)
    case Err(e) => Err(e)
    case Ok(None) => Err(NotOnDomain)
    case Ok(Some(path)) => Ok(DropFirst(NormalizeIdent(lib, path)))
  }

  /** `first`: the first argument that is not None, else the fallback (`""` in the source). */
  function First<T>(args: seq<Option<T>>, fallback: T): (r: T)
    ensures (forall i :: 0 <= i < |args| ==> args[i].None?) ==> r == fallback
    ensures forall i :: (0 <= i < |args| && args[i].Some? && (forall j :: 0 <= j < i ==> args[j].None?))
                        ==> r == args[i].value
  {
    if |args| == 0 then fallback
    else if args[0].Some? then args[0].value
    else
      var r := First(args[1..], fallback);
      assert forall i :: 1 <= i < |args| ==> args[i] == args[1..][i - 1];
      r
  }

  /** `first(a, b)` unfolded. */
  lemma First2<T>(a: Option<T>, b: Option<T>, fallback: T)
    ensures First([a, b], fallback) == if a.Some? then a.value else b.GetOr(fallback)
  {
    assert [a, b][1..] == [b];
    assert [b][1..] == [];
  }

  /** `first(a, b, c)` unfolded. */
  lemma First3<T>(a: Option<T>, b: Option<T>, c: Option<T>, fallback: T)
    ensures First([a, b, c], fallback)
      == if a.Some? then a.value else if b.Some? then b.value else c.GetOr(fallback)
  {
    assert [a, b, c][1..] == [b, c];
    First2(b, c, fallback);
  }

  /** A port given to `rebuild_uri` (a str or an int), or the parsed `uri.port` (an int). */
  datatype PortValue = PortText(text: string) | PortNumber(number: nat)

  /** Python truthiness of the port: "" and 0 are false. */
  predicate PortTruthy(p: PortValue) {
    match p
    case PortText(t) => t != ""
    case PortNumber(n) => n != 0
  }

  /** The port as an f-string renders it. */
  function PortString(p: PortValue): string {
    match p
    case PortText(t) => t
    case PortNumber(n) => Decimal.Show(n)
  }

  /** `user[":"pass]["@"]host[":"port]` exactly as `rebuild_uri` composes it. */
  function Netloc(username: string, password: string, hostname: string, port: PortValue): (r: string)
    ensures StartsWith(r, username)
    ensures (username == "" && password == "" && !PortTruthy(port)) ==> r == hostname + PortString(port)
  {
    username + (if password != "" then ":" else "") + password
    + (if username != "" || password != "" then "@" else "")
    + hostname + (if PortTruthy(port) then ":" else "") + PortString(port)
  }

  /** Without credentials and without a port, the netloc is the hostname. */
  lemma NetlocIsHostname(hostname: string)
    ensures Netloc("", "", hostname, PortText("")) == hostname
  {
  }

  /** Port 0 is falsy, so it is appended without its ":" separator. */
  lemma NetlocPortZero()
    ensures Netloc("", "", "host", PortNumber(0)) == "host0"
  {
  }

  /** The keyword arguments of `rebuild_uri`; None means the argument was not given. */
  datatype UriOverrides = UriOverrides(
    scheme: Option<string>, username: Option<string>, password: Option<string>,
    hostname: Option<string>, port: Option<PortValue>, path: Option<string>,
    params: Option<string>, query: Option<string>, fragment: Option<string>)

  /** Only the path is overridden, as `rewrite_relative_link` calls it. */
  function PathOverride(path: string): UriOverrides {
    UriOverrides(None, None, None, None, None, Some(path), None, None, None)
  }

  /** The exception `rebuild_uri` re-raises when it is not failsafe. */
  datatype RebuildError = RebuildError

  /**
   * The six-tuple `rebuild_uri` hands to `urlunparse`: every component is the
   * override if given, else the URL's own. Reading `uri.port` may raise.
   */
  function RebuildParts(lib: UrlLib, uri: ParseResult, o: UriOverrides): (r: Result<ParseResult, RebuildError>)
    ensures r.Err? <==> lib.port(uri).Err?
    ensures r.Ok? ==> r.value.scheme == (if o.scheme.Some? then o.scheme.value else uri.scheme)
    ensures r.Ok? ==> r.value.path == (if o.path.Some? then o.path.value else uri.path)
    ensures r.Ok? ==> r.value.params == (if o.params.Some? then o.params.value else uri.params)
    ensures r.Ok? ==> r.value.query == (if o.query.Some? then o.query.value else uri.query)
    ensures r.Ok? ==> r.value.fragment == (if o.fragment.Some? then o.fragment.value else uri.fragment)
  {
    match lib.port(uri)
    case Err(_) => Err(RebuildError)
    case Ok(uriPort) =>
      First2(o.scheme, Some(uri.scheme), "");
      First2(o.path, Some(uri.path), "");
      First2(o.params, Some(uri.params), "");
      First2(o.query, Some(uri.query), "");
      First2(o.fragment, Some(uri.fragment), "");
      var username := First([o.username, lib.username(uri), Some("")], "");
      var password := First([o.password, lib.password(uri), Some("")], "");
      var hostname := First([o.hostname, lib.hostname(uri), Some("")], "");
      var parsedPort := if uriPort.Some? then Some(PortNumber(uriPort.value)) else None;
      var port := First([o.port, parsedPort, Some(PortText(""))], PortText(""));
      Ok(ParseResult(
        First([o.scheme, Some(uri.scheme)], ""),
        Netloc(username, password, hostname, port),
        First([o.path, Some(uri.path)], ""),
        First([o.params, Some(uri.params)], ""),
        First([o.query, Some(uri.query)], ""),
        First([o.fragment, Some(uri.fragment)], "")))
  }

  /** With no credentials and no port anywhere, the rebuilt netloc is the hostname (or ""). */
  lemma RebuildNetlocPlain(lib: UrlLib, uri: ParseResult, o: UriOverrides)
    requires o.username.None? && o.password.None? && o.port.None? && o.hostname.None?
    requires lib.username(uri).None? && lib.password(uri).None? && lib.port(uri) == Ok(None)
    ensures RebuildParts(lib, uri, o).Ok?
    ensures RebuildParts(lib, uri, o).value.netloc == lib.hostname(uri).GetOr("")
  {
    First3(o.username, lib.username(uri), Some(""), "");
    First3(o.password, lib.password(uri), Some(""), "");
    First3(o.hostname, lib.hostname(uri), Some(""), "");
    First3(o.port, None, Some(PortText("")), PortText(""));
  }

  /**
   * `rebuild_uri`: `urlparse(urlunparse(parts))`. On an error it returns the
   * input unchanged when failsafe, and re-raises otherwise.
   */
  function RebuildUri(lib: UrlLib, uri: ParseResult, o: UriOverrides, failsafe: bool): (r: Result<ParseResult, RebuildError>)
    ensures failsafe ==> r.Ok?
    ensures r.Err? <==> !failsafe && (RebuildParts(lib, uri, o).Err? ||
                                     lib.urlparse(lib.urlunparse(RebuildParts(lib, uri, o).value)).None?)
    ensures RebuildParts(lib, uri, o).Ok? && lib.urlparse(lib.urlunparse(RebuildParts(lib, uri, o).value)).Some?
      ==> r == Ok(lib.urlparse(lib.urlunparse(RebuildParts(lib, uri, o).value)).value)
    ensures (r.Ok? && (RebuildParts(lib, uri, o).Err? ||
                       lib.urlparse(lib.urlunparse(RebuildParts(lib, uri, o).value)).None?))
            ==> r.value == uri
  {
    match RebuildParts(lib, uri, o)
    case Err(e) => if failsafe then Ok(uri) else Err(e)
    case Ok(parts) =>
      match lib.urlparse(lib.urlunparse(parts))
      case None => if failsafe then Ok(uri) else Err(RebuildError)
      case Some(u) => Ok(u)
  }

  /** Response headers; requests' CaseInsensitiveDict keys, held lower-cased. */
  type Headers = map<string, string>

  /** The header precedence of the version identity. */
  const VersionHeaders: seq<string> := ["etag", "last-modified", "content-length"]

  /** `headers.get(name)` when it is truthy (present and non-empty). */
  function HeaderValue(h: Headers, name: string): Option<string> {
    if name in h && h[name] != "" then Some(h[name]) else None
  }

  /** The first non-empty of ETag, Last-Modified, Content-Length, else "-1". */
  function ChooseVersionHeader(h: Headers): (r: string)
    ensures HeaderValue(h, "etag").Some? ==> r == h["etag"]
    ensures HeaderValue(h, "etag").None? && HeaderValue(h, "last-modified").Some? ==> r == h["last-modified"]
    ensures (HeaderValue(h, "etag").None? && HeaderValue(h, "last-modified").None?
             && HeaderValue(h, "content-length").Some?) ==> r == h["content-length"]
    ensures (forall name :: name in VersionHeaders ==> HeaderValue(h, name).None?) ==> r == "-1"
  {
    var candidates := [HeaderValue(h, "etag"), HeaderValue(h, "last-modified"), HeaderValue(h, "content-length")];
    First3(HeaderValue(h, "etag"), HeaderValue(h, "last-modified"), HeaderValue(h, "content-length"), "-1");
    assert forall name :: name in VersionHeaders ==> name == "etag" || name == "last-modified" || name == "content-length";
    First(candidates, "-1")
  }

  /**
   * `get_version_ident_for`, given the outcome of the HEAD request and of the
   * one-block GET it falls back to (None: the request raised). The GET is only
   * consulted when HEAD fails.
   */
  function VersionIdentFor(head: Option<Headers>, get: Option<Headers>): (r: Option<string>)
    ensures r.None? <==> head.None? && get.None?
    ensures head.Some? ==> r == Some(ChooseVersionHeader(head.value))
    ensures head.None? && get.Some? ==> r == Some(ChooseVersionHeader(get.value))
  {
    match head
    case Some(h) => Some(ChooseVersionHeader(h))
    case None =>
      match get
      case None => None
      case Some(h) => Some(ChooseVersionHeader(h))
  }
}
