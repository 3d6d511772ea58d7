/**
 * The part of Node's legacy `url.parse(s, true)` that the proxy and the
 * playlist loader read: `hostname`, `pathname` and the parsed `query`.
 * The fragment is cut at the first `#`, the query at the first `?`. A leading
 * scheme (`/^[a-z0-9.+-]+:/i`) is taken off; after it, `//`, or a scheme other
 * than `http`, `https`, `ftp`, `gopher` and `file`, introduces a host that runs
 * to the next `/`. What is left is the path; an empty path is `null`, except
 * that such a scheme with a non-empty host has path `/`.
 */
module Url {
  import opened Wrappers
  import Text

  /** `pathname` is `None` where Node leaves it `null`. */
  datatype Url = Url(hostname: string, pathname: Option<string>, query: map<string, string>)

  /** The text before the first `c`, all of `s` when there is none. */
  function BeforeFirst(s: string, c: char): (r: string)
    ensures c !in r
    ensures Text.StartsWith(s, r)
  {
    s[..Text.IndexOf(s, c)]
  }

  /** The text after the first `c`, empty when there is none. */
  function AfterFirst(s: string, c: char): string {
    var i := Text.IndexOf(s, c);
    if i < |s| then s[i + 1..] else ""
  }

  /** Cutting at the first `c` loses nothing but that `c`. */
  lemma CutAtFirst(s: string, c: char)
    ensures s == if c in s then BeforeFirst(s, c) + [c] + AfterFirst(s, c) else BeforeFirst(s, c)
  {
    var i := Text.IndexOf(s, c);
    if c in s {
      assert s == s[..i] + [c] + s[i + 1..];
    } else {
      Text.IndexOfAbsent(s, c);
    }
  }

  lemma CutAt(a: string, c: char, b: string)
    requires c !in a
    ensures BeforeFirst(a + [c] + b, c) == a
    ensures AfterFirst(a + [c] + b, c) == b
  {
    Text.IndexOfFirst(a, c, b);
    assert (a + [c] + b)[..|a|] == a;
    assert (a + [c] + b)[|a| + 1..] == b;
  }

  lemma CutAbsent(s: string, c: char)
    requires c !in s
    ensures BeforeFirst(s, c) == s && AfterFirst(s, c) == ""
  {
    Text.IndexOfAbsent(s, c);
  }

  /** One `key=value` piece of a query string, split at its first `=`. */
  function Pair(piece: string): (string, string) {
    (BeforeFirst(piece, '='), AfterFirst(piece, '='))
  }

  /** Empty pieces are skipped; a repeated key keeps its first value. */
  function QueryPairs(pieces: seq<string>): map<string, string> {
    if |pieces| == 0 then map[]
    else
      var rest := QueryPairs(pieces[1..]);
      if pieces[0] == "" then rest else rest[Pair(pieces[0]).0 := Pair(pieces[0]).1]
  }

  function ParseQuery(search: string): map<string, string> {
    if search == "" then map[] else QueryPairs(Text.Split(search, '&'))
  }

  /** A character of a scheme name: an ASCII letter or digit, `.`, `+` or `-`. */
  predicate SchemeChar(c: char) {
    'a' <= c <= 'z' || 'A' <= c <= 'Z' || '0' <= c <= '9' || c == '.' || c == '+' || c == '-'
  }

  /** The length of the run of scheme characters `s` starts with. */
  function SchemeRun(s: string): (n: nat)
    ensures n <= |s|
    ensures forall k | 0 <= k < n :: SchemeChar(s[k])
    ensures n < |s| ==> !SchemeChar(s[n])
  {
    if s == "" || !SchemeChar(s[0]) then 0 else 1 + SchemeRun(s[1..])
  }

  /** The scheme `s` starts with, as written and with its `:`. */
  function Protocol(s: string): (r: Option<string>)
    ensures r.Some? ==> |r.value| >= 2 && Text.StartsWith(s, r.value) && r.value[|r.value| - 1] == ':'
    ensures r.Some? ==> forall k | 0 <= k < |r.value| - 1 :: SchemeChar(r.value[k])
  {
    var n := SchemeRun(s);
    if 0 < n < |s| && s[n] == ':' then Some(s[..n + 1]) else None
  }

  /** Conversely, scheme characters followed by `:` are found as the protocol, whatever follows. */
  lemma ProtocolOf(scheme: string, rest: string)
    requires scheme != "" && forall k | 0 <= k < |scheme| :: SchemeChar(scheme[k])
    ensures Protocol(scheme + ":" + rest) == Some(scheme + ":")
  {
    var s := scheme + ":" + rest;
    assert s == scheme + (":" + rest);
    SchemeRunOf(scheme, ":" + rest);
    assert s[|scheme|] == ':';
    assert s[..|scheme| + 1] == scheme + ":";
  }

  /** The schemes whose URLs have a host only after `//`. */
  predicate Slashed(protocol: string) {
    protocol in {"http:", "https:", "ftp:", "gopher:", "file:"}
  }

  /**
   * The host (lower-cased, port dropped) and the path of what follows the
   * scheme and `//`; a `slashed` scheme with a host and no path has path `/`.
   */
  function HostAndPath(rest: string, slashed: bool): (r: (string, Option<string>))
    ensures r.1.Some? ==> r.1.value != "" && forall x | x in r.1.value :: x == '/' || x in rest
  {
    var i := Text.IndexOf(rest, '/');
    var hostname := Text.LowerAscii(BeforeFirst(rest[..i], ':'));
    var path := rest[i..];
    (hostname, if path != "" then Some(path) else if slashed && hostname != "" then Some("/") else None)
  }

  /** Host and path of the text before the query. */
  function Authority(s: string): (r: (string, Option<string>))
    ensures r.1.Some? ==> r.1.value != "" && forall x | x in r.1.value :: x == '/' || x in s
  {
    var protocol := Protocol(s);
    var lower := if protocol.Some? then Text.LowerAscii(protocol.value) else "";
    var afterProtocol := if protocol.Some? then s[|protocol.value|..] else s;
    var slashes := protocol.Some? && lower != "javascript:" && Text.StartsWith(afterProtocol, "//");
    var rest := if slashes then afterProtocol[2..] else afterProtocol;
    assert forall x | x in rest :: x in s by {
      assert afterProtocol == s[|s| - |afterProtocol|..];
      assert rest == s[|s| - |rest|..];
    }
    if lower != "javascript:" && (slashes || (protocol.Some? && !Slashed(protocol.value))) then
      HostAndPath(rest, Slashed(lower))
    else
      ("", if rest != "" then Some(rest) else None)
  }

  function Parse(s: string): (u: Url)
    ensures u.pathname.Some? ==> u.pathname.value != "" && forall x | x in u.pathname.value :: x == '/' || x in s
  {
    var target := BeforeFirst(s, '#');
    var beforeQuery := BeforeFirst(target, '?');
    var (hostname, pathname) := Authority(beforeQuery);
    assert target == s[..|target|] && beforeQuery == target[..|beforeQuery|];
    Url(hostname, pathname, ParseQuery(AfterFirst(target, '?')))
  }

  /** A path-only target with no `#`, and a query of exactly the pieces given. */
  lemma ParsePathAndQuery(path: string, search: string)
    requires '#' !in path && '#' !in search && '?' !in path
    requires Protocol(path).None?
    ensures Parse(path + "?" + search) == Url("", if path == "" then None else Some(path), ParseQuery(search))
  {
    var s := path + "?" + search;
    assert '#' !in s;
    CutAbsent(s, '#');
    CutAt(path, '?', search);
  }

  /** A host with no upper-case letter, port or delimiter is its own `hostname`. */
  predicate PlainHost(host: string) {
    forall k | 0 <= k < |host| :: !('A' <= host[k] <= 'Z') && host[k] !in "/?#:"
  }

  /** An absolute `https` URL whose path starts with `/`. */
  lemma ParseHttps(host: string, path: string)
    requires PlainHost(host)
    requires path != [] && path[0] == '/' && '?' !in path && '#' !in path
    ensures Parse("https://" + host + path) == Url(host, Some(path), map[])
  {
    var s := "https://" + host + path;
    assert forall k | 0 <= k < |host| :: host[k] != '#' && host[k] != '?' && host[k] != '/' && host[k] != ':';
    assert '#' !in s && '?' !in s;
    CutAbsent(s, '#');
    CutAbsent(s, '?');
    HttpsRest(host, path);
  }

  /** The same with a query string. */
  lemma ParseHttpsQuery(host: string, path: string, search: string)
    requires PlainHost(host)
    requires path != [] && path[0] == '/' && '?' !in path && '#' !in path && '#' !in search
    ensures Parse("https://" + host + path + "?" + search) == Url(host, Some(path), ParseQuery(search))
  {
    var before := "https://" + host + path;
    var s := before + "?" + search;
    assert forall k | 0 <= k < |host| :: host[k] != '#' && host[k] != '?' && host[k] != '/' && host[k] != ':';
    assert '#' !in s;
    CutAbsent(s, '#');
    assert '?' !in before;
    CutAt(before, '?', search);
    HttpsRest(host, path);
  }

  lemma HttpsRest(host: string, path: string)
    requires PlainHost(host)
    requires path != [] && path[0] == '/'
    ensures Authority("https://" + host + path) == (host, Some(path))
  {
    var rest := host + path;
    var s := "https://" + host + path;
    assert s == "https://" + rest;
    assert Authority(s) == HostAndPath(rest, true) by {
      HttpsAuthority(rest);
    }
    PlainHostAndPath(host, path);
  }

  lemma PlainHostAndPath(host: string, path: string)
    requires PlainHost(host)
    requires path != [] && path[0] == '/'
    ensures HostAndPath(host + path, true) == (host, Some(path))
  {
    assert forall k | 0 <= k < |host| :: host[k] != '/' && host[k] != ':';
    Text.IndexOfFirst(host, '/', path[1..]);
    assert host + path == host + ['/'] + path[1..];
    assert (host + path)[..|host|] == host;
    assert (host + path)[|host|..] == path;
    CutAbsent(host, ':');
    Text.LowerAsciiOfLower(host);
  }

  /** After `https://` comes the host, then the path. */
  lemma HttpsAuthority(rest: string)
    ensures Authority("https://" + rest) == HostAndPath(rest, true)
  {
    var s := "https://" + rest;
    assert forall k | 0 <= k < 5 :: SchemeChar("https"[k]);
    SchemeRunOf("https", "://" + rest);
    assert s == "https" + ("://" + rest);
    assert s[5] == ':' && s[..6] == "https:";
    assert Protocol(s) == Some("https:");
    Text.LowerAsciiOfLower("https:");
    assert s[6..] == "//" + rest;
    assert ("//" + rest)[2..] == rest;
  }

  /** A run of scheme characters ends where a character of another kind follows. */
  lemma {:induction false} SchemeRunOf(a: string, t: string)
    requires forall k | 0 <= k < |a| :: SchemeChar(a[k])
    requires t != "" && !SchemeChar(t[0])
    ensures SchemeRun(a + t) == |a|
  {
    if a != "" {
      assert (a + t)[1..] == a[1..] + t;
      SchemeRunOf(a[1..], t);
    } else {
      assert a + t == t;
    }
  }

  /** An `https` URL with a host always has a path. */
  lemma HttpsHasPath(s: string)
    requires Text.StartsWith(s, "https://")
    ensures Parse(s).hostname != "" ==> Parse(s).pathname.Some?
  {
    var target := BeforeFirst(s, '#');
    var beforeQuery := BeforeFirst(target, '?');
    KeepsPrefix(s, '#', "https://");
    KeepsPrefix(target, '?', "https://");
    assert beforeQuery == "https://" + beforeQuery[8..];
    HttpsAuthority(beforeQuery[8..]);
  }

  /** Cutting at a character the prefix lacks keeps the prefix. */
  lemma KeepsPrefix(s: string, c: char, prefix: string)
    requires Text.StartsWith(s, prefix) && c !in prefix
    ensures Text.StartsWith(BeforeFirst(s, c), prefix)
  {
    var i := Text.IndexOf(s, c);
    assert forall k | 0 <= k < |prefix| :: s[k] == prefix[k] && s[k] != c;
    assert i >= |prefix|;
    assert s[..i][..|prefix|] == prefix;
  }

  /** A query of one `key=value` pair. */
  lemma QuerySingle(key: string, value: string)
    requires '&' !in key && '=' !in key && '&' !in value
    ensures ParseQuery(key + "=" + value) == map[key := value]
  {
    var piece := key + "=" + value;
    assert '&' !in piece;
    Text.IndexOfAbsent(piece, '&');
    assert Text.Split(piece, '&') == [piece];
    CutAt(key, '=', value);
    assert piece != "" && [piece][1..] == [];
    assert QueryPairs([piece]) == map[][key := value];
  }

  /** A query of two pairs; were the keys equal, the first value would win. */
  lemma QueryTwo(k1: string, v1: string, k2: string, v2: string)
    requires '&' !in k1 && '=' !in k1 && '&' !in v1
    requires '&' !in k2 && '=' !in k2 && '&' !in v2
    ensures ParseQuery(k1 + "=" + v1 + "&" + (k2 + "=" + v2)) == map[k2 := v2][k1 := v1]
  {
    var p1 := k1 + "=" + v1;
    var p2 := k2 + "=" + v2;
    assert '&' !in p1 && '&' !in p2;
    assert Text.Join([p1, p2], '&') == p1 + "&" + p2 by {
      assert [p1, p2][1..] == [p2];
    }
    Text.SplitJoin([p1, p2], '&');
    CutAt(k1, '=', v1);
    CutAt(k2, '=', v2);
    assert [p1, p2][1..] == [p2] && [p2][1..] == [];
    assert p1 != "" && p2 != "";
    assert QueryPairs([p2]) == map[][k2 := v2];
  }

  /** A scheme with nothing after it has no path: `url.parse("http:").pathname` is `null`. */
  lemma BareHttpHasNoPath()
    ensures Parse("http:").pathname.None?
  {
    var s := "http:";
    CutAbsent(s, '#');
    CutAbsent(s, '?');
    assert forall k | 0 <= k < 4 :: SchemeChar("http"[k]);
    SchemeRunOf("http", ":");
    assert s == "http" + ":";
    assert Protocol(s) == Some("http:");
    Text.LowerAsciiOfLower("http:");
    assert s[5..] == "";
  }

  /** Nor does `//` with an empty host: `url.parse("https://").pathname` is `null`. */
  lemma BareHttpsHasNoPath()
    ensures Parse("https://").pathname.None?
  {
    var s := "https://";
    CutAbsent(s, '#');
    CutAbsent(s, '?');
    HttpsAuthority("");
    assert s == "https://" + "";
    Text.IndexOfAbsent("", '/');
    CutAbsent("", ':');
  }
}
