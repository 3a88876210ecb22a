/** The part of `urllib.parse.urlparse` the crawl engine reads: the network
    location (`netloc`) of a URL reference. An optional scheme (a letter, then
    letters, digits, `+`, `-` or `.`, ended by the first `:`) is skipped; the
    netloc is present only when the rest begins with `//`, and runs up to the
    first `/`, `?` or `#` (section 3.2 of RFC 3986). */
module Urls {
  import opened Wrappers

  predicate IsAsciiLetter(c: char) { 'a' <= c <= 'z' || 'A' <= c <= 'Z' }

  predicate IsSchemeChar(c: char)
  {
    IsAsciiLetter(c) || '0' <= c <= '9' || c == '+' || c == '-' || c == '.'
  }

  /** `s.find(c)`: the first index holding `c`, if any. */
  function IndexOf(s: string, c: char): (r: Option<nat>)
    ensures r.None? <==> c !in s
    ensures r.Some? ==> r.value < |s| && s[r.value] == c && c !in s[..r.value]
  {
    if s == [] then None
    else if s[0] == c then Some(0)
    else match IndexOf(s[1..], c)
      case None => None
      case Some(i) => assert s[1..][..i] == s[1..i + 1]; Some(i + 1)
  }

  /** The reference with its scheme and `:` removed, when it has a scheme. */
  function AfterScheme(u: string): string
  {
    match IndexOf(u, ':')
    case Some(i) =>
      if i > 0 && IsAsciiLetter(u[0]) && forall k :: 0 <= k < i ==> IsSchemeChar(u[k])
      then u[i + 1..] else u
    case None => u
  }

  /** The characters that end a netloc. */
  predicate IsDelimiter(c: char) { c == '/' || c == '?' || c == '#' }

  /** The characters before the first `/`, `?` or `#`. */
  function UpToDelimiter(s: string): (r: string)
    ensures r <= s
    ensures forall k :: 0 <= k < |r| ==> !IsDelimiter(r[k])
    ensures |r| < |s| ==> IsDelimiter(s[|r|])
  {
    if s == [] || IsDelimiter(s[0]) then [] else [s[0]] + UpToDelimiter(s[1..])
  }

  /** `urlparse(u).netloc`: after the scheme, the longest run of characters
      other than `/`, `?` and `#` that follows a leading `//`; empty when
      there is no leading `//`. */
  function Netloc(u: string): (r: string)
    ensures forall k :: 0 <= k < |r| ==> !IsDelimiter(r[k])
    ensures var rest := AfterScheme(u);
      if |rest| >= 2 && rest[..2] == "//" then
        r <= rest[2..] && (|r| < |rest| - 2 ==> IsDelimiter(rest[2 + |r|]))
      else r == ""
  {
    var rest := AfterScheme(u);
    if |rest| >= 2 && rest[..2] == "//" then UpToDelimiter(rest[2..]) else ""
  }

  /** `if urlparse(u).netloc:` */
  predicate HasNetloc(u: string)
  {
    Netloc(u) != ""
  }

  /** A reference has a netloc exactly when, after its scheme, it starts with
      `//` followed by a character that is not `/`, `?` or `#`. */
  lemma HasNetlocRule(u: string)
    ensures HasNetloc(u) <==>
      var rest := AfterScheme(u);
      |rest| >= 3 && rest[..2] == "//" && !IsDelimiter(rest[2])
  {
  }


  lemma {:induction false} IndexOfAfter(s: string, t: string, c: char)
    requires c !in s && t != [] && t[0] == c
    ensures IndexOf(s + t, c) == Some(|s|)
  {
    if s != [] {
      assert (s + t)[1..] == s[1..] + t;
      IndexOfAfter(s[1..], t, c);
    }
  }

  lemma {:induction false} UpToDelimiterStops(host: string, path: string)
    requires forall k :: 0 <= k < |host| ==> !IsDelimiter(host[k])
    requires path == [] || IsDelimiter(path[0])
    ensures UpToDelimiter(host + path) == host
  {
    if host == [] {
      assert host + path == path;
    } else {
      assert (host + path)[1..] == host[1..] + path;
      UpToDelimiterStops(host[1..], path);
    }
  }

  /** A valid scheme and its `:` are removed. */
  lemma AfterValidScheme(scheme: string, rest: string)
    requires scheme != [] && IsAsciiLetter(scheme[0])
    requires forall k :: 0 <= k < |scheme| ==> IsSchemeChar(scheme[k])
    requires rest != [] && rest[0] == ':'
    ensures AfterScheme(scheme + rest) == rest[1..]
  {
    var u := scheme + rest;
    assert ':' !in scheme;
    IndexOfAfter(scheme, rest, ':');
    assert forall k :: 0 <= k < |scheme| ==> u[k] == scheme[k];
    assert u[|scheme| + 1..] == rest[1..];
  }

  /** After a `//`, the netloc runs to the first delimiter. */
  lemma NetlocAfterSlashes(u: string, hostAndPath: string)
    requires AfterScheme(u) == "//" + hostAndPath
    ensures Netloc(u) == UpToDelimiter(hostAndPath)
  {
    var rest := "//" + hostAndPath;
    assert rest[..2] == "//" && rest[2..] == hostAndPath;
  }

  /** `scheme://host` followed by a path, query or fragment has `host` as
      its netloc, when `host` holds none of `/`, `?`, `#`. */
  lemma AbsoluteUrlNetloc(scheme: string, host: string, path: string)
    requires scheme != [] && IsAsciiLetter(scheme[0])
    requires forall k :: 0 <= k < |scheme| ==> IsSchemeChar(scheme[k])
    requires forall k :: 0 <= k < |host| ==> !IsDelimiter(host[k])
    requires path == [] || IsDelimiter(path[0])
    ensures Netloc(scheme + (":" + ("//" + (host + path)))) == host
  {
    var tail := "//" + (host + path);
    AfterValidScheme(scheme, ":" + tail);
    assert (":" + tail)[1..] == tail;
    NetlocAfterSlashes(scheme + (":" + tail), host + path);
    UpToDelimiterStops(host, path);
  }

  /** A reference without a scheme that does not start with `//` has no
      netloc: `page.html`, `foo/bar`, `a/b:c`, `/relative`, `#frag`, `?q=1`
      and `./x` are such references. */
  lemma RelativeHasNoNetloc(u: string)
    requires AfterScheme(u) == u
    requires !("//" <= u)
    ensures !HasNetloc(u)
  {
    if |u| >= 2 {
      assert u[..2] != "//";
    }
  }
}
