/**
  * The URL handling of the crawler: the `netloc`/`path` projection of
  * `urllib.parse.urlparse` (the generic syntax of section 3 of RFC 3986, as
  * Python splits it) and the scraper's `normalize_url`.
  */
module Urls {
  import opened Text

  predicate IsAsciiLetter(c: char)
  {
    'a' <= c <= 'z' || 'A' <= c <= 'Z'
  }

  /** The characters `urlsplit` admits in a scheme. */
  predicate IsSchemeChar(c: char)
  {
    IsAsciiLetter(c) || '0' <= c <= '9' || c == '+' || c == '-' || c == '.'
  }

  function LowerChar(c: char): char
  {
    if 'A' <= c <= 'Z' then (c as int + 32) as char else c
  }

  /** ASCII lower-casing, character by character. */
  function Lower(s: string): (r: string)
    ensures |r| == |s|
    ensures forall i :: 0 <= i < |s| ==> r[i] == LowerChar(s[i])
  {
    if s == [] then [] else [LowerChar(s[0])] + Lower(s[1..])
  }

  /** Index of the first character of `s` that lies in `cs`, or `|s|`. */
  function IndexOfAny(s: string, cs: set<char>): (n: nat)
    ensures n <= |s|
    ensures forall i :: 0 <= i < n ==> s[i] !in cs
    ensures n < |s| ==> s[n] in cs
  {
    if s == [] then 0 else if s[0] in cs then 0 else 1 + IndexOfAny(s[1..], cs)
  }

  /** Index of the last occurrence of `c` in `s`, if any. */
  function LastIndexOf(s: string, c: char): (n: int)
    ensures -1 <= n < |s|
    ensures n >= 0 ==> s[n] == c
    ensures forall i :: n < i < |s| ==> s[i] != c
  {
    if s == [] then -1
    else if s[|s| - 1] == c then |s| - 1
    else LastIndexOf(s[..|s| - 1], c)
  }

  /** The schemes for which `urlparse` splits `;params` off the path. */
  const UsesParams: set<string> :=
    {"", "ftp", "hdl", "prospero", "http", "imap", "https", "shttp", "rtsp", "rtsps",
     "rtspu", "sip", "sips", "mms", "sftp", "tel"}

  /** The three components of `urlparse` that the crawler reads. */
  datatype ParsedUrl = ParsedUrl(scheme: string, netloc: string, path: string)

  /** `urlsplit`'s scheme step: a leading ASCII letter, then scheme characters, then `:`. */
  function SplitScheme(url: string): (r: (string, string))
    ensures r.0 == [] ==> r.1 == url
    ensures r.0 != [] ==> |r.0| < |url| && r.1 == url[|r.0| + 1..] && url[|r.0|] == ':'
  {
    var i := IndexOf(url, ':');
    if 0 < i < |url| && IsAsciiLetter(url[0]) && forall j :: 0 <= j < i ==> IsSchemeChar(url[j]) then
      (Lower(url[..i]), url[i + 1..])
    else
      ("", url)
  }

  /** `_splitparams`: cut the path at the `;` that opens the parameters of its last segment. */
  function StripParams(path: string): (r: string)
    ensures r <= path
    ensures |r| == |path| || path[|r|] == ';'
  {
    var slash := LastIndexOf(path, '/');
    if slash >= 0 then
      var k := IndexOf(path[slash..], ';');
      if slash + k < |path| then path[..slash + k] else path
    else
      path[..IndexOf(path, ';')]
  }

  /** `;params` split off the path for the schemes that use them; any other path is kept whole. */
  function CutParams(scheme: string, path: string): (r: string)
    ensures r <= path
    ensures |r| == |path| || path[|r|] == ';'
    ensures (scheme !in UsesParams || ';' !in path) ==> r == path
  {
    if ';' in path && scheme in UsesParams then StripParams(path) else path
  }

  /**
    * `_splitnetloc`: after a leading `//`, the netloc runs to the first `/`,
    * `?` or `#`; without a leading `//` there is no netloc.
    */
  function SplitNetloc(rest: string): (r: (string, string))
    ensures '/' !in r.0 && '?' !in r.0 && '#' !in r.0
    ensures |rest| >= 2 && rest[..2] == "//" ==> rest == "//" + r.0 + r.1
    ensures |rest| >= 2 && rest[..2] == "//" ==> r.1 == [] || r.1[0] == '/' || r.1[0] == '?' || r.1[0] == '#'
    ensures !(|rest| >= 2 && rest[..2] == "//") ==> r == ("", rest)
  {
    if |rest| >= 2 && rest[..2] == "//" then
      var n := 2 + IndexOfAny(rest[2..], {'/', '?', '#'});
      assert forall c :: c in rest[2..n] ==> c in rest[2..][..n - 2];
      (rest[2..n], rest[n..])
    else ("", rest)
  }

  /**
    * The path `urlparse` reports: the fragment and the query cut, then
    * `;params` for the schemes that use them. It ends at the end of the tail,
    * at the first `?` or `#`, or (params split off) at a `;`.
    */
  function PathPart(scheme: string, tail: string): (r: string)
    ensures '?' !in r && '#' !in r
    ensures r <= tail
    ensures |r| == |tail| || tail[|r|] == '?' || tail[|r|] == '#' || tail[|r|] == ';'
    ensures (scheme !in UsesParams || ';' !in tail) ==> |r| == |tail| || tail[|r|] == '?' || tail[|r|] == '#'
  {
    var cut := BeforeFirst(tail, '#');
    var path := BeforeFirst(cut, '?');
    assert |path| == |tail| || tail[|path|] == '?' || tail[|path|] == '#' by {
      if |path| < |cut| { assert cut[|path|] == '?'; }
    }
    CutParams(scheme, path)
  }

  /**
    * `urlparse(url)`, reduced to scheme, netloc and path. The netloc stops at
    * the first `/`, `?` or `#`; the path never holds the query or fragment.
    */
  function Parse(url: string): (p: ParsedUrl)
    ensures '/' !in p.netloc && '?' !in p.netloc && '#' !in p.netloc
    ensures '?' !in p.path && '#' !in p.path
  {
    var (scheme, rest) := SplitScheme(url);
    var (netloc, tail) := SplitNetloc(rest);
    ParsedUrl(scheme, netloc, PathPart(scheme, tail))
  }

  /**
    * `scheme://host/path?query#fragment`: the netloc is the host and the path
    * is the path, when the host holds no `/`, `?` or `#` and the path no `?`,
    * `#` or `;`, whatever query or fragment follows.
    */
  lemma ParseAuthority(scheme: string, host: string, path: string, suffix: string)
    requires scheme != [] && IsAsciiLetter(scheme[0]) && forall j :: 0 <= j < |scheme| ==> IsSchemeChar(scheme[j])
    requires '/' !in host && '?' !in host && '#' !in host
    requires (path == [] || path[0] == '/') && '?' !in path && '#' !in path && ';' !in path
    requires suffix == [] || suffix[0] == '?' || suffix[0] == '#'
    ensures Netloc(scheme + "://" + host + path + suffix) == host
    ensures Path(scheme + "://" + host + path + suffix) == path
  {
    var tail := path + suffix;
    var rest := "//" + (host + tail);
    var url := scheme + ":" + rest;
    assert scheme + "://" + host + path + suffix == url;
    SchemeSplits(scheme, rest);
    assert tail == [] || tail[0] == '/' || tail[0] == '?' || tail[0] == '#';
    HostSplits(host, tail);
    QueryCut(path, suffix);
    assert PathPart(SplitScheme(url).0, tail) == path;
  }

  /** A well-formed scheme followed by `:` is split off. */
  lemma SchemeSplits(scheme: string, rest: string)
    requires scheme != [] && IsAsciiLetter(scheme[0]) && forall j :: 0 <= j < |scheme| ==> IsSchemeChar(scheme[j])
    ensures SplitScheme(scheme + ":" + rest).1 == rest
  {
    var url := scheme + ":" + rest;
    assert forall j :: 0 <= j < |scheme| ==> url[j] == scheme[j] && url[j] != ':';
    assert url[|scheme|] == ':';
    assert IndexOf(url, ':') == |scheme|;
    assert url[|scheme| + 1..] == rest;
  }

  /** The authority ends where the path, query or fragment begins. */
  lemma HostSplits(host: string, tail: string)
    requires '/' !in host && '?' !in host && '#' !in host
    requires tail == [] || tail[0] == '/' || tail[0] == '?' || tail[0] == '#'
    ensures SplitNetloc("//" + (host + tail)) == (host, tail)
  {
    var rest := "//" + (host + tail);
    assert forall j :: 0 <= j < |host| ==> (host + tail)[j] == host[j];
    if tail != [] { assert (host + tail)[|host|] == tail[0]; }
    assert IndexOfAny(host + tail, {'/', '?', '#'}) == |host|;
    assert rest[2..] == host + tail && rest[..2] == "//";
    assert rest[2..2 + |host|] == host && rest[2 + |host|..] == tail;
  }

  /** `s.split(c)[0]` is `s[..n]` when `s[n]` is the first `c` (or `n` is the end). */
  lemma BeforeFirstAt(s: string, c: char, n: nat)
    requires n <= |s| && (forall i :: 0 <= i < n ==> s[i] != c) && (n == |s| || s[n] == c)
    ensures BeforeFirst(s, c) == s[..n]
  {
    assert IndexOf(s, c) == n;
  }

  /** Cutting at `#` and then at `?` leaves exactly a path without either, whatever query or fragment follows. */
  lemma QueryCut(path: string, suffix: string)
    requires '?' !in path && '#' !in path
    requires suffix == [] || suffix[0] == '?' || suffix[0] == '#'
    ensures BeforeFirst(BeforeFirst(path + suffix, '#'), '?') == path
  {
    var t := path + suffix;
    var a := BeforeFirst(t, '#');
    assert forall i :: 0 <= i < |path| ==> t[i] == path[i];
    if suffix != [] && suffix[0] == '#' {
      assert t[|path|] == '#';
      BeforeFirstAt(t, '#', |path|);
      assert t[..|path|] == path;
      BeforeFirstAt(path, '?', |path|);
    } else {
      assert |a| >= |path|;
      assert forall i :: 0 <= i < |path| ==> a[i] == path[i];
      if suffix != [] { assert a == [] || |a| == |path| || a[|path|] == '?'; }
      BeforeFirstAt(a, '?', |path|);
      assert a[..|path|] == path;
    }
  }

  function Netloc(url: string): string
  {
    Parse(url).netloc
  }

  function Path(url: string): string
  {
    Parse(url).path
  }

  /**
    * `normalize_url`: cut the fragment, then strip ALL trailing slashes unless
    * the parsed path is exactly `/`.
    */
  function NormalizeUrl(url: string): string
  {
    var u := BeforeFirst(url, '#');
    if Path(u) != "/" then RStripChar(u, '/') else u
  }

  /**
    * The normal form is a prefix of the URL without `#`; it drops only slashes
    * from the fragment-free part, keeps a trailing slash only on a root path,
    * and changes nothing else when the path is the root; off the root no
    * trailing slash is left.
    */
  lemma NormalizeUrlShape(url: string)
    ensures var r := NormalizeUrl(url);
      r <= url && '#' !in r &&
      (forall i :: |r| <= i < |BeforeFirst(url, '#')| ==> url[i] == '/') &&
      (r != [] && r[|r| - 1] == '/' ==> Path(r) == "/") &&
      (Path(BeforeFirst(url, '#')) != "/" ==> r == [] || r[|r| - 1] != '/') &&
      (Path(BeforeFirst(url, '#')) == "/" ==> r == BeforeFirst(url, '#'))
  {
    var u, r := BeforeFirst(url, '#'), NormalizeUrl(url);
    NormalizeCases(url);
    if Path(u) != "/" {
      StrippedShape(url);
    } else {
      StrippedShape(url);
      assert r == u;
    }
  }

  /** The fragment-free URL, and that URL with its trailing slashes stripped, are `#`-free prefixes of the URL. */
  lemma StrippedShape(url: string)
    ensures var u := BeforeFirst(url, '#');
      var r := RStripChar(u, '/');
      u <= url && '#' !in u && r <= url && '#' !in r &&
      (forall i :: |r| <= i < |u| ==> url[i] == '/') &&
      (r == [] || r[|r| - 1] != '/')
  {
    var u := BeforeFirst(url, '#');
    var r := RStripChar(u, '/');
    assert forall i :: 0 <= i < |r| ==> r[i] == u[i] && u[i] == url[i];
    assert forall i :: |r| <= i < |u| ==> u[i] == url[i];
  }

  /** `normalize_url` either strips the slashes of the fragment-free URL or, on the root path, keeps it. */
  lemma NormalizeCases(url: string)
    ensures var u := BeforeFirst(url, '#');
      NormalizeUrl(url) == if Path(u) != "/" then RStripChar(u, '/') else u
  {
  }

  /** Normalising twice is normalising once. */
  lemma NormalizeIdempotent(url: string)
    ensures NormalizeUrl(NormalizeUrl(url)) == NormalizeUrl(url)
  {
    var r := NormalizeUrl(url);
    NormalizeUrlShape(url);
    assert BeforeFirst(r, '#') == r;
  }

  /** Whatever follows the first `#` never changes the normal form. */
  lemma FragmentIgnored(u: string, fragment: string)
    requires '#' !in u
    ensures NormalizeUrl(u + "#" + fragment) == NormalizeUrl(u)
  {
    var v := u + "#" + fragment;
    assert v[|u|] == '#';
    assert BeforeFirst(v, '#') == u;
    assert BeforeFirst(u, '#') == u;
  }

  /** Off the root, a URL without `#` normalises to itself with every trailing slash stripped. */
  lemma NormalizeOffRoot(url: string)
    requires '#' !in url && Path(url) != "/"
    ensures NormalizeUrl(url) == RStripChar(url, '/')
  {
    BeforeFirstAt(url, '#', |url|);
    assert url[..|url|] == url;
  }

  /** Away from the root, `p/` and `p` normalise alike (and `p//`, since rstrip takes them all). */
  lemma TrailingSlashIgnored(u: string)
    requires '#' !in u
    requires Path(u) != "/" && Path(u + "/") != "/"
    ensures NormalizeUrl(u + "/") == NormalizeUrl(u)
  {
    var v := u + "/";
    assert '#' !in v;
    NormalizeOffRoot(u);
    NormalizeOffRoot(v);
    RStripCharSnoc(u, '/');
  }
}
