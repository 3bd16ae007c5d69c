/**
 * The part of Python's `urllib.parse.urlparse` that the persistence key
 * reads: the scheme, the network location and the path, with `;params`
 * cut from the last path segment for the schemes that use them.
 */
module UrlParse {
  import opened Wrappers
  import opened Strings

  /** The first position at or after `from` holding a character of `cs`, or `|s|` when there is none. */
  function IndexOfAny(s: string, cs: set<char>, from: nat): (r: nat)
    requires from <= |s|
    ensures from <= r <= |s|
    ensures forall i :: from <= i < r ==> s[i] !in cs
    ensures r < |s| ==> s[r] in cs
    decreases |s| - from
  {
    if from == |s| || s[from] in cs then from else IndexOfAny(s, cs, from + 1)
  }

  /** Python's `s.rfind(c)`: the last position of `c`, or -1. */
  function LastIndexOf(s: string, c: char): (r: int)
    ensures -1 <= r < |s|
    ensures r >= 0 ==> s[r] == c
    ensures forall i :: r < i < |s| ==> s[i] != c
  {
    if s == [] then -1
    else if s[|s| - 1] == c then |s| - 1
    else LastIndexOf(s[..|s| - 1], c)
  }

  /** Characters allowed in a scheme after its first letter. */
  predicate IsSchemeChar(c: char) {
    IsLetter(c) || IsDigit(c) || c == '+' || c == '-' || c == '.'
  }

  /** The schemes whose last path segment may carry `;params`. */
  const UsesParams: set<string> := {"", "ftp", "hdl", "prospero", "http", "imap", "https", "shttp",
                                    "rtsp", "rtsps", "rtspu", "sip", "sips", "mms", "sftp", "tel"}

  /** `_splitparams`: the path without the `;params` of its last segment, or from its first `;` when it has no `/`. */
  function WithoutParams(path: string): (r: string)
    ensures |r| <= |path| && r == path[..|r|]
  {
    var slash := LastIndexOf(path, '/');
    if slash >= 0 then
      match FindFrom(path, ";", slash)
      case None => path
      case Some(i) => path[..i]
    else
      var i := Find(path, ";");
      if i >= 0 then path[..i] else path
  }

  datatype Url = Url(scheme: string, netloc: string, path: string)

  /** The lower-cased scheme and the rest of the URL, or no scheme when the text before the first `:` is not one. */
  function SplitScheme(url: string): (r: (string, string))
  {
    var i := IndexOfAny(url, {':'}, 0);
    if 0 < i < |url| && IsLetter(url[0]) && forall j :: 0 <= j < i ==> IsSchemeChar(url[j])
    then (Lower(url[..i]), url[i + 1..])
    else ("", url)
  }

  /** The network location after a leading `//`, up to the next `/`, `?` or `#`, and what follows it. */
  function SplitNetloc(rest: string): (r: (string, string))
    ensures r.0 + r.1 == rest || "//" + r.0 + r.1 == rest
  {
    if |rest| >= 2 && rest[..2] == "//" then
      var d := IndexOfAny(rest, {'/', '?', '#'}, 2);
      assert rest == "//" + rest[2..d] + rest[d..];
      (rest[2..d], rest[d..])
    else ("", rest)
  }

  /** The path: everything before the query or the fragment. */
  function PathOf(tail: string): (p: string)
    ensures |p| <= |tail| && p == tail[..|p|] && '?' !in p && '#' !in p
  {
    tail[..IndexOfAny(tail, {'?', '#'}, 0)]
  }

  /** `urlparse(url)`, keeping the scheme, the network location and the path. */
  function Parse(url: string): (u: Url)
  {
    var (scheme, rest) := SplitScheme(url);
    var (netloc, tail) := SplitNetloc(rest);
    var path := PathOf(tail);
    Url(scheme, netloc, if scheme in UsesParams && ';' in path then WithoutParams(path) else path)
  }

  lemma SchemeOf(scheme: string, rest: string)
    requires scheme != [] && IsLetter(scheme[0]) && forall j :: 0 <= j < |scheme| ==> IsSchemeChar(scheme[j])
    ensures SplitScheme(scheme + ":" + rest) == (Lower(scheme), rest)
  {
    var url := scheme + ":" + rest;
    assert url[|scheme|] == ':';
    forall j | 0 <= j < |scheme|
      ensures url[j] !in {':'} && url[j] == scheme[j]
    {
      assert url[j] == scheme[j];
    }
    assert IndexOfAny(url, {':'}, 0) == |scheme|;
    assert url[..|scheme|] == scheme;
    assert url[|scheme| + 1..] == rest;
  }

  lemma NetlocOf(host: string, tail: string)
    requires forall j :: 0 <= j < |host| ==> host[j] !in {'/', '?', '#'}
    requires tail == [] || tail[0] in {'/', '?', '#'}
    ensures SplitNetloc("//" + host + tail) == (host, tail)
  {
    var rest := "//" + host + tail;
    assert rest[..2] == "//";
    forall j | 2 <= j < 2 + |host|
      ensures rest[j] !in {'/', '?', '#'}
    {
      assert rest[j] == host[j - 2];
    }
    if tail != [] {
      assert rest[2 + |host|] == tail[0];
    }
    assert IndexOfAny(rest, {'/', '?', '#'}, 2) == 2 + |host|;
    assert rest[2..2 + |host|] == host;
    assert rest[2 + |host|..] == tail;
  }

  lemma PathBeforeQuery(path: string, query: string)
    requires forall j :: 0 <= j < |path| ==> path[j] !in {'?', '#'}
    requires query == [] || query[0] == '?'
    ensures PathOf(path + query) == path
  {
    var tail := path + query;
    forall j | 0 <= j < |path|
      ensures tail[j] !in {'?', '#'}
    {
      assert tail[j] == path[j];
    }
    if query != [] {
      assert tail[|path|] == query[0];
    }
    assert IndexOfAny(tail, {'?', '#'}, 0) == |path|;
    assert tail[..|path|] == path;
  }

  lemma SeqAssoc<T>(a: seq<T>, b: seq<T>, c: seq<T>)
    ensures a + b + c == a + (b + c)
  {
  }

  /** A URL `scheme://host/path?query` splits into its scheme, host and path. */
  lemma ParseHierarchical(scheme: string, host: string, path: string, query: string)
    requires scheme != [] && IsLetter(scheme[0]) && forall j :: 0 <= j < |scheme| ==> IsSchemeChar(scheme[j])
    requires forall j :: 0 <= j < |host| ==> host[j] !in {'/', '?', '#'}
    requires path == [] || path[0] == '/'
    requires forall j :: 0 <= j < |path| ==> path[j] !in {'?', '#', ';'}
    requires query == [] || query[0] == '?'
    ensures Parse(scheme + "://" + host + path + query) == Url(Lower(scheme), host, path)
  {
    var rest := "//" + host + (path + query);
    assert "://" == ":" + "//";
    calc {
      scheme + "://" + host + path + query;
      scheme + (":" + "//") + host + path + query;
      { SeqAssoc(scheme, ":", "//"); }
      scheme + ":" + "//" + host + path + query;
      { SeqAssoc(scheme + ":", "//", host); }
      scheme + ":" + ("//" + host) + path + query;
      { SeqAssoc(scheme + ":" + ("//" + host), path, query); }
      scheme + ":" + ("//" + host) + (path + query);
      { SeqAssoc(scheme + ":", "//" + host, path + query); }
      scheme + ":" + rest;
    }
    SchemeOf(scheme, "//" + host + (path + query));
    if path == [] {
      assert path + query == query;
    }
    NetlocOf(host, path + query);
    PathBeforeQuery(path, query);
    assert ';' !in path by {
      forall j | 0 <= j < |path|
        ensures path[j] != ';'
      {
      }
    }
  }
}
