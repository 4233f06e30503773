/**
  `extract_video_id` (core/transcript_service.py, with identical copies in
  core/transcribe_yt_video.py and src/transcribe_yt_video.py), together with
  the parts of `urllib.parse` it goes through: `urlparse`, the `hostname`
  property and `parse_qs`. The URL functions follow CPython 3.12's
  `urllib/parse.py`; the few steps that need Unicode tables or the
  `ipaddress` module are parameters gathered in `UrlLib`.
 */
module VideoUrl {
  import opened Wrappers
  import opened Strings
  import opened Errors

  /** `urlparse`'s six components. */
  datatype ParsedUrl = ParsedUrl(scheme: string, netloc: string, path: string,
                                 params: string, query: string, fragment: string)

  /** The library steps the model takes as given. */
  datatype UrlLib = UrlLib(
    // `unquote` of a string holding '%': UTF-8 percent-decoding with replacement characters
    percentDecode: string -> string,
    // `_check_bracketed_host`: None when the bracketed host is accepted, else the message raised
    bracketedHostError: string -> Option<string>,
    // `_checknetloc` on a non-ASCII netloc: NFKC normalisation brings in one of "/?#@:"
    nfkcUnsafe: string -> bool,
    // `str.lower` of a string that is not all ASCII
    unicodeLower: string -> string)

  const InvalidIpv6Message: string := "Invalid IPv6 URL"

  /** The schemes whose last path segment may carry `;params`. */
  const UsesParams: seq<string> :=
    ["", "ftp", "hdl", "prospero", "http", "imap", "https", "shttp", "rtsp",
     "rtsps", "rtspu", "sip", "sips", "mms", "sftp", "tel"]

  function NfkcMessage(netloc: string): string {
    "netloc '" + netloc + "' contains invalid characters under NFKC normalization"
  }

  /** `url.lstrip(_WHATWG_C0_CONTROL_OR_SPACE)`: drops leading characters up to U+0020. */
  function StripLeadingControl(s: string): (r: string)
    ensures |r| <= |s| && r == s[|s| - |r|..]
    ensures r != [] ==> r[0] as int > 0x20
  {
    if |s| > 0 && s[0] as int <= 0x20 then StripLeadingControl(s[1..]) else s
  }

  predicate IsUnsafe(c: char) {
    c == '\t' || c == '\r' || c == '\n'
  }

  /** Removing every tab, carriage return and line feed (`_UNSAFE_URL_BYTES_TO_REMOVE`). */
  function RemoveUnsafe(s: string): (r: string)
    ensures |r| <= |s|
    ensures forall i :: 0 <= i < |r| ==> !IsUnsafe(r[i]) && r[i] in s
  {
    if s == [] then []
    else (if IsUnsafe(s[0]) then [] else [s[0]]) + RemoveUnsafe(s[1..])
  }

  predicate IsSchemeChar(c: char) {
    IsAsciiLetter(c) || IsDigit(c) || c == '+' || c == '-' || c == '.'
  }

  /**
    The scheme and what follows it: the text before the first ':' when it is
    non-empty, starts with an ASCII letter and holds only scheme characters
    (lower-cased), and otherwise no scheme.
   */
  function SplitScheme(url: string): (r: (string, string))
    ensures |r.1| <= |url| && r.1 == url[|url| - |r.1|..]
  {
    match Find(url, ":")
    case Some(i) =>
      if i > 0 && IsAsciiLetter(url[0]) && forall k :: 0 <= k < i ==> IsSchemeChar(url[k])
      then (AsciiLower(url[..i]), url[i + 1..])
      else ("", url)
    case None => ("", url)
  }

  /**
    `_splitnetloc`'s cut: the index of the first character of `s` that is one
    of `stops`, or `|s|` when there is none.
   */
  function FirstStop(s: string, stops: string): (r: nat)
    ensures r <= |s| && (r < |s| ==> s[r] in stops)
    ensures forall i :: 0 <= i < r ==> s[i] !in stops
  {
    if s == [] || s[0] in stops then 0 else 1 + FirstStop(s[1..], stops)
  }

  /** Netloc and the rest, after the scheme. */
  function SplitNetloc(url: string): (r: (string, string))
    ensures r.0 + r.1 == url || "//" + r.0 + r.1 == url
  {
    if StartsWith(url, "//") then
      var d := 2 + FirstStop(url[2..], "/?#");
      assert url == url[..2] + url[2..d] + url[d..];
      (url[2..d], url[d..])
    else ("", url)
  }

  /**
    `_check_bracketed_netloc`: None when the netloc is accepted, else the
    message of the `ValueError` raised.
   */
  function CheckBracketedNetloc(netloc: string, lib: UrlLib): Option<string> {
    var host := AfterLast(netloc, '@');
    if '[' in host then
      ContainsChar(host, '[');
      var bracketed := After(host, "[");
      if Before(host, "[") != "" then Some(InvalidIpv6Message)
      else
        var port := After(bracketed, "]");
        if port != "" && !StartsWith(port, ":") then Some(InvalidIpv6Message)
        else lib.bracketedHostError(Before(bracketed, "]"))
    else lib.bracketedHostError(Before(host, ":"))
  }

  /** `url.split(sep, 1)` when `sep` occurs, and `(url, "")` otherwise. */
  function SplitOnce(url: string, sep: char): (r: (string, string))
    ensures sep !in r.0
    ensures sep in url ==> url == r.0 + [sep] + r.1
    ensures sep !in url ==> r == (url, "")
  {
    ContainsChar(url, sep);
    Partition(url, [sep]);
    ContainsChar(Before(url, [sep]), sep);
    if sep in url then (Before(url, [sep]), After(url, [sep])) else (url, "")
  }

  /** The scheme, the netloc and the rest of the URL once it is cleaned. */
  function Locate(url: string): (string, string, string) {
    var cleaned := RemoveUnsafe(StripLeadingControl(url));
    var (scheme, afterScheme) := SplitScheme(cleaned);
    var (netloc, rest) := SplitNetloc(afterScheme);
    (scheme, netloc, rest)
  }

  /** `urlsplit`, with empty `params`. */
  function UrlSplit(url: string, lib: UrlLib): Result<ParsedUrl, PyError> {
    var (scheme, netloc, rest) := Locate(url);
    if ('[' in netloc) != (']' in netloc) then Failure(ValueError(InvalidIpv6Message))
    else if '[' in netloc && CheckBracketedNetloc(netloc, lib).Some? then
      Failure(ValueError(CheckBracketedNetloc(netloc, lib).value))
    else
      var (beforeFragment, fragment) := SplitOnce(rest, '#');
      var (path, query) := SplitOnce(beforeFragment, '?');
      if netloc != "" && !IsAscii(netloc) && lib.nfkcUnsafe(netloc) then
        Failure(ValueError(NfkcMessage(netloc)))
      else Success(ParsedUrl(scheme, netloc, path, "", query, fragment))
  }

  /**
    `_splitparams`: the path cut at the first ';' after its last '/' (kept
    whole when there is none), or at its first ';' when it has no '/'.
   */
  function SplitParams(path: string): (r: (string, string))
    requires ';' in path
    ensures ';' !in r.0 || '/' in path
  {
    match LastIndexOf(path, '/')
    case Some(k) =>
      (match Find(path[k..], ";")
       case None => (path, "")
       case Some(j) => (path[..k + j], path[k + j + 1..]))
    case None =>
      ContainsChar(path, ';');
      var i := Find(path, ";").value;
      FindSpec(path, ";");
      assert ';' !in path[..i] by {
        forall m | 0 <= m < i ensures path[m] != ';' {
          assert !OccursAt(path, ";", m);
          assert path[m..m + 1] == [path[m]];
        }
      }
      (path[..i], path[i + 1..])
  }

  /** `urlparse`. */
  function UrlParse(url: string, lib: UrlLib): (r: Result<ParsedUrl, PyError>)
    ensures r.Success? <==> UrlSplit(url, lib).Success?
    ensures r.Success? ==> (r.value.scheme == UrlSplit(url, lib).value.scheme
                            && r.value.netloc == UrlSplit(url, lib).value.netloc
                            && r.value.query == UrlSplit(url, lib).value.query)
  {
    match UrlSplit(url, lib)
    case Failure(e) => Failure(e)
    case Success(u) =>
      if u.scheme in UsesParams && ';' in u.path then
        var (path, params) := SplitParams(u.path);
        Success(u.(path := path, params := params))
      else Success(u)
  }

  /** Python's `str.lower`: ASCII letters here, any other string by `lib`. */
  function Lower(s: string, lib: UrlLib): string {
    if IsAscii(s) then AsciiLower(s) else lib.unicodeLower(s)
  }

  /**
    The `hostname` property: the host after the last '@', inside brackets
    when there is a '[', else before the first ':'; None when that is empty;
    lower-cased up to a '%' zone, which is kept as written.
   */
  function Hostname(netloc: string, lib: UrlLib): Option<string> {
    var host := AfterLast(netloc, '@');
    var name := if '[' in host then Before(After(host, "["), "]") else Before(host, ":");
    if name == "" then None
    else
      var (address, zone) := SplitOnce(name, '%');
      Some(Lower(address, lib) + (if '%' in name then "%" + zone else ""))
  }

  /** `s.replace('+', ' ')`. */
  function PlusToSpace(s: string): (r: string)
    ensures |r| == |s|
    ensures forall i :: 0 <= i < |s| ==> r[i] == if s[i] == '+' then ' ' else s[i]
  {
    if s == [] then [] else [if s[0] == '+' then ' ' else s[0]] + PlusToSpace(s[1..])
  }

  /** `unquote_plus`: '+' to space, then percent-decoding when a '%' is left. */
  function UnquotePlus(s: string, lib: UrlLib): string {
    var spaced := PlusToSpace(s);
    if '%' in spaced then lib.percentDecode(spaced) else spaced
  }

  /**
    `parse_qsl`'s loop over the '&'-separated fields: empty fields and fields
    with an empty value are skipped; name and value are split at the first
    '=' and unquoted.
   */
  function QueryPairs(fields: seq<string>, lib: UrlLib): (r: seq<(string, string)>)
    ensures |r| <= |fields|
  {
    if fields == [] then []
    else
      var field := fields[0];
      var value := After(field, "=");
      (if field != "" && value != ""
       then [(UnquotePlus(Before(field, "="), lib), UnquotePlus(value, lib))]
       else [])
      + QueryPairs(fields[1..], lib)
  }

  /** `parse_qsl(qs)` with the default arguments. */
  function ParseQsl(qs: string, lib: UrlLib): seq<(string, string)> {
    if qs == "" then [] else QueryPairs(Split(qs, "&"), lib)
  }

  /** `parse_qs`'s grouping: each name maps to its values in order. */
  function GroupValues(pairs: seq<(string, string)>): (m: map<string, seq<string>>)
    ensures forall name :: name in m ==> |m[name]| >= 1
    decreases |pairs|
  {
    if pairs == [] then map[]
    else
      var m := GroupValues(pairs[..|pairs| - 1]);
      var (name, value) := pairs[|pairs| - 1];
      m[name := (if name in m then m[name] else []) + [value]]
  }

  /** `parse_qs(qs).get(name, [None])[0]`. */
  function QueryValue(qs: string, name: string, lib: UrlLib): Option<string> {
    var m := GroupValues(ParseQsl(qs, lib));
    if name in m then Some(m[name][0]) else None
  }

  /** `path.split("/")[2]` for a path starting with "/embed/": the segment after it. */
  function EmbedSegment(path: string): (r: string)
    requires StartsWith(path, "/embed/")
  {
    EmbedSplit(path);
    Split(path, "/")[2]
  }

  lemma EmbedSplit(path: string)
    requires StartsWith(path, "/embed/")
    ensures |Split(path, "/")| >= 3 && Split(path, "/")[2] == Before(path[7..], "/")
  {
    assert path[0..1] == "/";
    FindIs(path, "/", 0);
    var tail := path[1..];
    assert tail[..6] == "embed/";
    assert tail[5..6] == "/";
    forall j: nat | j < 5 ensures !OccursAt(tail, "/", j) {
      assert tail[j] == "embed/"[j];
      assert tail[j..j + 1] == [tail[j]];
    }
    FindIs(tail, "/", 5);
    assert Split(path, "/") == [""] + Split(tail, "/");
    assert Split(tail, "/") == [tail[..5]] + Split(path[7..], "/");
    SplitFirst(path[7..], "/");
  }

  /** `path[1:]`. */
  function DropFirst(path: string): string {
    if |path| >= 1 then path[1..] else ""
  }

  /**
    `extract_video_id` after `urlparse`: the path after its '/' for a
    youtu.be host, the first `v` query value for the path "/watch", the
    segment after "/embed/", and None otherwise.
   */
  function VideoIdOf(u: ParsedUrl, lib: UrlLib): Option<string> {
    if Hostname(u.netloc, lib) == Some("youtu.be") then Some(DropFirst(u.path))
    else if u.path == "/watch" then QueryValue(u.query, "v", lib)
    else if StartsWith(u.path, "/embed/") then Some(EmbedSegment(u.path))
    else None
  }

  /**
    `extract_video_id`: `urlparse`'s `ValueError` propagates. The second
    clause only names the chosen id; what it is for each kind of link is
    stated by `ShortLinkId`, `WatchLinkId` and `EmbedLinkId`.
   */
  function ExtractVideoId(url: string, lib: UrlLib): (r: Result<Option<string>, PyError>)
    ensures r.Failure? <==> UrlSplit(url, lib).Failure?
    ensures UrlParse(url, lib).Success? ==> r == Success(VideoIdOf(UrlParse(url, lib).value, lib))
  {
    match UrlParse(url, lib)
    case Failure(e) => Failure(e)
    case Success(u) => Success(VideoIdOf(u, lib))
  }

  /** The value of the first pair named `name`. */
  function FirstValue(pairs: seq<(string, string)>, name: string): (r: Option<string>)
    ensures r.None? <==> forall i :: 0 <= i < |pairs| ==> pairs[i].0 != name
  {
    if pairs == [] then None
    else if pairs[0].0 == name then Some(pairs[0].1)
    else FirstValue(pairs[1..], name)
  }

  /** `FirstValue` takes the value of the earliest pair with that name. */
  lemma {:induction false} FirstValueAt(pairs: seq<(string, string)>, name: string, i: nat)
    requires i < |pairs| && pairs[i].0 == name
    requires forall j :: 0 <= j < i ==> pairs[j].0 != name
    ensures FirstValue(pairs, name) == Some(pairs[i].1)
  {
    if i > 0 {
      FirstValueAt(pairs[1..], name, i - 1);
    }
  }

  lemma {:induction false} FirstValueAppend(pairs: seq<(string, string)>, last: (string, string), name: string)
    ensures FirstValue(pairs + [last], name) ==
      if FirstValue(pairs, name).Some? then FirstValue(pairs, name)
      else if last.0 == name then Some(last.1) else None
    decreases |pairs|
  {
    if pairs != [] {
      assert (pairs + [last])[1..] == pairs[1..] + [last];
      FirstValueAppend(pairs[1..], last, name);
    }
  }

  /**
    `parse_qs(qs).get(name, [None])[0]` is the value of the first pair
    `parse_qsl` yields for `name`: later repetitions are ignored.
   */
  lemma {:induction false} GroupValuesFirst(pairs: seq<(string, string)>, name: string)
    ensures name in GroupValues(pairs) <==> FirstValue(pairs, name).Some?
    ensures name in GroupValues(pairs) ==> GroupValues(pairs)[name][0] == FirstValue(pairs, name).value
    decreases |pairs|
  {
    if pairs != [] {
      var init := pairs[..|pairs| - 1];
      var last := pairs[|pairs| - 1];
      assert pairs == init + [last];
      GroupValuesFirst(init, name);
      FirstValueAppend(init, last, name);
    }
  }

  lemma QueryValueIsFirst(qs: string, name: string, lib: UrlLib)
    ensures QueryValue(qs, name, lib) == FirstValue(ParseQsl(qs, lib), name)
  {
    GroupValuesFirst(ParseQsl(qs, lib), name);
  }

  /** Every character of `t` occurs in `s`. */
  predicate CharsIn(t: string, s: string) {
    forall i :: 0 <= i < |t| ==> t[i] in s
  }

  lemma CharsInTrans(a: string, b: string, c: string)
    requires CharsIn(a, b) && CharsIn(b, c)
    ensures CharsIn(a, c)
  {
    forall i | 0 <= i < |a| ensures a[i] in c {
      var k :| 0 <= k < |b| && b[k] == a[i];
    }
  }

  lemma CharsInSuffix(s: string, n: nat)
    requires n <= |s|
    ensures CharsIn(s[n..], s)
  {
    forall i | 0 <= i < |s[n..]| ensures s[n..][i] in s {
      assert s[n..][i] == s[n + i];
    }
  }

  lemma NetlocCharsIn(s: string)
    ensures CharsIn(SplitNetloc(s).0, s)
  {
    var (netloc, rest) := SplitNetloc(s);
    if netloc != "" {
      assert s == "//" + netloc + rest;
      forall i | 0 <= i < |netloc| ensures netloc[i] in s {
        assert netloc[i] == s[i + 2];
      }
    }
  }

  /** Every character of the netloc is a character of the URL as written. */
  lemma NetlocFromUrl(url: string)
    ensures CharsIn(Locate(url).1, url)
  {
    var stripped := StripLeadingControl(url);
    var cleaned := RemoveUnsafe(stripped);
    var afterScheme := SplitScheme(cleaned).1;
    CharsInSuffix(url, |url| - |stripped|);
    CharsInSuffix(cleaned, |cleaned| - |afterScheme|);
    NetlocCharsIn(afterScheme);
    CharsInTrans(cleaned, stripped, url);
    CharsInTrans(afterScheme, cleaned, url);
    CharsInTrans(SplitNetloc(afterScheme).0, afterScheme, url);
  }

  /** `urlsplit` raises only over a netloc holding a bracket or a non-ASCII character. */
  lemma UrlSplitFailsOnNetloc(url: string, lib: UrlLib)
    ensures UrlSplit(url, lib).Failure? ==>
      var netloc := Locate(url).1;
      '[' in netloc || ']' in netloc || !IsAscii(netloc)
  {
  }

  /**
    `extract_video_id` raises only on a URL that holds a square bracket or a
    character outside ASCII; on every other URL it returns an id or None.
   */
  lemma ExtractFailsOnlyOnBracketsOrNonAscii(url: string, lib: UrlLib)
    ensures ExtractVideoId(url, lib).Failure? ==> '[' in url || ']' in url || !IsAscii(url)
  {
    var netloc := Locate(url).1;
    if ExtractVideoId(url, lib).Failure? {
      UrlSplitFailsOnNetloc(url, lib);
      NetlocFromUrl(url);
      if !IsAscii(netloc) {
        var i :| 0 <= i < |netloc| && netloc[i] as int >= 128;
        var k :| 0 <= k < |url| && url[k] == netloc[i];
      }
    }
  }

  predicate Avoids(s: string, chars: string) {
    forall i :: 0 <= i < |s| ==> s[i] !in chars
  }

  predicate IsSchemeName(s: string) {
    |s| >= 1 && IsAsciiLetter(s[0]) && forall i :: 0 <= i < |s| ==> IsSchemeChar(s[i])
  }

  /** "?" followed by the query, when there is one. */
  function QueryTail(query: Option<string>): string {
    match query
    case None => ""
    case Some(q) => "?" + q
  }

  lemma {:induction false} RemoveUnsafeNone(s: string)
    requires Avoids(s, "\t\r\n")
    ensures RemoveUnsafe(s) == s
  {
    if s != [] {
      assert s[0] !in "\t\r\n";
      RemoveUnsafeNone(s[1..]);
    }
  }

  lemma {:induction false} FirstStopIs(s: string, stops: string, k: nat)
    requires k <= |s| && Avoids(s[..k], stops) && (k < |s| ==> s[k] in stops)
    ensures FirstStop(s, stops) == k
  {
    if k > 0 {
      assert s[0] == s[..k][0];
      assert s[1..][..k - 1] == s[..k][1..];
      FirstStopIs(s[1..], stops, k - 1);
    }
  }

  lemma SplitOnceAt(a: string, sep: char, b: string)
    requires sep !in a
    ensures SplitOnce(a + [sep] + b, sep) == (a, b)
  {
    assert (a + [sep] + b)[|a|] == sep;
    PartitionFirst(a, sep, b);
  }

  lemma SplitSchemeOf(scheme: string, rest: string)
    requires IsSchemeName(scheme)
    ensures SplitScheme(scheme + ":" + rest) == (AsciiLower(scheme), rest)
  {
    var url := scheme + ":" + rest;
    assert url[|scheme|..|scheme| + 1] == ":";
    forall j: nat | j < |scheme| ensures !OccursAt(url, ":", j) {
      assert url[j..j + 1] == [scheme[j]];
    }
    FindIs(url, ":", |scheme|);
    assert url[..|scheme|] == scheme;
    assert url[|scheme| + 1..] == rest;
  }

  lemma AvoidsConcat(a: string, b: string, chars: string)
    requires Avoids(a, chars) && Avoids(b, chars)
    ensures Avoids(a + b, chars)
  {
    forall i | 0 <= i < |a + b| ensures (a + b)[i] !in chars {
      if i >= |a| {
        assert (a + b)[i] == b[i - |a|];
      }
    }
  }

  /** Cleaning leaves a URL alone that starts with a visible character and has no tab or line break. */
  lemma CleanUnchanged(url: string)
    requires url != [] && url[0] as int > 0x20 && Avoids(url, "\t\r\n")
    ensures RemoveUnsafe(StripLeadingControl(url)) == url
  {
    RemoveUnsafeNone(url);
  }

  lemma SplitNetlocOf(host: string, tail: string)
    requires Avoids(host, "/?#") && (tail == "" || tail[0] in "/?#")
    ensures SplitNetloc("//" + host + tail) == (host, tail)
  {
    var afterScheme := "//" + host + tail;
    assert afterScheme[2..] == host + tail;
    assert (host + tail)[..|host|] == host;
    FirstStopIs(host + tail, "/?#", |host|);
    assert (host + tail)[|host|..] == tail;
  }

  lemma SchemeAvoidsUnsafe(scheme: string)
    requires IsSchemeName(scheme)
    ensures Avoids(scheme, "\t\r\n")
  {
    forall i | 0 <= i < |scheme| ensures scheme[i] !in "\t\r\n" {
      assert IsSchemeChar(scheme[i]);
    }
  }

  /** Scheme, netloc and rest of a URL put together from a scheme, a host and a rest. */
  lemma LocateOfParts(scheme: string, host: string, tail: string)
    requires IsSchemeName(scheme)
    requires Avoids(host, "/?#") && Avoids(host, "\t\r\n") && Avoids(tail, "\t\r\n")
    requires tail == "" || tail[0] in "/?#"
    ensures Locate(scheme + "://" + host + tail) == (AsciiLower(scheme), host, tail)
  {
    var afterScheme := "//" + host + tail;
    var url := scheme + (":" + afterScheme);
    assert url == scheme + "://" + host + tail;
    SchemeAvoidsUnsafe(scheme);
    AvoidsConcat(host, tail, "\t\r\n");
    AvoidsConcat("//", host + tail, "\t\r\n");
    assert afterScheme == "//" + (host + tail);
    AvoidsConcat(":", afterScheme, "\t\r\n");
    AvoidsConcat(scheme, ":" + afterScheme, "\t\r\n");
    CleanUnchanged(url);
    assert url == scheme + ":" + afterScheme;
    SplitSchemeOf(scheme, afterScheme);
    SplitNetlocOf(host, tail);
  }

  /** Avoiding every character of `chars` means avoiding each one of them. */
  lemma AvoidsChar(s: string, chars: string, c: char)
    requires Avoids(s, chars) && c in chars
    ensures c !in s
  {
  }

  lemma AvoidsFewer(s: string, chars: string, fewer: string)
    requires Avoids(s, chars) && forall i :: 0 <= i < |fewer| ==> fewer[i] in chars
    ensures Avoids(s, fewer)
  {
  }

  /** The rest after the host: the path, then "?" and the query when there is one. */
  lemma TailAvoids(path: string, query: Option<string>, chars: string)
    requires Avoids(path, chars) && '?' !in chars
    requires query.Some? ==> Avoids(query.value, chars)
    ensures Avoids(path + QueryTail(query), chars)
  {
    if query.Some? {
      assert Avoids("?", chars);
      AvoidsConcat("?", query.value, chars);
    }
    AvoidsConcat(path, QueryTail(query), chars);
  }

  /** With a plain ASCII netloc, `urlsplit` only cuts the rest at '#' and then at '?'. */
  lemma UrlSplitPlain(url: string, lib: UrlLib, scheme: string, netloc: string, rest: string,
                      beforeFragment: string, path: string, query: string, fragment: string)
    requires Locate(url) == (scheme, netloc, rest)
    requires '[' !in netloc && ']' !in netloc && IsAscii(netloc)
    requires SplitOnce(rest, '#') == (beforeFragment, fragment)
    requires SplitOnce(beforeFragment, '?') == (path, query)
    ensures UrlSplit(url, lib) == Success(ParsedUrl(scheme, netloc, path, "", query, fragment))
  {
  }

  /** The conditions under which a URL is put back together from its parts. */
  predicate PlainParts(scheme: string, host: string, path: string, query: Option<string>) {
    && IsSchemeName(scheme)
    && IsAscii(host) && Avoids(host, "/?#[]\t\r\n")
    && (path == "" || path[0] == '/') && Avoids(path, "?#\t\r\n")
    && (query.Some? ==> Avoids(query.value, "#\t\r\n"))
  }

  lemma LocatePlainParts(scheme: string, host: string, path: string, query: Option<string>)
    requires PlainParts(scheme, host, path, query)
    ensures Locate(scheme + "://" + host + (path + QueryTail(query)))
      == (AsciiLower(scheme), host, path + QueryTail(query))
    ensures '[' !in host && ']' !in host
  {
    var tail := path + QueryTail(query);
    AvoidsFewer(host, "/?#[]\t\r\n", "/?#");
    AvoidsFewer(host, "/?#[]\t\r\n", "\t\r\n");
    AvoidsChar(host, "/?#[]\t\r\n", '[');
    AvoidsChar(host, "/?#[]\t\r\n", ']');
    AvoidsFewer(path, "?#\t\r\n", "\t\r\n");
    TailAvoids(path, query, "\t\r\n");
    LocateOfParts(scheme, host, tail);
  }

  lemma SplitPlainTail(path: string, query: Option<string>)
    requires Avoids(path, "?#\t\r\n")
    requires query.Some? ==> Avoids(query.value, "#\t\r\n")
    ensures var tail := path + QueryTail(query);
      && SplitOnce(tail, '#') == (tail, "")
      && SplitOnce(tail, '?') == (path, if query.Some? then query.value else "")
  {
    var tail := path + QueryTail(query);
    AvoidsFewer(path, "?#\t\r\n", "#");
    if query.Some? {
      AvoidsFewer(query.value, "#\t\r\n", "#");
    }
    TailAvoids(path, query, "#");
    AvoidsChar(tail, "#", '#');
    AvoidsChar(path, "?#\t\r\n", '?');
    if query.Some? {
      assert tail == path + ['?'] + query.value;
      SplitOnceAt(path, '?', query.value);
    } else {
      assert tail == path;
    }
  }

  /**
    A URL put together from a scheme, a plain ASCII host, a path and an
    optional query is split back into exactly those parts.
   */
  lemma UrlSplitOfParts(scheme: string, host: string, path: string, query: Option<string>, lib: UrlLib)
    requires PlainParts(scheme, host, path, query)
    ensures UrlSplit(scheme + "://" + host + path + QueryTail(query), lib)
      == Success(ParsedUrl(AsciiLower(scheme), host, path, "",
                           if query.Some? then query.value else "", ""))
  {
    var tail := path + QueryTail(query);
    var url := scheme + "://" + host + tail;
    assert url == scheme + "://" + host + path + QueryTail(query);
    LocatePlainParts(scheme, host, path, query);
    SplitPlainTail(path, query);
    UrlSplitPlain(url, lib, AsciiLower(scheme), host, tail, tail, path,
                  if query.Some? then query.value else "", "");
  }

  /** `urlparse` of such a URL, when the path holds no ';'. */
  lemma UrlParseOfParts(scheme: string, host: string, path: string, query: Option<string>, lib: UrlLib)
    requires PlainParts(scheme, host, path, query) && ';' !in path
    ensures UrlParse(scheme + "://" + host + path + QueryTail(query), lib)
      == Success(ParsedUrl(AsciiLower(scheme), host, path, "",
                           if query.Some? then query.value else "", ""))
  {
    UrlSplitOfParts(scheme, host, path, query, lib);
  }

  lemma AsciiLowerUnchanged(s: string)
    requires forall i :: 0 <= i < |s| ==> !('A' <= s[i] <= 'Z')
    ensures AsciiLower(s) == s
  {
  }

  /** A host name without '@', '[', ':' or '%' is its own `hostname`, lower-cased. */
  lemma HostnameOfPlainHost(host: string, lib: UrlLib)
    requires host != "" && IsAscii(host) && Avoids(host, "@[:%")
    ensures Hostname(host, lib) == Some(AsciiLower(host))
  {
    AvoidsChar(host, "@[:%", '@');
    AvoidsChar(host, "@[:%", '[');
    AvoidsChar(host, "@[:%", ':');
    AvoidsChar(host, "@[:%", '%');
    ContainsChar(host, ':');
    Partition(host, ":");
    assert AfterLast(host, '@') == host;
    assert Before(host, ":") == host;
    assert SplitOnce(host, '%') == (host, "");
    assert Lower(host, lib) + "" == AsciiLower(host);
  }

  /** A host name the URL functions pass through unchanged. */
  predicate PlainHost(host: string) {
    host != "" && IsAscii(host) && Avoids(host, "/?#[]@:%\t\r\n")
  }

  lemma PlainHostFacts(host: string, lib: UrlLib)
    requires PlainHost(host)
    ensures Avoids(host, "/?#[]\t\r\n")
    ensures Hostname(host, lib) == Some(AsciiLower(host))
  {
    AvoidsFewer(host, "/?#[]@:%\t\r\n", "/?#[]\t\r\n");
    AvoidsFewer(host, "/?#[]@:%\t\r\n", "@[:%");
    HostnameOfPlainHost(host, lib);
  }

  /** The characters of a YouTube video id. */
  predicate IsIdChar(c: char) {
    IsAsciiLetter(c) || IsDigit(c) || c == '-' || c == '_'
  }

  predicate IsIdText(id: string) {
    forall i :: 0 <= i < |id| ==> IsIdChar(id[i])
  }

  lemma IdAvoids(id: string)
    requires IsIdText(id)
    ensures Avoids(id, "/?#;&=+%\t\r\n")
  {
    forall i | 0 <= i < |id| ensures id[i] !in "/?#;&=+%\t\r\n" {
      assert IsIdChar(id[i]);
    }
  }

  /** "/" + the id, or "/embed/" + the id, is a plain path without ';'. */
  lemma IdPath(prefix: string, id: string)
    requires IsIdText(id) && (prefix == "/" || prefix == "/embed/")
    ensures Avoids(prefix + id, "?#\t\r\n") && ';' !in prefix + id
  {
    IdAvoids(id);
    AvoidsFewer(id, "/?#;&=+%\t\r\n", "?#;\t\r\n");
    assert Avoids(prefix, "?#;\t\r\n");
    AvoidsConcat(prefix, id, "?#;\t\r\n");
    AvoidsFewer(prefix + id, "?#;\t\r\n", "?#\t\r\n");
    AvoidsChar(prefix + id, "?#;\t\r\n", ';');
  }

  /**
    A short link gives the id after the host's '/', whatever query follows
    it; the host is compared case-insensitively. This case is tried first,
    so even "youtu.be/watch?v=x" gives "watch".
   */
  lemma ShortLinkId(scheme: string, host: string, id: string, query: Option<string>, lib: UrlLib)
    requires IsSchemeName(scheme) && PlainHost(host) && AsciiLower(host) == "youtu.be"
    requires IsIdText(id)
    requires query.Some? ==> Avoids(query.value, "#\t\r\n")
    ensures ExtractVideoId(scheme + "://" + host + "/" + id + QueryTail(query), lib) == Success(Some(id))
  {
    var path := "/" + id;
    var url := scheme + "://" + host + path + QueryTail(query);
    assert scheme + "://" + host + "/" + id + QueryTail(query) == url;
    IdPath("/", id);
    PlainHostFacts(host, lib);
    UrlParseOfParts(scheme, host, path, query, lib);
    var u := ParsedUrl(AsciiLower(scheme), host, path, "", if query.Some? then query.value else "", "");
    assert UrlParse(url, lib) == Success(u);
    assert VideoIdOf(u, lib) == Some(id);
  }

  /** A query `name=value` with plain text on both sides is the single pair it spells. */
  lemma ParseQslSingle(name: string, value: string, lib: UrlLib)
    requires Avoids(name, "&=+%") && Avoids(value, "&+%") && value != ""
    ensures ParseQsl(name + "=" + value, lib) == [(name, value)]
  {
    var qs := name + "=" + value;
    AvoidsChar(name, "&=+%", '=');
    PartitionFirst(name, '=', value);
    assert Avoids("=", "&+%");
    AvoidsFewer(name, "&=+%", "&+%");
    AvoidsConcat(name, "=", "&+%");
    AvoidsConcat(name + "=", value, "&+%");
    AvoidsChar(qs, "&+%", '&');
    ContainsChar(qs, '&');
    assert Split(qs, "&") == [qs];
    AvoidsChar(name, "&+%", '%');
    AvoidsChar(value, "&+%", '%');
    AvoidsChar(name, "&+%", '+');
    AvoidsChar(value, "&+%", '+');
    assert PlusToSpace(name) == name;
    assert PlusToSpace(value) == value;
  }

  /** The query "v=" + id with a plain, non-empty id. */
  lemma VQuery(id: string, lib: UrlLib)
    requires IsIdText(id) && id != ""
    ensures Avoids("v=" + id, "#\t\r\n")
    ensures QueryValue("v=" + id, "v", lib) == Some(id)
  {
    IdAvoids(id);
    AvoidsFewer(id, "/?#;&=+%\t\r\n", "#\t\r\n");
    AvoidsFewer(id, "/?#;&=+%\t\r\n", "&+%");
    assert Avoids("v=", "#\t\r\n");
    AvoidsConcat("v=", id, "#\t\r\n");
    assert Avoids("v", "&=+%");
    ParseQslSingle("v", id, lib);
    assert "v" + "=" + id == "v=" + id;
    QueryValueIsFirst("v=" + id, "v", lib);
  }

  lemma WatchPath()
    ensures Avoids("/watch", "?#\t\r\n") && ';' !in "/watch"
  {
  }

  /** On any other host, a "/watch" link gives the value of its `v` parameter. */
  lemma WatchLinkId(scheme: string, host: string, id: string, lib: UrlLib)
    requires IsSchemeName(scheme) && PlainHost(host) && AsciiLower(host) != "youtu.be"
    requires IsIdText(id) && id != ""
    ensures ExtractVideoId(scheme + "://" + host + "/watch?v=" + id, lib) == Success(Some(id))
  {
    var query := Some("v=" + id);
    var url := scheme + "://" + host + "/watch" + QueryTail(query);
    assert scheme + "://" + host + "/watch?v=" + id == url;
    VQuery(id, lib);
    PlainHostFacts(host, lib);
    WatchPath();
    UrlParseOfParts(scheme, host, "/watch", query, lib);
    var u := ParsedUrl(AsciiLower(scheme), host, "/watch", "", "v=" + id, "");
    assert UrlParse(url, lib) == Success(u);
    assert VideoIdOf(u, lib) == Some(id);
  }

  lemma EmptyVQuery(lib: UrlLib)
    ensures QueryValue("v=", "v", lib) == None
  {
    ContainsChar("v=", '&');
    assert Split("v=", "&") == ["v="];
    PartitionFirst("v", '=', "");
    assert After("v=", "=") == "";
  }

  /** A "/watch" link with an empty `v` gives None: `parse_qs` drops blank values. */
  lemma WatchLinkEmptyValue(scheme: string, host: string, lib: UrlLib)
    requires IsSchemeName(scheme) && PlainHost(host) && AsciiLower(host) != "youtu.be"
    ensures ExtractVideoId(scheme + "://" + host + "/watch?v=", lib) == Success(None)
  {
    var query := Some("v=");
    var url := scheme + "://" + host + "/watch" + QueryTail(query);
    assert scheme + "://" + host + "/watch?v=" == url;
    PlainHostFacts(host, lib);
    WatchPath();
    assert Avoids("v=", "#\t\r\n");
    UrlParseOfParts(scheme, host, "/watch", query, lib);
    var u := ParsedUrl(AsciiLower(scheme), host, "/watch", "", "v=", "");
    assert UrlParse(url, lib) == Success(u);
    EmptyVQuery(lib);
    assert VideoIdOf(u, lib) == None;
  }

  /** On any other host, an embed link gives the path segment after "/embed/". */
  lemma EmbedLinkId(scheme: string, host: string, id: string, lib: UrlLib)
    requires IsSchemeName(scheme) && PlainHost(host) && AsciiLower(host) != "youtu.be"
    requires IsIdText(id)
    ensures ExtractVideoId(scheme + "://" + host + "/embed/" + id, lib) == Success(Some(id))
  {
    var path := "/embed/" + id;
    var url := scheme + "://" + host + path + QueryTail(None);
    assert scheme + "://" + host + "/embed/" + id == url;
    IdPath("/embed/", id);
    PlainHostFacts(host, lib);
    UrlParseOfParts(scheme, host, path, None, lib);
    var u := ParsedUrl(AsciiLower(scheme), host, path, "", "", "");
    assert UrlParse(url, lib) == Success(u);
    assert path[..7] == "/embed/" && path[7..] == id;
    EmbedSplit(path);
    IdAvoids(id);
    AvoidsChar(id, "/?#;&=+%\t\r\n", '/');
    ContainsChar(id, '/');
    Partition(id, "/");
    assert EmbedSegment(path) == id;
    assert VideoIdOf(u, lib) == Some(id);
  }
}
