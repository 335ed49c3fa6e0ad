/**
 * The two pure helpers of the configuration package
 * (internal/config/config.go): `CleanDatabaseID`, which turns a pasted
 * knowledge-base URL into the database identifier, and `Validate`, which
 * reports the first missing setting. `url.Parse` is modelled by the path
 * component of a URI (section 3.3 of RFC 3986) as Go's `net/url` splits it.
 */
module Config {
  import opened Wrappers
  import opened GoStrings

  const NetrcMachineName := "notion.so"
  const ConfigFileName := "productivity.go.toml"

  /** The settings `Validate` checks. */
  datatype Settings = Settings(notionAPIKey: string, notionDatabaseID: string, notionWeeksDBID: string)

  /** `Validate`: None when every setting is present, else the message for the first missing one. */
  function Validate(c: Settings): (r: Option<string>)
    ensures r.None? <==> c.notionAPIKey != "" && c.notionDatabaseID != "" && c.notionWeeksDBID != ""
    ensures c.notionAPIKey == "" ==>
      r == Some("Notion API Key not found in .netrc (machine: " + NetrcMachineName + ")")
    ensures c.notionAPIKey != "" && c.notionDatabaseID == "" ==>
      r == Some("Notion Database ID not found in " + ConfigFileName)
    ensures c.notionAPIKey != "" && c.notionDatabaseID != "" && c.notionWeeksDBID == "" ==>
      r == Some("Notion Weeks Database ID not found in " + ConfigFileName)
  {
    if c.notionAPIKey == "" then Some("Notion API Key not found in .netrc (machine: " + NetrcMachineName + ")")
    else if c.notionDatabaseID == "" then Some("Notion Database ID not found in " + ConfigFileName)
    else if c.notionWeeksDBID == "" then Some("Notion Weeks Database ID not found in " + ConfigFileName)
    else None
  }

  /** The part of `s` before the first `c` (all of `s` without one), as `strings.Cut` leaves it. */
  function Before(s: string, c: char): (r: string)
    ensures HasPrefix(s, r) && c !in r
    ensures c in s ==> |r| < |s| && s[|r|] == c
    ensures c !in s ==> r == s
  {
    match IndexOf(s, c)
    case Some(i) => s[..i]
    case None => s
  }

  predicate IsLetter(c: char) {
    'a' <= c <= 'z' || 'A' <= c <= 'Z'
  }

  /** How `net/url` reads a leading scheme. */
  datatype SchemeSplit = NoScheme | Scheme(name: string, rest: string) | MissingScheme

  /**
   * Go's `getScheme` from offset `i`: letters, then letters, digits, `+`,
   * `-` or `.`, ended by `:`. A `:` first is an error; any other character
   * first, or a digit first, means there is no scheme.
   */
  function ScanScheme(s: string, i: nat): (r: SchemeSplit)
    requires i <= |s|
    requires forall k :: 0 <= k < i ==> s[k] != ':'
    ensures r.Scheme? ==> |r.name| >= 1 && s == r.name + ":" + r.rest && ':' !in r.name
    decreases |s| - i
  {
    if i == |s| then NoScheme
    else
      var c := s[i];
      if IsLetter(c) then ScanScheme(s, i + 1)
      else if IsDigit(c) || c == '+' || c == '-' || c == '.' then
        if i == 0 then NoScheme else ScanScheme(s, i + 1)
      else if c == ':' then
        if i == 0 then MissingScheme
        else
          assert s == s[..i] + ":" + s[i + 1..];
          assert forall k :: 0 <= k < i ==> s[..i][k] == s[k];
          Scheme(s[..i], s[i + 1..])
      else NoScheme
  }

  /** A run of letters ended by `:` is read as the scheme. */
  lemma {:induction false} ScanLetters(s: string, i: nat, j: nat)
    requires i <= j < |s| && 0 < j && s[j] == ':'
    requires forall k :: i <= k < j ==> IsLetter(s[k])
    requires forall k :: 0 <= k < i ==> s[k] != ':'
    ensures ScanScheme(s, i) == Scheme(s[..j], s[j + 1..])
    decreases j - i
  {
    if i < j {
      ScanLetters(s, i + 1, j);
    }
  }

  /**
   * The path `url.Parse` reports, or None where it reports an error (a
   * leading `:`, or a colon in the first segment of a relative reference):
   * the fragment and the query are cut off; an authority after `//` runs
   * up to the next `/`; a scheme followed by anything but `/` is an opaque
   * URI without a path.
   */
  function UrlPath(raw: string): (r: Option<string>)
    ensures r.Some? ==> '?' !in r.value && '#' !in r.value
  {
    var u := Before(raw, '#');
    match ScanScheme(u, 0)
    case MissingScheme => None
    case Scheme(_, rest) =>
      var q := Before(rest, '?');
      var p := SchemePath(q);
      assert HasSuffix(u, rest);
      SuffixLacks(u, rest, '#');
      PrefixLacks(rest, q, '#');
      SuffixLacks(q, p, '#');
      SuffixLacks(q, p, '?');
      Some(p)
    case NoScheme =>
      var rest := Before(u, '?');
      if !HasPrefix(rest, "/") && ':' in Before(rest, '/') then None
      else if HasPrefix(rest, "//") && !HasPrefix(rest, "///") then Some(AfterAuthority(rest[2..]))
      else Some(rest)
  }

  /** The path of the text after a scheme's `:`: after an authority, as is, or none when opaque. */
  function SchemePath(rest: string): (p: string)
    ensures HasSuffix(rest, p)
  {
    if !HasPrefix(rest, "/") then ""
    else if HasPrefix(rest, "//") then
      var p := AfterAuthority(rest[2..]);
      SuffixOfTail(rest, 2, p);
      p
    else rest
  }

  /** What follows the authority: from its first `/` on, or nothing. */
  function AfterAuthority(s: string): (p: string)
    ensures HasSuffix(s, p)
    ensures p != "" ==> p[0] == '/'
  {
    match IndexOf(s, '/')
    case Some(i) => s[i..]
    case None => ""
  }

  /** Text after `https:`, free of `#`, is read with the `https` scheme. */
  lemma UrlPathWithHttps(rest: string)
    requires '#' !in rest
    ensures UrlPath("https:" + rest) == Some(SchemePath(Before(rest, '?')))
  {
    var pre := "https:";
    var raw := pre + rest;
    assert '#' !in pre;
    assert '#' !in raw;
    forall k | 0 <= k < 5 ensures IsLetter(raw[k]) && raw[k] != ':' {
      assert raw[k] == pre[k];
    }
    assert raw[5] == ':';
    ScanLetters(raw, 0, 5);
    assert raw[6..] == rest;
  }

  /** The query starts at the first `?`, so a `?`-free text before it is all that is kept. */
  lemma QueryCut(body: string, tail: string)
    requires '?' !in body && (tail == [] || tail[0] == '?')
    ensures Before(body + tail, '?') == body
  {
    var rest := body + tail;
    if tail == [] {
      assert rest == body;
    } else {
      assert rest[..|body|] == body;
      IndexOfAt(rest, '?', |body|);
    }
  }

  /** After `//`, an authority free of `/` is skipped and the path kept. */
  lemma AuthorityPath(host: string, path: string)
    requires '/' !in host && path != [] && path[0] == '/'
    ensures SchemePath("//" + host + path) == path
  {
    var after := host + path;
    var body := "//" + after;
    assert body == "//" + host + path;
    assert body[..1] == "/" && body[..2] == "//";
    assert body[2..] == after;
    assert after[..|host|] == host;
    IndexOfAt(after, '/', |host|);
    assert after[|host|..] == path;
  }

  /**
   * For `https://host/path?query` the path is `/path`: the authority holds
   * no `/`, and the query, if any, starts at the first `?`.
   */
  lemma UrlPathHttps(host: string, path: string, tail: string)
    requires '/' !in host && '?' !in host && '#' !in host
    requires path != [] && path[0] == '/' && '?' !in path && '#' !in path
    requires (tail == [] || tail[0] == '?') && '#' !in tail
    ensures UrlPath("https://" + host + path + tail) == Some(path)
  {
    var body := "//" + host + path;
    assert "https://" + host + path + tail == "https:" + (body + tail);
    assert '?' !in body && '#' !in body + tail;
    UrlPathWithHttps(body + tail);
    QueryCut(body, tail);
    AuthorityPath(host, path);
  }

  /** The pasted text with a scheme in front when it does not start with "http". */
  function WithScheme(id: string): (u: string)
    ensures HasPrefix(u, "http")
    ensures HasPrefix(id, "http") ==> u == id
  {
    if HasPrefix(id, "http") then id else "https://" + id
  }

  /**
   * The identifier in a URL's last path segment: a 36-character dashed UUID
   * whole, otherwise the last 32 characters of a longer segment (a
   * `Name-ID` page name) or a shorter segment as it is.
   */
  function IdFromSegment(seg: string): (r: string)
    ensures |seg| == 36 ==> r == seg
    ensures |seg| >= 32 && |seg| != 36 ==> |r| == 32 && HasSuffix(seg, r)
    ensures |seg| < 32 ==> r == seg
    ensures HasSuffix(seg, r)
  {
    if |seg| == 36 then seg
    else if |seg| >= 32 then seg[|seg| - 32..]
    else seg
  }

  /** The last `/`-separated segment of a path, one trailing `/` ignored. */
  function LastSegment(path: string): (seg: string)
    ensures '/' !in seg
    ensures HasSuffix(TrimSuffix(path, "/"), seg)
  {
    var parts := Split(TrimSuffix(path, "/"), '/');
    SplitLast(TrimSuffix(path, "/"), '/');
    parts[|parts| - 1]
  }

  /**
   * The identifier taken from a URL path: from its last segment, so free
   * of `/`, at most 32 characters unless it is a 36-character UUID, and
   * made of the path's characters.
   */
  function IdFromPath(path: string): (r: string)
    ensures '/' !in r
    ensures |r| == 36 || |r| <= 32
    ensures forall c :: c in r ==> c in path
  {
    var seg := LastSegment(path);
    var r := IdFromSegment(seg);
    assert HasSuffix(seg, r);
    forall c | c in r ensures c in path {
      SuffixChars(seg, r, c);
      SuffixChars(TrimSuffix(path, "/"), seg, c);
      PrefixChars(path, TrimSuffix(path, "/"), c);
    }
    r
  }

  /** `CleanDatabaseID`. */
  function CleanDatabaseID(id: string): (r: string)
    ensures !Contains(id, "notion.so") && '?' !in id ==> r == id
    ensures !Contains(id, "notion.so") && '?' in id ==> HasPrefix(id, r) && '?' !in r && id[|r|] == '?'
    ensures Contains(id, "notion.so") && UrlPath(WithScheme(id)).None? ==> r == WithScheme(id)
    ensures Contains(id, "notion.so") && UrlPath(WithScheme(id)).Some? ==>
      r == IdFromPath(UrlPath(WithScheme(id)).value) && '?' !in r && '#' !in r
  {
    if Contains(id, "notion.so") then
      var u := WithScheme(id);
      match UrlPath(u)
      case None => u
      case Some(path) => IdFromPath(path)
    else
      Before(id, '?')
  }

  /** Without the domain in it, cleaning twice is cleaning once. */
  lemma CleanIdempotentWithoutDomain(id: string)
    requires !Contains(id, "notion.so")
    ensures CleanDatabaseID(CleanDatabaseID(id)) == CleanDatabaseID(id)
  {
    var r := CleanDatabaseID(id);
    PrefixKeepsAbsence(id, |r|, "notion.so");
    assert id[..|r|] == r;
  }

  /** A URL pasted without its scheme cleans as the https form does. */
  lemma CleanSchemeLess(id: string)
    requires Contains(id, "notion.so") && !HasPrefix(id, "http")
    ensures CleanDatabaseID(id) == CleanDatabaseID("https://" + id)
  {
    ContainsPrepend("https://", id, "notion.so");
    assert ("https://" + id)[..4] == "http";
  }

  // The identifier the package's tests use: 32 lower-case hexadecimal digits.
  const SampleID := "a0e3e448792a4aa59f0d4576333457e9"

  predicate IsHexDigit(c: char) {
    '0' <= c <= '9' || 'a' <= c <= 'f'
  }

  lemma SampleIDHex()
    ensures |SampleID| == 32
    ensures forall k :: 0 <= k < |SampleID| ==> IsHexDigit(SampleID[k])
  {
  }

  /** A character that is no hexadecimal digit does not occur in the identifier. */
  lemma SampleIDLacks(c: char)
    requires !IsHexDigit(c)
    ensures c !in SampleID
  {
    SampleIDHex();
  }

  /** A raw identifier comes back unchanged. */
  lemma CleanRawID()
    ensures CleanDatabaseID(SampleID) == SampleID
  {
    SampleIDLacks('n');
    SampleIDLacks('?');
    LacksFirstChar(SampleID, "notion.so");
  }

  /** An identifier followed by query text loses the query. */
  lemma CleanIDWithQuery()
    ensures CleanDatabaseID(SampleID + "?v=123") == SampleID
  {
    SampleIDHex();
    SampleIDLacks('n');
    SampleIDLacks('?');
    var id := SampleID + "?v=123";
    assert 'n' !in "?v=123";
    LacksFirstChar(id, "notion.so");
    assert id[..32] == SampleID;
    IndexOfAt(id, '?', 32);
  }

  /** An https URL whose host names the domain cleans to the identifier of its path. */
  lemma CleanHttps(host: string, path: string, tail: string)
    requires '/' !in host && '?' !in host && '#' !in host && Contains(host, "notion.so")
    requires path != [] && path[0] == '/' && '?' !in path && '#' !in path
    requires (tail == [] || tail[0] == '?') && '#' !in tail
    ensures CleanDatabaseID("https://" + host + path + tail) == IdFromPath(path)
  {
    var u := "https://" + host + path + tail;
    ContainsPrepend("https://", host, "notion.so");
    ContainsAppend("https://" + host, path + tail, "notion.so");
    assert u == ("https://" + host) + (path + tail);
    assert u[..4] == "http";
    UrlPathHttps(host, path, tail);
  }

  /** The identifier of a path whose last segment follows a `/` and lacks one. */
  lemma IdFromLastSegment(pre: string, seg: string)
    requires '/' !in seg && seg != []
    ensures IdFromPath(pre + "/" + seg) == IdFromSegment(seg)
  {
    var path := pre + ['/'] + seg;
    assert pre + "/" + seg == path;
    assert path[|path| - 1] == seg[|seg| - 1];
    assert path[|path| - 1..] == [seg[|seg| - 1]];
    assert TrimSuffix(path, "/") == path;
    SplitLastSegment(pre, seg, '/');
    assert LastSegment(path) == seg;
  }

  // The host, the view query and the identifier of the package's tests.
  const NotionHost := "www.notion.so"
  const ViewQuery := "?v=f291b0e4b2f64b7d818fe996318ecdf1"

  lemma NotionHostPlain()
    ensures '/' !in NotionHost && '?' !in NotionHost && '#' !in NotionHost
    ensures Contains(NotionHost, "notion.so")
  {
    assert OccursAt(NotionHost, "notion.so", 4);
  }

  lemma SampleIDPlain()
    ensures '/' !in SampleID && '?' !in SampleID && '#' !in SampleID
  {
    SampleIDLacks('/');
    SampleIDLacks('?');
    SampleIDLacks('#');
  }

  /** A full URL with a user segment and a view query gives the identifier. */
  lemma CleanFullURLWithQuery()
    ensures CleanDatabaseID("https://" + NotionHost + "/username/" + SampleID + ViewQuery) == SampleID
  {
    NotionHostPlain();
    SampleIDPlain();
    var path := "/username" + "/" + SampleID;
    assert '#' !in ViewQuery && ViewQuery[0] == '?';
    assert '?' !in "/username" && '#' !in "/username";
    assert "https://" + NotionHost + "/username/" + SampleID + ViewQuery == "https://" + NotionHost + path + ViewQuery;
    CleanHttps(NotionHost, path, ViewQuery);
    IdFromLastSegment("/username", SampleID);
  }

  /** A page URL whose last segment is a name followed by a 32-character identifier. */
  lemma CleanPageURL(host: string, name: string, id: string)
    requires '/' !in host && '?' !in host && '#' !in host && Contains(host, "notion.so")
    requires '/' !in name && '?' !in name && '#' !in name && |name| != 4
    requires '/' !in id && '?' !in id && '#' !in id && |id| == 32
    ensures CleanDatabaseID("https://" + host + "/" + name + id) == id
  {
    var seg := name + id;
    var path := "" + "/" + seg;
    assert "https://" + host + "/" + name + id == "https://" + host + path + "";
    CleanHttps(host, path, "");
    IdFromLastSegment("", seg);
    assert seg[|seg| - 32..] == id;
  }

  /** A full URL whose last segment is a page name ending in the identifier gives the identifier. */
  lemma CleanFullURLWithName()
    ensures CleanDatabaseID("https://" + NotionHost + "/" + "My-Reading-List-" + SampleID) == SampleID
  {
    NotionHostPlain();
    SampleIDPlain();
    SampleIDHex();
    assert '/' !in "My-Reading-List-" && '?' !in "My-Reading-List-" && '#' !in "My-Reading-List-";
    CleanPageURL(NotionHost, "My-Reading-List-", SampleID);
  }
}
