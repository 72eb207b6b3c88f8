/**
 * Where the cache's database lives: `build_database_url`, with the three
 * environment variables it reads passed in as optional strings.
 */
module Db {
  import opened Wrappers
  import opened PyStrings

  const DefaultUrl := "sqlite:///teller.db"
  const Driver := "postgresql+psycopg://"

  /** The first position at which `pattern` occurs in `s`, or `|s|`. */
  function Find(s: string, pattern: string): (i: nat)
    ensures i <= |s|
    ensures i < |s| ==> StartsWith(s[i..], pattern)
    ensures forall j :: 0 <= j < i ==> !StartsWith(s[j..], pattern)
    decreases |s|
  {
    if s == [] then 0
    else if StartsWith(s, pattern) then 0
    else
      var i := Find(s[1..], pattern);
      assert forall j :: 1 <= j < 1 + i ==> s[j..] == s[1..][j - 1..];
      1 + i
  }

  /** `s.replace(pattern, replacement, 1)`: the first occurrence of a non-empty
      `pattern` replaced by `replacement`. */
  function ReplaceFirst(s: string, pattern: string, replacement: string): (r: string)
    requires pattern != []
  {
    var i := Find(s, pattern);
    if i < |s| then s[..i] + replacement + s[i + |pattern|..] else s
  }

  /** When `s` starts with `pattern`, the first occurrence is the prefix. */
  lemma ReplacePrefix(s: string, pattern: string, replacement: string)
    requires pattern != [] && StartsWith(s, pattern)
    ensures ReplaceFirst(s, pattern, replacement) == replacement + s[|pattern|..]
  {
    assert s[0..] == s;
  }

  /** The scheme rewrite for the psycopg driver: "postgres://" and
      "postgresql://" become "postgresql+psycopg://"; any other URL is kept. */
  function Normalized(url: string): (r: string)
    ensures StartsWith(url, "postgres://") ==> r == Driver + url[11..]
    ensures StartsWith(url, "postgresql://") ==> r == Driver + url[13..]
    ensures !StartsWith(url, "postgres://") && !StartsWith(url, "postgresql://") ==> r == url
  {
    if StartsWith(url, "postgres://") then
      ReplacePrefix(url, "postgres://", Driver);
      assert url[..11][8] == ':' && "postgresql://"[8] == 'q';
      ReplaceFirst(url, "postgres://", Driver)
    else if StartsWith(url, "postgresql://") then
      ReplacePrefix(url, "postgresql://", Driver);
      ReplaceFirst(url, "postgresql://", Driver)
    else url
  }

  /** The `sslmode` query parameter, joined with "?" or, when the URL has a
      query already, with "&". */
  function WithSslMode(url: string, sslmode: string): (r: string)
    ensures !Contains(url, '?') ==> r == url + "?sslmode=" + sslmode
    ensures Contains(url, '?') ==> r == url + "&sslmode=" + sslmode
  {
    var connector := if !Contains(url, '?') then "?" else "&";
    url + connector + "sslmode=" + sslmode
  }

  /** `build_database_url`: a non-empty internal URL, normalised, with a
      non-empty sslmode appended; otherwise `DATABASE_URL` when it is set,
      even to "", and the local SQLite file when it is not. */
  function BuildDatabaseUrl(internalUrl: Option<string>, sslmode: Option<string>, databaseUrl: Option<string>): (r: string)
    ensures (internalUrl.None? || internalUrl.value == []) && databaseUrl.Some? ==> r == databaseUrl.value
    ensures (internalUrl.None? || internalUrl.value == []) && databaseUrl.None? ==> r == DefaultUrl
    ensures internalUrl.Some? && internalUrl.value != [] && (sslmode.None? || sslmode.value == []) ==>
      r == Normalized(internalUrl.value)
    ensures internalUrl.Some? && internalUrl.value != [] && sslmode.Some? && sslmode.value != [] ==>
      r == WithSslMode(Normalized(internalUrl.value), sslmode.value)
  {
    if internalUrl.Some? && internalUrl.value != [] then
      var url := Normalized(internalUrl.value);
      if sslmode.Some? && sslmode.value != [] then WithSslMode(url, sslmode.value) else url
    else if databaseUrl.Some? then databaseUrl.value
    else DefaultUrl
  }

  /** Normalising a normalised URL changes nothing: the driver scheme is
      neither of the two it rewrites. */
  lemma NormalizedIdempotent(url: string)
    ensures Normalized(Normalized(url)) == Normalized(url)
  {
    var r := Normalized(url);
    if StartsWith(url, "postgres://") {
      assert StartsWith(r, Driver) by { Prefixed(Driver, url[11..]); }
      DriverKept(r);
    } else if StartsWith(url, "postgresql://") {
      assert StartsWith(r, Driver) by { Prefixed(Driver, url[13..]); }
      DriverKept(r);
    }
  }

  /** A URL that already names the driver is neither rewritten scheme. */
  lemma DriverKept(r: string)
    requires StartsWith(r, Driver)
    ensures Normalized(r) == r
  {
    assert r[..|Driver|][10] == '+';
    assert r[..11][10] == '+' && r[..13][10] == '+';
  }

  lemma Prefixed(p: string, rest: string)
    ensures StartsWith(p + rest, p)
  {
    assert (p + rest)[..|p|] == p;
  }

  /** The rewrite keeps everything after the scheme: user, password, host,
      port, database and query. */
  lemma NormalizedKeepsRest(rest: string)
    ensures Normalized("postgres://" + rest) == Driver + rest
    ensures Normalized("postgresql://" + rest) == Driver + rest
  {
    var a, b := "postgres://" + rest, "postgresql://" + rest;
    assert a[..11] == "postgres://" && a[11..] == rest;
    assert b[..13] == "postgresql://" && b[13..] == rest;
  }

  /** Other schemes are passed through untouched. */
  lemma NormalizedOtherScheme(rest: string)
    ensures Normalized("sqlite:///" + rest) == "sqlite:///" + rest
    ensures Normalized("mysql://" + rest) == "mysql://" + rest
  {
    var a, b := "sqlite:///" + rest, "mysql://" + rest;
    assert a[0] == 's' && b[0] == 'm';
    FirstDiffers(a, "postgres://");
    FirstDiffers(a, "postgresql://");
    FirstDiffers(b, "postgres://");
    FirstDiffers(b, "postgresql://");
  }

  /** A string whose first character differs from the pattern's does not
      start with it. */
  lemma FirstDiffers(s: string, p: string)
    requires s != [] && p != [] && s[0] != p[0]
    ensures !StartsWith(s, p)
  {
    if |p| <= |s| {
      assert s[..|p|][0] == s[0];
    }
  }

  /** The sslmode parameter is the last thing in the URL, and exactly one
      connector separates it from a URL with no query. */
  lemma SslModeLast(url: string, sslmode: string)
    ensures var r := WithSslMode(url, sslmode);
      r[..|url|] == url && r[|url| + 1..] == "sslmode=" + sslmode
      && (r[|url|] == '?' <==> !Contains(url, '?'))
  {
  }
}
