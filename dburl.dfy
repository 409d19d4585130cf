/**
 * Connection settings the maintenance scripts read out of a Postgres URL
 * when SQLAlchemy is not installed: Python's `urlparse`, then the authority
 * split by hand (section 3.2 of RFC 3986: `userinfo@host:port`).
 */
module DbUrl {
  import opened Text
  import opened Unicode
  import LexConfig

  // -------------------------------------------------------- string search

  /** No character of `s` is in `cs`. */
  predicate NoneOf(s: string, cs: set<char>) { forall k :: 0 <= k < |s| ==> s[k] !in cs }

  /** Index of the first character of `s` in `cs`, or `|s|` when there is none. */
  function FindAny(s: string, cs: set<char>): (r: nat)
    ensures r <= |s| && (r < |s| ==> s[r] in cs) && forall k :: 0 <= k < r ==> s[k] !in cs
    decreases |s|
  {
    if s == [] then 0
    else if s[0] in cs then 0
    else 1 + FindAny(s[1..], cs)
  }

  /** The first match is the only position that matches with none before it. */
  lemma FindAnyUnique(s: string, cs: set<char>, r: nat)
    requires r <= |s| && (r < |s| ==> s[r] in cs) && forall k :: 0 <= k < r ==> s[k] !in cs
    ensures FindAny(s, cs) == r
  {
  }

  /** Searching past a stretch that holds no match. */
  lemma FindAnyAfter(a: string, b: string, cs: set<char>)
    requires NoneOf(a, cs)
    ensures FindAny(a + b, cs) == |a| + FindAny(b, cs)
  {
    var f := FindAny(b, cs);
    var s := a + b;
    assert forall k :: |a| <= k < |a| + f ==> s[k] == b[k - |a|];
    FindAnyUnique(s, cs, |a| + f);
  }

  /** `s.partition(c)`: the text before the first `c` and after it; `(s, "")` without one. */
  function Partition(s: string, c: char): (string, string)
  {
    var i := FindAny(s, {c});
    if i == |s| then (s, "") else (s[..i], s[i + 1..])
  }

  /** Index of the last `c` in `s`. */
  function FindLast(s: string, c: char): (r: Option<nat>)
    ensures r.Some? ==> r.value < |s| && s[r.value] == c && c !in s[r.value + 1..]
    ensures r.None? ==> c !in s
    decreases |s|
  {
    if s == [] then None
    else if s[|s| - 1] == c then Some(|s| - 1)
    else
      var r := FindLast(s[..|s| - 1], c);
      assert s == s[..|s| - 1] + [s[|s| - 1]];
      r
  }

  /** `s.rpartition(c)`: the text before the last `c` and after it; `("", s)` without one. */
  function RPartition(s: string, c: char): (string, string)
  {
    match FindLast(s, c)
    case None => ("", s)
    case Some(i) => (s[..i], s[i + 1..])
  }

  lemma PartitionAt(a: string, c: char, b: string)
    requires c !in a
    ensures Partition(a + [c] + b, c) == (a, b)
  {
    FindAnyAfter(a, [c] + b, {c});
    assert a + [c] + b == a + ([c] + b);
  }

  lemma PartitionNone(s: string, c: char)
    requires c !in s
    ensures Partition(s, c) == (s, "")
  {
    FindAnyUnique(s, {c}, |s|);
  }

  /** The last `c` is the one no later `c` follows. */
  lemma FindLastAt(a: string, c: char, b: string)
    requires c !in b
    ensures FindLast(a + [c] + b, c) == Some(|a|)
  {
    var s := a + [c] + b;
    assert s[|a|] == c;
    var r := FindLast(s, c);
    assert r.Some?;
    assert s[|a| + 1..] == b;
    forall k | |a| < k < |s| ensures s[k] != c {
      assert s[k] == b[k - |a| - 1];
    }
    forall k | r.value < k < |s| ensures s[k] != c {
      assert s[k] == s[r.value + 1..][k - r.value - 1];
    }
  }

  lemma RPartitionAt(a: string, c: char, b: string)
    requires c !in b
    ensures RPartition(a + [c] + b, c) == (a, b)
  {
    FindLastAt(a, c, b);
    var s := a + [c] + b;
    assert s[..|a|] == a && s[|a| + 1..] == b;
  }

  lemma RPartitionNone(s: string, c: char)
    requires c !in s
    ensures RPartition(s, c) == ("", s)
  {
  }

  // ------------------------------------------------------------- urlparse

  predicate IsAlpha(c: char) { IsLowerAlpha(c) || IsUpperAlpha(c) }

  predicate IsSchemeChar(c: char) { IsAlpha(c) || IsDigit(c) || c == '+' || c == '-' || c == '.' }

  predicate AllSchemeChars(s: string) { forall k :: 0 <= k < |s| ==> IsSchemeChar(s[k]) }

  /** The parts of a URL that the scripts read. */
  datatype UrlParts = UrlParts(scheme: string, netloc: string, path: string)

  /**
   * The scheme of `urlparse`: the text before the first `:` when it starts
   * with a letter and holds only scheme characters, lowercased; the rest of
   * the URL follows.
   */
  function SplitScheme(url: string): (string, string)
  {
    var i := FindAny(url, {':'});
    if 0 < i < |url| && IsAlpha(url[0]) && AllSchemeChars(url[..i]) then (Lower(url[..i]), url[i + 1..])
    else ("", url)
  }

  /** The authority after `//`, up to the first `/`, `?` or `#`, and what follows it. */
  function SplitNetloc(rest: string): (string, string)
  {
    if IsPrefix("//", rest) then
      var i := FindAny(rest[2..], {'/', '?', '#'});
      (rest[2..][..i], rest[2..][i..])
    else ("", rest)
  }

  /** The path: everything up to the first `?` or `#`. */
  function PathOf(after: string): string
  {
    after[..FindAny(after, {'?', '#'})]
  }

  /**
   * `urllib.parse.urlparse(url)` restricted to scheme, authority and path.
   * An authority with one bracket but not the other is refused (`None`: the
   * call raises `ValueError`).
   */
  function UrlParse(url: string): Option<UrlParts>
  {
    var (scheme, rest) := SplitScheme(url);
    var (netloc, after) := SplitNetloc(rest);
    if ('[' in netloc) != (']' in netloc) then None
    else Some(UrlParts(scheme, netloc, PathOf(after)))
  }

  lemma SplitSchemeOf(scheme: string, rest: string)
    requires scheme != [] && IsAlpha(scheme[0]) && AllSchemeChars(scheme)
    ensures SplitScheme(scheme + ":" + rest) == (Lower(scheme), rest)
  {
    var url := scheme + ":" + rest;
    FindAnyAfter(scheme, ":" + rest, {':'});
    assert url == scheme + (":" + rest);
    assert url[..|scheme|] == scheme && url[|scheme| + 1..] == rest;
  }

  lemma SplitNetlocOf(netloc: string, after: string)
    requires NoneOf(netloc, {'/', '?', '#'})
    requires after == [] || after[0] in {'/', '?', '#'}
    ensures SplitNetloc("//" + netloc + after) == (netloc, after)
  {
    var rest := "//" + netloc + after;
    assert rest[2..] == netloc + after;
    FindAnyAfter(netloc, after, {'/', '?', '#'});
    FindAnyUnique(after, {'/', '?', '#'}, 0);
    assert (netloc + after)[..|netloc|] == netloc && (netloc + after)[|netloc|..] == after;
  }

  lemma PathOfSpec(path: string, tail: string)
    requires NoneOf(path, {'?', '#'})
    requires tail == [] || tail[0] in {'?', '#'}
    ensures PathOf(path + tail) == path
  {
    FindAnyAfter(path, tail, {'?', '#'});
    FindAnyUnique(tail, {'?', '#'}, 0);
    assert (path + tail)[..|path|] == path;
  }

  /**
   * A URL assembled from a scheme, an authority without `/`, `?`, `#` or
   * brackets, a path without `?` or `#`, and a query or fragment parses
   * back into those parts.
   */
  lemma UrlParseOf(scheme: string, netloc: string, path: string, tail: string)
    requires scheme != [] && IsAlpha(scheme[0]) && AllSchemeChars(scheme)
    requires NoneOf(netloc, {'/', '?', '#', '[', ']'})
    requires path == [] || path[0] == '/'
    requires NoneOf(path, {'?', '#'})
    requires tail == [] || tail[0] == '?' || tail[0] == '#'
    ensures UrlParse(scheme + "://" + netloc + path + tail) == Some(UrlParts(Lower(scheme), netloc, path))
  {
    var rest := "//" + netloc + (path + tail);
    assert scheme + "://" + netloc + path + tail == scheme + ":" + rest;
    SplitSchemeOf(scheme, rest);
    assert path + tail == [] || (path + tail)[0] in {'/', '?', '#'};
    SplitNetlocOf(netloc, path + tail);
    PathOfSpec(path, tail);
    assert '[' !in netloc && ']' !in netloc;
  }

  // --------------------------------------------------------- percent codes

  /** `%` as a byte. */
  const Percent: byte := 0x25

  /**
   * `urllib.parse.unquote_to_bytes` on bytes: `%` and two hex digits is the
   * byte they spell; every other byte, a lone `%` included, stays.
   */
  function PercentBytes(bs: seq<byte>): (r: seq<byte>)
    ensures |r| <= |bs|
    decreases |bs|
  {
    if bs == [] then []
    else if |bs| >= 3 && bs[0] == Percent
            && HexDigit(bs[1] as int as char).Some? && HexDigit(bs[2] as int as char).Some? then
      [(16 * HexDigit(bs[1] as int as char).value + HexDigit(bs[2] as int as char).value) as byte]
      + PercentBytes(bs[3..])
    else [bs[0]] + PercentBytes(bs[1..])
  }

  /** `urllib.parse.unquote_to_bytes(s)`: the text is UTF-8 encoded first. */
  function UnquoteToBytes(s: string): seq<byte> { PercentBytes(Utf8(s)) }

  /** `urllib.parse.unquote_to_bytes(s).decode("utf-8", "replace")`, as the password is read. */
  function UnquoteText(s: string): string { DecodeUtf8(UnquoteToBytes(s)) }

  /** The length of the run of ASCII characters `s` starts with. */
  function AsciiRun(s: string): (k: nat)
    ensures k <= |s| && forall j :: 0 <= j < k ==> s[j] as int < 0x80
    ensures k < |s| ==> s[k] as int >= 0x80
    decreases |s|
  {
    if s == [] || s[0] as int >= 0x80 then 0 else 1 + AsciiRun(s[1..])
  }

  /**
   * `urllib.parse.unquote`: each run of ASCII characters is unquoted to
   * bytes and decoded as UTF-8, a malformed sequence becoming U+FFFD; the
   * characters from 0x80 up between the runs are kept as they are.
   */
  function Unquote(s: string): (r: string)
    ensures |r| <= |s|
    decreases |s|
  {
    if s == [] then []
    else if s[0] as int >= 0x80 then [s[0]] + Unquote(s[1..])
    else
      var k := AsciiRun(s);
      var run := s[..k];
      Utf8AsciiLength(run);
      UnquoteText(run) + Unquote(s[k..])
  }

  /** An ASCII text encodes to one byte per character, its code. */
  lemma {:induction false} Utf8AsciiLength(s: string)
    requires forall j :: 0 <= j < |s| ==> s[j] as int < 0x80
    ensures |Utf8(s)| == |s|
    ensures forall j :: 0 <= j < |s| ==> Utf8(s)[j] as int == s[j] as int
    decreases |s|
  {
    if s != [] {
      Utf8AsciiLength(s[1..]);
      assert Utf8(s) == Utf8Char(s[0]) + Utf8(s[1..]);
      forall j | 1 <= j < |s| ensures Utf8(s)[j] as int == s[j] as int {
        assert Utf8(s)[j] == Utf8(s[1..])[j - 1];
      }
    }
  }

  /** Bytes without `%` are their own unquoting. */
  lemma {:induction false} PercentBytesPlain(bs: seq<byte>)
    requires Percent !in bs
    ensures PercentBytes(bs) == bs
    decreases |bs|
  {
    if bs != [] {
      assert bs == [bs[0]] + bs[1..];
      PercentBytesPlain(bs[1..]);
    }
  }

  /** Text without `%` comes through `unquote_to_bytes` and decoding unchanged. */
  lemma UnquoteTextPlain(s: string)
    requires '%' !in s
    ensures UnquoteText(s) == s
  {
    Utf8NoPercent(s);
    PercentBytesPlain(Utf8(s));
    DecodeEncoded(s);
  }

  /** Only a `%` character puts a `%` byte into the encoding. */
  lemma {:induction false} Utf8NoPercent(s: string)
    requires '%' !in s
    ensures Percent !in Utf8(s)
    decreases |s|
  {
    if s != [] {
      assert Utf8(s) == Utf8Char(s[0]) + Utf8(s[1..]);
      Utf8NoPercent(s[1..]);
    }
  }

  /** Text without `%` is its own decoding. */
  lemma {:induction false} UnquotePlain(s: string)
    requires '%' !in s
    ensures Unquote(s) == s
    decreases |s|
  {
    if s != [] {
      if s[0] as int >= 0x80 {
        assert s == [s[0]] + s[1..];
        UnquotePlain(s[1..]);
      } else {
        var k := AsciiRun(s);
        assert s == s[..k] + s[k..];
        UnquoteTextPlain(s[..k]);
        UnquotePlain(s[k..]);
      }
    }
  }

  /**
   * A UTF-8 sequence spelled in percent codes is read as its character, in
   * the user name and in the password alike.
   */
  lemma UnquoteTwoByteChar()
    ensures Unquote("%C3%A9") == "\U{E9}"
    ensures UnquoteText("%C3%A9") == "\U{E9}"
  {
    var s := "%C3%A9";
    Utf8Ascii6(s);
    assert PercentBytes([0x25, 0x43, 0x33, 0x25, 0x41, 0x39]) == [0xC3] + PercentBytes([0x25, 0x41, 0x39]);
    assert PercentBytes([0x25, 0x41, 0x39]) == [0xA9];
    DecodeTwoByteChar();
    AsciiRunAll(s);
    assert s[..6] == s && s[6..] == [];
  }

  /** A byte that starts no UTF-8 sequence is read as U+FFFD. */
  lemma UnquoteStrayByte()
    ensures Unquote("%FF") == [Replacement]
  {
    var s := "%FF";
    assert Utf8(s) == [0x25, 0x46, 0x46];
    assert PercentBytes([0x25, 0x46, 0x46]) == [0xFF];
    assert DecodeUtf8([0xFF]) == [Replacement];
    AsciiRunAll(s);
    assert s[..3] == s && s[3..] == [];
  }

  lemma Utf8Ascii6(s: string)
    requires s == "%C3%A9"
    ensures Utf8(s) == [0x25, 0x43, 0x33, 0x25, 0x41, 0x39]
  {
    Utf8AsciiLength(s);
  }

  lemma DecodeTwoByteChar()
    ensures DecodeUtf8([0xC3, 0xA9]) == "\U{E9}"
  {
    var bs: seq<byte> := [0xC3, 0xA9];
    assert Fitting(bs, 2, 1) == 2;
    assert bs[..2] == bs && bs[2..] == [];
    assert CharOf(bs) == '\U{E9}';
  }

  /** An all-ASCII text is one run. */
  lemma {:induction false} AsciiRunAll(s: string)
    requires forall j :: 0 <= j < |s| ==> s[j] as int < 0x80
    ensures AsciiRun(s) == |s|
    decreases |s|
  {
    if s != [] {
      AsciiRunAll(s[1..]);
    }
  }

  // ---------------------------------------------------- connection settings

  /** What the scripts connect with: the raw URL, or settings taken out of it. */
  datatype Connect =
    | ConnectRaw(url: string)
    | ConnectParams(host: string, port: nat, dbname: string, user: string, password: string)
    | InvalidUrl

  predicate AllDigits(s: string) { forall k :: 0 <= k < |s| ==> IsDigit(s[k]) }

  /** `s.lstrip("/")` */
  function LStripSlash(s: string): (r: string)
    ensures r == [] || r[0] != '/'
    decreases |s|
  {
    if s != [] && s[0] == '/' then LStripSlash(s[1..]) else s
  }

  /** `int(port_str) if port_str.isdigit() else 5432` */
  function PortOf(portStr: string): nat
  {
    if portStr != [] && AllDigits(portStr) then ParseNat(portStr) else 5432
  }

  /** `(parsed.path or "/").lstrip("/") or "postgres"` */
  function DbNameOf(path: string): string
  {
    var p := LStripSlash(if path == "" then "/" else path);
    if p == "" then "postgres" else p
  }

  /** The host-and-port split as written: `host, _, port_str = hostport.rpartition(":")`. */
  function HostPort(hostport: string): (string, string)
  {
    RPartition(hostport, ':')
  }

  /**
   * The fallback of `_connect_db`: the raw URL when the authority is empty
   * or ends in `@`, otherwise user and password from before the last `@`
   * (split at the first `:`, both percent-decoded), host and port from after
   * it, with `localhost`, `5432`, `postgres` and `postgres` as defaults.
   */
  function SplitUrlWith(url: string, hostPort: string -> (string, string)): Connect
  {
    match UrlParse(url)
    case None => InvalidUrl
    case Some(p) => ConnectOf(url, p.netloc, p.path, hostPort)
  }

  /** The split of an authority and path already taken out of `url`. */
  function ConnectOf(url: string, netloc: string, path: string, hostPort: string -> (string, string)): Connect
  {
    var (userinfo, hostport) := RPartition(netloc, '@');
    if hostport == "" then ConnectRaw(url)
    else
      var (username, password) := Partition(userinfo, ':');
      var (host, portStr) := hostPort(hostport);
      ConnectParams(if host == "" then "localhost" else host, PortOf(portStr), DbNameOf(path),
                    if username != "" then Unquote(username) else "postgres", UnquoteText(password))
  }

  function SplitUrl(url: string): Connect { SplitUrlWith(url, HostPort) }

  /** An authority with no `@` before the host and no host at all: the URL is used as it is. */
  lemma SplitUrlEmptyAuthority(url: string)
    requires UrlParse(url).Some? && UrlParse(url).value.netloc == ""
    ensures SplitUrl(url) == ConnectRaw(url)
  {
    RPartitionNone("", '@');
  }

  /**
   * The URL `_build_pg_url` writes comes back apart as the settings it was
   * built from, when user, password, host and port hold no character that
   * ends the authority, the user no `:` and the host and port no `@`.
   */
  lemma SplitBuiltUrl(c: LexConfig.PgConn, db: string)
    requires c.user != "" && NoneOf(c.user, {':', '@', '/', '?', '#', '[', ']', '%'})
    requires NoneOf(c.password, {'/', '?', '#', '[', ']', '%'})
    requires c.host != "" && NoneOf(c.host, {'@', '/', '?', '#', '[', ']'})
    requires NoneOf(c.port, {':', '@', '/', '?', '#', '[', ']'})
    requires NoneOf(db, {'?', '#'}) && (db == [] || db[0] != '/')
    ensures SplitUrl(LexConfig.PgUrl(c, db))
      == ConnectParams(c.host, PortOf(c.port), if db == "" then "postgres" else db, c.user, c.password)
  {
    var userinfo := c.user + (if c.password != "" then ":" + c.password else "");
    var hostport := c.host + ":" + c.port;
    var netloc := userinfo + "@" + hostport;
    var url := LexConfig.PgUrl(c, db);
    BuiltUrlShape(c, db);
    NetlocClean(userinfo, hostport, c);
    PostgresScheme();
    UrlParseOf("postgresql", netloc, "/" + db, LexConfig.TimeoutSuffix);
    RPartitionAt(userinfo, '@', hostport);
    UserInfoSplit(c.user, c.password);
    RPartitionAt(c.host, ':', c.port);
    UnquotePlain(c.user);
    UnquoteTextPlain(c.password);
    DbNameOfSlash(db);
    ConnectFromParts(url, userinfo, hostport, "/" + db, c.user, c.password, c.host, c.port);
  }

  lemma PostgresScheme()
    ensures IsAlpha("postgresql"[0]) && AllSchemeChars("postgresql")
  {
  }

  lemma BuiltUrlShape(c: LexConfig.PgConn, db: string)
    ensures LexConfig.PgUrl(c, db)
      == "postgresql" + "://" + ((c.user + (if c.password != "" then ":" + c.password else "")) + "@" + (c.host + ":" + c.port))
         + ("/" + db) + LexConfig.TimeoutSuffix
  {
    assert LexConfig.Scheme == "postgresql" + "://";
  }

  lemma UserInfoSplit(user: string, password: string)
    requires ':' !in user
    ensures Partition(user + (if password != "" then ":" + password else ""), ':') == (user, password)
  {
    if password != "" {
      PartitionAt(user, ':', password);
      assert user + (":" + password) == user + [':'] + password;
    } else {
      assert user + "" == user;
      PartitionNone(user, ':');
    }
  }

  lemma DbNameOfSlash(db: string)
    requires db == [] || db[0] != '/'
    ensures DbNameOf("/" + db) == if db == "" then "postgres" else db
  {
    assert ("/" + db)[1..] == db;
    assert LStripSlash("/" + db) == LStripSlash(db) == db;
  }

  /**
   * An authority with an `@`, a non-empty host part, a user and a host
   * gives those settings, once the user and password need no decoding.
   */
  lemma ConnectFromParts(url: string, userinfo: string, hostport: string, path: string,
                         user: string, password: string, host: string, port: string)
    requires RPartition(userinfo + "@" + hostport, '@') == (userinfo, hostport) && hostport != ""
    requires Partition(userinfo, ':') == (user, password) && user != ""
    requires HostPort(hostport) == (host, port) && host != ""
    requires Unquote(user) == user && UnquoteText(password) == password
    ensures ConnectOf(url, userinfo + "@" + hostport, path, HostPort)
      == ConnectParams(host, PortOf(port), DbNameOf(path), user, password)
  {
  }

  lemma NetlocClean(userinfo: string, hostport: string, c: LexConfig.PgConn)
    requires userinfo == c.user + (if c.password != "" then ":" + c.password else "")
    requires hostport == c.host + ":" + c.port
    requires NoneOf(c.user, {'/', '?', '#', '[', ']'}) && NoneOf(c.password, {'/', '?', '#', '[', ']'})
    requires NoneOf(c.host, {'@', '/', '?', '#', '[', ']'}) && NoneOf(c.port, {':', '@', '/', '?', '#', '[', ']'})
    ensures NoneOf(userinfo + "@" + hostport, {'/', '?', '#', '[', ']'})
    ensures '@' !in hostport
  {
    var s := userinfo + "@" + hostport;
    forall k | 0 <= k < |s| ensures s[k] !in {'/', '?', '#', '[', ']'} {
      if k < |c.user| {
        assert s[k] == c.user[k];
      } else if k < |userinfo| {
        assert s[k] == userinfo[k];
      } else if k > |userinfo| + |c.host| + 1 {
        assert s[k] == c.port[k - |userinfo| - |c.host| - 2];
      } else if k > |userinfo| && k <= |userinfo| + |c.host| {
        assert s[k] == c.host[k - |userinfo| - 1];
      }
    }
    forall k | 0 <= k < |hostport| ensures hostport[k] != '@' {
      if k < |c.host| {
        assert hostport[k] == c.host[k];
      } else if k > |c.host| {
        assert hostport[k] == c.port[k - |c.host| - 1];
      }
    }
  }

  /**
   * As written, an authority that names a host without a port loses the
   * host: `rpartition(":")` then yields an empty host, replaced by
   * `localhost`.
   */
  lemma HostWithoutPortLost(user: string, host: string, db: string)
    requires user != "" && NoneOf(user, {':', '@', '/', '?', '#', '[', ']', '%'})
    requires host != "" && NoneOf(host, {':', '@', '/', '?', '#', '[', ']'})
    requires NoneOf(db, {'?', '#'})
    ensures SplitUrl("postgresql://" + user + "@" + host + "/" + db).ConnectParams?
    ensures SplitUrl("postgresql://" + user + "@" + host + "/" + db).host == "localhost"
  {
    var netloc := user + "@" + host;
    NoneOfJoin(user, host);
    assert "postgresql://" + user + "@" + host + "/" + db == "postgresql" + "://" + netloc + ("/" + db) + "";
    UrlParseOf("postgresql", netloc, "/" + db, "");
    RPartitionAt(user, '@', host);
    PartitionNone(user, ':');
    RPartitionNone(host, ':');
  }

  lemma NoneOfJoin(user: string, host: string)
    requires NoneOf(user, {'/', '?', '#', '[', ']'}) && NoneOf(host, {'@', '/', '?', '#', '[', ']'})
    ensures NoneOf(user + "@" + host, {'/', '?', '#', '[', ']'}) && '@' !in host
  {
    var s := user + "@" + host;
    forall k | 0 <= k < |s| ensures s[k] !in {'/', '?', '#', '[', ']'} {
      if k < |user| {
        assert s[k] == user[k];
      } else if k > |user| {
        assert s[k] == host[k - |user| - 1];
      }
    }
    forall k | 0 <= k < |host| ensures host[k] != '@' {
    }
  }

  /** The split the scripts evidently intend: a host-and-port without `:` is all host. */
  function HostPortIntended(hostport: string): (string, string)
  {
    if ':' in hostport then RPartition(hostport, ':') else (hostport, "")
  }

  /** With the intended split, a URL without a port keeps its host and gets port 5432. */
  lemma HostWithoutPortKept(user: string, host: string, db: string)
    requires user != "" && NoneOf(user, {':', '@', '/', '?', '#', '[', ']', '%'})
    requires host != "" && NoneOf(host, {':', '@', '/', '?', '#', '[', ']'})
    requires NoneOf(db, {'?', '#'})
    ensures SplitUrlWith("postgresql://" + user + "@" + host + "/" + db, HostPortIntended)
      == ConnectParams(host, 5432, DbNameOf("/" + db), user, "")
  {
    var netloc := user + "@" + host;
    NoneOfJoin(user, host);
    assert "postgresql://" + user + "@" + host + "/" + db == "postgresql" + "://" + netloc + ("/" + db) + "";
    UrlParseOf("postgresql", netloc, "/" + db, "");
    RPartitionAt(user, '@', host);
    PartitionNone(user, ':');
    UnquotePlain(user);
    UnquoteTextPlain("");
    assert ':' !in host;
  }

  /** The intended split agrees with the written one whenever a port is given. */
  lemma HostPortIntendedAgrees(hostport: string)
    requires ':' in hostport
    ensures HostPortIntended(hostport) == HostPort(hostport)
  {
  }

  // --------------------------------------------------------------- guard

  /**
   * The URL the scripts connect to: `CHAT_DATABASE_URL`, else
   * `CHAT_RAG_DATABASE_URL`, stripped; refused (`None`) when blank or still
   * holding an unexpanded `${`.
   */
  function ChatUrl(env: map<string, string>): (r: Option<string>)
  {
    var raw := if "CHAT_DATABASE_URL" in env && env["CHAT_DATABASE_URL"] != "" then env["CHAT_DATABASE_URL"]
               else if "CHAT_RAG_DATABASE_URL" in env then env["CHAT_RAG_DATABASE_URL"] else "";
    var u := Trim(raw);
    if u == "" || Contains(u, "${") then None else Some(u)
  }

  /** A URL is accepted exactly when it is non-blank and has no `${`. */
  lemma ChatUrlGuard(env: map<string, string>)
    ensures ChatUrl(env).Some? ==> ChatUrl(env).value != "" && !Contains(ChatUrl(env).value, "${")
    ensures ChatUrl(env).Some? ==> Trim(ChatUrl(env).value) == ChatUrl(env).value
    ensures "CHAT_DATABASE_URL" in env && Trim(env["CHAT_DATABASE_URL"]) != "" ==>
      (ChatUrl(env).Some? <==> !Contains(Trim(env["CHAT_DATABASE_URL"]), "${"))
    ensures "CHAT_DATABASE_URL" !in env && "CHAT_RAG_DATABASE_URL" !in env ==> ChatUrl(env).None?
  {
    var raw := if "CHAT_DATABASE_URL" in env && env["CHAT_DATABASE_URL"] != "" then env["CHAT_DATABASE_URL"]
               else if "CHAT_RAG_DATABASE_URL" in env then env["CHAT_RAG_DATABASE_URL"] else "";
    TrimIdempotent(raw);
  }
}
