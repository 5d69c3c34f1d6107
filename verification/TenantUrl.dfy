/** Splicing a tenant's database name into the control plane's URL, and the seed script's split
    of such a URL into connection arguments. */
module TenantUrl {
  import opened Options
  import opened Strings

  const STRUCTURAL: set<char> := {'/', '?', '#', '@', ':', '\\', '%', '"', '\'', ' ', '\t', '\r', '\n'}

  datatype Result = Url(url: string) | EmptyName | StructuralName

  /** Position of the first `c`, or the length. */
  function First(s: string, c: char): (n: nat)
    ensures n <= |s| && (n < |s| ==> s[n] == c)
    ensures forall k | 0 <= k < n :: s[k] != c
  {
    if s == "" || s[0] == c then 0 else 1 + First(s[1..], c)
  }

  /** Position of the last `c`. */
  function Last(s: string, c: char): (n: Option<nat>)
    ensures n == None ==> c !in s
    ensures n.Some? ==> n.value < |s| && s[n.value] == c
    ensures n.Some? ==> forall k | n.value < k < |s| :: s[k] != c
  {
    if s == "" then None
    else
      match Last(s[1..], c)
      case Some(n) => Some(n + 1)
      case None => if s[0] == c then Some(0) else None
  }

  /** `base.rsplit("/", 1)[0]`. */
  function Server(base: string): string {
    match Last(base, '/')
    case Some(n) => base[..n]
    case None => base
  }

  function MakeTenantUrl(base: string, name: string): Result {
    if name == "" then EmptyName
    else if exists c :: c in name && c in STRUCTURAL then StructuralName
    else Url(Server(base) + "/" + name)
  }

  predicate Reshapes(c: char) {
    || c == '/' || c == '?' || c == '#' || c == '@' || c == ':' || c == '\\' || c == '%'
    || c == '"' || c == '\'' || c == ' ' || c == '\t' || c == '\r' || c == '\n'
  }

  /** A name is refused exactly when it is empty or holds a character that could reshape the URL. */
  lemma WhichNamesAreRefused(base: string, name: string)
    ensures MakeTenantUrl(base, name) == EmptyName <==> name == ""
    ensures MakeTenantUrl(base, name) == StructuralName <==> exists c :: c in name && Reshapes(c)
  {
    if c :| c in name && Reshapes(c) {
      assert c in STRUCTURAL;
    }
  }

  /** Any other name takes the place of what follows the last slash. */
  lemma NameFollowsTheLastSlash(server: string, db: string, name: string)
    requires MakeTenantUrl(server + "/" + db, name).Url? && '/' !in db
    ensures MakeTenantUrl(server + "/" + db, name).url == server + "/" + name
  {
    LastOf(server, db, '/');
    assert (server + "/" + db)[..|server|] == server;
  }

  const SCHEME := "postgresql+asyncpg://"

  /** `url.replace(SCHEME, "")`. */
  function WithoutScheme(s: string): string {
    if s == "" then ""
    else if SCHEME <= s then WithoutScheme(s[|SCHEME|..])
    else [s[0]] + WithoutScheme(s[1..])
  }

  datatype Parts = Parts(user: string, password: string, host: string, port: Option<string>, database: string)

  /** `userpass.split(":", 1)`, unpacked into two. */
  function Credentials(userPass: string): Option<(string, string)> {
    var colon := First(userPass, ':');
    if colon == |userPass| then None else Some((userPass[..colon], userPass[colon + 1..]))
  }

  function Address(hostPort: string): (string, Option<string>) {
    var n := First(hostPort, ':');
    if n == |hostPort| then (hostPort, None)
    else
      var rest := hostPort[n + 1..];
      (hostPort[..n], Some(rest[..First(rest, ':')]))
  }

  function SplitHost(c: (string, string), hostDb: string): Option<Parts> {
    match Last(hostDb, '/')
    case None => None
    case Some(slash) =>
      var address := Address(hostDb[..slash]);
      Some(Parts(c.0, c.1, address.0, address.1, hostDb[slash + 1..]))
  }

  /** The seed script's split; None where unpacking a split raises. */
  function SplitRaw(raw: string): Option<Parts> {
    var at := First(raw, '@');
    if at == |raw| then None
    else
      match Credentials(raw[..at])
      case None => None
      case Some(c) => SplitHost(c, raw[at + 1..])
  }

  function SplitUrl(url: string): Option<Parts> {
    SplitRaw(WithoutScheme(url))
  }

  /** The scheme without its last slash. */
  const SCHEME_HEAD := "postgresql+asyncpg:/"

  predicate EndsWith(s: string, end: string) {
    |end| <= |s| && s[|s| - |end|..] == end
  }

  predicate EndsInSlash(s: string) {
    s != "" && s[|s| - 1] == '/'
  }

  /** The last slash belongs to the scheme's own text, and what is left before that text does not
      end with one. */
  predicate SchemeTakesTheSlash(base: string) {
    var server := Server(base);
    && EndsWith(server, SCHEME_HEAD)
    && !EndsInSlash(WithoutScheme(server[..|server| - |SCHEME_HEAD|]))
  }

  /** Splitting the spliced URL recovers the base's user, password, host and port with only the
      database replaced, exactly when the slash that is spliced at survives the split. */
  lemma SpliceReplacesTheDatabase(base: string, name: string)
    requires MakeTenantUrl(base, name).Url? && SplitUrl(base).Some?
    ensures SplitUrl(MakeTenantUrl(base, name).url) == Some(SplitUrl(base).value.(database := name))
       <==> !SchemeTakesTheSlash(base)
  {
    SplitNeedsSlash(base);
    NameHasNoSlash(base, name);
    var current := NameIn(base);
    var y := BeforeTheName(base, current, name);
    assert SplitUrl(base) == SplitRaw(y + current);
    assert SplitUrl(MakeTenantUrl(base, name).url) == SplitRaw(y + name);
    SplitsAgree(y, current, name);
  }

  lemma NameIn(base: string) returns (current: string)
    requires '/' in base
    ensures base == Server(base) + "/" + current && '/' !in current
  {
    current := base[Last(base, '/').value + 1..];
  }

  /** The text that both names follow once the scheme is removed. */
  lemma BeforeTheName(base: string, current: string, name: string) returns (y: string)
    requires base == Server(base) + "/" + current && '/' !in current && '/' !in name
    ensures WithoutScheme(base) == y + current && WithoutScheme(Server(base) + "/" + name) == y + name
    ensures EndsInSlash(y) <==> !SchemeTakesTheSlash(base)
  {
    var server := Server(base);
    if EndsWith(server, SCHEME_HEAD) {
      var q := server[..|server| - |SCHEME_HEAD|];
      assert server == q + SCHEME_HEAD;
      y := WithoutScheme(q);
      SchemeBeforeName(q, current);
      SchemeBeforeName(q, name);
    } else {
      y := WithoutScheme(server) + "/";
      NameAfterSlash(server, current);
      NameAfterSlash(server, name);
    }
  }

  lemma NameHasNoSlash(base: string, name: string)
    requires MakeTenantUrl(base, name).Url?
    ensures '/' !in name && MakeTenantUrl(base, name).url == Server(base) + "/" + name
  {
    assert '/' in STRUCTURAL;
  }

  /** The last splice wins, for every base. */
  lemma LastSpliceWins(base: string, first: string, second: string)
    requires MakeTenantUrl(base, first).Url?
    ensures MakeTenantUrl(MakeTenantUrl(base, first).url, second) == MakeTenantUrl(base, second)
  {
    LastOf(Server(base), first, '/');
    assert (Server(base) + "/" + first)[..|Server(base)|] == Server(base);
  }

  /** A query string is kept, with only the database replaced, exactly when there was nothing to
      replace and nothing to lose: the old name is the new one, and the query itself ends in a
      slash and that name. (The query starts at the first question mark after the name.) */
  lemma QueryIsKeptOnlyByAccident(server: string, current: string, query: string, name: string)
    requires MakeTenantUrl(server, name).Url? && '/' !in current && '?' !in current
    ensures MakeTenantUrl(server + "/" + current + "?" + query, name) == Url(server + "/" + name + "?" + query)
       <==> current == name && EndsWith(query, "/" + name)
  {
    NameHasNoSlash(server, name);
    if '/' in query {
      SlashInQuery(server, current, query, name);
    } else {
      QueryWithoutSlash(server, current, query, name);
      assert |server + "/" + name + "?" + query| > |server + "/" + name|;
      if EndsWith(query, "/" + name) {
        EndHasSlash(query, name);
        assert false;
      }
    }
  }

  /** A query without a slash is dropped. */
  lemma QueryWithoutSlash(server: string, current: string, query: string, name: string)
    requires MakeTenantUrl(server, name).Url? && '/' !in current && '/' !in query
    ensures MakeTenantUrl(server + "/" + current + "?" + query, name) == Url(server + "/" + name)
  {
    var base, rest := server + "/" + current + "?" + query, current + "?" + query;
    assert base == server + "/" + rest;
    LastOf(server, rest, '/');
    assert base[..|server|] == server;
  }

  /** A query with a slash leaves the old name in place and has its own end replaced. */
  lemma QueryWithSlash(server: string, current: string, query: string, name: string)
    returns (kept: string, lost: string)
    requires MakeTenantUrl(server, name).Url? && '/' in query
    ensures query == kept + "/" + lost && '/' !in lost
    ensures MakeTenantUrl(server + "/" + current + "?" + query, name)
         == Url(server + "/" + current + "?" + kept + "/" + name)
  {
    var n := Last(query, '/').value;
    kept, lost := query[..n], query[n + 1..];
    var head := server + "/" + current + "?";
    assert head + query == (head + kept) + "/" + lost;
    LastOf(head + kept, lost, '/');
    assert ((head + kept) + "/" + lost)[..|head + kept|] == head + kept;
  }

  lemma SlashInQuery(server: string, current: string, query: string, name: string)
    requires MakeTenantUrl(server, name).Url? && '?' !in current && '/' !in name && '/' in query
    ensures MakeTenantUrl(server + "/" + current + "?" + query, name) == Url(server + "/" + name + "?" + query)
       <==> current == name && EndsWith(query, "/" + name)
  {
    var kept, lost := QueryWithSlash(server, current, query, name);
    assert '?' in STRUCTURAL && '?' !in name;
    var got, wanted := current + "?" + (kept + "/" + name), name + "?" + query;
    assert server + "/" + current + "?" + kept + "/" + name == (server + "/") + got;
    assert server + "/" + name + "?" + query == (server + "/") + wanted;
    SamePrefix(server + "/", got, wanted);
    SameAroundQuestionMark(current, kept + "/" + name, name, query);
    QueryEndsInName(kept, lost, name);
  }

  lemma QueryEndsInName(kept: string, lost: string, name: string)
    requires '/' !in lost && '/' !in name
    ensures kept + "/" + name == kept + "/" + lost <==> EndsWith(kept + "/" + lost, "/" + name)
  {
    if EndsWith(kept + "/" + lost, "/" + name) {
      EndAfterLastSlash(kept, lost, name);
    }
    if kept + "/" + name == kept + "/" + lost {
      assert (kept + "/" + lost)[|kept|..] == "/" + name;
    }
  }

  lemma EndHasSlash(query: string, name: string)
    requires EndsWith(query, "/" + name)
    ensures '/' in query
  {
    var end := query[|query| - |"/" + name|..];
    assert end[0] == '/';
  }

  lemma SameAroundQuestionMark(a: string, b: string, c: string, d: string)
    requires '?' !in a && '?' !in c
    ensures a + "?" + b == c + "?" + d <==> a == c && b == d
  {
    var x, y := a + "?" + b, c + "?" + d;
    FirstIs(x, '?', |a|);
    FirstIs(y, '?', |c|);
    assert x[..|a|] == a && x[|a| + 1..] == b;
    assert y[..|c|] == c && y[|c| + 1..] == d;
  }

  lemma SamePrefix(p: string, a: string, b: string)
    ensures p + a == p + b <==> a == b
  {
    assert (p + a)[|p|..] == a && (p + b)[|p|..] == b;
  }

  lemma EndAfterLastSlash(kept: string, lost: string, name: string)
    requires '/' !in lost && '/' !in name && EndsWith(kept + "/" + lost, "/" + name)
    ensures lost == name
  {
    var query, n := kept + "/" + lost, |kept + "/" + lost| - |"/" + name|;
    assert query == query[..n] + "/" + name;
    LastOf(kept, lost, '/');
    LastOf(query[..n], name, '/');
    assert lost == query[|kept| + 1..] && name == query[n + 1..];
  }

  // ----- proofs -----

  lemma {:induction false} LastIsNone(s: string, c: char)
    requires c !in s
    ensures Last(s, c) == None
  {
    if s != "" {
      LastIsNone(s[1..], c);
    }
  }

  lemma {:induction false} LastOf(x: string, d: string, c: char)
    requires c !in d
    ensures Last(x + [c] + d, c) == Some(|x|)
    decreases |x|
  {
    var s := x + [c] + d;
    if x == "" {
      assert s[1..] == d;
      LastIsNone(d, c);
    } else {
      assert s[1..] == x[1..] + [c] + d;
      LastOf(x[1..], d, c);
    }
  }

  lemma LastIn(h: string, d: string, c: char)
    requires c !in d
    ensures Last(h + d, c) == Last(h, c)
  {
    match Last(h, c)
    case Some(n) =>
      assert c !in h[n + 1..] + d;
      assert h + d == h[..n] + [c] + (h[n + 1..] + d);
      LastOf(h[..n], h[n + 1..] + d, c);
    case None =>
      assert c !in h + d;
  }

  lemma FirstIs(s: string, c: char, n: nat)
    requires n < |s| && s[n] == c && forall k | 0 <= k < n :: s[k] != c
    ensures First(s, c) == n
  {
  }

  /** The last slash after the credentials of a URL that splits is in the text before its name. */
  lemma CredentialsComeFirst(y: string, a: string) returns (at: nat)
    requires '/' !in a && SplitRaw(y + a).Some?
    ensures at < |y| && First(y + a, '@') == at && '/' in y[at + 1..]
  {
    at := First(y + a, '@');
    var rest := (y + a)[at + 1..];
    var slash := Last(rest, '/').value;
    assert (y + a)[at + 1 + slash] == '/';
    assert forall k | |y| <= k < |y + a| :: (y + a)[k] == a[k - |y|];
    assert y[at + 1..][slash] == '/';
  }

  lemma HostSplitsAgree(c: (string, string), h: string, a: string, b: string)
    requires '/' !in a && '/' !in b && '/' in h
    ensures SplitHost(c, h + a).Some? && SplitHost(c, h + b).Some?
    ensures SplitHost(c, h + b).value == SplitHost(c, h + a).value.(database := b) <==> EndsInSlash(h)
  {
    LastIn(h, a, '/');
    LastIn(h, b, '/');
    var slash := Last(h, '/').value;
    assert (h + a)[..slash] == h[..slash] == (h + b)[..slash];
    assert (h + b)[slash + 1..] == h[slash + 1..] + b;
    assert EndsInSlash(h) <==> slash + 1 == |h|;
    assert |h[slash + 1..] + b| == |b| <==> slash + 1 == |h|;
  }

  lemma SplitAt(y: string, d: string, at: nat)
    requires at < |y| && First(y + d, '@') == at
    ensures SplitRaw(y + d) ==
            match Credentials(y[..at])
            case None => None
            case Some(c) => SplitHost(c, y[at + 1..] + d)
  {
    assert (y + d)[..at] == y[..at] && (y + d)[at + 1..] == y[at + 1..] + d;
  }

  lemma FirstInPrefix(y: string, a: string, b: string, c: char)
    requires First(y + a, c) < |y|
    ensures First(y + b, c) == First(y + a, c)
  {
    var n := First(y + a, c);
    assert (y + a)[n] == (y + b)[n];
    assert forall k | 0 <= k < n :: (y + b)[k] == (y + a)[k];
    FirstIs(y + b, c, n);
  }

  /** Two names after the same text split alike but for the database. */
  lemma SplitsAgree(y: string, a: string, b: string)
    requires '/' !in a && '/' !in b && SplitRaw(y + a).Some?
    ensures SplitRaw(y + b).Some?
    ensures SplitRaw(y + b).value == SplitRaw(y + a).value.(database := b) <==> EndsInSlash(y)
  {
    var at := CredentialsComeFirst(y, a);
    FirstInPrefix(y, a, b, '@');
    SplitAt(y, a, at);
    SplitAt(y, b, at);
    HostSplitsAgree(Credentials(y[..at]).value, y[at + 1..], a, b);
  }

  lemma SplitNeedsSlash(base: string)
    requires SplitUrl(base).Some?
    ensures '/' in base
  {
    var raw := WithoutScheme(base);
    var rest := raw[First(raw, '@') + 1..];
    var slash := Last(rest, '/').value;
    assert raw[First(raw, '@') + 1 + slash] == '/';
    if '/' !in base {
      RemovingAddsNothing(base, '/');
      assert false;
    }
  }

  lemma {:induction false} RemovingAddsNothing(s: string, c: char)
    requires c !in s
    ensures c !in WithoutScheme(s)
    decreases |s|
  {
    if SCHEME <= s {
      RemovingAddsNothing(s[|SCHEME|..], c);
    } else if s != "" {
      RemovingAddsNothing(s[1..], c);
    }
  }

  /** Text without a slash cannot hold the scheme. */
  lemma {:induction false} NoSlashNoScheme(s: string)
    requires '/' !in s
    ensures WithoutScheme(s) == s
    decreases |s|
  {
    if s != "" {
      assert SCHEME[20] == '/' && '/' in SCHEME;
      assert !(SCHEME <= s);
      NoSlashNoScheme(s[1..]);
    }
  }

  lemma SchemeIsHead()
    ensures SCHEME == SCHEME_HEAD + "/"
  {
  }

  lemma EndStays(server: string, end: string, k: nat)
    requires k <= |server| && !EndsWith(server, end)
    ensures !EndsWith(server[k..], end)
  {
    var rest := server[k..];
    assert |rest| >= |end| ==> rest[|rest| - |end|..] == server[|server| - |end|..];
  }

  lemma SlashIsNotInName(server: string, name: string, n: nat)
    requires '/' !in name && n < |server + "/" + name| && (server + "/" + name)[n] == '/'
    ensures n <= |server|
  {
    var s := server + "/" + name;
    assert forall k | |server| < k < |s| :: s[k] == name[k - |server| - 1];
  }

  lemma SameLengthSame(a: string, b: string, rest: string)
    requires |a| == |b| && a <= b + rest
    ensures a == b
  {
    assert a == (b + rest)[..|b|] == b;
  }

  lemma ShorterIsWithin(a: string, b: string, rest: string)
    requires |a| <= |b| && a <= b + rest
    ensures a <= b
  {
    assert a == (b + rest)[..|a|] == b[..|a|];
  }

  /** A text that ends in a slash, found at the start, lies before the last slash or is cut by it. */
  lemma FoundBeforeSlash(server: string, name: string, head: string)
    requires '/' !in name && head + "/" <= server + "/" + name && !EndsWith(server, head)
    ensures |head| < |server| && head + "/" <= server
  {
    var n := |head|;
    assert (server + "/" + name)[n] == (head + "/")[n] == '/';
    SlashIsNotInName(server, name, n);
    assert server + "/" + name == server + ("/" + name);
    assert head <= head + "/";
    if n == |server| {
      SameLengthSame(head, server, "/" + name);
      assert false;
    }
    ShorterIsWithin(head + "/", server, "/" + name);
  }

  lemma NotFoundBeforeSlash(server: string, name: string)
    requires !(SCHEME <= server + "/" + name)
    ensures !(SCHEME <= server)
  {
  }

  lemma NameAlone(name: string)
    requires '/' !in name
    ensures WithoutScheme("/" + name) == "/" + name
  {
    var s := "/" + name;
    assert s[0] == '/' && SCHEME[0] == 'p' && s[1..] == name;
    NoSlashNoScheme(name);
  }

  lemma {:induction false} NameAfterSlash(server: string, name: string)
    requires '/' !in name && !EndsWith(server, SCHEME_HEAD)
    ensures WithoutScheme(server + "/" + name) == WithoutScheme(server) + "/" + name
    decreases |server|
  {
    var s := server + "/" + name;
    if server == "" {
      assert s == "/" + name;
      NameAlone(name);
    } else if SCHEME <= s {
      SchemeIsHead();
      FoundBeforeSlash(server, name, SCHEME_HEAD);
      EndStays(server, SCHEME_HEAD, |SCHEME|);
      assert s[|SCHEME|..] == server[|SCHEME|..] + "/" + name;
      NameAfterSlash(server[|SCHEME|..], name);
    } else {
      NotFoundBeforeSlash(server, name);
      EndStays(server, SCHEME_HEAD, 1);
      assert s[1..] == server[1..] + "/" + name;
      NameAfterSlash(server[1..], name);
      Regroup(server[0], WithoutScheme(server[1..]), "/" + name);
      Regroup(server[0], WithoutScheme(server[1..]) + "/", name);
    }
  }

  /** No proper end of the scheme begins it again. */
  lemma SchemeDoesNotOverlap(q: string, rest: string)
    requires 0 < |q| < |SCHEME|
    ensures !(SCHEME <= q + SCHEME + rest)
  {
    var s := q + SCHEME + rest;
    assert s[|q|] == 'p' && s[|q| + 1] == 'o';
    assert SCHEME[16] == 'p' && SCHEME[17] == 'g';
    assert |q| < 17 || SCHEME[|q|] != 'p';
  }

  lemma {:induction false} SchemeVanishes(q: string, name: string)
    requires '/' !in name
    ensures WithoutScheme(q + SCHEME + name) == WithoutScheme(q) + name
    decreases |q|
  {
    var s := q + SCHEME + name;
    if q == "" {
      assert s[|SCHEME|..] == name;
      NoSlashNoScheme(name);
    } else if SCHEME <= q {
      assert s[|SCHEME|..] == q[|SCHEME|..] + SCHEME + name;
      assert SCHEME <= s;
      SchemeVanishes(q[|SCHEME|..], name);
    } else {
      NoEarlierScheme(q, name);
      assert s[1..] == q[1..] + SCHEME + name;
      SchemeVanishes(q[1..], name);
      assert [q[0]] + (WithoutScheme(q[1..]) + name) == [q[0]] + WithoutScheme(q[1..]) + name;
    }
  }

  lemma NoEarlierScheme(q: string, name: string)
    requires q != "" && !(SCHEME <= q)
    ensures !(SCHEME <= q + SCHEME + name)
  {
    if |q| < |SCHEME| {
      SchemeDoesNotOverlap(q, name);
    } else {
      assert (q + SCHEME + name)[..|SCHEME|] == q[..|SCHEME|];
    }
  }

  lemma SchemeBeforeName(q: string, name: string)
    requires '/' !in name
    ensures WithoutScheme(q + SCHEME_HEAD + "/" + name) == WithoutScheme(q) + name
  {
    assert q + SCHEME_HEAD + "/" + name == q + SCHEME + name;
    SchemeVanishes(q, name);
  }

  // ----- the split inverts the writing -----

  function HostAndPort(host: string, port: Option<string>): string {
    host + match port case None => "" case Some(p) => ":" + p
  }

  /** A URL past its scheme, as it is written. */
  function Written(p: Parts): string {
    p.user + ":" + p.password + "@" + HostAndPort(p.host, p.port) + "/" + p.database
  }

  /** What the split relies on: the separators stand where they are written, and nowhere before. */
  predicate Splittable(p: Parts) {
    && ':' !in p.user && '@' !in p.user && '@' !in p.password
    && ':' !in p.host && (p.port.Some? ==> ':' !in p.port.value) && '/' !in p.database
  }

  lemma FirstAfter(a: string, c: char, b: string)
    requires c !in a
    ensures First(a + [c] + b, c) == |a| && First(a, c) == |a|
    ensures (a + [c] + b)[..|a|] == a && (a + [c] + b)[|a| + 1..] == b
  {
    assert (a + [c] + b)[|a|] == c;
  }

  lemma AddressReads(host: string, port: Option<string>)
    requires ':' !in host && (port.Some? ==> ':' !in port.value)
    ensures Address(HostAndPort(host, port)) == (host, port)
  {
    match port
    case None =>
      assert host + "" == host;
      FirstAfter(host, ':', "");
    case Some(p) =>
      assert host + (":" + p) == host + [':'] + p;
      FirstAfter(host, ':', p);
      FirstAfter(p, ':', "");
      assert p[..|p|] == p;
  }

  lemma CredentialsRead(user: string, password: string)
    requires ':' !in user
    ensures Credentials(user + ":" + password) == Some((user, password))
  {
    assert user + ":" + password == user + [':'] + password;
    FirstAfter(user, ':', password);
  }

  lemma HostReads(c: (string, string), host: string, port: Option<string>, database: string)
    requires ':' !in host && (port.Some? ==> ':' !in port.value) && '/' !in database
    ensures SplitHost(c, HostAndPort(host, port) + "/" + database) == Some(Parts(c.0, c.1, host, port, database))
  {
    var hostPort := HostAndPort(host, port);
    var hostDb := hostPort + "/" + database;
    LastOf(hostPort, database, '/');
    assert hostDb[..|hostPort|] == hostPort && hostDb[|hostPort| + 1..] == database;
    AddressReads(host, port);
  }

  lemma RawReads(userPass: string, hostDb: string)
    requires '@' !in userPass && Credentials(userPass).Some?
    ensures SplitRaw(userPass + "@" + hostDb) == SplitHost(Credentials(userPass).value, hostDb)
  {
    assert userPass + "@" + hostDb == userPass + ['@'] + hostDb;
    FirstAfter(userPass, '@', hostDb);
  }

  lemma WrittenInTwo(p: Parts)
    ensures Written(p) == (p.user + ":" + p.password) + "@" + (HostAndPort(p.host, p.port) + "/" + p.database)
  {
  }

  lemma TwoHalvesRead(p: Parts, userPass: string, hostDb: string)
    requires '@' !in userPass && Credentials(userPass) == Some((p.user, p.password))
    requires SplitHost((p.user, p.password), hostDb) == Some(p)
    ensures SplitRaw(userPass + "@" + hostDb) == Some(p)
  {
    RawReads(userPass, hostDb);
  }

  lemma WrittenReads(p: Parts)
    requires Splittable(p)
    ensures SplitRaw(Written(p)) == Some(p)
  {
    CredentialsRead(p.user, p.password);
    HostReads((p.user, p.password), p.host, p.port, p.database);
    WrittenInTwo(p);
    TwoHalvesRead(p, p.user + ":" + p.password, HostAndPort(p.host, p.port) + "/" + p.database);
  }

  /** Splitting what was written gives every part back, the user and the password in their places. */
  lemma SplitInvertsWriting(p: Parts)
    requires Splittable(p) && !Occurs(Written(p))
    ensures SplitUrl(SCHEME + Written(p)) == Some(p)
  {
    WrittenReads(p);
    SchemeGoes(Written(p));
  }

  lemma SchemeGoes(s: string)
    requires !Occurs(s)
    ensures WithoutScheme(SCHEME + s) == s
  {
    NothingToRemove(s);
    assert (SCHEME + s)[|SCHEME|..] == s;
  }

  predicate Occurs(s: string) {
    exists k | 0 <= k <= |s| :: SCHEME <= s[k..]
  }

  lemma {:induction false} NothingToRemove(s: string)
    requires !Occurs(s)
    ensures WithoutScheme(s) == s
  {
    if s != "" {
      assert s[0..] == s;
      forall k | 0 <= k <= |s[1..]| ensures !(SCHEME <= s[1..][k..]) {
        assert s[1..][k..] == s[k + 1..];
      }
      NothingToRemove(s[1..]);
    }
  }
}
