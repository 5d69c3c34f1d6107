/** Sign-in, sign-out, revocation and listing over SessionStore. The lifetime of new access
    tokens is a setting that may change between calls. */
module SessionLifecycle {
  import opened Options
  import opened SortedSets
  import opened SessionStore

  /** An access token authenticates until `exp` unless its identifier is blocklisted. `since` is
      when it was tracked and `ttl` the lifetime in force then. */
  datatype Token = Token(user: User, exp: real, since: real, ttl: nat)

  /** The rest is history: the tokens logged out and those revoked, whether the lifetime setting
      was ever lowered, and the users a sign-in of whom refreshed the key of a token that outlives it. */
  datatype State = State(
    lifetime: nat,
    cap: int,
    store: Store,
    tokens: map<Jti, Token>,
    loggedOut: set<Jti>,
    revoked: set<Jti>,
    shortened: bool,
    exposed: set<User>)

  datatype Op =
    | Login(user: User, jti: Jti, exp: real, text: string)
    | Logout(user: User, jti: Jti)
    | RevokeOne(user: User, jti: Jti)
    | RevokeOthers(user: User, keep: Option<Jti>)
    | List(user: User)
    | Configure(lifetime: nat)
    | Tick(dt: real)

  function Init(lifetime: nat, cap: int, now: real): State {
    State(lifetime, cap, Store(now, map[], map[], map[]), map[], {}, {}, false, {})
  }

  /** A token is minted under a fresh identifier right before it is tracked, its expiry
      rounded down; only a live token's own user can log it out; a lifetime is at least a
      second; time does not run back. */
  predicate Enabled(s: State, op: Op) {
    match op
    case Login(_, j, exp, _) => j !in s.tokens && s.store.now < exp <= s.store.now + s.lifetime as real
    case Logout(u, j) => j in s.tokens && s.tokens[j].user == u && s.store.now < s.tokens[j].exp
    case Configure(lifetime) => lifetime >= 1
    case Tick(dt) => dt >= 0.0
    case _ => true
  }

  /** The logout endpoint's seconds: `max(int(exp - now), 1)`. */
  function WholeSeconds(remaining: real): int {
    if remaining.Floor < 1 then 1 else remaining.Floor
  }

  /** _session_ttl: the lifetime recorded for a session, or the current one. */
  function SessionTtl(about: map<Jti, About>, j: Jti, lifetime: nat): nat {
    if j in about && about[j].ttl.Some? && about[j].ttl.value > 0 then about[j].ttl.value else lifetime
  }

  /** A session's own remaining life, in whole seconds. */
  function SecondsLeft(e: Entry, about: map<Jti, About>, now: real, lifetime: nat): int {
    (e.score + SessionTtl(about, e.jti, lifetime) as real - now).Floor
  }

  /** blocklist_ttl_for: the longest remaining life among the user's sessions, and at least
      the current lifetime. */
  function BlocklistTtl(z: ZSet, about: map<Jti, About>, now: real, lifetime: nat): (r: int)
    ensures r >= lifetime
    ensures forall e <- z :: r >= SecondsLeft(e, about, now, lifetime)
    ensures (forall e <- z :: e.score <= now && SessionTtl(about, e.jti, lifetime) <= lifetime) ==> r == lifetime
  {
    if z == [] then lifetime
    else
      var e := z[|z| - 1];
      var rest := BlocklistTtl(z[..|z| - 1], about, now, lifetime);
      var left := SecondsLeft(e, about, now, lifetime);
      if left > rest then left else rest
  }

  /** How long a revocation of user `u` blocklists. */
  function TtlFor(s: State, u: User): int {
    BlocklistTtl(s.store.Tracked(u), s.store.Described(u), s.store.now, s.lifetime)
  }

  function Stale(z: ZSet, about: map<Jti, About>, now: real, lifetime: nat): set<Jti> {
    set e | e in z && e.score + SessionTtl(about, e.jti, lifetime) as real <= now :: e.jti
  }

  /** What list_sessions prunes. */
  function Pruned(s: State, u: User): set<Jti> {
    Stale(s.store.Tracked(u), s.store.Described(u), s.store.now, s.lifetime)
  }

  /** The guard of a sign-in: no tracked token of `u` outlives the current lifetime. */
  predicate RefreshCovers(s: State, u: User) {
    forall k <- Jtis(s.store.Tracked(u)) :: k in s.tokens ==> s.tokens[k].exp <= s.store.now + s.lifetime as real
  }

  function Apply(s: State, op: Op): State {
    if !Enabled(s, op) then s
    else
      match op
      case Login(u, j, exp, text) =>
        var evicted := s.store.Evicted(u, j, s.cap);
        var about := Some(About(text, Some(s.lifetime)));
        s.(store := s.store.Track(u, j, s.lifetime, s.cap, about).Block(Members(evicted), s.lifetime),
           tokens := s.tokens[j := Token(u, exp, s.store.now, s.lifetime)],
           exposed := s.exposed + if RefreshCovers(s, u) then {} else {u})
      case Logout(u, j) =>
        var ttl := WholeSeconds(s.tokens[j].exp - s.store.now);
        s.(store := s.store.Block({j}, ttl).Drop(u, {j}), loggedOut := s.loggedOut + {j})
      case RevokeOne(u, j) =>
        s.(store := s.store.Revoke(u, j, TtlFor(s, u)),
           revoked := s.revoked + if j in Jtis(s.store.Tracked(u)) then {j} else {})
      case RevokeOthers(u, keep) =>
        s.(store := s.store.RevokeAll(u, TtlFor(s, u), keep), revoked := s.revoked + s.store.Swept(u, keep))
      case List(u) => s.(store := if Pruned(s, u) == {} then s.store else s.store.Drop(u, Pruned(s, u)))
      case Configure(lifetime) => s.(lifetime := lifetime, shortened := s.shortened || lifetime < s.lifetime)
      case Tick(dt) => s.(store := s.store.Tick(dt))
  }

  function Run(s: State, ops: seq<Op>): State
    decreases |ops|
  {
    if ops == [] then s else Run(Apply(s, ops[0]), ops[1..])
  }

  // ----- the invariant -----

  /** The tracking key of `u`: ordered members of `u`; unless a sign-in went against its guard,
      none outlives the key. */
  ghost predicate SetOk(s: State, u: User) {
    u in s.store.sets ==>
      var k := s.store.sets[u];
      && s.store.now < k.expiry
      && k.z != [] && Valid(k.z)
      && (s.cap > 0 ==> |k.z| <= s.cap)
      && forall e <- k.z :: EntryOk(s, u, e, k.expiry)
  }

  ghost predicate EntryOk(s: State, u: User, e: Entry, expiry: real) {
    && e.jti in s.tokens && s.tokens[e.jti].user == u
    && e.score == s.tokens[e.jti].since
    && (u !in s.exposed ==> s.tokens[e.jti].exp <= expiry)
  }

  /** The description key of `u` lives and dies with the tracking key, describes exactly the
      tracked members, and records each one's own lifetime. */
  ghost predicate MetaOk(s: State, u: User) {
    && (u in s.store.meta <==> u in s.store.sets)
    && (u in s.store.meta ==>
      && s.store.meta[u].expiry == s.store.sets[u].expiry
      && s.store.meta[u].fields.Keys == Jtis(s.store.sets[u].z)
      && forall j <- s.store.meta[u].fields :: Records(s, s.store.meta[u].fields[j], j))
  }

  predicate Records(s: State, about: About, j: Jti) {
    j in s.tokens && about.ttl == Some(s.tokens[j].ttl)
  }

  predicate BlockedUntil(s: State, j: Jti, t: real) {
    j in s.store.blocked && s.store.blocked[j] >= t
  }

  /** An entry that is rounded down to whole seconds: a logout's, and a revocation's if the setting
      was shortened. */
  predicate Lapsing(s: State, j: Jti, exp: real) {
    && (j in s.loggedOut || (s.shortened && j in s.revoked))
    && (exp - 1.0 < s.store.now || (j in s.store.blocked && s.store.blocked[j] > exp - 1.0))
  }

  ghost predicate TokenOk(s: State, j: Jti) {
    j in s.tokens && s.tokens[j].user !in s.exposed && s.store.now < s.tokens[j].exp ==>
      || j in Jtis(s.store.Tracked(s.tokens[j].user))
      || BlockedUntil(s, j, s.tokens[j].exp)
      || Lapsing(s, j, s.tokens[j].exp)
  }

  predicate LifetimeOk(s: State, t: Token) {
    t.ttl >= 1 && t.since <= s.store.now && t.exp <= t.since + t.ttl as real && (!s.shortened ==> t.ttl <= s.lifetime)
  }

  ghost predicate LifetimesOk(s: State) {
    && (forall j <- s.tokens :: LifetimeOk(s, s.tokens[j]))
    && (!s.shortened ==> s.exposed == {})
    && (forall j <- s.store.blocked :: s.store.now < s.store.blocked[j])
  }

  ghost predicate Inv(s: State) {
    && s.lifetime >= 1
    && (forall u :: SetOk(s, u))
    && (forall u :: MetaOk(s, u))
    && (forall j :: TokenOk(s, j))
    && LifetimesOk(s)
  }

  lemma TickKeeps(s: State, dt: real)
    requires Inv(s) && dt >= 0.0
    ensures Inv(s.(store := s.store.Tick(dt)))
  {
    var s' := s.(store := s.store.Tick(dt));
    forall u ensures SetOk(s', u) && MetaOk(s', u) {
      assert SetOk(s, u) && MetaOk(s, u);
    }
    forall j ensures TokenOk(s', j) {
      assert TokenOk(s, j);
      if
        && j in s.tokens && s.tokens[j].user !in s.exposed && s'.store.now < s.tokens[j].exp
        && j in Jtis(s.store.Tracked(s.tokens[j].user))
      {
        var u := s.tokens[j].user;
        assert SetOk(s, u);
        var e :| e in s.store.sets[u].z && e.jti == j;
        assert EntryOk(s, u, e, s.store.sets[u].expiry);
        assert u in s'.store.sets;
      }
    }
  }

  lemma DropKeepsSet(s: State, u: User, gone: set<Jti>)
    requires SetOk(s, u)
    ensures var s' := s.(store := s.store.Drop(u, gone));
            SetOk(s', u) && s'.store.Tracked(u) == Remove(s.store.Tracked(u), gone)
  {
    var s' := s.(store := s.store.Drop(u, gone));
    assert s'.store.Tracked(u) == Remove(s.store.Tracked(u), gone);
    if u in s'.store.sets {
      forall e | e in s'.store.sets[u].z ensures EntryOk(s', u, e, s'.store.sets[u].expiry) {
        assert EntryOk(s, u, e, s.store.sets[u].expiry);
      }
    }
  }

  lemma DropKeepsMeta(s: State, u: User, gone: set<Jti>)
    requires SetOk(s, u) && MetaOk(s, u)
    ensures MetaOk(s.(store := s.store.Drop(u, gone)), u)
  {
    var s' := s.(store := s.store.Drop(u, gone));
    var z, fields := Remove(s.store.Tracked(u), gone), s.store.Described(u) - gone;
    assert fields.Keys == s.store.Described(u).Keys - gone;
    assert Jtis(z) == Jtis(s.store.Tracked(u)) - gone == fields.Keys;
    assert z != [] ==> z[0].jti in Jtis(z);
    assert fields != map[] ==> fields.Keys != {};
    forall j | j in fields ensures Records(s', fields[j], j) {
      assert Records(s, s.store.meta[u].fields[j], j);
    }
  }

  lemma DropKeepsOthers(s: State, u: User, gone: set<Jti>, v: User)
    requires SetOk(s, v) && MetaOk(s, v) && u != v
    ensures var s' := s.(store := s.store.Drop(u, gone));
            SetOk(s', v) && MetaOk(s', v) && s'.store.Tracked(v) == s.store.Tracked(v)
  {
    SameKeysKeep(s, s.(store := s.store.Drop(u, gone)), v);
  }

  /** What SetOk and MetaOk depend on. */
  lemma SameKeysKeep(s: State, s': State, v: User)
    requires SetOk(s, v) && MetaOk(s, v)
    requires v in s.store.sets <==> v in s'.store.sets
    requires v in s.store.sets ==> s.store.sets[v] == s'.store.sets[v]
    requires v in s.store.meta <==> v in s'.store.meta
    requires v in s.store.meta ==> s.store.meta[v] == s'.store.meta[v]
    requires s.store.now == s'.store.now && (v in s.exposed ==> v in s'.exposed)
    requires forall j <- s.tokens :: j in s'.tokens && s'.tokens[j] == s.tokens[j]
    requires s'.cap <= 0 || s'.cap == s.cap || |s.store.Tracked(v)| <= s'.cap
    ensures SetOk(s', v) && MetaOk(s', v)
  {
    if v in s.store.sets {
      forall e | e in s.store.sets[v].z ensures EntryOk(s', v, e, s.store.sets[v].expiry) {
        assert EntryOk(s, v, e, s.store.sets[v].expiry);
      }
      forall j | j in s.store.meta[v].fields ensures Records(s', s.store.meta[v].fields[j], j) {
        assert Records(s, s.store.meta[v].fields[j], j);
      }
    }
  }

  /** Dropping members keeps all but the coverage of the dropped ones. */
  lemma DropKeepsKeys(s: State, u: User, gone: set<Jti>)
    requires forall v :: SetOk(s, v) && MetaOk(s, v)
    ensures var s' := s.(store := s.store.Drop(u, gone));
            && (forall v :: SetOk(s', v) && MetaOk(s', v))
            && (forall v :: v != u ==> s'.store.Tracked(v) == s.store.Tracked(v))
            && Jtis(s'.store.Tracked(u)) == Jtis(s.store.Tracked(u)) - gone
  {
    var s' := s.(store := s.store.Drop(u, gone));
    forall v ensures SetOk(s', v) && MetaOk(s', v) && (v != u ==> s'.store.Tracked(v) == s.store.Tracked(v)) {
      assert SetOk(s, v) && MetaOk(s, v);
      if v == u {
        DropKeepsSet(s, u, gone);
        DropKeepsMeta(s, u, gone);
      } else {
        DropKeepsOthers(s, u, gone, v);
      }
    }
    assert SetOk(s, u);
    DropKeepsSet(s, u, gone);
  }

  predicate Protected(s: State, j: Jti) {
    j in s.tokens && s.tokens[j].user !in s.exposed && s.store.now < s.tokens[j].exp ==>
      BlockedUntil(s, j, s.tokens[j].exp) || Lapsing(s, j, s.tokens[j].exp)
  }

  lemma DropKeeps(s: State, u: User, gone: set<Jti>)
    requires Inv(s)
    requires forall j :: j in gone && j in Jtis(s.store.Tracked(u)) ==> Protected(s, j)
    ensures Inv(s.(store := s.store.Drop(u, gone)))
  {
    var s' := s.(store := s.store.Drop(u, gone));
    DropKeepsKeys(s, u, gone);
    forall j ensures TokenOk(s', j) {
      assert TokenOk(s, j);
    }
  }

  /** Blocklisting for a token's whole remaining life, or for what logout and revocation round
      down to, keeps every promise. */
  lemma BlockKeeps(s: State, js: set<Jti>, ttl: int, out: set<Jti>, rev: set<Jti>)
    requires Inv(s) && ttl >= 1
    requires forall j <- js :: j in s.tokens && s.tokens[j].user !in s.exposed ==>
               || s.tokens[j].exp <= s.store.now + ttl as real
               || (s.tokens[j].exp - 1.0 < s.store.now + ttl as real && (j in out || (s.shortened && j in rev)))
    ensures var s' := s.(store := s.store.Block(js, ttl), loggedOut := s.loggedOut + out, revoked := s.revoked + rev);
            Inv(s') && forall j <- js :: Protected(s', j)
  {
    var s' := s.(store := s.store.Block(js, ttl), loggedOut := s.loggedOut + out, revoked := s.revoked + rev);
    forall u ensures SetOk(s', u) && MetaOk(s', u) {
      assert SetOk(s, u) && MetaOk(s, u);
      SameKeysKeep(s, s', u);
    }
    forall j ensures TokenOk(s', j) && (j in js ==> Protected(s', j)) {
      assert TokenOk(s, j);
    }
    forall j | j in s'.tokens ensures LifetimeOk(s', s'.tokens[j]) {
      assert LifetimeOk(s, s.tokens[j]);
    }
  }

  lemma DropBlockCommute(s: Store, u: User, gone: set<Jti>, js: set<Jti>, ttl: int)
    ensures s.Drop(u, gone).Block(js, ttl) == s.Block(js, ttl).Drop(u, gone)
  {
  }

  lemma {:induction false} RemoveEveryone(z: ZSet, gone: set<Jti>)
    requires Jtis(z) <= gone
    ensures Remove(z, gone) == []
  {
    if z != [] {
      assert z[0].jti in Jtis(z);
      assert Jtis(z[1..]) <= Jtis(z);
      RemoveEveryone(z[1..], gone);
    }
  }

  /** Under the invariant, deleting both keys is dropping every member. */
  lemma SweepIsBlockThenDrop(s: State, u: User, ttl: int, except: Option<Jti>)
    requires Inv(s) && s.store.Swept(u, except) != {}
    ensures var gone := s.store.Swept(u, except);
            s.store.RevokeAll(u, ttl, except) == s.store.Block(gone, ttl).Drop(u, gone)
  {
    var gone := s.store.Swept(u, except);
    assert SetOk(s, u) && MetaOk(s, u);
    if !(except.Some? && except.value in Jtis(s.store.Tracked(u))) {
      assert gone == Jtis(s.store.Tracked(u));
      RemoveEveryone(s.store.Tracked(u), gone);
      assert s.store.Described(u) - gone == map[];
    }
  }

  /** What a sign-in stores about its session. */
  function Note(s: State, text: string): Option<About> {
    Some(About(text, Some(s.lifetime)))
  }

  /** A sign-in's state before the cap is enforced. */
  function Enrolled(s: State, u: User, j: Jti, exp: real, text: string): State {
    s.(store := s.store.Enroll(u, j, s.lifetime, Note(s, text)),
       tokens := s.tokens[j := Token(u, exp, s.store.now, s.lifetime)],
       exposed := s.exposed + if RefreshCovers(s, u) then {} else {u})
  }

  /** A setting that was never shortened meets every sign-in's guard. */
  lemma UnshortenedCovers(s: State, u: User)
    requires Inv(s) && !s.shortened
    ensures RefreshCovers(s, u)
  {
    forall k | k in Jtis(s.store.Tracked(u)) && k in s.tokens
      ensures s.tokens[k].exp <= s.store.now + s.lifetime as real
    {
      assert LifetimeOk(s, s.tokens[k]);
    }
  }

  lemma EnrollKeepsSet(s: State, u: User, j: Jti, exp: real, text: string)
    requires SetOk(s, u) && LifetimesOk(s) && Enabled(s, Login(u, j, exp, text))
    requires s.lifetime >= 1 && s.cap <= 0
    ensures SetOk(Enrolled(s, u, j, exp, text), u)
  {
    var s' := Enrolled(s, u, j, exp, text);
    var k := s'.store.sets[u];
    assert k == SetKey(s.store.Joined(u, j), s.store.now + s.lifetime as real);
    assert Valid(s.store.Tracked(u));
    assert Entry(j, s.store.now) in k.z;
    forall e | e in k.z ensures EntryOk(s', u, e, k.expiry) {
      if e != Entry(j, s.store.now) {
        assert e in s.store.Tracked(u);
        assert EntryOk(s, u, e, s.store.sets[u].expiry);
        assert e.jti in Jtis(s.store.Tracked(u));
      }
    }
  }

  lemma EnrollKeepsMeta(s: State, u: User, j: Jti, exp: real, text: string)
    requires SetOk(s, u) && MetaOk(s, u) && Enabled(s, Login(u, j, exp, text))
    ensures MetaOk(Enrolled(s, u, j, exp, text), u)
  {
    var s' := Enrolled(s, u, j, exp, text);
    assert Jtis(s'.store.Tracked(u)) == Jtis(s.store.Tracked(u)) + {j};
    assert Jtis(s.store.Tracked(u)) == s.store.Described(u).Keys;
    var fields := s'.store.meta[u].fields;
    assert fields == s.store.Described(u)[j := Note(s, text).value];
    forall k | k in fields ensures Records(s', fields[k], k) {
      if k != j {
        assert Records(s, s.store.meta[u].fields[k], k);
      }
    }
  }

  lemma EnrollKeeps(s: State, u: User, j: Jti, exp: real, text: string)
    requires Inv(s) && Enabled(s, Login(u, j, exp, text)) && s.cap <= 0
    ensures Inv(Enrolled(s, u, j, exp, text))
  {
    var s' := Enrolled(s, u, j, exp, text);
    if !s.shortened {
      UnshortenedCovers(s, u);
    }
    forall v ensures SetOk(s', v) && MetaOk(s', v) {
      assert SetOk(s, v) && MetaOk(s, v);
      if v == u {
        EnrollKeepsSet(s, u, j, exp, text);
        EnrollKeepsMeta(s, u, j, exp, text);
      } else {
        SameKeysKeep(s, s', v);
      }
    }
    EnrollKeepsTokens(s, u, j, exp, text);
  }

  lemma EnrollKeepsTokens(s: State, u: User, j: Jti, exp: real, text: string)
    requires (forall k :: TokenOk(s, k)) && LifetimesOk(s) && s.lifetime >= 1
    requires Enabled(s, Login(u, j, exp, text)) && (!s.shortened ==> RefreshCovers(s, u))
    ensures var s' := Enrolled(s, u, j, exp, text);
            (forall k :: TokenOk(s', k)) && LifetimesOk(s')
  {
    var s' := Enrolled(s, u, j, exp, text);
    assert Jtis(s'.store.Tracked(u)) == Jtis(s.store.Tracked(u)) + {j};
    forall k ensures TokenOk(s', k) {
      assert TokenOk(s, k);
    }
    forall k | k in s'.tokens ensures LifetimeOk(s', s'.tokens[k]) {
      assert k != j ==> LifetimeOk(s, s.tokens[k]);
    }
  }

  lemma CapRestored(s: State, cap: int)
    requires Inv(s) && s.cap <= 0
    requires forall v :: cap > 0 ==> |s.store.Tracked(v)| <= cap
    ensures Inv(s.(cap := cap))
  {
    var s' := s.(cap := cap);
    forall v ensures SetOk(s', v) && MetaOk(s', v) {
      assert SetOk(s, v) && MetaOk(s, v) && (cap > 0 ==> |s.store.Tracked(v)| <= cap);
      SameKeysKeep(s, s', v);
    }
    forall k ensures TokenOk(s', k) { assert TokenOk(s, k); }
  }

  lemma CapLifted(s: State)
    requires Inv(s)
    ensures Inv(s.(cap := 0))
  {
    var s' := s.(cap := 0);
    forall v ensures SetOk(s', v) && MetaOk(s', v) {
      assert SetOk(s, v) && MetaOk(s, v);
      SameKeysKeep(s, s', v);
    }
    forall k ensures TokenOk(s', k) { assert TokenOk(s, k); }
  }

  /** Blocklisting what was evicted, as register_session does. */
  lemma EvictKeeps(s: State, u: User, gone: set<Jti>)
    requires Inv(s)
    requires forall j <- gone ::
      j in s.tokens && s.tokens[j].user !in s.exposed ==> s.tokens[j].exp <= s.store.now + s.lifetime as real
    ensures var s' := s.(store := s.store.Drop(u, gone).Block(gone, s.lifetime));
            && Inv(s')
            && s'.store.Tracked(u) == Remove(s.store.Tracked(u), gone)
            && forall v :: v != u ==> s'.store.Tracked(v) == s.store.Tracked(v)
  {
    BlockKeeps(s, gone, s.lifetime, {}, {});
    var s2 := s.(store := s.store.Block(gone, s.lifetime));
    assert s2 == s2.(loggedOut := s.loggedOut + {}, revoked := s.revoked + {});
    DropKeeps(s2, u, gone);
    DropBlockCommute(s.store, u, gone, gone, s.lifetime);
  }

  /** After the key was refreshed, nothing in the set outlives the current lifetime. */
  lemma EvictedAreCovered(s: State, u: User, z: ZSet, cap: int)
    requires Inv(s) && u in s.store.sets && s.store.sets[u] == SetKey(z, s.store.now + s.lifetime as real)
    ensures forall j <- Members(Overflow(z, cap)) ::
              j in s.tokens && s.tokens[j].user !in s.exposed ==> s.tokens[j].exp <= s.store.now + s.lifetime as real
  {
    assert SetOk(s, u);
    forall j | j in Members(Overflow(z, cap)) && j in s.tokens && s.tokens[j].user !in s.exposed
      ensures s.tokens[j].exp <= s.store.now + s.lifetime as real
    {
      var i :| 0 <= i < |Overflow(z, cap)| && Overflow(z, cap)[i] == j;
      assert z[i] in z && z[i].jti == j;
      assert EntryOk(s, u, z[i], s.store.sets[u].expiry);
    }
  }

  /** A sign-in's state once the cap is enforced. */
  function Capped(s: State, u: User, gone: set<Jti>, cap: int): State {
    s.(store := if gone == {} then s.store else s.store.Drop(u, gone).Block(gone, s.lifetime), cap := cap)
  }

  lemma EvictionMeetsCap(z: ZSet, cap: int)
    requires Valid(z) && cap > 0
    ensures |Remove(z, Members(Overflow(z, cap)))| <= cap
    ensures Members(Overflow(z, cap)) == {} ==> |z| <= cap
  {
    RemoveOverflow(z, cap);
    if |z| > cap {
      assert Overflow(z, cap)[0] in Members(Overflow(z, cap));
    }
  }

  /** Enforcing the cap on a freshly refreshed key keeps every promise. */
  lemma CappingKeeps(s: State, u: User, z: ZSet, cap: int)
    requires Inv(s) && s.cap <= 0
    requires u in s.store.sets && s.store.sets[u] == SetKey(z, s.store.now + s.lifetime as real)
    requires forall v :: v != u && cap > 0 ==> |s.store.Tracked(v)| <= cap
    ensures Inv(Capped(s, u, Members(Overflow(z, cap)), cap))
  {
    var gone := Members(Overflow(z, cap));
    assert SetOk(s, u);
    if cap > 0 {
      EvictionMeetsCap(z, cap);
    }
    if gone == {} {
      CapRestored(s, cap);
    } else {
      EvictedAreCovered(s, u, z, cap);
      EvictKeeps(s, u, gone);
      CapRestored(s.(store := s.store.Drop(u, gone).Block(gone, s.lifetime)), cap);
    }
  }

  lemma OthersAreCapped(s: State, u: User, j: Jti, exp: real, text: string, cap: int)
    requires Inv(s)
    ensures forall v :: v != u && s.cap > 0 ==> |Enrolled(s.(cap := cap), u, j, exp, text).store.Tracked(v)| <= s.cap
  {
    forall v | v != u && s.cap > 0
      ensures |Enrolled(s.(cap := cap), u, j, exp, text).store.Tracked(v)| <= s.cap
    {
      assert SetOk(s, v);
      assert Enrolled(s.(cap := cap), u, j, exp, text).store.Tracked(v) == s.store.Tracked(v);
    }
  }

  lemma EnrolledKey(s: State, u: User, j: Jti, exp: real, text: string)
    ensures var s1 := Enrolled(s, u, j, exp, text);
            && u in s1.store.sets && s1.store.sets[u] == SetKey(s.store.Joined(u, j), s.store.now + s.lifetime as real)
            && s1.store.now == s.store.now && s1.lifetime == s.lifetime && s1.cap == s.cap
  {
  }

  lemma LoginKeeps(s: State, u: User, j: Jti, exp: real, text: string)
    requires Inv(s) && Enabled(s, Login(u, j, exp, text))
    ensures Inv(Apply(s, Login(u, j, exp, text)))
  {
    CapLifted(s);
    var lifted := s.(cap := 0);
    EnrollKeeps(lifted, u, j, exp, text);
    EnrolledKey(lifted, u, j, exp, text);
    OthersAreCapped(s, u, j, exp, text, 0);
    var s1 := Enrolled(lifted, u, j, exp, text);
    CappingKeeps(s1, u, s.store.Joined(u, j), s.cap);
    LoginIsCapping(s, u, j, exp, text);
  }

  /** What a sign-in does to the store. */
  lemma TrackAndBlock(s: Store, u: User, j: Jti, ttl: int, max: int, about: Option<About>)
    ensures var gone, enrolled := Members(s.Evicted(u, j, max)), s.Enroll(u, j, ttl, about);
            && (gone == {} <==> s.Evicted(u, j, max) == [])
            && s.Track(u, j, ttl, max, about).Block(gone, ttl)
               == if gone == {} then enrolled else enrolled.Drop(u, gone).Block(gone, ttl)
  {
    var out := s.Evicted(u, j, max);
    if out == [] {
      BlockNone(s.Enroll(u, j, ttl, about), ttl);
    } else {
      assert out[0] in Members(out);
    }
  }

  lemma CapIsNotGuarded(s: State, u: User, cap: int)
    ensures RefreshCovers(s.(cap := cap), u) <==> RefreshCovers(s, u)
  {
  }

  lemma LoginIsCapping(s: State, u: User, j: Jti, exp: real, text: string)
    requires Enabled(s, Login(u, j, exp, text))
    ensures Apply(s, Login(u, j, exp, text))
         == Capped(Enrolled(s.(cap := 0), u, j, exp, text), u, Members(s.store.Evicted(u, j, s.cap)), s.cap)
  {
    TrackAndBlock(s.store, u, j, s.lifetime, s.cap, Note(s, text));
    CapIsNotGuarded(s, u, 0);
  }

  lemma LoginIs(s: State, u: User, j: Jti, exp: real, text: string)
    requires Enabled(s, Login(u, j, exp, text))
    ensures var s1 := Enrolled(s, u, j, exp, text);
            var overflow := s.store.Evicted(u, j, s.cap);
            Apply(s, Login(u, j, exp, text)) ==
            if overflow == [] then s1
            else s1.(store := s1.store.Drop(u, Members(overflow)).Block(Members(overflow), s.lifetime))
  {
    TrackAndBlock(s.store, u, j, s.lifetime, s.cap, Note(s, text));
  }

  lemma WholeSecondsFallShort(exp: real, now: real)
    requires now < exp
    ensures WholeSeconds(exp - now) >= 1 && exp - 1.0 < now + WholeSeconds(exp - now) as real
  {
  }

  /** A sign-out's state before the session is dropped. */
  function SignedOut(s: State, j: Jti, ttl: int): State {
    s.(store := s.store.Block({j}, ttl), loggedOut := s.loggedOut + {j})
  }

  lemma SigningOutKeeps(s: State, j: Jti, ttl: int)
    requires Inv(s) && j in s.tokens && ttl >= 1 && s.tokens[j].exp - 1.0 < s.store.now + ttl as real
    ensures Inv(SignedOut(s, j, ttl)) && Protected(SignedOut(s, j, ttl), j)
  {
    BlockKeeps(s, {j}, ttl, {j}, {});
    assert s.revoked + {} == s.revoked;
    assert j in {j};
  }

  lemma DroppingKeeps(s: State, u: User, j: Jti)
    requires Inv(s) && Protected(s, j)
    ensures Inv(s.(store := s.store.Drop(u, {j})))
  {
    DropKeeps(s, u, {j});
  }

  lemma LogoutKeeps(s: State, u: User, j: Jti)
    requires Inv(s) && Enabled(s, Logout(u, j))
    ensures Inv(Apply(s, Logout(u, j)))
  {
    var ttl := WholeSeconds(s.tokens[j].exp - s.store.now);
    WholeSecondsFallShort(s.tokens[j].exp, s.store.now);
    SigningOutKeeps(s, j, ttl);
    var s1 := SignedOut(s, j, ttl);
    assert Apply(s, Logout(u, j)) == s1.(store := s1.store.Drop(u, {j}));
    DroppingKeeps(s1, u, j);
  }

  /** A tracked session's own recorded lifetime is the one its token was minted with. */
  lemma RecordedLifetime(s: State, u: User, e: Entry)
    requires Inv(s) && e in s.store.Tracked(u)
    ensures e.jti in s.tokens && s.tokens[e.jti].user == u && e.score == s.tokens[e.jti].since
    ensures SessionTtl(s.store.Described(u), e.jti, s.lifetime) == s.tokens[e.jti].ttl
    ensures LifetimeOk(s, s.tokens[e.jti])
  {
    assert SetOk(s, u) && MetaOk(s, u);
    assert EntryOk(s, u, e, s.store.sets[u].expiry);
    assert e.jti in Jtis(s.store.sets[u].z);
    assert Records(s, s.store.meta[u].fields[e.jti], e.jti);
  }

  /** Unless the setting was shortened, a revocation blocklists for the current lifetime. */
  lemma BlocklistTtlIsLifetime(s: State, u: User)
    requires Inv(s) && !s.shortened
    ensures TtlFor(s, u) == s.lifetime
  {
    forall e | e in s.store.Tracked(u)
      ensures e.score <= s.store.now && SessionTtl(s.store.Described(u), e.jti, s.lifetime) <= s.lifetime
    {
      RecordedLifetime(s, u, e);
    }
  }

  /** A revocation's duration falls short of no tracked token's remaining life by a second. */
  lemma TtlCovers(s: State, u: User, e: Entry)
    requires Inv(s) && e in s.store.Tracked(u)
    ensures e.jti in s.tokens && s.tokens[e.jti].exp - 1.0 < s.store.now + TtlFor(s, u) as real
    ensures !s.shortened ==> s.tokens[e.jti].exp <= s.store.now + TtlFor(s, u) as real
  {
    RecordedLifetime(s, u, e);
    var left := e.score + s.tokens[e.jti].ttl as real - s.store.now;
    assert TtlFor(s, u) >= SecondsLeft(e, s.store.Described(u), s.store.now, s.lifetime) == left.Floor;
  }

  /** Blocklisting tracked members for the revocation's duration, then dropping them. */
  lemma RevocationKeeps(s: State, u: User, gone: set<Jti>)
    requires Inv(s) && gone <= Jtis(s.store.Tracked(u))
    ensures Inv(s.(store := s.store.Block(gone, TtlFor(s, u)).Drop(u, gone), revoked := s.revoked + gone))
  {
    var ttl := TtlFor(s, u);
    forall j | j in gone
      ensures j in s.tokens && s.tokens[j].exp - 1.0 < s.store.now + ttl as real
      ensures !s.shortened ==> s.tokens[j].exp <= s.store.now + ttl as real
    {
      var e :| e in s.store.Tracked(u) && e.jti == j;
      TtlCovers(s, u, e);
    }
    BlockKeeps(s, gone, ttl, {}, gone);
    var s1 := s.(store := s.store.Block(gone, ttl), revoked := s.revoked + gone);
    assert s1 == s1.(loggedOut := s.loggedOut + {});
    DropKeeps(s1, u, gone);
  }

  lemma RevokeKeeps(s: State, op: Op)
    requires Inv(s) && (op.RevokeOne? || op.RevokeOthers?)
    ensures Inv(Apply(s, op))
  {
    var u, ttl := op.user, TtlFor(s, op.user);
    if op.RevokeOne? {
      if op.jti in Jtis(s.store.Tracked(u)) {
        RevocationKeeps(s, u, {op.jti});
        DropBlockCommute(s.store, u, {op.jti}, {op.jti}, ttl);
      } else {
        assert Apply(s, op) == s;
      }
    } else {
      var gone := s.store.Swept(u, op.keep);
      if gone != {} {
        RevocationKeeps(s, u, gone);
        SweepIsBlockThenDrop(s, u, ttl, op.keep);
      } else {
        assert Apply(s, op) == s;
      }
    }
  }

  lemma PrunedAreDead(s: State, u: User, j: Jti)
    requires Inv(s) && j in Pruned(s, u)
    ensures j in s.tokens && s.tokens[j].exp <= s.store.now
  {
    var about := s.store.Described(u);
    var e :| e in s.store.Tracked(u) && e.score + SessionTtl(about, e.jti, s.lifetime) as real <= s.store.now
             && e.jti == j;
    RecordedLifetime(s, u, e);
  }

  lemma ListKeeps(s: State, u: User)
    requires Inv(s)
    ensures Inv(Apply(s, List(u)))
  {
    forall j | j in Pruned(s, u) && j in Jtis(s.store.Tracked(u)) ensures Protected(s, j) {
      PrunedAreDead(s, u, j);
    }
    DropKeeps(s, u, Pruned(s, u));
  }

  lemma ConfigureKeeps(s: State, lifetime: nat)
    requires Inv(s) && lifetime >= 1
    ensures Inv(Apply(s, Configure(lifetime)))
  {
    var s' := Apply(s, Configure(lifetime));
    forall u ensures SetOk(s', u) && MetaOk(s', u) {
      assert SetOk(s, u) && MetaOk(s, u);
      SameKeysKeep(s, s', u);
    }
    forall j ensures TokenOk(s', j) {
      assert TokenOk(s, j);
    }
    forall k | k in s'.tokens ensures LifetimeOk(s', s'.tokens[k]) {
      assert LifetimeOk(s, s.tokens[k]);
    }
  }

  lemma ApplyKeeps(s: State, op: Op)
    requires Inv(s)
    ensures Inv(Apply(s, op)) && Apply(s, op).cap == s.cap
  {
    if Enabled(s, op) {
      match op
      case Login(u, j, exp, text) => LoginKeeps(s, u, j, exp, text);
      case Logout(u, j) => LogoutKeeps(s, u, j);
      case RevokeOne(_, _) => RevokeKeeps(s, op);
      case RevokeOthers(_, _) => RevokeKeeps(s, op);
      case List(u) => ListKeeps(s, u);
      case Configure(lifetime) => ConfigureKeeps(s, lifetime);
      case Tick(dt) => TickKeeps(s, dt);
    }
  }

  lemma {:induction false} RunKeeps(s: State, ops: seq<Op>)
    requires Inv(s)
    ensures Inv(Run(s, ops)) && Run(s, ops).cap == s.cap
    decreases |ops|
  {
    if ops != [] {
      ApplyKeeps(s, ops[0]);
      RunKeeps(Apply(s, ops[0]), ops[1..]);
    }
  }

  // ----- what every run of calls guarantees -----

  lemma RunHolds(lifetime: nat, cap: int, now: real, ops: seq<Op>)
    requires lifetime >= 1
    ensures Inv(Run(Init(lifetime, cap, now), ops)) && Run(Init(lifetime, cap, now), ops).cap == cap
  {
    assert Inv(Init(lifetime, cap, now));
    RunKeeps(Init(lifetime, cap, now), ops);
  }

  /** As long as a user's sign-ins meet their guard, every live token of the user is tracked or
      blocklisted; only in the last second of its life may one be neither, if it was logged out,
      or revoked after the setting was shortened. A setting never shortened meets every guard. */
  lemma LiveTokensAreTrackedOrBlocklisted(lifetime: nat, cap: int, now: real, ops: seq<Op>, j: Jti)
    requires lifetime >= 1
    ensures var s := Run(Init(lifetime, cap, now), ops);
            && (j in s.tokens && s.tokens[j].user !in s.exposed && s.store.now < s.tokens[j].exp ==>
                  || j in Jtis(s.store.Tracked(s.tokens[j].user))
                  || j in s.store.blocked
                  || (s.tokens[j].exp - s.store.now < 1.0 && (j in s.loggedOut || (s.shortened && j in s.revoked))))
            && (!s.shortened ==> s.exposed == {})
  {
    RunHolds(lifetime, cap, now, ops);
    assert TokenOk(Run(Init(lifetime, cap, now), ops), j);
  }

  /** What the history in a state says of the run that led there. */
  datatype Mark = Exposed(user: User) | LoggedOut(jti: Jti) | Revoked(jti: Jti) | Shortened

  predicate Marked(s: State, m: Mark) {
    match m
    case Exposed(u) => u in s.exposed
    case LoggedOut(j) => j in s.loggedOut
    case Revoked(j) => j in s.revoked
    case Shortened => s.shortened
  }

  /** The call is what the mark stands for: a sign-in of the user that finds a tracked token outliving
      the current lifetime; the logout of the live token by its own user; a revocation that finds the
      token tracked and does not keep it; a change of the setting to a lower one. */
  predicate Makes(s: State, op: Op, m: Mark) {
    match m
    case Exposed(u) =>
      && op.Login? && op.user == u
      && op.jti !in s.tokens && s.store.now < op.exp <= s.store.now + s.lifetime as real
      && exists k <- Jtis(s.store.Tracked(u)) :: k in s.tokens && s.tokens[k].exp > s.store.now + s.lifetime as real
    case LoggedOut(j) =>
      && op.Logout? && op.jti == j
      && j in s.tokens && s.tokens[j].user == op.user && s.store.now < s.tokens[j].exp
    case Revoked(j) =>
      || (op.RevokeOne? && op.jti == j && j in Jtis(s.store.Tracked(op.user)))
      || (op.RevokeOthers? && op.keep != Some(j) && j in Jtis(s.store.Tracked(op.user)))
    case Shortened => op.Configure? && 1 <= op.lifetime < s.lifetime
  }

  lemma MarkStep(s: State, op: Op, m: Mark)
    ensures Marked(Apply(s, op), m) <==> Marked(s, m) || Makes(s, op, m)
  {
  }

  lemma PrefixShift(s: State, ops: seq<Op>, n: nat)
    requires n + 1 < |ops|
    ensures Run(s, ops[..n + 1]) == Run(Apply(s, ops[0]), ops[1..][..n]) && ops[1..][n] == ops[n + 1]
  {
    assert ops[..n + 1][1..] == ops[1..][..n];
  }

  /** The `n`-th call of the run makes the mark. */
  predicate MakesAt(s: State, ops: seq<Op>, n: nat, m: Mark) {
    n < |ops| && Makes(Run(s, ops[..n]), ops[n], m)
  }

  lemma MakesShift(s: State, ops: seq<Op>, n: nat, m: Mark)
    requires ops != []
    ensures MakesAt(s, ops, 0, m) <==> Makes(s, ops[0], m)
    ensures MakesAt(s, ops, n + 1, m) <==> MakesAt(Apply(s, ops[0]), ops[1..], n, m)
  {
    assert ops[..0] == [];
    if n + 1 < |ops| {
      PrefixShift(s, ops, n);
    }
  }

  /** The history is what happened: a mark is there exactly when some call of the run made it. */
  lemma {:induction false} HistoryIsWhatHappened(s: State, ops: seq<Op>, m: Mark)
    ensures Marked(Run(s, ops), m) <==> Marked(s, m) || exists n :: MakesAt(s, ops, n, m)
    decreases |ops|
  {
    if ops != [] {
      var s', rest := Apply(s, ops[0]), ops[1..];
      MarkStep(s, ops[0], m);
      HistoryIsWhatHappened(s', rest, m);
      MakesShift(s, ops, 0, m);
      if n: nat :| MakesAt(s', rest, n, m) {
        MakesShift(s, ops, n, m);
      }
      if n: nat :| MakesAt(s, ops, n, m) {
        if n > 0 {
          MakesShift(s, ops, n - 1, m);
        }
      }
    }
  }

  /** Whatever happens to the setting, descriptions belong to exactly the tracked sessions, each
      recording its own token's lifetime, and no user is over the cap. */
  lemma DescriptionsFollowMembership(lifetime: nat, cap: int, now: real, ops: seq<Op>, u: User)
    requires lifetime >= 1
    ensures var s := Run(Init(lifetime, cap, now), ops);
            && s.store.Described(u).Keys == Jtis(s.store.Tracked(u))
            && (forall j <- s.store.Described(u) :: Records(s, s.store.Described(u)[j], j))
            && (cap > 0 ==> |s.store.Tracked(u)| <= cap)
  {
    RunHolds(lifetime, cap, now, ops);
    assert SetOk(Run(Init(lifetime, cap, now), ops), u) && MetaOk(Run(Init(lifetime, cap, now), ops), u);
  }

  lemma OnlyOthersAreSwept(s: State, u: User, j: Jti)
    requires j in Jtis(s.store.Tracked(u))
    ensures var s' := Apply(s, RevokeOthers(u, Some(j)));
            j in Jtis(s'.store.Tracked(u)) && SameEntry(s, s', j)
  {
    var e :| e in s.store.Tracked(u) && e.jti == j;
    SweepSparesTheKept(s.store, u, TtlFor(s, u), Some(j));
    assert e in Apply(s, RevokeOthers(u, Some(j))).store.Tracked(u);
    BlockTouchesOnly(s.store, s.store.Swept(u, Some(j)), TtlFor(s, u), j);
  }

  /** As long as a user's sign-ins meet their guard, revoking the user's sessions ends every live token
      of that user but the kept one, with a blocklist entry that outlasts the token, or, for one
      logged out, or revoked after the setting was shortened, falls short of it by less than a
      second. The kept session stays tracked, and is not blocklisted. */
  lemma RevokingEndsEverySession(lifetime: nat, cap: int, now: real, ops: seq<Op>, u: User, keep: Option<Jti>, j: Jti)
    requires lifetime >= 1
    ensures var s := Run(Init(lifetime, cap, now), ops);
            var s' := Apply(s, RevokeOthers(u, keep));
            u !in s.exposed && j in s.tokens && s.tokens[j].user == u
            && s.store.now < s.tokens[j].exp && Some(j) != keep ==>
              j !in Jtis(s'.store.Tracked(u))
              && (BlockedUntil(s', j, s.tokens[j].exp) || Lapsing(s', j, s.tokens[j].exp))
    ensures var s := Run(Init(lifetime, cap, now), ops);
            var s' := Apply(s, RevokeOthers(u, Some(j)));
            j in Jtis(s.store.Tracked(u)) ==> j in Jtis(s'.store.Tracked(u)) && SameEntry(s, s', j)
  {
    if j in Jtis(Run(Init(lifetime, cap, now), ops).store.Tracked(u)) {
      OnlyOthersAreSwept(Run(Init(lifetime, cap, now), ops), u, j);
    }
    RunHolds(lifetime, cap, now, ops);
    var s := Run(Init(lifetime, cap, now), ops);
    ApplyKeeps(s, RevokeOthers(u, keep));
    var s' := Apply(s, RevokeOthers(u, keep));
    assert TokenOk(s', j);
    if s.store.Swept(u, keep) != {} {
      SweepIsBlockThenDrop(s, u, TtlFor(s, u), keep);
      var gone := s.store.Swept(u, keep);
      assert s'.store.Tracked(u) == Remove(s.store.Tracked(u), gone);
    } else if Some(j) != keep {
      assert j in Jtis(s.store.Tracked(u)) ==> j in s.store.Swept(u, keep);
    }
  }

  /** A blocklist duration is below `x` exactly when the setting is, and each session's own
      remaining life in whole seconds. */
  lemma {:induction false} TtlBelow(z: ZSet, about: map<Jti, About>, now: real, lifetime: nat, x: real)
    ensures BlocklistTtl(z, about, now, lifetime) as real < x <==>
            lifetime as real < x && forall e <- z :: SecondsLeft(e, about, now, lifetime) as real < x
    decreases |z|
  {
    if z != [] {
      var n := |z| - 1;
      TtlBelow(z[..n], about, now, lifetime, x);
      assert z == z[..n] + [z[n]];
    }
  }

  /** The life left to a session by its own token's lifetime, in whole seconds. */
  function OwnSecondsLeft(s: State, e: Entry): int
    requires e.jti in s.tokens
  {
    (e.score + s.tokens[e.jti].ttl as real - s.store.now).Floor
  }

  /** The current setting, and every tracked session's own remaining life in whole seconds, are
      below `left`. */
  predicate AllBelow(s: State, u: User, left: real) {
    && s.lifetime as real < left
    && forall e <- s.store.Tracked(u) :: e.jti in s.tokens && OwnSecondsLeft(s, e) as real < left
  }

  /** Right after the revocation of `j` in state `s`. */
  predicate LapsesExactlyWhenBelow(s: State, s': State, u: User, j: Jti) {
    && j in s.tokens && j in s'.store.blocked
    && (s'.store.blocked[j] < s.tokens[j].exp <==> AllBelow(s, u, s.tokens[j].exp - s.store.now))
    && s.tokens[j].exp - 1.0 < s'.store.blocked[j]
    && (s'.store.blocked[j] < s.tokens[j].exp ==> s.shortened)
  }

  lemma SecondsLeftAreItsOwn(s: State, u: User, e: Entry)
    requires Inv(s) && e in s.store.Tracked(u)
    ensures e.jti in s.tokens
    ensures SecondsLeft(e, s.store.Described(u), s.store.now, s.lifetime) == OwnSecondsLeft(s, e)
  {
    RecordedLifetime(s, u, e);
  }

  lemma TtlIsBelow(s: State, u: User, left: real)
    requires Inv(s)
    ensures TtlFor(s, u) as real < left <==> AllBelow(s, u, left)
  {
    var z, about := s.store.Tracked(u), s.store.Described(u);
    TtlBelow(z, about, s.store.now, s.lifetime, left);
    if TtlFor(s, u) as real < left {
      forall e | e in z ensures e.jti in s.tokens && OwnSecondsLeft(s, e) as real < left {
        SecondsLeftAreItsOwn(s, u, e);
      }
    }
    if AllBelow(s, u, left) {
      forall e | e in z ensures SecondsLeft(e, about, s.store.now, s.lifetime) as real < left {
        SecondsLeftAreItsOwn(s, u, e);
      }
    }
  }

  lemma RevokedBlocksForTtl(s: State, op: Op, j: Jti)
    requires Inv(s) && (op.RevokeOne? || op.RevokeOthers?) && j in Jtis(s.store.Tracked(op.user))
    requires if op.RevokeOne? then j == op.jti else Some(j) != op.keep
    ensures var s' := Apply(s, op);
            && j !in Jtis(s'.store.Tracked(op.user))
            && j in s'.store.blocked && s'.store.blocked[j] == s.store.now + TtlFor(s, op.user) as real
  {
    var u, ttl := op.user, TtlFor(s, op.user);
    assert j in s.store.Block({j}, ttl).blocked;
    if op.RevokeOthers? {
      var gone := s.store.Swept(u, op.keep);
      assert j in gone;
      SweepIsBlockThenDrop(s, u, ttl, op.keep);
      assert Apply(s, op).store.Tracked(u) == Remove(s.store.Tracked(u), gone);
    }
  }

  /** Revoking a tracked session takes it out and blocklists it. Whatever happened to the
      setting, the entry lapses before the token exactly when the current setting, and every
      tracked session's own remaining life in whole seconds, fall short of the token's; by less
      than a second, and only if the setting was shortened. */
  lemma RevocationEntryLapsesEarly(lifetime: nat, cap: int, now: real, ops: seq<Op>, op: Op, j: Jti)
    requires lifetime >= 1 && (op.RevokeOne? || op.RevokeOthers?)
    requires if op.RevokeOne? then j == op.jti else Some(j) != op.keep
    ensures var s := Run(Init(lifetime, cap, now), ops);
            var s' := Apply(s, op);
            j in Jtis(s.store.Tracked(op.user)) ==>
              j !in Jtis(s'.store.Tracked(op.user)) && LapsesExactlyWhenBelow(s, s', op.user, j)
  {
    RunHolds(lifetime, cap, now, ops);
    var s := Run(Init(lifetime, cap, now), ops);
    if j in Jtis(s.store.Tracked(op.user)) {
      RevocationLapses(s, op, j);
    }
  }

  lemma RevocationLapses(s: State, op: Op, j: Jti)
    requires Inv(s) && (op.RevokeOne? || op.RevokeOthers?) && j in Jtis(s.store.Tracked(op.user))
    requires if op.RevokeOne? then j == op.jti else Some(j) != op.keep
    ensures var s' := Apply(s, op);
            j !in Jtis(s'.store.Tracked(op.user)) && LapsesExactlyWhenBelow(s, s', op.user, j)
  {
    var u := op.user;
    var e :| e in s.store.Tracked(u) && e.jti == j;
    TtlCovers(s, u, e);
    RevokedBlocksForTtl(s, op, j);
    LapsesWhenBelow(s, Apply(s, op), u, j);
  }

  lemma LapsesWhenBelow(s: State, s': State, u: User, j: Jti)
    requires Inv(s) && j in s.tokens && j in s'.store.blocked
    requires s'.store.blocked[j] == s.store.now + TtlFor(s, u) as real
    requires s.tokens[j].exp - 1.0 < s.store.now + TtlFor(s, u) as real
    requires !s.shortened ==> s.tokens[j].exp <= s.store.now + TtlFor(s, u) as real
    ensures LapsesExactlyWhenBelow(s, s', u, j)
  {
    TtlIsBelow(s, u, s.tokens[j].exp - s.store.now);
  }

  /** Whatever happened to the setting, listing prunes a session exactly when the lifetime
      recorded for it is over, and its token is then dead. */
  lemma ListingPrunesTheDead(lifetime: nat, cap: int, now: real, ops: seq<Op>, u: User, j: Jti)
    requires lifetime >= 1
    requires j in Jtis(Run(Init(lifetime, cap, now), ops).store.Tracked(u))
    ensures var s := Run(Init(lifetime, cap, now), ops);
            && j in s.tokens
            && (j in Pruned(s, u) <==> s.tokens[j].since + s.tokens[j].ttl as real <= s.store.now)
            && (j in Pruned(s, u) ==> s.tokens[j].exp <= s.store.now)
  {
    RunHolds(lifetime, cap, now, ops);
    var s := Run(Init(lifetime, cap, now), ops);
    var e :| e in s.store.Tracked(u) && e.jti == j;
    RecordedLifetime(s, u, e);
    if j in Pruned(s, u) {
      var about := s.store.Described(u);
      var x :| x in s.store.Tracked(u) && x.score + SessionTtl(about, x.jti, s.lifetime) as real <= s.store.now
               && x.jti == j;
      RecordedLifetime(s, u, x);
    }
  }

  /** An eviction blocklists for the current setting, whatever lifetime the evicted token has:
      its entry lapses before the token exactly when the token has longer to live than that,
      which takes a shortened setting. */
  lemma EvictionEntryLapsesEarly(lifetime: nat, cap: int, now: real, ops: seq<Op>, login: Op, k: Jti)
    requires lifetime >= 1 && login.Login? && k != login.jti
    ensures var s := Run(Init(lifetime, cap, now), ops);
            var s' := Apply(s, login);
            Enabled(s, login) && k in Members(s.store.Evicted(login.user, login.jti, s.cap)) ==>
              && k in s.tokens && k in s'.store.blocked
              && (s'.store.blocked[k] < s.tokens[k].exp <==> s.lifetime as real < s.tokens[k].exp - s.store.now)
              && (s'.store.blocked[k] < s.tokens[k].exp ==> s.shortened)
  {
    RunHolds(lifetime, cap, now, ops);
    var s := Run(Init(lifetime, cap, now), ops);
    var u, j := login.user, login.jti;
    if Enabled(s, login) && k in Members(s.store.Evicted(u, j, s.cap)) {
      var z := s.store.Joined(u, j);
      assert k in Jtis(z);
      var e :| e in z && e.jti == k;
      assert e in s.store.Tracked(u);
      RecordedLifetime(s, u, e);
    }
  }

  /** The token is tracked under a key that lives as long, or blocklisted for as long. */
  predicate CoveredToTheEnd(s: State, k: Jti) {
    k in s.tokens && var t := s.tokens[k];
    || (t.user in s.store.sets && k in Jtis(s.store.sets[t.user].z) && t.exp <= s.store.sets[t.user].expiry)
    || BlockedUntil(s, k, t.exp)
  }

  /** After another sign-in of its user, a tracked token is covered to its end exactly when it
      does not outlive the current lifetime, whether the sign-in evicts it or not. */
  lemma SignInCoversExactly(lifetime: nat, cap: int, now: real, ops: seq<Op>, login: Op, k: Jti)
    requires lifetime >= 1 && login.Login? && k != login.jti
    ensures var s := Run(Init(lifetime, cap, now), ops);
            Enabled(s, login) && k in Jtis(s.store.Tracked(login.user)) && k !in s.store.blocked ==>
              && k in s.tokens
              && (CoveredToTheEnd(Apply(s, login), k) <==> s.tokens[k].exp <= s.store.now + s.lifetime as real)
  {
    RunHolds(lifetime, cap, now, ops);
    var s := Run(Init(lifetime, cap, now), ops);
    if Enabled(s, login) && k in Jtis(s.store.Tracked(login.user)) && k !in s.store.blocked {
      var e :| e in s.store.Tracked(login.user) && e.jti == k;
      RecordedLifetime(s, login.user, e);
      SignInCovers(s, login.user, login.jti, login.exp, login.text, k);
    }
  }

  lemma AfterEviction(s: Store, u: User, gone: set<Jti>, ttl: int)
    ensures var s' := s.Drop(u, gone).Block(gone, ttl);
            && s'.Tracked(u) == Remove(s.Tracked(u), gone)
            && (u in s'.sets ==> u in s.sets && s'.sets[u].expiry == s.sets[u].expiry)
            && (forall k <- gone :: k in s'.blocked && s'.blocked[k] == s.now + ttl as real)
            && (forall k :: k !in gone && k !in s.blocked ==> k !in s'.blocked)
  {
    TrackedAfterDrop(s, u, gone);
  }

  lemma SignInCovers(s: State, u: User, j: Jti, exp: real, text: string, k: Jti)
    requires Inv(s) && Enabled(s, Login(u, j, exp, text)) && k != j
    requires k in Jtis(s.store.Tracked(u)) && k !in s.store.blocked && k in s.tokens && s.tokens[k].user == u
    ensures CoveredToTheEnd(Apply(s, Login(u, j, exp, text)), k)
            <==> s.tokens[k].exp <= s.store.now + s.lifetime as real
  {
    var s', out := Apply(s, Login(u, j, exp, text)), s.store.Evicted(u, j, s.cap);
    var enrolled := s.store.Enroll(u, j, s.lifetime, Note(s, text));
    LoginIs(s, u, j, exp, text);
    EnrollJoins(s.store, u, j, s.lifetime, Note(s, text));
    assert k in Jtis(enrolled.Tracked(u)) && s'.tokens[k] == s.tokens[k];
    if out != [] {
      AfterEviction(enrolled, u, Members(out), s.lifetime);
      assert s'.store == enrolled.Drop(u, Members(out)).Block(Members(out), s.lifetime);
      RemovedOrStays(enrolled.Tracked(u), Members(out), k);
    } else {
      assert s'.store == enrolled;
    }
  }

  lemma RemovedOrStays(z: ZSet, gone: set<Jti>, k: Jti)
    ensures k in Jtis(Remove(z, gone)) <==> k in Jtis(z) && k !in gone
  {
    if k in Jtis(z) && k !in gone {
      var e :| e in z && e.jti == k;
      assert e in Remove(z, gone);
    }
  }

  lemma {:induction false} RunThen(s: State, ops: seq<Op>, op: Op)
    ensures Run(s, ops + [op]) == Apply(Run(s, ops), op)
    decreases |ops|
  {
    if ops == [] {
      assert [op][1..] == [] && [] + [op] == [op];
      assert Run(s, [op]) == Run(Apply(s, op), []);
    } else {
      assert (ops + [op])[1..] == ops[1..] + [op];
      RunThen(Apply(s, ops[0]), ops[1..], op);
    }
  }

  lemma RunThree(s: State, a: Op, b: Op, c: Op)
    ensures Run(s, [a, b, c]) == Apply(Apply(Apply(s, a), b), c)
  {
    RunThen(s, [], a);
    RunThen(s, [a], b);
    RunThen(s, [a, b], c);
    assert [] + [a] == [a] && [a] + [b] == [a, b] && [a, b] + [c] == [a, b, c];
  }

  /** Shortening the setting can lose a live token, at every cap: `u` signs in, the setting is
      shortened, `u` signs in again, and once the new lifetime has passed the first token still
      authenticates, though nothing tracks or blocklists it. */
  lemma ShorteningCanLoseAToken(long: nat, short: nat, cap: int, now: real, u: User, j: Jti, k: Jti)
    requires long > short >= 1 && j != k
    ensures var ops := [Login(u, j, now + long as real, ""), Configure(short),
                        Login(u, k, now + short as real, ""), Tick(short as real)];
            var s := Run(Init(long, cap, now), ops);
            && j in s.tokens && s.store.now < s.tokens[j].exp && j !in s.loggedOut
            && j !in Jtis(s.store.Tracked(u)) && j !in s.store.blocked
  {
    var s0 := Init(long, cap, now);
    var first, second := Login(u, j, now + long as real, ""), Login(u, k, now + short as real, "");
    RunThree(s0, first, Configure(short), second);
    RunThen(s0, [first, Configure(short), second], Tick(short as real));
    assert [first, Configure(short), second] + [Tick(short as real)]
        == [first, Configure(short), second, Tick(short as real)];
    FirstSession(s0, u, j, now + long as real);
    var s2 := Apply(Apply(s0, first), Configure(short));
    KeyIsRefreshed(s2, u, k, now + short as real);
    TickPassesKeys(Apply(s2, second), u, short as real);
  }

  lemma TickPassesKeys(s: State, u: User, dt: real)
    requires dt >= 0.0
    requires u in s.store.sets ==> s.store.sets[u].expiry == s.store.now + dt
    requires forall j <- s.store.blocked :: s.store.blocked[j] == s.store.now + dt
    ensures var s' := Apply(s, Tick(dt));
            && s'.store.Tracked(u) == [] && s'.store.blocked == map[] && s'.store.now == s.store.now + dt
            && s'.tokens == s.tokens && s'.loggedOut == s.loggedOut
  {
  }

  /** The token still authenticates: it is live, and no entry stops it. */
  predicate Authenticates(s: State, j: Jti) {
    j in s.tokens && s.store.now < s.tokens[j].exp && j !in s.store.blocked
  }

  /** A revoked token authenticates again, though it was never logged out: `u` signs in, the
      setting is shortened, `u` revokes that session half a second later, and from half a second
      before the token's end it is neither blocklisted nor tracked. */
  lemma RevokedTokenAuthenticatesAgain(long: nat, short: nat, cap: int, now: real, u: User, j: Jti)
    requires long > short + 1 && short >= 1
    ensures var ops := [Login(u, j, now + long as real, ""), Configure(short), Tick(0.5), RevokeOne(u, j)];
            var revoked := Run(Init(long, cap, now), ops);
            var s := Apply(revoked, Tick(long as real - 1.0));
            && j in revoked.store.blocked && revoked.store.blocked[j] == now + long as real - 0.5
            && s.store.now == now + long as real - 0.5
            && Authenticates(s, j) && j !in Jtis(s.store.Tracked(u)) && j !in s.loggedOut
  {
    var s0 := Init(long, cap, now);
    var ops, s3 := HalfASecondLater(s0, u, j, short);
    RunThen(s0, ops, RevokeOne(u, j));
    assert ops + [RevokeOne(u, j)]
        == [Login(u, j, now + long as real, ""), Configure(short), Tick(0.5), RevokeOne(u, j)];
    LoneIsRevoked(s3, u, j, s3.tokens[j]);
    TickPassesEntries(Apply(s3, RevokeOne(u, j)), u, long as real - 1.0);
  }

  lemma HalfASecondLater(s: State, u: User, j: Jti, short: nat) returns (ops: seq<Op>, s3: State)
    requires s.store.sets == map[] && s.store.meta == map[] && s.store.blocked == map[]
    requires j !in s.tokens && j !in s.loggedOut && s.lifetime > short + 1 && short >= 1
    ensures ops == [Login(u, j, s.store.now + s.lifetime as real, ""), Configure(short), Tick(0.5)] && s3 == Run(s, ops)
    ensures Lone(s3, u, j, Token(u, s.store.now + s.lifetime as real, s.store.now, s.lifetime))
    ensures s3.store.now == s.store.now + 0.5 && s3.lifetime == short
  {
    var exp := s.store.now + s.lifetime as real;
    var first := Login(u, j, exp, "");
    ops := [first, Configure(short), Tick(0.5)];
    FirstSession(s, u, j, exp);
    var s1 := Apply(s, first);
    LoneIsConfigured(s1, u, j, s1.tokens[j], short);
    var s2 := Apply(s1, Configure(short));
    LoneWaits(s2, u, j, s1.tokens[j], 0.5);
    s3 := Apply(s2, Tick(0.5));
    assert s3 == Run(s, ops) by {
      RunThree(s, first, Configure(short), Tick(0.5));
    }
  }

  /** `u` has one session, `j`, and nothing is blocklisted. */
  ghost predicate Lone(s: State, u: User, j: Jti, t: Token) {
    && s.store.sets == map[u := SetKey([Entry(j, t.since)], t.exp)]
    && s.store.Described(u) == map[j := About("", Some(t.ttl))]
    && s.store.blocked == map[]
    && j in s.tokens && s.tokens[j] == t && j !in s.loggedOut
  }

  lemma LoneIsConfigured(s: State, u: User, j: Jti, t: Token, lifetime: nat)
    requires Lone(s, u, j, t) && lifetime >= 1
    ensures var s' := Apply(s, Configure(lifetime));
            Lone(s', u, j, t) && s'.lifetime == lifetime && s'.store == s.store
  {
  }

  lemma LoneWaits(s: State, u: User, j: Jti, t: Token, dt: real)
    requires Lone(s, u, j, t) && dt >= 0.0 && s.store.now + dt < t.exp
    requires u in s.store.meta && s.store.meta[u].expiry == t.exp
    ensures var s' := Apply(s, Tick(dt));
            Lone(s', u, j, t) && s'.lifetime == s.lifetime && s'.store.now == s.store.now + dt
  {
  }

  lemma LoneIsRevoked(s: State, u: User, j: Jti, t: Token)
    requires Lone(s, u, j, t) && t.ttl >= 1 && t.exp == t.since + t.ttl as real && s.store.now == t.since + 0.5
    requires s.lifetime < t.ttl
    ensures var s' := Apply(s, RevokeOne(u, j));
            && s'.store.Tracked(u) == [] && s'.store.now == s.store.now
            && s'.tokens == s.tokens && s'.loggedOut == s.loggedOut
            && s'.store.blocked == map[j := t.exp - 0.5]
  {
    var z, about := [Entry(j, t.since)], s.store.Described(u);
    assert z[..0] == [] && BlocklistTtl([], about, s.store.now, s.lifetime) == s.lifetime;
    assert t.since + t.ttl as real - s.store.now == t.ttl as real - 0.5;
    assert SecondsLeft(z[0], about, s.store.now, s.lifetime) == t.ttl - 1;
    assert TtlFor(s, u) == t.ttl - 1;
    assert j in Jtis(z) && Remove(z, {j}) == [];
  }

  lemma TickPassesEntries(s: State, u: User, dt: real)
    requires dt >= 0.0 && s.store.Tracked(u) == []
    requires forall j <- s.store.blocked :: s.store.blocked[j] <= s.store.now + dt
    ensures var s' := Apply(s, Tick(dt));
            && s'.store.Tracked(u) == [] && s'.store.blocked == map[] && s'.store.now == s.store.now + dt
            && s'.tokens == s.tokens && s'.loggedOut == s.loggedOut
  {
  }

  /** A user's first session, alone in the store. */
  lemma FirstSession(s: State, u: User, j: Jti, exp: real)
    requires s.store.sets == map[] && s.store.meta == map[] && s.store.blocked == map[]
    requires Enabled(s, Login(u, j, exp, ""))
    ensures var s', expiry := Apply(s, Login(u, j, exp, "")), s.store.now + s.lifetime as real;
            && s'.store.sets == map[u := SetKey([Entry(j, s.store.now)], expiry)]
            && s'.store.meta == map[u := HashKey(map[j := Note(s, "").value], expiry)]
            && s'.store.blocked == map[] && s'.store.now == s.store.now
            && s'.tokens == s.tokens[j := Token(u, exp, s.store.now, s.lifetime)] && s'.loggedOut == s.loggedOut
  {
    assert s.store.Joined(u, j) == [Entry(j, s.store.now)];
    assert s.store.Evicted(u, j, s.cap) == [];
    LoginIs(s, u, j, exp, "");
  }

  /** A logged-out token authenticates again for its last half second when it is logged out with
      a second and a half to live. */
  lemma LoggedOutTokenAuthenticatesAgain(lifetime: nat, cap: int, now: real, u: User, j: Jti)
    requires lifetime >= 2
    ensures var ops := [Login(u, j, now + lifetime as real, ""), Tick(lifetime as real - 1.5), Logout(u, j), Tick(1.0)];
            var s := Run(Init(lifetime, cap, now), ops);
            Authenticates(s, j) && j in s.loggedOut && s.store.now == now + lifetime as real - 0.5
  {
    var s0 := Init(lifetime, cap, now);
    var ops, s3 := LoggedOutLate(s0, u, j);
    RunThen(s0, ops, Tick(1.0));
    assert ops + [Tick(1.0)]
        == [Login(u, j, now + lifetime as real, ""), Tick(lifetime as real - 1.5), Logout(u, j), Tick(1.0)];
    TickPassesEntries(s3, u, 1.0);
  }

  lemma LoggedOutLate(s: State, u: User, j: Jti) returns (ops: seq<Op>, s3: State)
    requires s.store.sets == map[] && s.store.meta == map[] && s.store.blocked == map[]
    requires j !in s.tokens && j !in s.loggedOut && s.lifetime >= 2
    ensures var exp := s.store.now + s.lifetime as real;
            && ops == [Login(u, j, exp, ""), Tick(s.lifetime as real - 1.5), Logout(u, j)] && s3 == Run(s, ops)
            && s3.store.now == exp - 1.5 && s3.store.blocked == map[j := exp - 0.5] && s3.store.Tracked(u) == []
            && j in s3.tokens && s3.tokens[j].exp == exp && j in s3.loggedOut
  {
    var exp, wait := s.store.now + s.lifetime as real, Tick(s.lifetime as real - 1.5);
    var first := Login(u, j, exp, "");
    ops := [first, wait, Logout(u, j)];
    FirstSession(s, u, j, exp);
    var s1 := Apply(s, first);
    LoneWaits(s1, u, j, s1.tokens[j], s.lifetime as real - 1.5);
    var s2 := Apply(s1, wait);
    LoneLogsOut(s2, u, j, s1.tokens[j]);
    s3 := Apply(s2, Logout(u, j));
    assert s3 == Run(s, ops) by {
      RunThree(s, first, wait, Logout(u, j));
    }
  }

  lemma LoneLogsOut(s: State, u: User, j: Jti, t: Token)
    requires Lone(s, u, j, t) && t.user == u && s.store.now == t.exp - 1.5
    ensures var s' := Apply(s, Logout(u, j));
            && s'.store.Tracked(u) == [] && s'.store.now == s.store.now && s'.tokens == s.tokens && j in s'.loggedOut
            && s'.store.blocked == map[j := t.exp - 0.5]
  {
    assert WholeSeconds(t.exp - s.store.now) == 1;
    assert Remove([Entry(j, t.since)], {j}) == [];
  }

  /** After a sign-in the tracking key lives for the current lifetime, like every entry it makes. */
  lemma KeyIsRefreshed(s: State, u: User, k: Jti, exp: real)
    requires s.store.blocked == map[] && Enabled(s, Login(u, k, exp, ""))
    ensures var s' := Apply(s, Login(u, k, exp, ""));
            var expiry := s.store.now + s.lifetime as real;
            && (u in s'.store.sets ==> s'.store.sets[u].expiry == expiry)
            && (forall j <- s'.store.blocked :: s'.store.blocked[j] == expiry)
            && s'.tokens == s.tokens[k := Token(u, exp, s.store.now, s.lifetime)]
            && s'.loggedOut == s.loggedOut && s'.store.now == s.store.now
  {
    LoginIs(s, u, k, exp, "");
  }

  lemma TrackedAfterTrack(s: Store, u: User, j: Jti, ttl: int, max: int, about: Option<About>)
    requires Valid(s.Tracked(u))
    ensures s.Track(u, j, ttl, max, about).Tracked(u) == s.Joined(u, j)[|s.Evicted(u, j, max)|..]
  {
    EnrollJoins(s, u, j, ttl, about);
    var out := s.Evicted(u, j, max);
    RemoveOverflow(s.Joined(u, j), max);
    if out != [] {
      TrackedAfterDrop(s.Enroll(u, j, ttl, about), u, Members(out));
    }
  }

  lemma TrackedAfterDrop(s: Store, u: User, gone: set<Jti>)
    ensures s.Drop(u, gone).Tracked(u) == Remove(s.Tracked(u), gone)
  {
  }

  /** The eviction splits the set: the overflow is the oldest part, the rest stays as it was. */
  lemma EvictionTakesTheOldest(s: Store, u: User, j: Jti, ttl: int, max: int, about: Option<About>)
    requires Valid(s.Tracked(u))
    ensures var z, out := s.Joined(u, j), s.Evicted(u, j, max);
            && |out| == (if max > 0 && |z| > max then |z| - max else 0)
            && (forall i | 0 <= i < |out| :: out[i] == z[i].jti)
            && s.Track(u, j, ttl, max, about).Tracked(u) == z[|out|..]
            && (forall a, b | 0 <= a < |out| <= b < |z| :: Before(z[a], z[b]))
  {
    TrackedAfterTrack(s, u, j, ttl, max, about);
  }

  /** A logged-out token's blocklist entry lapses before the token exactly when more than one
      second of life, and not a whole number of seconds, was left. */
  lemma LogoutEntryLapsesEarly(s: State, u: User, j: Jti)
    requires Enabled(s, Logout(u, j))
    ensures var left := s.tokens[j].exp - s.store.now;
            var s' := Apply(s, Logout(u, j));
            j in s'.store.blocked &&
            (s'.store.blocked[j] < s.tokens[j].exp <==> left > 1.0 && left != left.Floor as real)
  {
    var left := s.tokens[j].exp - s.store.now;
    var s1 := s.store.Block({j}, WholeSeconds(left));
    assert Apply(s, Logout(u, j)).store.blocked == s1.blocked;
    assert j in s1.blocked;
  }

  lemma DropIsIsolated(s: Store, u: User, gone: set<Jti>, v: User)
    requires u != v
    ensures s.Drop(u, gone).Tracked(v) == s.Tracked(v) && s.Drop(u, gone).Described(v) == s.Described(v)
  {
  }

  lemma LoginIsIsolated(s: State, op: Op, v: User)
    requires op.Login? && op.user != v && Enabled(s, op)
    ensures Apply(s, op).store.Tracked(v) == s.store.Tracked(v)
    ensures Apply(s, op).store.Described(v) == s.store.Described(v)
  {
    LoginIs(s, op.user, op.jti, op.exp, op.text);
    var enrolled := s.store.Enroll(op.user, op.jti, s.lifetime, Note(s, op.text));
    DropIsIsolated(enrolled, op.user, Members(s.store.Evicted(op.user, op.jti, s.cap)), v);
  }

  lemma RevokeIsIsolated(s: Store, u: User, ttl: int, j: Jti, v: User)
    requires u != v
    ensures s.Revoke(u, j, ttl).Tracked(v) == s.Tracked(v) && s.Revoke(u, j, ttl).Described(v) == s.Described(v)
  {
    DropIsIsolated(s, u, {j}, v);
  }

  lemma SweepIsIsolated(s: Store, u: User, ttl: int, keep: Option<Jti>, v: User)
    requires u != v
    ensures s.RevokeAll(u, ttl, keep).Tracked(v) == s.Tracked(v)
    ensures s.RevokeAll(u, ttl, keep).Described(v) == s.Described(v)
  {
    DropIsIsolated(s.Block(s.Swept(u, keep), ttl), u, s.Swept(u, keep), v);
  }

  /** No call of one user's touches another user's sessions; and revoking a session the user
      does not hold changes nothing, whoever holds it. */
  lemma UsersAreIsolated(s: State, op: Op, v: User)
    requires !op.Tick? && !op.Configure? && op.user != v
    ensures Apply(s, op).store.Tracked(v) == s.store.Tracked(v)
    ensures Apply(s, op).store.Described(v) == s.store.Described(v)
    ensures op.RevokeOne? && op.jti !in Jtis(s.store.Tracked(op.user)) ==> Apply(s, op) == s
  {
    if Enabled(s, op) {
      var u := op.user;
      match op
      case Login(_, _, _, _) => LoginIsIsolated(s, op, v);
      case Logout(_, j) =>
        DropIsIsolated(s.store.Block({j}, WholeSeconds(s.tokens[j].exp - s.store.now)), u, {j}, v);
      case RevokeOne(_, j) => RevokeIsIsolated(s.store, u, TtlFor(s, u), j, v);
      case RevokeOthers(_, keep) => SweepIsIsolated(s.store, u, TtlFor(s, u), keep, v);
      case List(_) => DropIsIsolated(s.store, u, Pruned(s, u), v);
    }
  }

  /** No call of one user's touches another user's blocklist entries: over every run, whether a token
      is blocklisted, and until when, only changes by its own user's calls. */
  lemma BlocklistIsIsolated(lifetime: nat, cap: int, now: real, ops: seq<Op>, op: Op, k: Jti)
    requires lifetime >= 1 && !op.Tick? && !op.Configure?
    ensures var s := Run(Init(lifetime, cap, now), ops);
            k in s.tokens && s.tokens[k].user != op.user ==> SameEntry(s, Apply(s, op), k)
  {
    RunHolds(lifetime, cap, now, ops);
    var s := Run(Init(lifetime, cap, now), ops);
    if k in s.tokens && s.tokens[k].user != op.user && Enabled(s, op) {
      OthersAreNotTracked(s, op.user, k);
      EntriesOfOthersStay(s, op, k);
    }
  }

  predicate SameEntry(s: State, s': State, k: Jti) {
    && (k in s'.store.blocked <==> k in s.store.blocked)
    && (k in s.store.blocked ==> s'.store.blocked[k] == s.store.blocked[k])
  }

  lemma OthersAreNotTracked(s: State, u: User, k: Jti)
    requires Inv(s) && k in s.tokens && s.tokens[k].user != u
    ensures k !in Jtis(s.store.Tracked(u))
  {
    if k in Jtis(s.store.Tracked(u)) {
      var e :| e in s.store.Tracked(u) && e.jti == k;
      RecordedLifetime(s, u, e);
      assert false;
    }
  }

  lemma BlockTouchesOnly(s: Store, js: set<Jti>, ttl: int, k: Jti)
    requires k !in js
    ensures k in s.Block(js, ttl).blocked <==> k in s.blocked
    ensures k in s.blocked ==> s.Block(js, ttl).blocked[k] == s.blocked[k]
  {
  }

  lemma EntriesOfOthersStay(s: State, op: Op, k: Jti)
    requires !op.Tick? && !op.Configure? && Enabled(s, op)
    requires k in s.tokens && s.tokens[k].user != op.user && k !in Jtis(s.store.Tracked(op.user))
    ensures SameEntry(s, Apply(s, op), k)
  {
    var u := op.user;
    match op
    case Login(_, j, exp, text) =>
      LoginIs(s, u, j, exp, text);
      EvictedWereTracked(s.store, u, j, s.cap);
      BlockTouchesOnly(s.store.Enroll(u, j, s.lifetime, Note(s, text)),
                        Members(s.store.Evicted(u, j, s.cap)), s.lifetime, k);
    case Logout(_, j) => BlockTouchesOnly(s.store, {j}, WholeSeconds(s.tokens[j].exp - s.store.now), k);
    case RevokeOne(_, j) =>
      if j in Jtis(s.store.Tracked(u)) {
        BlockTouchesOnly(s.store, {j}, TtlFor(s, u), k);
      }
    case RevokeOthers(_, keep) => BlockTouchesOnly(s.store, s.store.Swept(u, keep), TtlFor(s, u), k);
    case List(_) =>
  }

  lemma EvictedWereTracked(s: Store, u: User, j: Jti, max: int)
    ensures Members(s.Evicted(u, j, max)) <= Jtis(s.Tracked(u)) + {j}
  {
    var z := s.Joined(u, j);
    forall k | k in Members(s.Evicted(u, j, max)) ensures k in Jtis(z) {
      var i :| 0 <= i < |s.Evicted(u, j, max)| && s.Evicted(u, j, max)[i] == k;
      assert z[i] in z;
    }
  }
}
