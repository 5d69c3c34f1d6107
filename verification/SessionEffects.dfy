/** What each session call changes, entry by entry, in every state a run of SessionLifecycle can
    reach. Stated on the keys themselves, without the operations of SessionStore. */
module SessionEffects {
  import opened Options
  import opened SortedSets
  import opened SessionStore
  import opened SessionLifecycle

  /** The sessions `gone` of user `u` and their descriptions go; the keys of `u` live as long as
      before, unless nothing is left in them, and no other key changes. */
  ghost predicate Removes(s: Store, s': Store, u: User, gone: set<Jti>) {
    && s'.now == s.now
    && (forall e :: e in s'.Tracked(u) <==> e in s.Tracked(u) && e.jti !in gone)
    && Valid(s'.Tracked(u))
    && s'.Described(u) == s.Described(u) - gone
    && (u in s'.sets ==> s'.sets[u].z != [] && u in s.sets && s'.sets[u].expiry == s.sets[u].expiry)
    && (u in s'.meta <==> u in s'.sets)
    && (u in s'.meta ==> u in s.meta && s'.meta[u].expiry == s.meta[u].expiry)
    && OthersStay(s, s', u)
  }

  predicate OthersStay(s: Store, s': Store, u: User) {
    s'.sets - {u} == s.sets - {u} && s'.meta - {u} == s.meta - {u}
  }

  /** The tokens `js` are blocklisted until `t`; every other entry stays. */
  predicate Blocklists(s: Store, s': Store, js: set<Jti>, t: real) {
    && s'.blocked.Keys == s.blocked.Keys + js
    && forall j <- s'.blocked :: s'.blocked[j] == if j in js then t else s.blocked[j]
  }

  /** The two keys of `u` come and go together and hold the same sessions. */
  ghost predicate Paired(s: Store, u: User) {
    && Valid(s.Tracked(u)) && Jtis(s.Tracked(u)) == s.Described(u).Keys
    && (u in s.sets ==> s.sets[u].z != [])
    && (u in s.meta <==> u in s.sets)
    && (u in s.meta ==> s.meta[u].expiry == s.sets[u].expiry)
  }

  lemma RunsArePaired(s: State, u: User)
    requires Inv(s)
    ensures Paired(s.store, u)
  {
    assert SetOk(s, u) && MetaOk(s, u);
  }

  /** What is left of the set is empty exactly when no description is left. */
  lemma BothOrNeither(z: ZSet, fields: map<Jti, About>, gone: set<Jti>)
    requires Jtis(z) == fields.Keys
    ensures Remove(z, gone) == [] <==> fields - gone == map[]
    ensures Jtis(Remove(z, gone)) == (fields - gone).Keys
  {
    assert Jtis(Remove(z, gone)) == Jtis(z) - gone;
    var left := Remove(z, gone);
    assert left != [] ==> left[0].jti in Jtis(left);
    assert (fields - gone).Keys == fields.Keys - gone;
    assert fields - gone != map[] ==> (fields - gone).Keys != {};
  }

  lemma DropRemovesEntries(s: Store, u: User, gone: set<Jti>)
    requires Valid(s.Tracked(u))
    ensures var s', left := s.Drop(u, gone), Remove(s.Tracked(u), gone);
            && s'.Tracked(u) == left && (u in s'.sets <==> left != [])
            && (u in s'.sets ==> u in s.sets && s'.sets[u].expiry == s.sets[u].expiry)
  {
  }

  lemma DropRemovesFields(s: Store, u: User, gone: set<Jti>)
    ensures var s', left := s.Drop(u, gone), s.Described(u) - gone;
            && s'.Described(u) == left && (u in s'.meta <==> left != map[])
            && (u in s'.meta ==> u in s.meta && s'.meta[u].expiry == s.meta[u].expiry)
  {
  }

  lemma DropSparesOthers(s: Store, u: User, gone: set<Jti>)
    ensures OthersStay(s, s.Drop(u, gone), u)
  {
  }

  lemma DropRemoves(s: Store, u: User, gone: set<Jti>)
    requires Paired(s, u)
    ensures Removes(s, s.Drop(u, gone), u, gone)
  {
    BothOrNeither(s.Tracked(u), s.Described(u), gone);
    DropRemovesEntries(s, u, gone);
    DropRemovesFields(s, u, gone);
    DropSparesOthers(s, u, gone);
  }

  lemma BlockBlocklists(s: Store, js: set<Jti>, ttl: int)
    ensures Blocklists(s, s.Block(js, ttl), js, s.now + ttl as real)
    ensures forall u :: Paired(s, u) ==> Paired(s.Block(js, ttl), u)
    ensures s.Block(js, ttl).(blocked := s.blocked) == s
  {
  }

  /** Removing and blocklisting do not disturb one another. */
  lemma BothHappen(s: Store, u: User, gone: set<Jti>, js: set<Jti>, ttl: int)
    requires Paired(s, u)
    ensures var s' := s.Block(js, ttl).Drop(u, gone);
            Removes(s, s', u, gone) && Blocklists(s, s', js, s.now + ttl as real)
  {
    BlockBlocklists(s, js, ttl);
    DropRemoves(s.Block(js, ttl), u, gone);
  }

  /** The tracked sessions of `u` other than the kept one. */
  function Others(s: Store, u: User, keep: Option<Jti>): set<Jti> {
    set e | e in s.Tracked(u) && Some(e.jti) != keep :: e.jti
  }

  lemma SweepEffect(s: Store, u: User, ttl: int, keep: Option<Jti>)
    requires Paired(s, u)
    ensures var s', gone := s.RevokeAll(u, ttl, keep), Others(s, u, keep);
            Removes(s, s', u, gone) && Blocklists(s, s', gone, s.now + ttl as real)
  {
    var gone := Others(s, u, keep);
    assert s.Swept(u, keep) == gone;
    if gone == {} {
    } else if keep.Some? && keep.value in Jtis(s.Tracked(u)) {
      BothHappen(s, u, gone, gone, ttl);
    } else {
      BlockBlocklists(s, gone, ttl);
      assert gone == Jtis(s.Tracked(u));
      assert s.Described(u) - gone == map[];
    }
  }

  function Entries(z: ZSet): set<Entry> {
    set e | e in z
  }

  function Newer(es: set<Entry>, e: Entry): set<Entry> {
    set x | x in es && Before(e, x)
  }

  /** The members beyond the cap: those with at least `cap` newer ones. */
  function Overdue(es: set<Entry>, cap: int): set<Jti> {
    set e | e in es && cap > 0 && |Newer(es, e)| >= cap :: e.jti
  }

  lemma {:induction false} LaterAreNewer(z: ZSet, i: nat)
    requires Valid(z) && i < |z|
    ensures |Newer(Entries(z), z[i])| == |z| - 1 - i
    decreases |z| - i
  {
    if i == |z| - 1 {
      assert Newer(Entries(z), z[i]) == {};
    } else {
      LaterAreNewer(z, i + 1);
      assert Newer(Entries(z), z[i]) == Newer(Entries(z), z[i + 1]) + {z[i + 1]};
    }
  }

  lemma OverflowIsOverdue(z: ZSet, cap: int)
    requires Valid(z)
    ensures Members(Overflow(z, cap)) == Overdue(Entries(z), cap)
  {
    var out, es := Overflow(z, cap), Entries(z);
    forall i: nat | i < |z| ensures |Newer(es, z[i])| == |z| - 1 - i {
      LaterAreNewer(z, i);
    }
    forall j | j in out ensures j in Overdue(es, cap) {
      var i :| 0 <= i < |out| && out[i] == j;
      assert z[i] in es && z[i].jti == j;
    }
    forall j | j in Overdue(es, cap) ensures j in out {
      var e :| e in es && e.jti == j && cap > 0 && |Newer(es, e)| >= cap;
      var i :| 0 <= i < |z| && z[i] == e;
      assert out[i] == j;
    }
  }

  /** The keys of `u` after a sign-in as `j`, before the cap. */
  ghost predicate Joins(s: Store, s': Store, u: User, j: Jti, ttl: int, about: About) {
    && s'.now == s.now && s'.blocked == s.blocked
    && (forall e :: e in s'.Tracked(u) <==> e == Entry(j, s.now) || (e in s.Tracked(u) && e.jti != j))
    && s'.Described(u) == s.Described(u)[j := about]
    && u in s'.sets && s'.sets[u].expiry == s.now + ttl as real
    && u in s'.meta && s'.meta[u].expiry == s.now + ttl as real
    && OthersStay(s, s', u) && Paired(s', u)
  }

  lemma JoinedIs(s: Store, u: User, j: Jti)
    requires Valid(s.Tracked(u))
    ensures var z := s.Joined(u, j);
            && Valid(z) && z != [] && Jtis(z) == Jtis(s.Tracked(u)) + {j}
            && forall e :: e in z <==> e == Entry(j, s.now) || (e in s.Tracked(u) && e.jti != j)
  {
    assert s.Joined(u, j) == Insert(Remove(s.Tracked(u), {j}), Entry(j, s.now));
  }

  lemma EnrollEffect(s: Store, u: User, j: Jti, ttl: int, about: About)
    requires Paired(s, u)
    ensures Joins(s, s.Enroll(u, j, ttl, Some(about)), u, j, ttl, about)
  {
    JoinedIs(s, u, j);
    var s' := s.Enroll(u, j, ttl, Some(about));
    assert s'.Tracked(u) == s.Joined(u, j);
    assert OthersStay(s, s', u);
  }

  /** A sign-in of `u` as `j`: the new session joins the others, all but the newest `cap` go, and
      those that go are blocklisted; what stays lives for the current lifetime. */
  ghost predicate SignedIn(s: Store, s': Store, u: User, j: Jti, ttl: int, about: About, cap: int) {
    var es := Entries(s.Tracked(u)) + {Entry(j, s.now)};
    var out := Overdue(es, cap);
    && s'.now == s.now
    && Entries(s'.Tracked(u)) == (set e | e in es && e.jti !in out) && Valid(s'.Tracked(u))
    && s'.Described(u) == s.Described(u)[j := about] - out
    && (u in s'.sets ==> s'.sets[u].z != [] && s'.sets[u].expiry == s.now + ttl as real)
    && (u in s'.meta <==> u in s'.sets)
    && (u in s'.meta ==> s'.meta[u].expiry == s.now + ttl as real)
    && OthersStay(s, s', u) && Blocklists(s, s', out, s.now + ttl as real)
  }

  lemma EntriesJoin(s: Store, s1: Store, u: User, j: Jti, ttl: int, about: About)
    requires j !in Jtis(s.Tracked(u)) && Joins(s, s1, u, j, ttl, about)
    ensures Entries(s1.Tracked(u)) == Entries(s.Tracked(u)) + {Entry(j, s.now)}
  {
    forall e | e in s.Tracked(u) ensures e.jti != j {
      assert e.jti in Jtis(s.Tracked(u));
    }
  }

  lemma EntriesLeave(s: Store, s': Store, u: User, out: set<Jti>)
    requires Removes(s, s', u, out)
    ensures Entries(s'.Tracked(u)) == set e | e in Entries(s.Tracked(u)) && e.jti !in out
  {
  }

  /** What stays of the keys that were renewed. */
  lemma RenewedKeysStay(s: Store, s1: Store, s': Store, u: User, j: Jti, ttl: int, about: About, out: set<Jti>)
    requires Joins(s, s1, u, j, ttl, about)
    requires Removes(s1, s', u, out) && Blocklists(s1, s', out, s.now + ttl as real)
    ensures s'.now == s.now && Valid(s'.Tracked(u)) && s'.Described(u) == s.Described(u)[j := about] - out
    ensures u in s'.sets ==> s'.sets[u].z != [] && s'.sets[u].expiry == s.now + ttl as real
    ensures u in s'.meta <==> u in s'.sets
    ensures u in s'.meta ==> s'.meta[u].expiry == s.now + ttl as real
    ensures OthersStay(s, s', u) && Blocklists(s, s', out, s.now + ttl as real)
  {
  }

  lemma JoinsThenLeaves(s: Store, s1: Store, s': Store, u: User, j: Jti, ttl: int, about: About, cap: int)
    requires j !in Jtis(s.Tracked(u)) && Joins(s, s1, u, j, ttl, about)
    requires var out := Overdue(Entries(s1.Tracked(u)), cap);
             Removes(s1, s', u, out) && Blocklists(s1, s', out, s.now + ttl as real)
    ensures SignedIn(s, s', u, j, ttl, about, cap)
  {
    var out := Overdue(Entries(s1.Tracked(u)), cap);
    EntriesJoin(s, s1, u, j, ttl, about);
    EntriesLeave(s1, s', u, out);
    RenewedKeysStay(s, s1, s', u, j, ttl, about, out);
  }

  lemma NothingIsRemoved(s: Store, u: User, t: real)
    requires Paired(s, u)
    ensures Removes(s, s, u, {}) && Blocklists(s, s, {}, t)
  {
  }

  lemma RemovesThenBlocks(s: Store, s1: Store, u: User, gone: set<Jti>, ttl: int)
    requires Removes(s, s1, u, gone) && s1.blocked == s.blocked
    ensures var s' := s1.Block(gone, ttl);
            Removes(s, s', u, gone) && Blocklists(s, s', gone, s.now + ttl as real)
  {
  }

  lemma DropThenBlock(s: Store, u: User, gone: set<Jti>, ttl: int)
    requires Paired(s, u)
    ensures var s' := s.Drop(u, gone).Block(gone, ttl);
            Removes(s, s', u, gone) && Blocklists(s, s', gone, s.now + ttl as real)
  {
    DropRemoves(s, u, gone);
    RemovesThenBlocks(s, s.Drop(u, gone), u, gone, ttl);
  }

  /** The members over the cap are taken out, and then blocklisted. */
  function Capping(s: Store, u: User, out: set<Jti>, ttl: int): Store {
    if out == {} then s else s.Drop(u, out).Block(out, ttl)
  }

  lemma CappingEffect(s: Store, u: User, out: set<Jti>, ttl: int)
    requires Paired(s, u)
    ensures var s' := Capping(s, u, out, ttl);
            Removes(s, s', u, out) && Blocklists(s, s', out, s.now + ttl as real)
  {
    if out == {} {
      NothingIsRemoved(s, u, s.now + ttl as real);
    } else {
      DropThenBlock(s, u, out, ttl);
    }
  }

  lemma EvictedAreOverdue(s: Store, u: User, j: Jti, ttl: int, about: About, cap: int)
    requires Paired(s, u)
    ensures Members(s.Evicted(u, j, cap)) == Overdue(Entries(s.Enroll(u, j, ttl, Some(about)).Tracked(u)), cap)
  {
    EnrollJoins(s, u, j, ttl, Some(about));
    OverflowIsOverdue(s.Joined(u, j), cap);
  }

  lemma CappingSignsIn(s: Store, s1: Store, u: User, j: Jti, ttl: int, about: About, cap: int, out: set<Jti>)
    requires j !in Jtis(s.Tracked(u)) && Joins(s, s1, u, j, ttl, about)
    requires out == Overdue(Entries(s1.Tracked(u)), cap)
    ensures SignedIn(s, Capping(s1, u, out, ttl), u, j, ttl, about, cap)
  {
    CappingEffect(s1, u, out, ttl);
    JoinsThenLeaves(s, s1, Capping(s1, u, out, ttl), u, j, ttl, about, cap);
  }

  lemma TrackEffect(s: Store, u: User, j: Jti, ttl: int, about: About, cap: int)
    requires Paired(s, u) && j !in Jtis(s.Tracked(u))
    ensures SignedIn(s, Capping(s.Enroll(u, j, ttl, Some(about)), u, Members(s.Evicted(u, j, cap)), ttl),
                     u, j, ttl, about, cap)
  {
    EnrollEffect(s, u, j, ttl, about);
    EvictedAreOverdue(s, u, j, ttl, about, cap);
    CappingSignsIn(s, s.Enroll(u, j, ttl, Some(about)), u, j, ttl, about, cap, Members(s.Evicted(u, j, cap)));
  }

  /** What track_session and the blocklisting that follows it store. */
  lemma TrackIsCapping(s: Store, u: User, j: Jti, ttl: int, about: About, cap: int)
    ensures s.Track(u, j, ttl, cap, Some(about)).Block(Members(s.Evicted(u, j, cap)), ttl)
         == Capping(s.Enroll(u, j, ttl, Some(about)), u, Members(s.Evicted(u, j, cap)), ttl)
  {
    var evicted := s.Evicted(u, j, cap);
    if evicted == [] {
      BlockNone(s.Enroll(u, j, ttl, Some(about)), ttl);
    } else {
      assert evicted[0] in Members(evicted);
    }
  }

  // ----- over every run -----

  lemma Reached(lifetime: nat, cap: int, now: real, ops: seq<Op>, u: User)
    requires lifetime >= 1
    ensures var s := Run(Init(lifetime, cap, now), ops);
            Inv(s) && Paired(s.store, u)
  {
    RunHolds(lifetime, cap, now, ops);
    RunsArePaired(Run(Init(lifetime, cap, now), ops), u);
  }

  /** A sign-in under a fresh identifier, with an expiry within the lifetime, tracks and describes
      the new session, evicts all but the newest `cap` and blocklists those for the lifetime. */
  lemma SignInTakesEffect(lifetime: nat, cap: int, now: real, ops: seq<Op>, u: User, j: Jti, exp: real, text: string)
    requires lifetime >= 1
    ensures var s := Run(Init(lifetime, cap, now), ops);
            var s' := Apply(s, Login(u, j, exp, text));
            if j !in s.tokens && s.store.now < exp <= s.store.now + s.lifetime as real
            then
              && SignedIn(s.store, s'.store, u, j, s.lifetime, About(text, Some(s.lifetime)), s.cap)
              && s' == s.(store := s'.store, tokens := s.tokens[j := Token(u, exp, s.store.now, s.lifetime)],
                          exposed := s'.exposed)
            else s' == s
  {
    Reached(lifetime, cap, now, ops, u);
    var s := Run(Init(lifetime, cap, now), ops);
    if Enabled(s, Login(u, j, exp, text)) {
      FreshIsUntracked(s, u, j);
      TrackIsCapping(s.store, u, j, s.lifetime, About(text, Some(s.lifetime)), s.cap);
      TrackEffect(s.store, u, j, s.lifetime, About(text, Some(s.lifetime)), s.cap);
    }
  }

  lemma FreshIsUntracked(s: State, u: User, j: Jti)
    requires Inv(s) && j !in s.tokens
    ensures j !in Jtis(s.store.Tracked(u))
  {
    forall e | e in s.store.Tracked(u) ensures e.jti != j {
      RecordedLifetime(s, u, e);
    }
  }

  /** Logging out a live token of the user's own takes its session out, and blocklists it for the whole
      seconds left, or for one. */
  lemma SignOutTakesEffect(lifetime: nat, cap: int, now: real, ops: seq<Op>, u: User, j: Jti)
    requires lifetime >= 1
    ensures var s := Run(Init(lifetime, cap, now), ops);
            var s' := Apply(s, Logout(u, j));
            if j in s.tokens && s.tokens[j].user == u && s.store.now < s.tokens[j].exp
            then
              var left := (s.tokens[j].exp - s.store.now).Floor;
              && Removes(s.store, s'.store, u, {j})
              && Blocklists(s.store, s'.store, {j}, s.store.now + (if left < 1 then 1 else left) as real)
              && s' == s.(store := s'.store, loggedOut := s.loggedOut + {j})
            else s' == s
  {
    Reached(lifetime, cap, now, ops, u);
    var s := Run(Init(lifetime, cap, now), ops);
    if Enabled(s, Logout(u, j)) {
      BothHappen(s.store, u, {j}, {j}, WholeSeconds(s.tokens[j].exp - s.store.now));
    }
  }

  /** The longest life left, in whole seconds, to a session of `u` by its own lifetime, and at least
      the current lifetime. */
  ghost predicate LongestLeft(s: State, u: User, ttl: int) {
    && ttl >= s.lifetime
    && (forall e :: e in s.store.Tracked(u) ==> e.jti in s.tokens && OwnSecondsLeft(s, e) <= ttl)
    && (ttl == s.lifetime || exists e :: e in s.store.Tracked(u) && e.jti in s.tokens && OwnSecondsLeft(s, e) == ttl)
  }

  ghost predicate BlocklistsForLongest(s: State, s': State, u: User, js: set<Jti>) {
    exists ttl :: LongestLeft(s, u, ttl) && Blocklists(s.store, s'.store, js, s.store.now + ttl as real)
  }

  lemma TtlIsLongestLeft(s: State, u: User)
    requires Inv(s)
    ensures LongestLeft(s, u, TtlFor(s, u))
  {
    var ttl := TtlFor(s, u);
    forall e | e in s.store.Tracked(u) ensures e.jti in s.tokens && OwnSecondsLeft(s, e) <= ttl {
      SecondsLeftAreItsOwn(s, u, e);
    }
    TtlIsBelow(s, u, ttl as real);
    if ttl != s.lifetime {
      var e :| e in s.store.Tracked(u) && !(e.jti in s.tokens && OwnSecondsLeft(s, e) as real < ttl as real);
      assert OwnSecondsLeft(s, e) == ttl;
    }
  }

  lemma RevokeEffect(s: Store, u: User, j: Jti, ttl: int)
    requires Paired(s, u) && j in Jtis(s.Tracked(u))
    ensures Removes(s, s.Revoke(u, j, ttl), u, {j})
    ensures Blocklists(s, s.Revoke(u, j, ttl), {j}, s.now + ttl as real)
  {
    DropThenBlock(s, u, {j}, ttl);
  }

  /** Revoking a session the user holds takes it out and blocklists it for the longest life left to
      any of the user's sessions; revoking any other changes nothing. */
  lemma RevokingOneTakesEffect(lifetime: nat, cap: int, now: real, ops: seq<Op>, u: User, j: Jti)
    requires lifetime >= 1
    ensures var s := Run(Init(lifetime, cap, now), ops);
            var s' := Apply(s, RevokeOne(u, j));
            if j in Jtis(s.store.Tracked(u))
            then
              && Removes(s.store, s'.store, u, {j})
              && BlocklistsForLongest(s, s', u, {j})
              && s' == s.(store := s'.store, revoked := s.revoked + {j})
            else s' == s
  {
    Reached(lifetime, cap, now, ops, u);
    RevokedIs(Run(Init(lifetime, cap, now), ops), u, j);
  }

  lemma RevokedIs(s: State, u: User, j: Jti)
    requires Inv(s) && Paired(s.store, u)
    ensures var s' := Apply(s, RevokeOne(u, j));
            if j in Jtis(s.store.Tracked(u))
            then Removes(s.store, s'.store, u, {j}) && BlocklistsForLongest(s, s', u, {j})
                 && s' == s.(store := s'.store, revoked := s.revoked + {j})
            else s' == s
  {
    RevokeIs(s, u, j);
    if j in Jtis(s.store.Tracked(u)) {
      TtlIsLongestLeft(s, u);
      RevokeEffect(s.store, u, j, TtlFor(s, u));
      EndedForLongest(s, Apply(s, RevokeOne(u, j)), u, {j}, TtlFor(s, u));
    }
  }

  lemma RevokeIs(s: State, u: User, j: Jti)
    ensures Apply(s, RevokeOne(u, j)) ==
            if j in Jtis(s.store.Tracked(u))
            then s.(store := s.store.Revoke(u, j, TtlFor(s, u)), revoked := s.revoked + {j}) else s
  {
  }

  /** Revoking all sessions but the kept one takes exactly the others out and blocklists them. */
  lemma RevokingOthersTakesEffect(lifetime: nat, cap: int, now: real, ops: seq<Op>, u: User, keep: Option<Jti>)
    requires lifetime >= 1
    ensures var s := Run(Init(lifetime, cap, now), ops);
            var s', others := Apply(s, RevokeOthers(u, keep)), Others(s.store, u, keep);
            && Removes(s.store, s'.store, u, others)
            && BlocklistsForLongest(s, s', u, others)
            && s' == s.(store := s'.store, revoked := s.revoked + others)
  {
    Reached(lifetime, cap, now, ops, u);
    SweptIs(Run(Init(lifetime, cap, now), ops), u, keep);
  }

  lemma SweptIs(s: State, u: User, keep: Option<Jti>)
    requires Inv(s) && Paired(s.store, u)
    ensures var s', others := Apply(s, RevokeOthers(u, keep)), Others(s.store, u, keep);
            && Removes(s.store, s'.store, u, others) && BlocklistsForLongest(s, s', u, others)
            && s' == s.(store := s'.store, revoked := s.revoked + others)
  {
    TtlIsLongestLeft(s, u);
    SweepEffect(s.store, u, TtlFor(s, u), keep);
    SweepIs(s, u, keep);
    EndedForLongest(s, Apply(s, RevokeOthers(u, keep)), u, Others(s.store, u, keep), TtlFor(s, u));
  }

  lemma SweepIs(s: State, u: User, keep: Option<Jti>)
    ensures Apply(s, RevokeOthers(u, keep))
         == s.(store := s.store.RevokeAll(u, TtlFor(s, u), keep), revoked := s.revoked + Others(s.store, u, keep))
  {
    assert s.store.Swept(u, keep) == Others(s.store, u, keep);
  }

  lemma EndedForLongest(s: State, s': State, u: User, js: set<Jti>, ttl: int)
    requires LongestLeft(s, u, ttl) && Blocklists(s.store, s'.store, js, s.store.now + ttl as real)
    ensures BlocklistsForLongest(s, s', u, js)
  {
  }

  /** The kept session stays alive: it is tracked and described as before, under keys of the same
      expiry, and its blocklist entry, if any, is the same. */
  lemma KeptSessionStays(lifetime: nat, cap: int, now: real, ops: seq<Op>, u: User, k: Jti)
    requires lifetime >= 1
    ensures var s := Run(Init(lifetime, cap, now), ops);
            var s' := Apply(s, RevokeOthers(u, Some(k)));
            k in Jtis(s.store.Tracked(u)) ==>
              && (forall e :: e in s'.store.Tracked(u) <==> e in s.store.Tracked(u) && e.jti == k)
              && k in Jtis(s'.store.Tracked(u))
              && u in s'.store.sets && u in s.store.sets && s'.store.sets[u].expiry == s.store.sets[u].expiry
              && u in s'.store.meta && u in s.store.meta && s'.store.meta[u].expiry == s.store.meta[u].expiry
              && k in s'.store.Described(u) && k in s.store.Described(u)
              && s'.store.Described(u)[k] == s.store.Described(u)[k]
              && SameEntry(s, s', k)
  {
    Reached(lifetime, cap, now, ops, u);
    RevokingOthersTakesEffect(lifetime, cap, now, ops, u, Some(k));
    var s := Run(Init(lifetime, cap, now), ops);
    var others := Others(s.store, u, Some(k));
    if e :| e in s.store.Tracked(u) && e.jti == k {
      assert e in Apply(s, RevokeOthers(u, Some(k))).store.Tracked(u);
      assert k !in others;
    }
  }

  /** A listing takes out exactly the sessions whose own recorded lifetime is over, and blocklists none. */
  lemma ListingTakesEffect(lifetime: nat, cap: int, now: real, ops: seq<Op>, u: User)
    requires lifetime >= 1
    ensures var s := Run(Init(lifetime, cap, now), ops);
            var s' := Apply(s, List(u));
            && (forall e :: e in s.store.Tracked(u) ==> e.jti in s.tokens)
            && Removes(s.store, s'.store, u, Over(s, u))
            && s'.store.blocked == s.store.blocked && s' == s.(store := s'.store)
  {
    Reached(lifetime, cap, now, ops, u);
    var s := Run(Init(lifetime, cap, now), ops);
    forall e | e in s.store.Tracked(u)
      ensures e.jti in s.tokens && SessionTtl(s.store.Described(u), e.jti, s.lifetime) == s.tokens[e.jti].ttl
    {
      RecordedLifetime(s, u, e);
    }
    assert Pruned(s, u) == Over(s, u);
    DropRemoves(s.store, u, Over(s, u));
    NothingIsRemoved(s.store, u, 0.0);
  }

  /** The sessions of `u` whose own lifetime is over. */
  function Over(s: State, u: User): set<Jti> {
    set e | e in s.store.Tracked(u) && e.jti in s.tokens
          && e.score + s.tokens[e.jti].ttl as real <= s.store.now :: e.jti
  }

  /** Time takes away exactly the keys and entries whose expiry it reaches. */
  lemma TimeTakesEffect(s: State, dt: real)
    requires dt >= 0.0
    ensures var s' := Apply(s, Tick(dt));
            && s' == s.(store := s'.store) && s'.store.now == s.store.now + dt
            && (forall u :: u in s'.store.sets <==> u in s.store.sets && s'.store.now < s.store.sets[u].expiry)
            && (forall u <- s'.store.sets :: s'.store.sets[u] == s.store.sets[u])
            && (forall u :: u in s'.store.meta <==> u in s.store.meta && s'.store.now < s.store.meta[u].expiry)
            && (forall u <- s'.store.meta :: s'.store.meta[u] == s.store.meta[u])
            && (forall j :: j in s'.store.blocked <==> j in s.store.blocked && s'.store.now < s.store.blocked[j])
            && (forall j <- s'.store.blocked :: s'.store.blocked[j] == s.store.blocked[j])
  {
  }
}
