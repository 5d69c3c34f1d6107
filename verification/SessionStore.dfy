/** Session tracking one call at a time, with a clock: keys carry a time to live, tokens an
    expiry. SessionProtocol.LoginAlone relates it to the interleaved commands. */
module SessionStore {
  import opened Options
  import opened SortedSets

  type User = nat

  /** What a session's description holds besides its lifetime at sign-in, once decoded; no
      lifetime when the stored one is absent, unreadable or not positive. */
  datatype About = About(text: string, ttl: Option<nat>)

  /** A key and the instant it disappears. Redis drops a key whose value becomes empty. */
  datatype SetKey = SetKey(z: ZSet, expiry: real)
  datatype HashKey = HashKey(fields: map<Jti, About>, expiry: real)

  datatype Store = Store(
    now: real,
    sets: map<User, SetKey>,
    meta: map<User, HashKey>,
    blocked: map<Jti, real>)
  {
    function Tracked(u: User): ZSet {
      if u in sets then sets[u].z else []
    }

    function Described(u: User): map<Jti, About> {
      if u in meta then meta[u].fields else map[]
    }

    /** ZREM and HDEL of the same members. */
    function Drop(u: User, gone: set<Jti>): Store {
      this.(sets := PutSet(sets, u, Remove(Tracked(u), gone), if u in sets then sets[u].expiry else now),
            meta := PutHash(meta, u, Described(u) - gone, if u in meta then meta[u].expiry else now))
    }

    /** SETEX of each of `js`. */
    function Block(js: set<Jti>, ttl: int): Store {
      this.(blocked := map j | j in blocked.Keys + js :: if j in js then now + ttl as real else blocked[j])
    }

    /** The set of `u` right after the ZADD of a new member. */
    function Joined(u: User, j: Jti): ZSet {
      Add(Tracked(u), Entry(j, now))
    }

    /** What track_session evicts. */
    function Evicted(u: User, j: Jti, max: int): seq<Jti> {
      Overflow(Joined(u, j), max)
    }

    /** ZADD and EXPIRE, then HSET and EXPIRE when the session is described. */
    function Enroll(u: User, j: Jti, ttl: int, about: Option<About>): Store {
      var expiry := now + ttl as real;
      this.(sets := sets[u := SetKey(Joined(u, j), expiry)],
            meta := if about.None? then meta else meta[u := HashKey(Described(u)[j := about.value], expiry)])
    }

    /** track_session */
    function Track(u: User, j: Jti, ttl: int, max: int, about: Option<About>): Store {
      var s, evicted := Enroll(u, j, ttl, about), Evicted(u, j, max);
      if evicted == [] then s else s.Drop(u, Members(evicted))
    }

    /** revoke_session */
    function Revoke(u: User, j: Jti, ttl: int): Store {
      if j in Jtis(Tracked(u)) then Drop(u, {j}).Block({j}, ttl) else this
    }

    /** The members revoke_all_sessions blocklists. */
    function Swept(u: User, except: Option<Jti>): set<Jti> {
      set j | j in Jtis(Tracked(u)) && Some(j) != except
    }

    /** revoke_all_sessions */
    function RevokeAll(u: User, ttl: int, except: Option<Jti>): Store {
      var gone := Swept(u, except);
      if gone == {} then this
      else if except.Some? && except.value in Jtis(Tracked(u)) then Block(gone, ttl).Drop(u, gone)
      else Block(gone, ttl).(sets := sets - {u}, meta := meta - {u})
    }

    /** Time passes, and keys past their expiry are gone. */
    function Tick(dt: real): Store {
      var t := now + dt;
      Store(t,
            map u | u in sets && t < sets[u].expiry :: sets[u],
            map u | u in meta && t < meta[u].expiry :: meta[u],
            map j | j in blocked && t < blocked[j] :: blocked[j])
    }
  }

  function PutSet(m: map<User, SetKey>, u: User, z: ZSet, expiry: real): map<User, SetKey> {
    if z == [] then m - {u} else m[u := SetKey(z, expiry)]
  }

  function PutHash(m: map<User, HashKey>, u: User, fields: map<Jti, About>, expiry: real): map<User, HashKey> {
    if fields == map[] then m - {u} else m[u := HashKey(fields, expiry)]
  }

  /** The module-level functions of redis.py over one Redis. */
  class Redis {
    var now: real
    var sets: map<User, SetKey>
    var meta: map<User, HashKey>
    var blocked: map<Jti, real>

    constructor (now: real)
      ensures View() == Store(now, map[], map[], map[])
    {
      this.now, sets, meta, blocked := now, map[], map[], map[];
    }

    function View(): Store
      reads this
    {
      Store(now, sets, meta, blocked)
    }

    method BlockToken(j: Jti, expiresIn: int)
      modifies this`blocked
      ensures View() == old(View()).Block({j}, expiresIn)
    {
      blocked := blocked[j := now + expiresIn as real];
    }

    method IsTokenBlocked(j: Jti) returns (r: bool)
      ensures r <==> j in View().blocked
    {
      r := j in blocked;
    }

    /** ZREM and HDEL, as every single-user removal runs them. */
    method DropMembers(u: User, gone: set<Jti>)
      modifies this`sets, this`meta
      ensures View() == old(View()).Drop(u, gone)
    {
      var s := View();
      sets := PutSet(sets, u, Remove(s.Tracked(u), gone), if u in sets then sets[u].expiry else now);
      meta := PutHash(meta, u, s.Described(u) - gone, if u in meta then meta[u].expiry else now);
    }

    /** The commands of track_session up to the cap. */
    method Enroll(u: User, j: Jti, ttl: int, about: Option<About>)
      modifies this`sets, this`meta
      ensures View() == old(View()).Enroll(u, j, ttl, about)
    {
      ghost var enrolled := View().Enroll(u, j, ttl, about);
      var expiry := now + ttl as real;
      var fields := View().Described(u);
      sets := sets[u := SetKey(View().Joined(u, j), expiry)];
      assert sets == enrolled.sets;
      if about.Some? {
        meta := meta[u := HashKey(fields[j := about.value], expiry)];
      }
      assert meta == enrolled.meta;
    }

    /** The lowest overflow, oldest first, as the list track_session returns. */
    method CollectEvicted(u: User, max: int) returns (evicted: seq<Jti>)
      ensures evicted == Overflow(View().Tracked(u), max)
    {
      evicted := [];
      var z := View().Tracked(u);
      if max > 0 && |z| > max {
        var members := Lowest(z, |z| - max);
        for i := 0 to |members|
          invariant evicted == members[..i]
        {
          evicted := evicted + [members[i]];
        }
      }
    }

    method TrackSession(u: User, j: Jti, ttl: int, max: int, about: Option<About>) returns (evicted: seq<Jti>)
      modifies this`sets, this`meta
      ensures evicted == old(View()).Evicted(u, j, max)
      ensures View() == old(View()).Track(u, j, ttl, max, about)
    {
      ghost var s := View();
      EnrollJoins(s, u, j, ttl, about);
      Enroll(u, j, ttl, about);
      evicted := CollectEvicted(u, max);
      assert evicted == s.Evicted(u, j, max);
      if evicted != [] {
        DropMembers(u, Members(evicted));
      }
    }

    method UntrackSession(u: User, j: Jti)
      modifies this`sets, this`meta
      ensures View() == old(View()).Drop(u, {j})
    {
      DropMembers(u, {j});
    }

    method DropSessions(u: User, jtis: seq<Jti>)
      modifies this`sets, this`meta
      ensures View() == if jtis == [] then old(View()) else old(View()).Drop(u, Members(jtis))
    {
      if jtis != [] {
        DropMembers(u, Members(jtis));
      }
    }

    method RevokeSession(u: User, j: Jti, ttl: int) returns (removed: bool)
      modifies this
      ensures removed <==> j in Jtis(old(View()).Tracked(u))
      ensures View() == old(View()).Revoke(u, j, ttl)
    {
      removed := j in Jtis(View().Tracked(u));
      if removed {
        DropMembers(u, {j});
        BlockToken(j, ttl);
      }
    }

    /** A SETEX for each of the listed tokens. */
    method BlockAll(jtis: seq<Jti>, ttl: int)
      modifies this`blocked
      ensures View() == old(View()).Block(Members(jtis), ttl)
    {
      ghost var s := View();
      BlockNone(s, ttl);
      for i := 0 to |jtis|
        invariant View() == s.Block(Members(jtis[..i]), ttl)
      {
        assert Members(jtis[..i + 1]) == Members(jtis[..i]) + {jtis[i]};
        BlockMore(s, Members(jtis[..i]), jtis[i], ttl);
        BlockToken(jtis[i], ttl);
      }
      assert jtis[..|jtis|] == jtis;
    }

    /** The revoked sessions, oldest first; the kept one is left as it was. */
    method RevokeAllSessions(u: User, ttl: int, except: Option<Jti>) returns (jtis: seq<Jti>)
      modifies this
      ensures jtis == Without(Lowest(old(View()).Tracked(u), |old(View()).Tracked(u)|), except)
      ensures View() == old(View()).RevokeAll(u, ttl, except)
      ensures forall e :: e in View().Tracked(u) <==> e in old(View()).Tracked(u) && Some(e.jti) == except
      ensures forall j :: j in blocked <==>
                j in old(blocked) || (j in Jtis(old(View()).Tracked(u)) && Some(j) != except)
    {
      ghost var s := View();
      SweepSparesTheKept(s, u, ttl, except);
      var z := View().Tracked(u);
      jtis := Without(Lowest(z, |z|), except);
      ReadForSweep(s, u, except);
      BlockAll(jtis, ttl);
      if jtis == [] {
        BlockNone(s, ttl);
        return;
      }
      if except.Some? && except.value in Jtis(z) {
        DropMembers(u, Members(jtis));
      } else {
        sets := sets - {u};
        meta := meta - {u};
      }
      assert View() == s.RevokeAll(u, ttl, except);
    }
  }

  /** What a sweep reads is what it blocklists. */
  lemma ReadForSweep(s: Store, u: User, except: Option<Jti>)
    ensures var jtis := Without(Lowest(s.Tracked(u), |s.Tracked(u)|), except);
            Members(jtis) == s.Swept(u, except) && (jtis == [] <==> s.Swept(u, except) == {})
  {
    var all := Lowest(s.Tracked(u), |s.Tracked(u)|);
    var jtis := Without(all, except);
    LowestAreAll(s.Tracked(u));
    assert forall j :: j in jtis <==> j in Members(all) && Some(j) != except;
    assert jtis != [] ==> jtis[0] in Members(jtis);
  }

  function Ticks(s: Store, dts: seq<real>): Store
    decreases |dts|
  {
    if dts == [] then s else Ticks(s.Tick(dts[0]), dts[1..])
  }

  function Total(dts: seq<real>): real {
    if dts == [] then 0.0 else dts[0] + Total(dts[1..])
  }

  lemma {:induction false} EntryLivesUntilExpiry(s: Store, j: Jti, dts: seq<real>)
    requires forall i | 0 <= i < |dts| :: dts[i] >= 0.0
    ensures j in Ticks(s, dts).blocked <==> j in s.blocked && (dts == [] || s.now + Total(dts) < s.blocked[j])
    decreases |dts|
  {
    if dts != [] {
      var s' := s.Tick(dts[0]);
      EntryLivesUntilExpiry(s', j, dts[1..]);
      TotalIsPositive(dts[1..]);
    }
  }

  lemma {:induction false} TotalIsPositive(dts: seq<real>)
    requires forall i | 0 <= i < |dts| :: dts[i] >= 0.0
    ensures Total(dts) >= 0.0
  {
    if dts != [] {
      TotalIsPositive(dts[1..]);
    }
  }

  /** A token is reported as blocked from the moment block_token ran until exactly its time is
      over, in whatever steps the time passes; no other token's answer changes. */
  lemma BlockedForItsTime(s: Store, j: Jti, ttl: nat, dts: seq<real>, k: Jti)
    requires ttl >= 1 && forall i | 0 <= i < |dts| :: dts[i] >= 0.0
    ensures j in Ticks(s.Block({j}, ttl), dts).blocked <==> Total(dts) < ttl as real
    ensures k != j ==> (k in Ticks(s.Block({j}, ttl), dts).blocked <==> k in Ticks(s, dts).blocked)
  {
    EntryLivesUntilExpiry(s.Block({j}, ttl), j, dts);
    EntryLivesUntilExpiry(s.Block({j}, ttl), k, dts);
    EntryLivesUntilExpiry(s, k, dts);
  }

  lemma EnrollJoins(s: Store, u: User, j: Jti, ttl: int, about: Option<About>)
    ensures s.Enroll(u, j, ttl, about).Tracked(u) == s.Joined(u, j)
  {
  }

  /** A sweep leaves exactly the kept session tracked, and blocklists exactly the others. */
  lemma SweepSparesTheKept(s: Store, u: User, ttl: int, except: Option<Jti>)
    ensures var s' := s.RevokeAll(u, ttl, except);
            && (forall e :: e in s'.Tracked(u) <==> e in s.Tracked(u) && Some(e.jti) == except)
            && (forall j :: j in s'.blocked <==> j in s.blocked || (j in Jtis(s.Tracked(u)) && Some(j) != except))
  {
    var s', gone := s.RevokeAll(u, ttl, except), s.Swept(u, except);
    forall e | e in s.Tracked(u) ensures e.jti in gone <==> Some(e.jti) != except {
      assert e.jti in Jtis(s.Tracked(u));
    }
    if gone != {} && except.Some? && except.value in Jtis(s.Tracked(u)) {
      assert s'.Tracked(u) == Remove(s.Tracked(u), gone);
    }
  }

  lemma BlockMore(s: Store, js: set<Jti>, j: Jti, ttl: int)
    ensures s.Block(js, ttl).Block({j}, ttl) == s.Block(js + {j}, ttl)
  {
    assert s.Block(js, ttl).Block({j}, ttl).blocked == s.Block(js + {j}, ttl).blocked;
  }

  lemma BlockNone(s: Store, ttl: int)
    ensures s.Block({}, ttl) == s
  {
    assert s.Block({}, ttl).blocked == s.blocked;
  }
}
