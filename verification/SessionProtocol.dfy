/** Session tracking as it runs on a shared Redis: every call is a sequence of
    separately atomic commands, and the commands of any number of concurrent calls
    interleave freely. Key expiry is in SessionStore; here time only appears as
    tokens that have expired. */
module SessionProtocol {
  import opened Options
  import opened SortedSets

  type User = nat
  type CallId = nat

  /** A call, standing right before its next Redis command. */
  datatype Call =
    // register_session: track_session, then one SETEX per evicted member
    | LoginAdd(user: User, jti: Jti, score: real)
    | LoginDescribe(user: User, jti: Jti)
    | LoginCount(user: User)
    | LoginRange(user: User, count: nat)
    | LoginEvict(user: User, members: seq<Jti>)
    | LoginForget(user: User, members: seq<Jti>)
    | LoginBlock(rest: seq<Jti>)
    // end_session
    | LogoutBlock(user: User, jti: Jti)
    | LogoutUntrack(user: User, jti: Jti)
    | LogoutForget(user: User, jti: Jti)
    // revoke_session
    | RevokeUntrack(user: User, jti: Jti)
    | RevokeForget(user: User, jti: Jti)
    | RevokeBlock(jti: Jti)
    // revoke_all_sessions
    | SweepRead(user: User, except: Option<Jti>)
    | SweepBlock(user: User, keeping: bool, jtis: seq<Jti>, blocked: nat)
    | SweepUntrack(user: User, jtis: seq<Jti>)
    | SweepForget(user: User, jtis: seq<Jti>)
    | SweepDelete(user: User, jtis: seq<Jti>)
    | SweepDeleteMeta(user: User)
    // drop_sessions, called by list_sessions for tokens past their expiry
    | PruneUntrack(user: User, jtis: seq<Jti>)
    | PruneForget(user: User, jtis: seq<Jti>)

  /** The Redis commands the calls are made of. The reads (ZCARD, ZRANGE) change nothing. */
  datatype Command =
    | Zadd(user: User, entry: Entry)
    | Zrem(user: User, gone: set<Jti>)
    | DelSet(user: User)
    | Hset(user: User, jti: Jti)
    | Hdel(user: User, gone: set<Jti>)
    | DelMeta(user: User)
    | Setex(jti: Jti)
    | Read

  /** The shared keys: a sorted set and a hash per user, and the blocklist. */
  datatype Db = Db(sets: map<User, ZSet>, meta: map<User, set<Jti>>, blocked: set<Jti>) {
    /** The user's tracking set; a missing key reads as an empty set. */
    function Tracked(u: User): ZSet {
      if u in sets then sets[u] else []
    }

    function Described(u: User): set<Jti> {
      if u in meta then meta[u] else {}
    }

    function Perform(c: Command): Db {
      match c
      case Zadd(u, e) => this.(sets := sets[u := Add(Tracked(u), e)])
      case Zrem(u, gone) => this.(sets := sets[u := Remove(Tracked(u), gone)])
      case DelSet(u) => this.(sets := sets - {u})
      case Hset(u, j) => this.(meta := meta[u := Described(u) + {j}])
      case Hdel(u, gone) => this.(meta := meta[u := Described(u) - gone])
      case DelMeta(u) => this.(meta := meta - {u})
      case Setex(j) => this.(blocked := blocked + {j})
      case Read => this
    }
  }

  /** `issued`, `evicted` and `returned` are history: the tokens handed out, the
      members an eviction took out, and the lists track_session returned. */
  datatype State = State(
    cap: int,
    db: Db,
    expired: set<Jti>,
    calls: map<CallId, Call>,
    issued: set<(User, Jti)>,
    evicted: set<(User, Jti)>,
    returned: seq<seq<Jti>>)

  function Init(cap: int): State {
    State(cap, Db(map[], map[], {}), {}, map[], {}, {}, [])
  }

  /** Where each public operation begins. Pruning is only asked for expired tokens. */
  predicate Begins(s: State, c: Call) {
    match c
    case LoginAdd(_, _, _) => true
    case LogoutBlock(_, _) => true
    case RevokeUntrack(_, _) => true
    case SweepRead(_, _) => true
    case PruneUntrack(_, jtis) => jtis != [] && Members(jtis) <= s.expired
    case _ => false
  }

  /** The command a call sends next. */
  function Issue(c: Call): Command {
    match c
    case LoginAdd(u, j, t) => Zadd(u, Entry(j, t))
    case LoginDescribe(u, j) => Hset(u, j)
    case LoginCount(_) => Read
    case LoginRange(_, _) => Read
    case LoginEvict(u, members) => Zrem(u, Members(members))
    case LoginForget(u, members) => Hdel(u, Members(members))
    case LoginBlock(rest) => if rest == [] then Read else Setex(rest[0])
    case LogoutBlock(_, j) => Setex(j)
    case LogoutUntrack(u, j) => Zrem(u, {j})
    case LogoutForget(u, j) => Hdel(u, {j})
    case RevokeUntrack(u, j) => Zrem(u, {j})
    case RevokeForget(u, j) => Hdel(u, {j})
    case RevokeBlock(j) => Setex(j)
    case SweepRead(_, _) => Read
    case SweepBlock(_, _, jtis, n) => if n < |jtis| then Setex(jtis[n]) else Read
    case SweepUntrack(u, jtis) => Zrem(u, Members(jtis))
    case SweepForget(u, jtis) => Hdel(u, Members(jtis))
    case SweepDelete(u, _) => DelSet(u)
    case SweepDeleteMeta(u) => DelMeta(u)
    case PruneUntrack(u, jtis) => Zrem(u, Members(jtis))
    case PruneForget(u, jtis) => Hdel(u, Members(jtis))
  }

  /** What a call does with the reply: go on, return (track_session) or end. */
  datatype Outcome = Goto(call: Call) | Return(evicted: seq<Jti>) | End

  /** `db` is the database the command ran on, before its effect. */
  function Continue(c: Call, db: Db, cap: int): Outcome {
    match c
    case LoginAdd(u, j, _) => Goto(LoginDescribe(u, j))
    case LoginDescribe(u, _) => if cap > 0 then Goto(LoginCount(u)) else Return([])
    case LoginCount(u) =>
      var count := |db.Tracked(u)|;
      if count > cap then Goto(LoginRange(u, count)) else Return([])
    case LoginRange(u, count) =>
      var members := Lowest(db.Tracked(u), if count > cap then count - cap else 0);
      if members == [] then Return([]) else Goto(LoginEvict(u, members))
    case LoginEvict(u, members) => Goto(LoginForget(u, members))
    case LoginForget(_, members) => Return(members)
    case LoginBlock(rest) => if |rest| <= 1 then End else Goto(LoginBlock(rest[1..]))
    case LogoutBlock(u, j) => Goto(LogoutUntrack(u, j))
    case LogoutUntrack(u, j) => Goto(LogoutForget(u, j))
    case LogoutForget(_, _) => End
    case RevokeUntrack(u, j) => if j in Jtis(db.Tracked(u)) then Goto(RevokeForget(u, j)) else End
    case RevokeForget(_, j) => Goto(RevokeBlock(j))
    case RevokeBlock(_) => End
    case SweepRead(u, except) =>
      var members := Lowest(db.Tracked(u), |db.Tracked(u)|);
      var jtis := Without(members, except);
      if jtis == [] then End
      else Goto(SweepBlock(u, except.Some? && except.value in members, jtis, 0))
    case SweepBlock(u, keeping, jtis, n) =>
      if n + 1 < |jtis| then Goto(SweepBlock(u, keeping, jtis, n + 1))
      else if keeping then Goto(SweepUntrack(u, jtis))
      else Goto(SweepDelete(u, jtis))
    case SweepUntrack(u, jtis) => Goto(SweepForget(u, jtis))
    case SweepForget(_, _) => End
    case SweepDelete(u, _) => Goto(SweepDeleteMeta(u))
    case SweepDeleteMeta(_) => End
    case PruneUntrack(u, jtis) => Goto(PruneForget(u, jtis))
    case PruneForget(_, _) => End
  }

  /** The tokens a command hands out, and the members an eviction takes out. */
  function Issues(c: Call): set<(User, Jti)> {
    if c.LoginAdd? then {(c.user, c.jti)} else {}
  }

  function Evicts(c: Call, db: Db): set<(User, Jti)> {
    if c.LoginEvict? then set j | j in Members(c.members) && j in Jtis(db.Tracked(c.user)) :: (c.user, j)
    else {}
  }

  /** The caller of track_session then blocklists each member it returned. */
  function Advance(s: State, id: CallId): State
    requires id in s.calls
  {
    var c := s.calls[id];
    var s' := s.(db := s.db.Perform(Issue(c)),
                 issued := s.issued + Issues(c),
                 evicted := s.evicted + Evicts(c, s.db));
    match Continue(c, s.db, s.cap)
    case Goto(next) => s'.(calls := s.calls[id := next])
    case Return(members) =>
      s'.(returned := s.returned + [members],
          calls := if members == [] then s.calls - {id} else s.calls[id := LoginBlock(members)])
    case End => s'.(calls := s.calls - {id})
  }

  datatype Event = Start(id: CallId, call: Call) | Step(id: CallId) | Expire(jti: Jti)

  function Apply(s: State, e: Event): State {
    match e
    case Start(id, c) => if id !in s.calls && Begins(s, c) then s.(calls := s.calls[id := c]) else s
    case Step(id) => if id in s.calls then Advance(s, id) else s
    case Expire(j) => s.(expired := s.expired + {j})
  }

  /** One interleaving: any list of starts, commands and expiries. */
  function Run(s: State, es: seq<Event>): State
    decreases |es|
  {
    if es == [] then s else Run(Apply(s, es[0]), es[1..])
  }

  /** A token counts as dead exactly when its expiry came: no command makes it so. */
  lemma {:induction false} ExpiredByItsExpiry(s: State, es: seq<Event>, j: Jti)
    ensures j in Run(s, es).expired <==> j in s.expired || Expire(j) in es
    decreases |es|
  {
    if es != [] {
      ExpiredByItsExpiry(Apply(s, es[0]), es[1..], j);
      assert Expire(j) in es <==> es[0] == Expire(j) || Expire(j) in es[1..];
    }
  }

  // ----- the concurrent-session cap -----

  /** A login call of `u` that has added its member and not yet evicted. */
  predicate Pending(c: Call, u: User) {
    match c
    case LoginDescribe(v, _) => u == v
    case LoginCount(v) => u == v
    case LoginRange(v, _) => u == v
    case LoginEvict(v, _) => u == v
    case _ => false
  }

  /** A pending call that is bound to bring the set of `u` under the cap. */
  predicate Witness(z: ZSet, cap: int, c: Call, u: User) {
    Pending(c, u) &&
    (c.LoginRange? ==> c.count >= |z|) &&
    (c.LoginEvict? ==> |Remove(z, Members(c.members))| <= cap)
  }

  ghost predicate Capped(s: State, u: User) {
    |s.db.Tracked(u)| <= s.cap ||
    exists id :: id in s.calls && Witness(s.db.Tracked(u), s.cap, s.calls[id], u)
  }

  ghost predicate SetsValid(db: Db) {
    forall u :: Valid(db.Tracked(u))
  }

  lemma PerformKeepsSetsValid(db: Db, c: Command)
    requires SetsValid(db)
    ensures SetsValid(db.Perform(c))
  {
    forall u ensures Valid(db.Perform(c).Tracked(u)) {
      assert Valid(db.Tracked(u));
    }
  }

  /** A command that adds no member to the set of `u` only ever shrinks it. */
  lemma PerformShrinks(db: Db, c: Command, u: User)
    requires !(c.Zadd? && c.user == u)
    ensures |db.Perform(c).Tracked(u)| <= |db.Tracked(u)|
    ensures forall m :: |Remove(db.Perform(c).Tracked(u), m)| <= |Remove(db.Tracked(u), m)|
  {
    forall m ensures |Remove(db.Perform(c).Tracked(u), m)| <= |Remove(db.Tracked(u), m)| {
      if c.Zrem? && c.user == u {
        RemoveShrinks(db.Tracked(u), c.gone, m);
      }
    }
  }

  lemma OtherCallsStay(s: State, id: CallId, wid: CallId)
    requires id in s.calls && wid in s.calls && id != wid
    ensures var s' := Advance(s, id);
            && wid in s'.calls && s'.calls[wid] == s.calls[wid]
            && s'.cap == s.cap && s'.db == s.db.Perform(Issue(s.calls[id]))
  {
  }

  /** A witness stays one through every other call's command that adds nothing to its user. */
  lemma OthersKeepWitness(s: State, id: CallId, wid: CallId, u: User)
    requires id in s.calls && wid in s.calls && id != wid
    requires Witness(s.db.Tracked(u), s.cap, s.calls[wid], u)
    requires !(s.calls[id].LoginAdd? && s.calls[id].user == u)
    ensures Capped(Advance(s, id), u)
  {
    PerformShrinks(s.db, Issue(s.calls[id]), u);
    OtherCallsStay(s, id, wid);
    var s' := Advance(s, id);
    assert wid in s'.calls && Witness(s'.db.Tracked(u), s.cap, s'.calls[wid], u);
  }

  /** What a counting call ranges is enough to get the set under the cap. */
  lemma RangeKeepsWitness(z: ZSet, count: nat, cap: int, u: User)
    requires Valid(z) && 0 < cap < |z| <= count
    ensures var members := Lowest(z, count - cap);
            members != [] && Witness(z, cap, LoginEvict(u, members), u)
  {
    RemoveLowest(z, count - cap);
  }

  /** A witness's own command either keeps it one or gets the set under the cap. */
  lemma WitnessAdvances(s: State, id: CallId, u: User)
    requires s.cap > 0 && SetsValid(s.db)
    requires id in s.calls && Witness(s.db.Tracked(u), s.cap, s.calls[id], u)
    ensures Capped(Advance(s, id), u)
  {
    var s' := Advance(s, id);
    var z := s.db.Tracked(u);
    assert Valid(z);
    match s.calls[id]
    case LoginDescribe(_, _) => assert Witness(z, s.cap, s'.calls[id], u);
    case LoginCount(_) =>
      if |z| > s.cap { assert Witness(z, s.cap, s'.calls[id], u); }
    case LoginRange(_, count) =>
      if |z| > s.cap {
        RangeKeepsWitness(z, count, s.cap, u);
        assert Witness(z, s.cap, s'.calls[id], u);
      }
    case LoginEvict(_, members) => assert |s'.db.Tracked(u)| <= s.cap;
  }

  lemma AdvanceKeepsCapped(s: State, id: CallId, u: User)
    requires s.cap > 0 && SetsValid(s.db)
    requires id in s.calls && Capped(s, u)
    ensures Capped(Advance(s, id), u)
  {
    var c := s.calls[id];
    if c.LoginAdd? && c.user == u {
      var s' := Advance(s, id);
      assert Witness(s'.db.Tracked(u), s.cap, s'.calls[id], u);
    } else if |s.db.Tracked(u)| <= s.cap {
      PerformShrinks(s.db, Issue(c), u);
    } else {
      var wid :| wid in s.calls && Witness(s.db.Tracked(u), s.cap, s.calls[wid], u);
      if wid == id { WitnessAdvances(s, id, u); } else { OthersKeepWitness(s, id, wid, u); }
    }
  }

  ghost predicate CapInv(s: State) {
    s.cap > 0 && SetsValid(s.db) && forall u :: Capped(s, u)
  }

  lemma ApplyKeepsCap(s: State, e: Event)
    requires CapInv(s)
    ensures CapInv(Apply(s, e)) && Apply(s, e).cap == s.cap
  {
    var s' := Apply(s, e);
    if e.Step? && e.id in s.calls {
      PerformKeepsSetsValid(s.db, Issue(s.calls[e.id]));
      forall u ensures Capped(s', u) { AdvanceKeepsCapped(s, e.id, u); }
    } else {
      forall u ensures Capped(s', u) {
        assert Capped(s, u);
        if |s.db.Tracked(u)| > s.cap {
          var id :| id in s.calls && Witness(s.db.Tracked(u), s.cap, s.calls[id], u);
          assert id in s'.calls && s'.calls[id] == s.calls[id];
        }
      }
    }
  }

  lemma {:induction false} RunKeepsCap(s: State, es: seq<Event>)
    requires CapInv(s)
    ensures CapInv(Run(s, es)) && Run(s, es).cap == s.cap
    decreases |es|
  {
    if es != [] {
      ApplyKeepsCap(s, es[0]);
      RunKeepsCap(Apply(s, es[0]), es[1..]);
    }
  }

  /** Whatever the interleaving, a user with no login between its ZADD and its
      eviction has at most `cap` tracked sessions. */
  lemma CapHoldsWhenNoLoginIsPending(cap: int, es: seq<Event>, u: User)
    requires cap > 0
    ensures var s := Run(Init(cap), es);
            (forall id :: id in s.calls ==> !Pending(s.calls[id], u)) ==> |s.db.Tracked(u)| <= cap
  {
    assert CapInv(Init(cap));
    RunKeepsCap(Init(cap), es);
    assert Capped(Run(Init(cap), es), u);
  }

  // ----- every evicted member is returned -----

  ghost predicate Reported(s: State, j: Jti) {
    (exists r :: r in s.returned && j in r) ||
    (exists id :: id in s.calls && s.calls[id].LoginForget? && j in s.calls[id].members)
  }

  ghost predicate EvictionsReported(s: State) {
    forall u, j :: (u, j) in s.evicted ==> Reported(s, j)
  }

  lemma AdvanceKeepsReported(s: State, id: CallId, j: Jti)
    requires id in s.calls
    requires Reported(s, j) || (s.calls[id].LoginEvict? && j in s.calls[id].members)
    ensures Reported(Advance(s, id), j)
  {
    var s' := Advance(s, id);
    assert forall r :: r in s.returned ==> r in s'.returned;
    if s.calls[id].LoginEvict? && j in s.calls[id].members {
      assert s'.calls[id].LoginForget?;
    } else if r :| r in s.returned && j in r {
    } else {
      var wid :| wid in s.calls && s.calls[wid].LoginForget? && j in s.calls[wid].members;
      if wid == id {
        assert s.calls[id].members in s'.returned;
      } else {
        assert wid in s'.calls && s'.calls[wid] == s.calls[wid];
      }
    }
  }

  lemma {:induction false} RunReportsEvictions(s: State, es: seq<Event>)
    requires EvictionsReported(s)
    ensures EvictionsReported(Run(s, es))
    decreases |es|
  {
    if es != [] {
      var e, s' := es[0], Apply(s, es[0]);
      forall u, j | (u, j) in s'.evicted ensures Reported(s', j) {
        if e.Step? && e.id in s.calls {
          AdvanceKeepsReported(s, e.id, j);
        } else {
          assert s'.returned == s.returned;
          assert forall id :: id in s.calls ==> id in s'.calls && s'.calls[id] == s.calls[id];
          assert Reported(s, j);
        }
      }
      RunReportsEvictions(s', es[1..]);
    }
  }

  /** The history of evictions records exactly what the ZREM of a sign-in takes out of the set. */
  lemma EvictionsAreRecorded(s: State, id: CallId, u: User, j: Jti)
    requires id in s.calls
    ensures (u, j) in Advance(s, id).evicted <==>
            || (u, j) in s.evicted
            || (s.calls[id].LoginEvict? && s.calls[id].user == u
                && j in Jtis(s.db.Tracked(u)) && j !in Jtis(Advance(s, id).db.Tracked(u)))
  {
    if s.calls[id].LoginEvict? && s.calls[id].user == u {
      var z, gone := s.db.Tracked(u), Members(s.calls[id].members);
      assert Jtis(Remove(z, gone)) == Jtis(z) - gone;
    }
  }

  /** Every member an eviction took out is in the list some track_session call returned,
      once no login is between its ZREM and its return. */
  lemma EvictedMembersAreReturned(cap: int, es: seq<Event>, u: User, j: Jti)
    requires (u, j) in Run(Init(cap), es).evicted
    requires forall id :: id in Run(Init(cap), es).calls ==> !Run(Init(cap), es).calls[id].LoginForget?
    ensures exists r :: r in Run(Init(cap), es).returned && j in r
  {
    RunReportsEvictions(Init(cap), es);
    assert Reported(Run(Init(cap), es), j);
  }

  // ----- no live token escapes both the tracking set and the blocklist -----

  /** The call will blocklist `j`, or return it to the caller that does. */
  predicate WillBlock(c: Call, j: Jti) {
    match c
    case LoginForget(_, members) => j in members
    case LoginBlock(rest) => j in rest
    case RevokeForget(_, k) => j == k
    case RevokeBlock(k) => j == k
    case _ => false
  }

  /** `j` is dead, blocklisted or about to be. */
  ghost predicate Ended(s: State, j: Jti) {
    j in s.expired || j in s.db.blocked || exists id :: id in s.calls && WillBlock(s.calls[id], j)
  }

  ghost predicate AllCovered(s: State) {
    forall u, j :: (u, j) in s.issued ==> j in Jtis(s.db.Tracked(u)) || Ended(s, j)
  }

  /** What a call has already blocklisted, or found expired, before its next command. */
  predicate CallSafe(s: State, c: Call) {
    match c
    case LogoutUntrack(_, j) => j in s.db.blocked
    case SweepBlock(_, _, jtis, n) => n < |jtis| && Members(jtis[..n]) <= s.db.blocked
    case SweepUntrack(_, jtis) => Members(jtis) <= s.db.blocked
    case SweepDelete(_, jtis) => Members(jtis) <= s.db.blocked
    case PruneUntrack(_, jtis) => Members(jtis) <= s.expired
    case _ => true
  }

  ghost predicate CallsSafe(s: State) {
    forall id :: id in s.calls ==> CallSafe(s, s.calls[id])
  }

  lemma CallStaysSafe(s: State, s': State, c: Call)
    requires CallSafe(s, c)
    requires s.db.blocked <= s'.db.blocked && s.expired <= s'.expired
    ensures CallSafe(s', c)
  {
  }

  lemma NextCommandIsSafe(s: State, id: CallId)
    requires id in s.calls && CallSafe(s, s.calls[id])
    ensures id in Advance(s, id).calls ==> CallSafe(Advance(s, id), Advance(s, id).calls[id])
  {
    var c := s.calls[id];
    if c.SweepBlock? {
      assert Members(c.jtis[..c.blocked + 1]) == Members(c.jtis[..c.blocked]) + {c.jtis[c.blocked]};
      assert c.jtis[..|c.jtis|] == c.jtis;
    }
  }

  lemma ApplyGrows(s: State, e: Event)
    ensures s.db.blocked <= Apply(s, e).db.blocked && s.expired <= Apply(s, e).expired
  {
  }

  lemma ApplyKeepsCallsSafe(s: State, e: Event)
    requires CallsSafe(s)
    ensures CallsSafe(Apply(s, e))
  {
    var s' := Apply(s, e);
    ApplyGrows(s, e);
    forall id | id in s'.calls ensures CallSafe(s', s'.calls[id]) {
      if e.Step? && e.id == id && id in s.calls {
        NextCommandIsSafe(s, id);
      } else if id in s.calls {
        assert s'.calls[id] == s.calls[id];
        CallStaysSafe(s, s', s.calls[id]);
      }
    }
  }

  /** A token that is dead, blocklisted or about to be stays so. */
  lemma AdvanceKeepsEnded(s: State, id: CallId, j: Jti)
    requires id in s.calls && Ended(s, j)
    ensures Ended(Advance(s, id), j)
  {
    var s' := Advance(s, id);
    if j !in s.expired && j !in s.db.blocked {
      var wid :| wid in s.calls && WillBlock(s.calls[wid], j);
      if wid == id {
        var c := s.calls[id];
        if c.LoginBlock? && j != c.rest[0] {
          assert j in c.rest[1..];
          assert WillBlock(s'.calls[id], j);
        } else if !c.LoginBlock? && !c.RevokeBlock? {
          assert WillBlock(s'.calls[id], j);
        }
      } else {
        assert wid in s'.calls && WillBlock(s'.calls[wid], j);
      }
    }
  }

  /** Every command but the sweep's DEL ends what it takes out of a tracking set. */
  lemma UntrackedIsEnded(s: State, id: CallId, u: User, j: Jti)
    requires id in s.calls && CallSafe(s, s.calls[id])
    requires j in Jtis(s.db.Tracked(u)) && j !in Jtis(Advance(s, id).db.Tracked(u))
    requires !s.calls[id].SweepDelete?
    ensures Ended(Advance(s, id), j)
  {
    var s', c := Advance(s, id), s.calls[id];
    var e :| e in s.db.Tracked(u) && e.jti == j;
    assert e !in s'.db.Tracked(u);
    if c.LoginAdd? {
      assert false;
    } else {
      assert Issue(c).Zrem? && Issue(c).user == u && j in Issue(c).gone;
      if c.LoginEvict? || c.RevokeUntrack? {
        assert id in s'.calls && WillBlock(s'.calls[id], j);
      }
    }
  }

  /** The only command that can lose a live token is the DEL of revoke_all_sessions, and it
      does so exactly when a member it drops was neither in the list it read nor otherwise ended. */
  lemma OnlyTheSweepDeleteCanLoseAToken(s: State, id: CallId)
    requires id in s.calls && CallsSafe(s) && AllCovered(s)
    ensures AllCovered(Advance(s, id)) <==>
            (s.calls[id].SweepDelete? ==>
               var u := s.calls[id].user;
               forall j | (u, j) in s.issued && j in Jtis(s.db.Tracked(u)) && j !in s.calls[id].jtis :: Ended(s, j))
  {
    var s', c := Advance(s, id), s.calls[id];
    assert CallSafe(s, c);
    if c.SweepDelete? {
      var u := c.user;
      forall j ensures Ended(s', j) <==> Ended(s, j) {
        if Ended(s, j) { AdvanceKeepsEnded(s, id, j); }
        if Ended(s', j) && j !in s.expired && j !in s.db.blocked {
          var wid :| wid in s'.calls && WillBlock(s'.calls[wid], j);
          assert wid in s.calls && WillBlock(s.calls[wid], j);
        }
      }
      assert forall j :: j in c.jtis ==> j in Members(c.jtis);
      assert s'.db.Tracked(u) == [];
      forall v | v != u ensures s'.db.Tracked(v) == s.db.Tracked(v) {}
      if AllCovered(s') {
        forall j | (u, j) in s.issued && j in Jtis(s.db.Tracked(u)) ensures Ended(s, j) {
          assert (u, j) in s'.issued;
          assert j !in Jtis(s'.db.Tracked(u));
        }
      }
    } else {
      forall v, j | (v, j) in s'.issued ensures j in Jtis(s'.db.Tracked(v)) || Ended(s', j) {
        if (v, j) in s.issued {
          if Ended(s, j) {
            AdvanceKeepsEnded(s, id, j);
          } else if j !in Jtis(s'.db.Tracked(v)) {
            UntrackedIsEnded(s, id, v, j);
          }
        }
      }
    }
  }

  /** A sweep that keeps nothing, between its ZRANGE and its DEL. */
  predicate Sweeping(c: Call, u: User) {
    match c
    case SweepBlock(v, keeping, _, _) => u == v && !keeping
    case SweepDelete(v, _) => u == v
    case _ => false
  }

  /** The event is not a sign-in of a user whose sessions are being swept. */
  ghost predicate NoLoginDuringSweep(s: State, e: Event) {
    e.Step? && e.id in s.calls && s.calls[e.id].LoginAdd? ==>
      forall id :: id in s.calls ==> !Sweeping(s.calls[id], s.calls[e.id].user)
  }

  ghost predicate Quiet(s: State, es: seq<Event>)
    decreases |es|
  {
    es == [] || (NoLoginDuringSweep(s, es[0]) && Quiet(Apply(s, es[0]), es[1..]))
  }

  /** What a sweep read still covers what is tracked. */
  ghost predicate SweepsCurrent(s: State) {
    forall id, u :: id in s.calls && Sweeping(s.calls[id], u) ==>
      Jtis(s.db.Tracked(u)) <= Members(s.calls[id].jtis)
  }

  lemma OnlyLoginsAdd(s: State, id: CallId, u: User)
    requires id in s.calls && !(s.calls[id].LoginAdd? && s.calls[id].user == u)
    ensures Jtis(Advance(s, id).db.Tracked(u)) <= Jtis(s.db.Tracked(u))
  {
    AdvanceIs(s, id);
    PerformAddsNothing(s.db, Issue(s.calls[id]), u);
  }

  lemma PerformAddsNothing(db: Db, c: Command, u: User)
    requires !(c.Zadd? && c.user == u)
    ensures Jtis(db.Perform(c).Tracked(u)) <= Jtis(db.Tracked(u))
  {
  }

  /** A sweep goes on with the list it read. */
  lemma SweepingStays(s: State, id: CallId, wid: CallId, u: User)
    requires id in s.calls && wid in Advance(s, id).calls && Sweeping(Advance(s, id).calls[wid], u)
    requires !(wid == id && s.calls[id].SweepRead?)
    ensures wid in s.calls && Sweeping(s.calls[wid], u) && Advance(s, id).calls[wid].jtis == s.calls[wid].jtis
  {
    if wid != id {
      assert wid in s.calls;
      OtherCallsStay(s, id, wid);
    }
  }

  lemma AdvanceKeepsSweepCurrent(s: State, id: CallId, wid: CallId, u: User)
    requires SweepsCurrent(s) && NoLoginDuringSweep(s, Step(id)) && id in s.calls
    requires wid in Advance(s, id).calls && Sweeping(Advance(s, id).calls[wid], u)
    ensures Jtis(Advance(s, id).db.Tracked(u)) <= Members(Advance(s, id).calls[wid].jtis)
  {
    if wid == id && s.calls[id].SweepRead? {
      SweepReadsAll(s, id);
    } else {
      SweepingStays(s, id, wid, u);
      OnlyLoginsAdd(s, id, u);
    }
  }

  lemma ApplyKeepsSweepsCurrent(s: State, e: Event)
    requires SweepsCurrent(s) && NoLoginDuringSweep(s, e)
    ensures SweepsCurrent(Apply(s, e))
  {
    var s' := Apply(s, e);
    forall id, u | id in s'.calls && Sweeping(s'.calls[id], u)
      ensures Jtis(s'.db.Tracked(u)) <= Members(s'.calls[id].jtis)
    {
      if e.Step? && e.id in s.calls {
        AdvanceKeepsSweepCurrent(s, e.id, id, u);
      } else {
        assert id in s.calls && s'.calls[id] == s.calls[id];
      }
    }
  }

  lemma SweepReadsAll(s: State, id: CallId)
    requires id in s.calls && s.calls[id].SweepRead?
    ensures var u := s.calls[id].user;
            id in Advance(s, id).calls && Sweeping(Advance(s, id).calls[id], u) ==>
              Jtis(s.db.Tracked(u)) <= Members(Advance(s, id).calls[id].jtis)
  {
    var z := s.db.Tracked(s.calls[id].user);
    LowestAreAll(z);
    assert forall j :: j in Members(Lowest(z, |z|)) ==> j in Lowest(z, |z|);
  }

  lemma {:induction false} QuietRunKeepsCoverage(s: State, es: seq<Event>)
    requires CallsSafe(s) && AllCovered(s) && SweepsCurrent(s) && Quiet(s, es)
    ensures AllCovered(Run(s, es))
    decreases |es|
  {
    if es != [] {
      var e := es[0];
      ApplyKeepsCallsSafe(s, e);
      ApplyKeepsSweepsCurrent(s, e);
      var s' := Apply(s, e);
      if e.Step? && e.id in s.calls {
        var c := s.calls[e.id];
        assert CallSafe(s, c);
        assert c.SweepDelete? ==> Sweeping(c, c.user);
        OnlyTheSweepDeleteCanLoseAToken(s, e.id);
      } else {
        forall u, j | (u, j) in s'.issued ensures j in Jtis(s'.db.Tracked(u)) || Ended(s', j) {
          if Ended(s, j) && j !in s.expired && j !in s.db.blocked {
            var id :| id in s.calls && WillBlock(s.calls[id], j);
            assert id in s'.calls && WillBlock(s'.calls[id], j);
          }
        }
      }
      QuietRunKeepsCoverage(s', es[1..]);
    }
  }

  /** Over every interleaving with no sign-in of a user inside a sweep of that user, each
      token handed out is tracked, dead or blocklisted, or a pending call will blocklist it. */
  lemma NoLiveTokenIsLost(cap: int, es: seq<Event>, u: User, j: Jti)
    requires Quiet(Init(cap), es)
    requires (u, j) in Run(Init(cap), es).issued
    ensures j in Jtis(Run(Init(cap), es).db.Tracked(u)) || Ended(Run(Init(cap), es), j)
  {
    QuietRunKeepsCoverage(Init(cap), es);
  }

  // ----- runs that break what the sequential reading promises -----

  lemma {:induction false} RunExtends(s: State, es: seq<Event>, e: Event)
    ensures Run(s, es + [e]) == Apply(Run(s, es), e)
    decreases |es|
  {
    if es == [] {
      assert Run(s, [e]) == Run(Apply(s, e), [e][1..]);
    } else {
      assert (es + [e])[0] == es[0] && (es + [e])[1..] == es[1..] + [e];
      RunExtends(Apply(s, es[0]), es[1..], e);
    }
  }

  /** One more event of a run that is being built. */
  lemma Extend(s0: State, es: seq<Event>, e: Event, s: State, s': State) returns (es': seq<Event>)
    requires Run(s0, es) == s && Apply(s, e) == s'
    ensures es' == es + [e] && Run(s0, es') == s'
  {
    RunExtends(s0, es, e);
    es' := es + [e];
  }

  /** User `u` has signed in as `j`, up to the description. */
  lemma OneSignIn(cap: int, u: User, j: Jti) returns (es: seq<Event>)
    ensures var s := Run(Init(cap), es);
            && s.db.Tracked(u) == [Entry(j, 1.0)] && s.db.Described(u) == {} && s.db.blocked == {} && s.expired == {}
            && s.calls == map[1 := LoginDescribe(u, j)]
  {
    var s0 := Init(cap);
    var login := LoginAdd(u, j, 1.0);
    es := Extend(s0, [], Start(1, login), s0, Apply(s0, Start(1, login)));
    assert Add([], Entry(j, 1.0)) == [Entry(j, 1.0)];
    es := StepOn(s0, es, 1);
  }

  /** A sweep of `u` begins. */
  lemma SweepBegins(cap: int, u: User, j: Jti) returns (es: seq<Event>)
    ensures var s := Run(Init(cap), es);
            && s.db.Tracked(u) == [Entry(j, 1.0)] && s.db.blocked == {} && s.expired == {}
            && s.calls == map[0 := SweepRead(u, None), 1 := LoginDescribe(u, j)]
  {
    var s0 := Init(cap);
    es := OneSignIn(cap, u, j);
    es := Extend(s0, es, Start(0, SweepRead(u, None)), Run(s0, es), Apply(Run(s0, es), Start(0, SweepRead(u, None))));
  }

  /** One more command of a call. */
  lemma StepOn(s0: State, es: seq<Event>, id: CallId) returns (es': seq<Event>)
    requires id in Run(s0, es).calls
    ensures Run(s0, es') == Advance(Run(s0, es), id)
  {
    var s := Run(s0, es);
    es' := Extend(s0, es, Step(id), s, Advance(s, id));
  }

  lemma ReadStep(s: State, id: CallId, u: User, j: Jti)
    requires id in s.calls && s.calls[id] == SweepRead(u, None) && s.db.Tracked(u) == [Entry(j, 1.0)]
    ensures var s' := Advance(s, id);
            && s'.db == s.db && s'.expired == s.expired
            && s'.calls == s.calls[id := SweepBlock(u, false, [j], 0)]
  {
    assert Lowest([Entry(j, 1.0)], 1) == [j];
    assert Without([j], None) == [j];
  }

  /** The sweep has read `j`. */
  lemma SweepReadsOne(cap: int, u: User, j: Jti) returns (es: seq<Event>)
    ensures var s := Run(Init(cap), es);
            && s.db.Tracked(u) == [Entry(j, 1.0)] && s.db.blocked == {} && s.expired == {}
            && s.calls == map[0 := SweepBlock(u, false, [j], 0), 1 := LoginDescribe(u, j)]
  {
    es := SweepBegins(cap, u, j);
    ReadStep(Run(Init(cap), es), 0, u, j);
    es := StepOn(Init(cap), es, 0);
  }

  /** The sweep reads and blocklists `j`, and stands right before its DEL. */
  lemma SweepReachesDelete(cap: int, u: User, j: Jti) returns (es: seq<Event>)
    ensures var s := Run(Init(cap), es);
            && s.db.Tracked(u) == [Entry(j, 1.0)] && s.db.blocked == {j} && s.expired == {}
            && s.calls == map[0 := SweepDelete(u, [j]), 1 := LoginDescribe(u, j)]
  {
    es := SweepReadsOne(cap, u, j);
    es := StepOn(Init(cap), es, 0);
  }

  /** `u` then signs in as `k` before the DEL. */
  lemma LoginOvertakesDelete(cap: int, u: User, j: Jti, k: Jti) returns (es: seq<Event>)
    requires j != k
    ensures var s := Run(Init(cap), es);
            && (u, k) in s.issued && s.db.blocked == {j} && s.expired == {}
            && s.calls == map[0 := SweepDelete(u, [j]), 1 := LoginDescribe(u, j), 2 := LoginDescribe(u, k)]
  {
    var s0 := Init(cap);
    es := SweepReachesDelete(cap, u, j);
    var s1 := Run(s0, es);
    var login := LoginAdd(u, k, 2.0);
    es := Extend(s0, es, Start(2, login), s1, Apply(s1, Start(2, login)));
    es := StepOn(s0, es, 2);
  }

  /** Without that condition a sign-in can be lost: `u` signs in as `k` before the DEL, and
      the new token is then neither tracked, blocklisted nor expired, and no call will
      blocklist it. */
  lemma SweepCanLoseALogin(cap: int, u: User, j: Jti, k: Jti) returns (es: seq<Event>)
    requires j != k
    ensures var s := Run(Init(cap), es);
            (u, k) in s.issued && s.db.Tracked(u) == [] && !Ended(s, k)
  {
    es := LoginOvertakesDelete(cap, u, j, k);
    var s := Run(Init(cap), es);
    es := StepOn(Init(cap), es, 0);
    assert Advance(s, 0).calls == map[0 := SweepDeleteMeta(u), 1 := LoginDescribe(u, j), 2 := LoginDescribe(u, k)];
  }

  /** `u` signs in as `j`, and a revocation of that session begins before it is described. */
  lemma RevokeBegins(cap: int, u: User, j: Jti) returns (es: seq<Event>)
    ensures var s := Run(Init(cap), es);
            && s.db.Tracked(u) == [Entry(j, 1.0)] && s.db.Described(u) == {}
            && s.calls == map[0 := RevokeUntrack(u, j), 1 := LoginDescribe(u, j)]
  {
    var s0 := Init(cap);
    es := OneSignIn(cap, u, j);
    es := Extend(s0, es, Start(0, RevokeUntrack(u, j)), Run(s0, es), Apply(Run(s0, es), Start(0, RevokeUntrack(u, j))));
  }

  /** The revocation has taken the session out. */
  lemma RevokeOvertakesLogin(cap: int, u: User, j: Jti) returns (es: seq<Event>)
    ensures var s := Run(Init(cap), es);
            && s.db.Tracked(u) == [] && s.db.Described(u) == {}
            && s.calls == map[0 := RevokeForget(u, j), 1 := LoginDescribe(u, j)]
  {
    es := RevokeBegins(cap, u, j);
    assert [Entry(j, 1.0)][0].jti == j;
    assert j in Jtis(Run(Init(cap), es).db.Tracked(u));
    es := StepOn(Init(cap), es, 0);
  }

  lemma RevokeForgets(cap: int, u: User, j: Jti) returns (es: seq<Event>)
    ensures var s := Run(Init(cap), es);
            s.db.Tracked(u) == [] && s.calls == map[0 := RevokeBlock(j), 1 := LoginDescribe(u, j)]
  {
    es := RevokeOvertakesLogin(cap, u, j);
    es := StepOn(Init(cap), es, 0);
  }

  lemma RevokeEndsFirst(cap: int, u: User, j: Jti) returns (es: seq<Event>)
    ensures var s := Run(Init(cap), es);
            s.db.Tracked(u) == [] && s.calls == map[1 := LoginDescribe(u, j)]
  {
    es := RevokeForgets(cap, u, j);
    es := StepOn(Init(cap), es, 0);
  }

  /** A description can outlive the membership it describes, also once the revocation ended. */
  lemma DescriptionCanOutliveMembership(cap: int, u: User, j: Jti) returns (es: seq<Event>)
    ensures var s := Run(Init(cap), es);
            j in s.db.Described(u) && s.db.Tracked(u) == [] && 0 !in s.calls
  {
    es := RevokeEndsFirst(cap, u, j);
    es := StepOn(Init(cap), es, 1);
  }

  // ----- when descriptions follow membership -----

  /** The call is about to forget the description of `j`, or every description of `u`. */
  predicate Forgets(c: Call, u: User, j: Jti) {
    match c
    case LoginForget(v, members) => u == v && j in members
    case LogoutForget(v, k) => u == v && j == k
    case RevokeForget(v, k) => u == v && j == k
    case SweepForget(v, jtis) => u == v && j in jtis
    case SweepDeleteMeta(v) => u == v
    case PruneForget(v, jtis) => u == v && j in jtis
    case _ => false
  }

  /** A description of `j` would belong to a tracked session, or is about to go. */
  ghost predicate Backed(s: State, u: User, j: Jti) {
    j in Jtis(s.db.Tracked(u)) || exists id :: id in s.calls && Forgets(s.calls[id], u, j)
  }

  ghost predicate AllBacked(s: State) {
    forall u, j :: j in s.db.Described(u) ==> Backed(s, u, j)
  }

  /** Every command keeps a description that stays backed; only HSET can write one that is not. */
  lemma AdvanceKeepsBacked(s: State, id: CallId, u: User, j: Jti)
    requires id in s.calls && Backed(s, u, j) && j in Advance(s, id).db.Described(u)
    ensures Backed(Advance(s, id), u, j)
  {
    var s', c := Advance(s, id), s.calls[id];
    if wid :| wid in s.calls && wid != id && Forgets(s.calls[wid], u, j) {
      assert wid in s'.calls && Forgets(s'.calls[wid], u, j);
    } else if j in Jtis(s.db.Tracked(u)) && j !in Jtis(s'.db.Tracked(u)) {
      RemovalForgets(s, id, u, j);
    }
  }

  /** A ZREM of the member, or the DEL of its key. */
  predicate TakesOut(c: Command, u: User, j: Jti) {
    match c
    case Zrem(v, gone) => u == v && j in gone
    case DelSet(v) => u == v
    case _ => false
  }

  /** Only such a command takes a member out of a set. */
  lemma PerformRemoves(db: Db, c: Command, u: User, j: Jti)
    requires j in Jtis(db.Tracked(u))
    ensures j in Jtis(db.Perform(c).Tracked(u)) || TakesOut(c, u, j)
  {
    var e :| e in db.Tracked(u) && e.jti == j;
    assert e in db.Perform(c).Tracked(u) ==> j in Jtis(db.Perform(c).Tracked(u));
  }

  /** Such a command goes on to one that forgets the member. */
  lemma ContinueForgets(c: Call, db: Db, cap: int, u: User, j: Jti)
    requires j in Jtis(db.Tracked(u)) && TakesOut(Issue(c), u, j)
    ensures Continue(c, db, cap).Goto? && Forgets(Continue(c, db, cap).call, u, j)
  {
  }

  lemma AdvanceIs(s: State, id: CallId)
    requires id in s.calls
    ensures var c := s.calls[id];
            && Advance(s, id).db == s.db.Perform(Issue(c))
            && (Continue(c, s.db, s.cap).Goto? ==> Advance(s, id).calls == s.calls[id := Continue(c, s.db, s.cap).call])
  {
  }

  /** A command that takes a member out of the set is followed by one that forgets it. */
  lemma RemovalForgets(s: State, id: CallId, u: User, j: Jti)
    requires id in s.calls && j in Jtis(s.db.Tracked(u))
    ensures
      || j in Jtis(Advance(s, id).db.Tracked(u))
      || (id in Advance(s, id).calls && Forgets(Advance(s, id).calls[id], u, j))
  {
    AdvanceIs(s, id);
    PerformRemoves(s.db, Issue(s.calls[id]), u, j);
    if j !in Jtis(s.db.Perform(Issue(s.calls[id])).Tracked(u)) {
      ContinueForgets(s.calls[id], s.db, s.cap, u, j);
    }
  }

  /** One command leaves every description backed exactly when it is not the HSET of a session
      that was already taken out, with nothing left to forget it. */
  lemma OnlyALateDescriptionOutlives(s: State, id: CallId)
    requires id in s.calls && AllBacked(s)
    ensures AllBacked(Advance(s, id)) <==>
            (s.calls[id].LoginDescribe? ==> Backed(s, s.calls[id].user, s.calls[id].jti))
  {
    var s', c := Advance(s, id), s.calls[id];
    if c.LoginDescribe? && !Backed(s, c.user, c.jti) {
      assert c.jti in s'.db.Described(c.user);
      assert forall wid :: wid in s'.calls && Forgets(s'.calls[wid], c.user, c.jti) ==> wid in s.calls && wid != id;
      assert !Backed(s', c.user, c.jti);
    } else {
      forall u, j | j in s'.db.Described(u) ensures Backed(s', u, j) {
        assert j in s.db.Described(u) || (c.LoginDescribe? && u == c.user && j == c.jti);
        AdvanceKeepsBacked(s, id, u, j);
      }
    }
  }

  /** The event is not the HSET of a session that is no longer backed. */
  ghost predicate Timely(s: State, e: Event) {
    e.Step? && e.id in s.calls && s.calls[e.id].LoginDescribe? ==> Backed(s, s.calls[e.id].user, s.calls[e.id].jti)
  }

  ghost predicate TimelyRun(s: State, es: seq<Event>)
    decreases |es|
  {
    es == [] || (Timely(s, es[0]) && TimelyRun(Apply(s, es[0]), es[1..]))
  }

  ghost predicate BackedThroughout(s: State, es: seq<Event>)
    decreases |es|
  {
    AllBacked(s) && (es == [] || BackedThroughout(Apply(s, es[0]), es[1..]))
  }

  lemma ApplyIsBackedWhenTimely(s: State, e: Event)
    requires AllBacked(s)
    ensures AllBacked(Apply(s, e)) <==> Timely(s, e)
  {
    if e.Step? && e.id in s.calls {
      OnlyALateDescriptionOutlives(s, e.id);
    } else {
      var s' := Apply(s, e);
      forall u, j | j in s'.db.Described(u) ensures Backed(s', u, j) {
        assert Backed(s, u, j);
        if j !in Jtis(s.db.Tracked(u)) {
          var id :| id in s.calls && Forgets(s.calls[id], u, j);
          assert id in s'.calls && s'.calls[id] == s.calls[id];
        }
      }
    }
  }

  /** Over every interleaving: descriptions are backed all along exactly when each was written
      while its session was. */
  lemma {:induction false} BackedExactlyWhenTimely(s: State, es: seq<Event>)
    requires AllBacked(s)
    ensures BackedThroughout(s, es) <==> TimelyRun(s, es)
    decreases |es|
  {
    if es != [] {
      ApplyIsBackedWhenTimely(s, es[0]);
      if Timely(s, es[0]) {
        BackedExactlyWhenTimely(Apply(s, es[0]), es[1..]);
      } else {
        assert !BackedThroughout(Apply(s, es[0]), es[1..]);
      }
    }
  }

  /** The event takes no member out of a set while its sign-in has yet to describe it. */
  ghost predicate Patient(s: State, e: Event) {
    e.Step? && e.id in s.calls ==>
      forall id :: id in s.calls && s.calls[id].LoginDescribe? ==>
        var u, j := s.calls[id].user, s.calls[id].jti;
        j in Jtis(s.db.Tracked(u)) ==> j in Jtis(Advance(s, e.id).db.Tracked(u))
  }

  ghost predicate PatientRun(s: State, es: seq<Event>)
    decreases |es|
  {
    es == [] || (Patient(s, es[0]) && PatientRun(Apply(s, es[0]), es[1..]))
  }

  /** Each sign-in that has yet to describe its session still has it tracked. */
  ghost predicate DescribersTracked(s: State) {
    forall id :: id in s.calls && s.calls[id].LoginDescribe? ==> s.calls[id].jti in Jtis(s.db.Tracked(s.calls[id].user))
  }

  lemma PatienceKeepsDescribersTracked(s: State, e: Event)
    requires DescribersTracked(s) && Patient(s, e)
    ensures DescribersTracked(Apply(s, e))
  {
    var s' := Apply(s, e);
    forall id | id in s'.calls && s'.calls[id].LoginDescribe?
      ensures s'.calls[id].jti in Jtis(s'.db.Tracked(s'.calls[id].user))
    {
      if id in s.calls && s'.calls[id] == s.calls[id] {
        assert s.calls[id].jti in Jtis(s.db.Tracked(s.calls[id].user));
      } else {
        assert e.Step? && e.id == id && s.calls[id].LoginAdd?;
      }
    }
  }

  lemma {:induction false} PatientRunsAreTimely(s: State, es: seq<Event>)
    requires DescribersTracked(s) && PatientRun(s, es)
    ensures TimelyRun(s, es)
    decreases |es|
  {
    if es != [] {
      PatienceKeepsDescribersTracked(s, es[0]);
      PatientRunsAreTimely(Apply(s, es[0]), es[1..]);
    }
  }

  lemma {:induction false} BackedAtTheEnd(s: State, es: seq<Event>)
    requires BackedThroughout(s, es)
    ensures AllBacked(Run(s, es))
    decreases |es|
  {
    if es != [] {
      BackedAtTheEnd(Apply(s, es[0]), es[1..]);
    }
  }

  /** Over every interleaving that removes no member between its ZADD and its HSET, once no call
      is about to forget anything of `u`, only tracked sessions have a description. */
  lemma DescriptionsFollowPatientRuns(cap: int, es: seq<Event>, u: User)
    requires PatientRun(Init(cap), es)
    requires forall id, j :: id in Run(Init(cap), es).calls ==> !Forgets(Run(Init(cap), es).calls[id], u, j)
    ensures Run(Init(cap), es).db.Described(u) <= Jtis(Run(Init(cap), es).db.Tracked(u))
  {
    PatientRunsAreTimely(Init(cap), es);
    BackedExactlyWhenTimely(Init(cap), es);
    BackedAtTheEnd(Init(cap), es);
    var s := Run(Init(cap), es);
    forall j | j in s.db.Described(u) ensures j in Jtis(s.db.Tracked(u)) {
      assert Backed(s, u, j);
    }
  }

  // ----- what a finished call has blocklisted -----

  /** The call has yet to blocklist `j`: an evicted, revoked or swept member. */
  predicate Owes(c: Call, j: Jti) {
    WillBlock(c, j) || (c.SweepBlock? && c.blocked < |c.jtis| && j in c.jtis[c.blocked..])
  }

  lemma AdvancePays(s: State, id: CallId, j: Jti)
    requires id in s.calls && Owes(s.calls[id], j)
    ensures var s' := Advance(s, id);
            j in s'.db.blocked || (id in s'.calls && Owes(s'.calls[id], j))
  {
    var c := s.calls[id];
    if c.LoginBlock? {
      assert c.rest == [c.rest[0]] + c.rest[1..];
    } else if c.SweepBlock? {
      assert c.jtis[c.blocked..] == [c.jtis[c.blocked]] + c.jtis[c.blocked + 1..];
    }
  }

  /** However its commands interleave with others, a call that has taken members out, or read
      them for a sweep, has blocklisted each of them when it ends. */
  lemma {:induction false} FinishedCallsHaveBlocklisted(s: State, es: seq<Event>, id: CallId, j: Jti)
    requires j in s.db.blocked || (id in s.calls && Owes(s.calls[id], j))
    ensures var s' := Run(s, es);
            j in s'.db.blocked || (id in s'.calls && Owes(s'.calls[id], j))
    decreases |es|
  {
    if es != [] {
      var e := es[0];
      ApplyGrows(s, e);
      if j !in s.db.blocked && e == Step(id) {
        AdvancePays(s, id, j);
      } else if j !in s.db.blocked {
        assert id in Apply(s, e).calls && Apply(s, e).calls[id] == s.calls[id];
      }
      FinishedCallsHaveBlocklisted(Apply(s, e), es[1..], id, j);
    }
  }

  /** A sweep owes every member it read but the kept one, a revocation the member it removed, an
      eviction those it took out. */
  lemma ReadingIsOwing(s: State, id: CallId, j: Jti)
    requires id in s.calls
    requires match s.calls[id]
             case SweepRead(u, except) => j in Jtis(s.db.Tracked(u)) && Some(j) != except
             case RevokeUntrack(u, k) => j in Jtis(s.db.Tracked(u)) && j == k
             case LoginEvict(_, members) => j in members
             case _ => false
    ensures id in Advance(s, id).calls && Owes(Advance(s, id).calls[id], j)
  {
    if s.calls[id].SweepRead? {
      var z := s.db.Tracked(s.calls[id].user);
      LowestAreAll(z);
      assert j in Members(Lowest(z, |z|));
      var jtis := Without(Lowest(z, |z|), s.calls[id].except);
      assert j in jtis && jtis[0..] == jtis;
    }
  }

  // ----- why a token is blocklisted -----

  /** The call will blocklist `j`, whatever the other calls do. */
  predicate Targets(c: Call, j: Jti) {
    Owes(c, j) || (c.LoginEvict? && j in c.members)
  }

  ghost predicate Doomed(s: State, j: Jti) {
    j in s.db.blocked || exists id :: id in s.calls && Targets(s.calls[id], j)
  }

  /** The command that decides it: a logout's SETEX; the ZREM of a revocation that finds `j` in the set
      of its own user; the ZRANGE of a sweep that finds `j` there and does not keep it; the ZRANGE of a
      sign-in that finds `j` among the lowest members beyond the cap. */
  predicate Decides(s: State, e: Event, j: Jti) {
    e.Step? && e.id in s.calls &&
    match s.calls[e.id]
    case LogoutBlock(_, k) => j == k
    case RevokeUntrack(u, k) => j == k && j in Jtis(s.db.Tracked(u))
    case SweepRead(u, except) => j in Jtis(s.db.Tracked(u)) && except != Some(j)
    case LoginRange(u, count) =>
      exists i | 0 <= i < |s.db.Tracked(u)| :: i < count - s.cap && s.db.Tracked(u)[i].jti == j
    case _ => false
  }

  lemma AdvanceKeepsDoomed(s: State, id: CallId, j: Jti)
    requires id in s.calls && Doomed(s, j)
    ensures Doomed(Advance(s, id), j)
  {
    var s' := Advance(s, id);
    ApplyGrows(s, Step(id));
    if j !in s.db.blocked {
      var wid :| wid in s.calls && Targets(s.calls[wid], j);
      if wid != id {
        OtherCallsStay(s, id, wid);
        assert Targets(s'.calls[wid], j);
      } else if s.calls[id].LoginEvict? {
        assert Targets(s'.calls[id], j);
      } else {
        AdvancePays(s, id, j);
      }
    }
  }

  lemma DecidingDooms(s: State, id: CallId, j: Jti)
    requires Decides(s, Step(id), j)
    ensures Doomed(Advance(s, id), j)
  {
    var s', c := Advance(s, id), s.calls[id];
    if c.LoginRange? {
      var z := s.db.Tracked(c.user);
      var i :| 0 <= i < |z| && i < c.count - s.cap && z[i].jti == j;
      assert Lowest(z, c.count - s.cap)[i] == j;
      assert Targets(s'.calls[id], j);
    } else if !c.LogoutBlock? {
      ReadingIsOwing(s, id, j);
      assert Targets(s'.calls[id], j);
    }
  }

  /** Nothing else makes the call itself target a token. */
  lemma OnlyDecidingTargets(s: State, id: CallId, j: Jti)
    requires id in s.calls && id in Advance(s, id).calls && Targets(Advance(s, id).calls[id], j)
    ensures Targets(s.calls[id], j) || Decides(s, Step(id), j)
  {
    var c := s.calls[id];
    if c.SweepRead? {
      LowestAreAll(s.db.Tracked(c.user));
      assert j in Members(Lowest(s.db.Tracked(c.user), |s.db.Tracked(c.user)|));
    } else if c.LoginRange? {
      var z := s.db.Tracked(c.user);
      assert c.count > s.cap;
      var members := Lowest(z, c.count - s.cap);
      var i :| 0 <= i < |members| && members[i] == j;
      assert z[i].jti == j;
    } else if c.SweepBlock? {
      assert j in c.jtis[c.blocked + 1..] ==> j in c.jtis[c.blocked..];
    }
  }

  lemma OnlyDecidingDooms(s: State, id: CallId, j: Jti)
    requires id in s.calls && Doomed(Advance(s, id), j)
    ensures Doomed(s, j) || Decides(s, Step(id), j)
  {
    var s', c := Advance(s, id), s.calls[id];
    if j in s'.db.blocked {
      if j !in s.db.blocked && !c.LogoutBlock? {
        assert Issue(c) == Setex(j);
        assert Targets(c, j);
      }
    } else {
      var wid :| wid in s'.calls && Targets(s'.calls[wid], j);
      if wid == id {
        OnlyDecidingTargets(s, id, j);
      } else {
        assert wid in s.calls && s'.calls[wid] == s.calls[wid];
      }
    }
  }

  lemma DoomedStep(s: State, e: Event, j: Jti)
    ensures Doomed(Apply(s, e), j) <==> Doomed(s, j) || Decides(s, e, j)
  {
    var s' := Apply(s, e);
    if e.Step? && e.id in s.calls {
      if Doomed(s, j) { AdvanceKeepsDoomed(s, e.id, j); }
      if Decides(s, e, j) { DecidingDooms(s, e.id, j); }
      if Doomed(s', j) { OnlyDecidingDooms(s, e.id, j); }
    } else {
      assert forall id :: id in s.calls ==> id in s'.calls && s'.calls[id] == s.calls[id];
      assert forall id :: id in s'.calls && Targets(s'.calls[id], j) ==> id in s.calls;
    }
  }

  predicate DecidesAt(s: State, es: seq<Event>, n: nat, j: Jti) {
    n < |es| && Decides(Run(s, es[..n]), es[n], j)
  }

  lemma DecidesShift(s: State, es: seq<Event>, n: nat, j: Jti)
    requires es != []
    ensures DecidesAt(s, es, 0, j) <==> Decides(s, es[0], j)
    ensures DecidesAt(s, es, n + 1, j) <==> DecidesAt(Apply(s, es[0]), es[1..], n, j)
  {
    assert es[..0] == [];
    if n + 1 < |es| {
      assert es[..n + 1][1..] == es[1..][..n];
    }
  }

  lemma {:induction false} DoomedByACommand(s: State, es: seq<Event>, j: Jti)
    ensures Doomed(Run(s, es), j) <==> Doomed(s, j) || exists n :: DecidesAt(s, es, n, j)
    decreases |es|
  {
    if es != [] {
      var s', rest := Apply(s, es[0]), es[1..];
      DoomedStep(s, es[0], j);
      DoomedByACommand(s', rest, j);
      DecidesShift(s, es, 0, j);
      if n: nat :| DecidesAt(s', rest, n, j) {
        DecidesShift(s, es, n, j);
      }
      if n: nat :| DecidesAt(s, es, n, j) {
        if n > 0 {
          DecidesShift(s, es, n - 1, j);
        }
      }
    }
  }

  /** Whatever the interleaving, a token is blocklisted, or bound to be by a running call, exactly when
      it was logged out, revoked out of the set of the revoking user, swept out of its user's set without
      being kept, or over the cap when a sign-in ranged the set. */
  lemma BlocklistedForAReason(cap: int, es: seq<Event>, j: Jti)
    ensures Doomed(Run(Init(cap), es), j) <==> exists n :: DecidesAt(Init(cap), es, n, j)
  {
    DoomedByACommand(Init(cap), es, j);
  }

  /** Only a user's own sign-ins put tokens into the user's set. */
  lemma {:induction false} TrackedWereHandedOut(s: State, es: seq<Event>, u: User)
    requires forall j :: j in Jtis(s.db.Tracked(u)) ==> (u, j) in s.issued
    ensures forall j :: j in Jtis(Run(s, es).db.Tracked(u)) ==> (u, j) in Run(s, es).issued
    decreases |es|
  {
    if es != [] {
      var e, s' := es[0], Apply(s, es[0]);
      forall j | j in Jtis(s'.db.Tracked(u)) ensures (u, j) in s'.issued {
        if e.Step? && e.id in s.calls && !(s.calls[e.id].LoginAdd? && s.calls[e.id].user == u) {
          OnlyLoginsAdd(s, e.id, u);
        }
      }
      TrackedWereHandedOut(s', es[1..], u);
    }
  }

  // ----- a call that runs alone -----

  /** Nothing is blocklisted and no other user's keys change; `u` has the descriptions `described`. */
  ghost predicate Describes(db: Db, db': Db, u: User, described: set<Jti>) {
    && db'.blocked == db.blocked && db'.Described(u) == described
    && forall v :: v != u ==> db'.Tracked(v) == db.Tracked(v) && db'.Described(v) == db.Described(v)
  }

  /** The call has described `more`, taken out and returned `out`, and goes on to blocklist it unless it
      is empty. */
  ghost predicate Returned(s: State, s': State, id: CallId, u: User, out: seq<Jti>, more: set<Jti>) {
    && s'.returned == s.returned + [out]
    && s'.db.Tracked(u) == (if out == [] then s.db.Tracked(u) else Remove(s.db.Tracked(u), Members(out)))
    && s'.calls == (if out == [] then s.calls - {id} else s.calls[id := LoginBlock(out)])
    && Describes(s.db, s'.db, u, s.db.Described(u) + more - Members(out))
  }

  /** A command that only describes `more` and moves the call on. */
  ghost predicate Moved(s: State, s': State, id: CallId, u: User, next: Call, more: set<Jti>) {
    && s'.returned == s.returned && s'.cap == s.cap
    && s'.db.Tracked(u) == s.db.Tracked(u) && s'.calls == s.calls[id := next]
    && Describes(s.db, s'.db, u, s.db.Described(u) + more)
  }

  lemma UpdatesCollapse(calls: map<CallId, Call>, id: CallId, c: Call, d: Call)
    ensures calls[id := c][id := d] == calls[id := d]
    ensures calls[id := c] - {id} == calls - {id}
  {
  }

  lemma MovedThenReturned(s: State, s1: State, s2: State, id: CallId, u: User, next: Call,
        out: seq<Jti>, more: set<Jti>)
    requires Moved(s, s1, id, u, next, more) && Returned(s1, s2, id, u, out, {})
    ensures Returned(s, s2, id, u, out, more)
  {
    UpdatesCollapse(s.calls, id, next, LoginBlock(out));
  }

  lemma AddedThenReturned(s: State, s1: State, s2: State, id: CallId, u: User, j: Jti, out: seq<Jti>)
    requires id !in s.calls && s1.calls == s.calls[id := LoginDescribe(u, j)] && s1.returned == s.returned
    requires Describes(s.db, s1.db, u, s.db.Described(u)) && Returned(s1, s2, id, u, out, {j})
    ensures s2.returned == s.returned + [out]
    ensures s2.db.Tracked(u) == if out == [] then s1.db.Tracked(u) else Remove(s1.db.Tracked(u), Members(out))
    ensures s2.calls == if out == [] then s.calls else s.calls[id := LoginBlock(out)]
    ensures Describes(s.db, s2.db, u, s.db.Described(u) + {j} - Members(out))
  {
    UpdatesCollapse(s.calls, id, LoginDescribe(u, j), LoginBlock(out));
    assert s.calls - {id} == s.calls;
  }

  lemma DescribeStep(s: State, id: CallId, u: User, j: Jti)
    requires id in s.calls && s.calls[id] == LoginDescribe(u, j)
    ensures if s.cap > 0 then Moved(s, Advance(s, id), id, u, LoginCount(u), {j})
            else Returned(s, Advance(s, id), id, u, [], {j})
  {
  }

  lemma CountStep(s: State, id: CallId, u: User)
    requires id in s.calls && s.calls[id] == LoginCount(u)
    ensures var n := |s.db.Tracked(u)|;
            if n > s.cap then Moved(s, Advance(s, id), id, u, LoginRange(u, n), {})
            else Returned(s, Advance(s, id), id, u, [], {})
  {
  }

  lemma RangeStep(s: State, id: CallId, u: User)
    requires 0 < s.cap < |s.db.Tracked(u)|
    requires id in s.calls && s.calls[id] == LoginRange(u, |s.db.Tracked(u)|)
    ensures var out := Overflow(s.db.Tracked(u), s.cap);
            out != [] && Moved(s, Advance(s, id), id, u, LoginEvict(u, out), {})
  {
  }

  /** The members are out, and still to be forgotten. */
  ghost predicate TakenOut(s: State, s': State, id: CallId, u: User, out: seq<Jti>) {
    && s'.returned == s.returned && s'.calls == s.calls[id := LoginForget(u, out)]
    && s'.db.Tracked(u) == Remove(s.db.Tracked(u), Members(out))
    && Describes(s.db, s'.db, u, s.db.Described(u))
  }

  /** They are forgotten and returned. */
  ghost predicate HandedBack(s: State, s': State, id: CallId, u: User, out: seq<Jti>) {
    && s'.returned == s.returned + [out] && s'.calls == s.calls[id := LoginBlock(out)]
    && s'.db.Tracked(u) == s.db.Tracked(u)
    && Describes(s.db, s'.db, u, s.db.Described(u) - Members(out))
  }

  lemma EvictStep(s: State, id: CallId, u: User, out: seq<Jti>)
    requires id in s.calls && s.calls[id] == LoginEvict(u, out)
    ensures TakenOut(s, Advance(s, id), id, u, out)
  {
  }

  lemma ForgetStep(s: State, id: CallId, u: User, out: seq<Jti>)
    requires id in s.calls && s.calls[id] == LoginForget(u, out) && out != []
    ensures HandedBack(s, Advance(s, id), id, u, out)
  {
  }

  lemma EvictionComposes(s: State, s1: State, s2: State, s3: State, id: CallId, u: User, out: seq<Jti>)
    requires Moved(s, s1, id, u, LoginEvict(u, out), {}) && TakenOut(s1, s2, id, u, out)
    requires HandedBack(s2, s3, id, u, out) && out != []
    ensures Returned(s, s3, id, u, out, {})
  {
    UpdatesCollapse(s.calls, id, LoginEvict(u, out), LoginForget(u, out));
    UpdatesCollapse(s.calls, id, LoginForget(u, out), LoginBlock(out));
  }

  lemma RangeAlone(s0: State, es0: seq<Event>, id: CallId, u: User) returns (es: seq<Event>)
    requires var s := Run(s0, es0);
             0 < s.cap < |s.db.Tracked(u)| && id in s.calls && s.calls[id] == LoginRange(u, |s.db.Tracked(u)|)
    ensures var s := Run(s0, es0);
            Returned(s, Run(s0, es), id, u, Overflow(s.db.Tracked(u), s.cap), {})
  {
    var s := Run(s0, es0);
    var out := Overflow(s.db.Tracked(u), s.cap);
    RangeStep(s, id, u);
    es := StepOn(s0, es0, id);
    var s1 := Run(s0, es);
    EvictStep(s1, id, u, out);
    es := StepOn(s0, es, id);
    var s2 := Run(s0, es);
    ForgetStep(s2, id, u, out);
    es := StepOn(s0, es, id);
    EvictionComposes(s, s1, s2, Run(s0, es), id, u, out);
  }

  lemma CountAlone(s0: State, es0: seq<Event>, id: CallId, u: User) returns (es: seq<Event>)
    requires var s := Run(s0, es0);
             s.cap > 0 && id in s.calls && s.calls[id] == LoginCount(u)
    ensures var s := Run(s0, es0);
            Returned(s, Run(s0, es), id, u, Overflow(s.db.Tracked(u), s.cap), {})
  {
    var s := Run(s0, es0);
    CountStep(s, id, u);
    es := StepOn(s0, es0, id);
    if |s.db.Tracked(u)| > s.cap {
      var s1 := Run(s0, es);
      es := RangeAlone(s0, es, id, u);
      MovedThenReturned(s, s1, Run(s0, es), id, u, s1.calls[id], Overflow(s.db.Tracked(u), s.cap), {});
    }
  }

  lemma DescribeAlone(s0: State, es0: seq<Event>, id: CallId, u: User, j: Jti) returns (es: seq<Event>)
    requires var s := Run(s0, es0); id in s.calls && s.calls[id] == LoginDescribe(u, j)
    ensures var s := Run(s0, es0);
            Returned(s, Run(s0, es), id, u, Overflow(s.db.Tracked(u), s.cap), {j})
  {
    var s := Run(s0, es0);
    DescribeStep(s, id, u, j);
    es := StepOn(s0, es0, id);
    if s.cap > 0 {
      var s1 := Run(s0, es);
      es := CountAlone(s0, es, id, u);
      MovedThenReturned(s, s1, Run(s0, es), id, u, LoginCount(u), Overflow(s.db.Tracked(u), s.cap), {j});
    }
  }

  /** The member is added, and nothing else has happened yet. */
  lemma AddAlone(s: State, id: CallId, u: User, j: Jti, t: real) returns (es: seq<Event>)
    requires id !in s.calls
    ensures var s' := Run(s, es);
            && s'.db.Tracked(u) == Add(s.db.Tracked(u), Entry(j, t))
            && s'.returned == s.returned && s'.cap == s.cap && (u, j) in s'.issued
            && s'.calls == s.calls[id := LoginDescribe(u, j)]
            && Describes(s.db, s'.db, u, s.db.Described(u))
  {
    var login := LoginAdd(u, j, t);
    var s1 := Apply(s, Start(id, login));
    es := Extend(s, [], Start(id, login), s, s1);
    AddStep(s1, id, u, j, t);
    UpdatesCollapse(s.calls, id, login, LoginDescribe(u, j));
    es := StepOn(s, es, id);
  }

  lemma AddStep(s: State, id: CallId, u: User, j: Jti, t: real)
    requires id in s.calls && s.calls[id] == LoginAdd(u, j, t)
    ensures var s' := Advance(s, id);
            && s'.db.Tracked(u) == Add(s.db.Tracked(u), Entry(j, t))
            && s'.returned == s.returned && s'.cap == s.cap && (u, j) in s'.issued
            && s'.calls == s.calls[id := LoginDescribe(u, j)]
            && Describes(s.db, s'.db, u, s.db.Described(u))
  {
  }

  /** A sign-in with no other command in between: the new session is described, the set loses exactly
      its overflow, with its descriptions, and that is what the call returns, to be blocklisted next. This
      is `SessionStore.Store.Track` on the keys. */
  lemma LoginAlone(s: State, id: CallId, u: User, j: Jti, t: real) returns (es: seq<Event>)
    requires id !in s.calls
    ensures var z := Add(s.db.Tracked(u), Entry(j, t));
            var out, s' := Overflow(z, s.cap), Run(s, es);
            && s'.returned == s.returned + [out]
            && s'.db.Tracked(u) == (if out == [] then z else Remove(z, Members(out)))
            && s'.calls == (if out == [] then s.calls else s.calls[id := LoginBlock(out)])
            && Describes(s.db, s'.db, u, s.db.Described(u) + {j} - Members(out))
  {
    es := AddAlone(s, id, u, j, t);
    var s1 := Run(s, es);
    es := DescribeAlone(s, es, id, u, j);
    AddedThenReturned(s, s1, Run(s, es), id, u, j, Overflow(s1.db.Tracked(u), s1.cap));
  }

  /** The sessions `gone` of user `u` and their descriptions are gone, `js` have been blocklisted, and
      nothing else about the shared keys has changed. */
  ghost predicate Took(db: Db, db': Db, u: User, gone: set<Jti>, js: set<Jti>) {
    && db'.blocked == db.blocked + js
    && (forall e :: e in db'.Tracked(u) <==> e in db.Tracked(u) && e.jti !in gone)
    && db'.Described(u) == db.Described(u) - gone
    && forall v :: v != u ==> db'.Tracked(v) == db.Tracked(v) && db'.Described(v) == db.Described(v)
  }

  lemma TakingOut(db: Db, u: User, gone: set<Jti>)
    ensures Took(db, db.Perform(Zrem(u, gone)).Perform(Hdel(u, gone)), u, gone, {})
  {
  }

  lemma TookAndBlocked(db: Db, db': Db, u: User, gone: set<Jti>, js: set<Jti>, j: Jti)
    requires Took(db, db', u, gone, js)
    ensures Took(db, db'.Perform(Setex(j)), u, gone, js + {j})
  {
  }

  /** The run `es` from `s0` leads to `s`. */
  predicate Leads(s0: State, es: seq<Event>, s: State) {
    Run(s0, es) == s
  }

  /** A call begins. */
  lemma Beginning(s0: State, id: CallId, c: Call) returns (es: seq<Event>, s: State)
    requires id !in s0.calls && Begins(s0, c)
    ensures Leads(s0, es, s) && s == s0.(calls := s0.calls[id := c])
  {
    s := Apply(s0, Start(id, c));
    es := Extend(s0, [], Start(id, c), s0, s);
  }

  /** It sends one command and goes on to the next; `calls` are the other calls. */
  lemma GoingOn(s0: State, es0: seq<Event>, s: State, id: CallId, calls: map<CallId, Call>, c: Call, d: Call)
    returns (es: seq<Event>, s': State)
    requires Leads(s0, es0, s) && id !in calls && s.calls == calls[id := c] && Continue(c, s.db, s.cap) == Goto(d)
    ensures Leads(s0, es, s') && s'.calls == calls[id := d] && s'.db == s.db.Perform(Issue(c)) && s'.cap == s.cap
  {
    es := StepOn(s0, es0, id);
    s' := Advance(s, id);
  }

  /** It sends its last command. */
  lemma Ending(s0: State, es0: seq<Event>, s: State, id: CallId, calls: map<CallId, Call>, c: Call)
    returns (es: seq<Event>, s': State)
    requires Leads(s0, es0, s) && id !in calls && s.calls == calls[id := c] && Continue(c, s.db, s.cap) == End
    ensures Leads(s0, es, s') && s'.calls == calls && s'.db == s.db.Perform(Issue(c))
  {
    es := StepOn(s0, es0, id);
    s' := Advance(s, id);
  }

  /** It takes members out of the set, forgets them and goes on with `d`, or ends. */
  lemma TakingOutAlone(s0: State, es0: seq<Event>, s: State, id: CallId, calls: map<CallId, Call>,
        c: Call, forget: Call, d: Option<Call>, u: User, gone: set<Jti>)
    returns (es: seq<Event>, s': State)
    requires Leads(s0, es0, s) && id !in calls && s.calls == calls[id := c]
    requires Issue(c) == Zrem(u, gone) && Issue(forget) == Hdel(u, gone) && Continue(c, s.db, s.cap) == Goto(forget)
    requires forall db :: Continue(forget, db, s.cap) == if d.Some? then Goto(d.value) else End
    ensures Leads(s0, es, s') && s'.calls == (if d.Some? then calls[id := d.value] else calls)
    ensures s'.cap == s.cap || d.None?
    ensures Took(s.db, s'.db, u, gone, {})
  {
    es, s' := GoingOn(s0, es0, s, id, calls, c, forget);
    if d.Some? {
      es, s' := GoingOn(s0, es, s', id, calls, forget, d.value);
    } else {
      es, s' := Ending(s0, es, s', id, calls, forget);
    }
    TakingOut(s.db, u, gone);
  }

  /** A logout with no other command in between. */
  lemma LogoutAlone(s0: State, id: CallId, u: User, j: Jti) returns (es: seq<Event>, s: State)
    requires id !in s0.calls
    ensures Leads(s0, es, s) && s.calls == s0.calls && Took(s0.db, s.db, u, {j}, {j})
  {
    var c, d := LogoutBlock(u, j), LogoutUntrack(u, j);
    es, s := Beginning(s0, id, c);
    es, s := GoingOn(s0, es, s, id, s0.calls, c, d);
    es, s := TakingOutAlone(s0, es, s, id, s0.calls, d, LogoutForget(u, j), None, u, {j});
    TookAlsoBlocked(s0.db, {j}, s.db, u, {j});
  }

  lemma TookAlsoBlocked(db: Db, blocked: set<Jti>, db': Db, u: User, gone: set<Jti>)
    requires Took(db.(blocked := db.blocked + blocked), db', u, gone, {})
    ensures Took(db, db', u, gone, blocked)
  {
  }

  /** A revocation with no other command in between: a session the user does not hold is neither taken
      out nor blocklisted, whoever holds it. */
  lemma RevokeAlone(s0: State, id: CallId, u: User, j: Jti) returns (es: seq<Event>, s: State)
    requires id !in s0.calls
    ensures var held := if j in Jtis(s0.db.Tracked(u)) then {j} else {};
            Leads(s0, es, s) && s.calls == s0.calls && Took(s0.db, s.db, u, held, held)
  {
    var c := RevokeUntrack(u, j);
    es, s := Beginning(s0, id, c);
    if j in Jtis(s0.db.Tracked(u)) {
      var d := RevokeBlock(j);
      es, s := TakingOutAlone(s0, es, s, id, s0.calls, c, RevokeForget(u, j), Some(d), u, {j});
      TookAndBlocked(s0.db, s.db, u, {j}, {}, j);
      es, s := Ending(s0, es, s, id, s0.calls, d);
    } else {
      es, s := Ending(s0, es, s, id, s0.calls, c);
      NothingTaken(s0.db, u, j);
    }
  }

  lemma NothingTaken(db: Db, u: User, j: Jti)
    requires j !in Jtis(db.Tracked(u))
    ensures Took(db, db.Perform(Zrem(u, {j})), u, {}, {})
  {
    forall e | e in db.Tracked(u) ensures e.jti != j {
      assert e.jti in Jtis(db.Tracked(u));
    }
  }

  /** Pruning expired sessions with no other command in between blocklists none of them. */
  lemma PruneAlone(s0: State, id: CallId, u: User, jtis: seq<Jti>) returns (es: seq<Event>, s: State)
    requires id !in s0.calls && jtis != [] && Members(jtis) <= s0.expired
    ensures Leads(s0, es, s) && s.calls == s0.calls && Took(s0.db, s.db, u, Members(jtis), {})
  {
    var c := PruneUntrack(u, jtis);
    es, s := Beginning(s0, id, c);
    es, s := TakingOutAlone(s0, es, s, id, s0.calls, c, PruneForget(u, jtis), None, u, Members(jtis));
  }

  lemma MembersFrom(jtis: seq<Jti>, n: nat)
    requires n < |jtis|
    ensures Members(jtis[n..]) == {jtis[n]} + Members(jtis[n + 1..])
    ensures n + 1 == |jtis| ==> Members(jtis[n + 1..]) == {}
  {
    assert jtis[n..] == [jtis[n]] + jtis[n + 1..];
  }

  /** The blocklisting loop of a sweep, from its `n`-th member on. */
  lemma {:induction false} SweepBlocksAlone(s0: State, es0: seq<Event>, s: State, id: CallId,
        calls: map<CallId, Call>, u: User, kept: bool, jtis: seq<Jti>, n: nat)
    returns (es: seq<Event>, s': State)
    requires Leads(s0, es0, s) && id !in calls && n < |jtis| && s.calls == calls[id := SweepBlock(u, kept, jtis, n)]
    ensures Leads(s0, es, s') && s'.cap == s.cap
    ensures s'.calls == calls[id := if kept then SweepUntrack(u, jtis) else SweepDelete(u, jtis)]
    ensures s'.db == s.db.(blocked := s.db.blocked + Members(jtis[n..]))
    decreases |jtis| - n
  {
    var c := SweepBlock(u, kept, jtis, n);
    MembersFrom(jtis, n);
    if n + 1 < |jtis| {
      es, s' := GoingOn(s0, es0, s, id, calls, c, SweepBlock(u, kept, jtis, n + 1));
      es, s' := SweepBlocksAlone(s0, es, s', id, calls, u, kept, jtis, n + 1);
    } else {
      es, s' := GoingOn(s0, es0, s, id, calls, c, if kept then SweepUntrack(u, jtis) else SweepDelete(u, jtis));
    }
  }

  lemma Deleting(db: Db, u: User)
    ensures Took(db, db.Perform(DelSet(u)).Perform(DelMeta(u)), u, Jtis(db.Tracked(u)) + db.Described(u), {})
  {
  }

  /** A sweep with no other command in between: every session but the kept one is taken out and
      blocklisted; when none is kept, no description stays either. */
  lemma SweepAlone(s0: State, id: CallId, u: User, keep: Option<Jti>) returns (es: seq<Event>, s: State)
    requires id !in s0.calls
    ensures var others := set e | e in s0.db.Tracked(u) && Some(e.jti) != keep :: e.jti;
            var kept := keep.Some? && keep.value in Jtis(s0.db.Tracked(u));
            && Leads(s0, es, s) && s.calls == s0.calls
            && Took(s0.db, s.db, u, if others == {} || kept then others else others + s0.db.Described(u), others)
  {
    var c := SweepRead(u, keep);
    var jtis, kept := WhatASweepReads(s0.db, s0.cap, u, keep);
    es, s := Beginning(s0, id, c);
    if jtis == [] {
      es, s := Ending(s0, es, s, id, s0.calls, c);
    } else {
      es, s := OthersAreSweptAlone(s0, es, s, id, s0.calls, u, keep, kept, jtis);
    }
  }

  /** From its ZRANGE on, when it finds something to sweep. */
  lemma OthersAreSweptAlone(s0: State, es0: seq<Event>, s: State, id: CallId, calls: map<CallId, Call>,
        u: User, keep: Option<Jti>, kept: bool, jtis: seq<Jti>)
    returns (es: seq<Event>, s': State)
    requires Leads(s0, es0, s) && id !in calls && s.calls == calls[id := SweepRead(u, keep)] && jtis != []
    requires Continue(SweepRead(u, keep), s.db, s.cap) == Goto(SweepBlock(u, kept, jtis, 0))
    requires !kept ==> Members(jtis) == Jtis(s.db.Tracked(u))
    ensures Leads(s0, es, s') && s'.calls == calls
    ensures Took(s.db, s'.db, u, if kept then Members(jtis) else Members(jtis) + s.db.Described(u), Members(jtis))
  {
    es, s' := GoingOn(s0, es0, s, id, calls, SweepRead(u, keep), SweepBlock(u, kept, jtis, 0));
    es, s' := SweepGoesOnAlone(s0, es, s', id, calls, u, kept, jtis);
  }

  lemma WhatASweepReads(db: Db, cap: int, u: User, keep: Option<Jti>) returns (jtis: seq<Jti>, kept: bool)
    ensures Continue(SweepRead(u, keep), db, cap) == if jtis == [] then End else Goto(SweepBlock(u, kept, jtis, 0))
    ensures kept <==> keep.Some? && keep.value in Jtis(db.Tracked(u))
    ensures Members(jtis) == set e | e in db.Tracked(u) && Some(e.jti) != keep :: e.jti
    ensures jtis == [] <==> Members(jtis) == {}
    ensures !kept ==> Members(jtis) == Jtis(db.Tracked(u))
  {
    var z := db.Tracked(u);
    var members := Lowest(z, |z|);
    jtis := Without(members, keep);
    kept := keep.Some? && keep.value in members;
    LowestAreAll(z);
    assert forall j :: j in members <==> j in Members(members);
    assert jtis != [] ==> jtis[0] in Members(jtis);
  }

  lemma DeletingAlone(s0: State, es0: seq<Event>, s: State, id: CallId, calls: map<CallId, Call>,
        u: User, jtis: seq<Jti>)
    returns (es: seq<Event>, s': State)
    requires Leads(s0, es0, s) && id !in calls && s.calls == calls[id := SweepDelete(u, jtis)]
    ensures Leads(s0, es, s') && s'.calls == calls
    ensures Took(s.db, s'.db, u, Jtis(s.db.Tracked(u)) + s.db.Described(u), {})
  {
    Deleting(s.db, u);
    es, s' := GoingOn(s0, es0, s, id, calls, SweepDelete(u, jtis), SweepDeleteMeta(u));
    es, s' := Ending(s0, es, s', id, calls, SweepDeleteMeta(u));
  }

  /** From the first SETEX to the end. */
  lemma SweepGoesOnAlone(s0: State, es0: seq<Event>, s: State, id: CallId, calls: map<CallId, Call>,
        u: User, kept: bool, jtis: seq<Jti>)
    returns (es: seq<Event>, s': State)
    requires Leads(s0, es0, s) && jtis != [] && id !in calls && s.calls == calls[id := SweepBlock(u, kept, jtis, 0)]
    ensures Leads(s0, es, s') && s'.calls == calls
    ensures var gone := if kept then Members(jtis) else Jtis(s.db.Tracked(u)) + s.db.Described(u);
            Took(s.db, s'.db, u, gone, Members(jtis))
  {
    es, s' := SweepBlocksAlone(s0, es0, s, id, calls, u, kept, jtis, 0);
    assert jtis[0..] == jtis;
    if kept {
      es, s' := TakingOutAlone(s0, es, s', id, calls, SweepUntrack(u, jtis), SweepForget(u, jtis), None,
                               u, Members(jtis));
    } else {
      es, s' := DeletingAlone(s0, es, s', id, calls, u, jtis);
    }
    TookAlsoBlocked(s.db, Members(jtis), s'.db, u,
                    if kept then Members(jtis) else Jtis(s.db.Tracked(u)) + s.db.Described(u));
  }

  /** The blocklisting after a sign-in. */
  lemma {:induction false} LoginBlocksAlone(s0: State, es0: seq<Event>, s: State, id: CallId,
        calls: map<CallId, Call>, rest: seq<Jti>)
    returns (es: seq<Event>, s': State)
    requires Leads(s0, es0, s) && id !in calls && rest != [] && s.calls == calls[id := LoginBlock(rest)]
    ensures Leads(s0, es, s') && s'.calls == calls
    ensures s'.db == s.db.(blocked := s.db.blocked + Members(rest))
    decreases |rest|
  {
    var c := LoginBlock(rest);
    assert rest == [rest[0]] + rest[1..];
    assert Members(rest) == {rest[0]} + Members(rest[1..]);
    if |rest| <= 1 {
      assert Members(rest[1..]) == {};
      es, s' := Ending(s0, es0, s, id, calls, c);
    } else {
      es, s' := GoingOn(s0, es0, s, id, calls, c, LoginBlock(rest[1..]));
      es, s' := LoginBlocksAlone(s0, es, s', id, calls, rest[1..]);
    }
  }
}
