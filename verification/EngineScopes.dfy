/** Dispatcher-scoped engines: inside a dispatch scope every lookup is answered from the
    scope's own pool, and the scope disposes of what it created, and of nothing else. */
module EngineScopes {
  import opened Options

  type DbName = string
  type Maker = nat

  /** An engine some caller made itself, or the `id`-th one this module created. */
  datatype Engine = Given(handle: nat) | Created(id: nat)

  /** A Python dictionary in insertion order. */
  datatype Entry = Entry(name: DbName, engine: Engine)
  type Pool = seq<Entry>

  function Get(pool: Pool, name: DbName): Option<Engine> {
    if pool == [] then None
    else if pool[0].name == name then Some(pool[0].engine)
    else Get(pool[1..], name)
  }

  function Names(pool: Pool): set<DbName> {
    set e | e in pool :: e.name
  }

  function Engines(pool: Pool): seq<Engine> {
    seq(|pool|, i requires 0 <= i < |pool| => pool[i].engine)
  }

  /** The module cache, the two context variables, and the engines made and disposed so far. */
  datatype State = State(
    cache: Pool,
    ambientMaker: Option<Maker>,
    ambientPool: Option<Pool>,
    next: nat,
    disposed: seq<Engine>)

  /** `in_dispatch_scope` */
  predicate InScope(s: State) {
    s.ambientMaker.Some?
  }

  /** `get_tenant_engine` */
  function Lookup(s: State, name: DbName): (State, Engine) {
    var made := Created(s.next);
    if s.ambientPool.Some? then
      var pool := s.ambientPool.value;
      var found := Get(pool, name);
      if found.Some? then (s, found.value)
      else (s.(ambientPool := Some(pool + [Entry(name, made)]), next := s.next + 1), made)
    else
      var found := Get(s.cache, name);
      if found.Some? then (s, found.value)
      else (s.(cache := s.cache + [Entry(name, made)], next := s.next + 1), made)
  }

  /** What a scope owns: the engines under names it was not given. */
  function Owned(pool: Pool, borrowed: set<DbName>): seq<Engine> {
    if pool == [] then []
    else
      var rest := Owned(pool[..|pool| - 1], borrowed);
      var last := pool[|pool| - 1];
      if last.name in borrowed then rest else rest + [last.engine]
  }

  /** Work done under the module: lookups, shutting every cached engine down, scopes around further
      work, exceptions, and callers that catch them. */
  datatype Work =
    | Resolve(name: DbName)
    | DisposeAll
    | Scope(maker: Maker, given: Pool, body: seq<Work>)
    | Raise
    | Catch(body: seq<Work>)

  function Enter(s: State, maker: Maker, given: Pool): State {
    s.(ambientMaker := Some(maker), ambientPool := Some(given))
  }

  /** `control_session_factory`: the session maker it opens a session with. */
  function SessionMaker(s: State, default: Maker): Maker {
    if InScope(s) then s.ambientMaker.value else default
  }

  /** `dispose_all_engines`, for the tenant engines. */
  function Shut(s: State): State {
    s.(cache := [], disposed := s.disposed + Engines(s.cache))
  }

  /** The `finally` block: reset both variables, dispose of what the scope owns. */
  function Leave(outer: State, inner: State, given: Pool): State
    requires inner.ambientPool.Some?
  {
    inner.(ambientMaker := outer.ambientMaker, ambientPool := outer.ambientPool,
           disposed := inner.disposed + Owned(inner.ambientPool.value, Names(given)))
  }

  /** Runs the work; false when an exception is in flight at the end. */
  function Run(s: State, w: Work): (r: (State, bool))
    ensures r.0.ambientPool.Some? == s.ambientPool.Some?
    decreases w, 0
  {
    match w
    case Resolve(name) => (Lookup(s, name).0, true)
    case DisposeAll => (Shut(s), true)
    case Scope(maker, given, body) =>
      var (inner, ok) := RunAll(Enter(s, maker, given), body);
      (Leave(s, inner, given), ok)
    case Raise => (s, false)
    case Catch(body) => (RunAll(s, body).0, true)
  }

  function RunAll(s: State, ws: seq<Work>): (r: (State, bool))
    ensures r.0.ambientPool.Some? == s.ambientPool.Some?
    decreases ws, 1
  {
    if ws == [] then (s, true)
    else
      var (s', ok) := Run(s, ws[0]);
      if ok then RunAll(s', ws[1..]) else (s', false)
  }

  // ----- the module -----

  class Database {
    var cache: Pool
    var ambientMaker: Option<Maker>
    var ambientPool: Option<Pool>
    var next: nat
    var disposed: seq<Engine>

    constructor ()
      ensures View() == State([], None, None, 0, [])
    {
      cache, ambientMaker, ambientPool, next, disposed := [], None, None, 0, [];
    }

    function View(): State
      reads this
    {
      State(cache, ambientMaker, ambientPool, next, disposed)
    }

    method ControlSessionFactory(default: Maker) returns (maker: Maker)
      ensures maker == SessionMaker(View(), default)
    {
      maker := if ambientMaker.Some? then ambientMaker.value else default;
    }

    method GetTenantEngine(name: DbName) returns (engine: Engine)
      modifies this
      ensures (View(), engine) == Lookup(old(View()), name)
    {
      if ambientPool.Some? {
        var found := Get(ambientPool.value, name);
        if found.Some? {
          return found.value;
        }
        engine := Created(next);
        next := next + 1;
        ambientPool := Some(ambientPool.value + [Entry(name, engine)]);
      } else {
        var found := Get(cache, name);
        if found.Some? {
          return found.value;
        }
        engine := Created(next);
        next := next + 1;
        cache := cache + [Entry(name, engine)];
      }
    }

    method Perform(w: Work) returns (ok: bool)
      modifies this
      ensures (View(), ok) == Run(old(View()), w)
      decreases w, 0
    {
      match w
      case Resolve(name) =>
        var _ := GetTenantEngine(name);
        ok := true;
      case DisposeAll =>
        DisposeAllEngines();
        ok := true;
      case Scope(maker, given, body) =>
        var outerMaker, outerPool := ambientMaker, ambientPool;
        ghost var s0 := View();
        ambientMaker, ambientPool := Some(maker), Some(given);
        assert View() == Enter(s0, maker, given);
        ok := PerformAll(body);
        ghost var inner := View();
        var pool := ambientPool.value;
        ambientMaker, ambientPool := outerMaker, outerPool;
        DisposeOwned(pool, Names(given));
        assert View() == Leave(s0, inner, given);
      case Raise =>
        ok := false;
      case Catch(body) =>
        var _ := PerformAll(body);
        ok := true;
    }

    method DisposeOwned(pool: Pool, borrowed: set<DbName>)
      modifies this`disposed
      ensures disposed == old(disposed) + Owned(pool, borrowed)
    {
      assert pool[..|pool|] == pool;
      for i := 0 to |pool|
        invariant disposed == old(disposed) + Owned(pool[..i], borrowed)
      {
        assert pool[..i + 1][..i] == pool[..i];
        if pool[i].name !in borrowed {
          disposed := disposed + [pool[i].engine];
        }
      }
    }

    method PerformAll(ws: seq<Work>) returns (ok: bool)
      modifies this
      ensures (View(), ok) == RunAll(old(View()), ws)
      decreases ws, 1
    {
      if ws == [] {
        return true;
      }
      ok := Perform(ws[0]);
      if ok {
        ok := PerformAll(ws[1..]);
      }
    }

    method DisposeAllEngines()
      modifies this`cache, this`disposed
      ensures View() == Shut(old(View()))
    {
      for i := 0 to |cache|
        invariant cache == old(cache) && disposed == old(disposed) + Engines(cache)[..i]
      {
        disposed := disposed + [cache[i].engine];
      }
      assert Engines(cache)[..|cache|] == Engines(cache);
      cache := [];
    }
  }

  // ----- exceptions -----

  /** An exception leaves the work: it is raised there, or in a scope's body, and not caught. */
  predicate Escapes(w: Work)
    decreases w, 0
  {
    match w
    case Resolve(_) => false
    case DisposeAll => false
    case Scope(_, _, body) => exists i | 0 <= i < |body| :: Escapes(body[i])
    case Raise => true
    case Catch(_) => false
  }

  /** A scope passes every exception of its body on, and makes none of its own. */
  lemma {:induction false} ExceptionsEscape(s: State, w: Work)
    ensures Run(s, w).1 <==> !Escapes(w)
    decreases w, 0
  {
    match w
    case Scope(maker, given, body) => ListEscapes(Enter(s, maker, given), body);
    case _ =>
  }

  lemma {:induction false} ListEscapes(s: State, ws: seq<Work>)
    ensures RunAll(s, ws).1 <==> forall i | 0 <= i < |ws| :: !Escapes(ws[i])
    decreases ws, 1
  {
    if ws != [] {
      ExceptionsEscape(s, ws[0]);
      if !Escapes(ws[0]) {
        ListEscapes(Run(s, ws[0]).0, ws[1..]);
        assert forall i | 1 <= i < |ws| :: ws[i] == ws[1..][i - 1];
      }
    }
  }

  /** Nothing after an exception that escapes is done. */
  lemma {:induction false} NothingRunsAfterAnException(s: State, before: seq<Work>, w: Work, after: seq<Work>)
    requires Escapes(w)
    ensures RunAll(s, before + [w] + after) == RunAll(s, before + [w])
    decreases |before|
  {
    if before == [] {
      assert [] + [w] + after == [w] + after && ([w] + after)[1..] == after;
      assert [] + [w] == [w];
      ExceptionsEscape(s, w);
    } else {
      assert before + [w] + after == [before[0]] + (before[1..] + [w] + after);
      assert before + [w] == [before[0]] + (before[1..] + [w]);
      assert ([before[0]] + (before[1..] + [w]))[1..] == before[1..] + [w];
      assert ([before[0]] + (before[1..] + [w] + after))[1..] == before[1..] + [w] + after;
      NothingRunsAfterAnException(Run(s, before[0]).0, before[1..], w, after);
    }
  }

  // ----- lookups -----

  /** A lookup inside a scope is answered from the scope's pool, given engines included, one outside every
      scope from the module cache. What is found is not made again; what is not is made, once, and then
      found, by the lookup itself and by work that resolves the name. */
  lemma WhereLookupsLook(s: State, name: DbName)
    ensures var found := Get(if s.ambientPool.Some? then s.ambientPool.value else s.cache, name);
            var (s', e) := Lookup(s, name);
            && e == (if found.Some? then found.value else Created(s.next))
            && s'.next == (if found.Some? then s.next else s.next + 1)
            && s'.disposed == s.disposed && s'.ambientMaker == s.ambientMaker
            && (s.ambientPool.Some? ==> s'.cache == s.cache) && (s.ambientPool.None? ==> s'.ambientPool.None?)
            && Lookup(s', name) == (s', e)
            && Lookup(Run(s, Resolve(name)).0, name) == (s', e)
    ensures forall maker, given :: Get(given, name).Some? ==>
              Lookup(Enter(s, maker, given), name) == (Enter(s, maker, given), Get(given, name).value)
  {
    FoundAfterAppend(if s.ambientPool.Some? then s.ambientPool.value else s.cache, name, Created(s.next));
  }

  /** A shutdown disposes of what is cached, in order, and forgets it; the current scope stays. */
  lemma ShutdownEmptiesTheCache(s: State)
    ensures var (s', ok) := Run(s, DisposeAll);
            && ok && s'.cache == [] && s'.disposed == s.disposed + Engines(s.cache)
            && s'.ambientPool == s.ambientPool && s'.ambientMaker == s.ambientMaker && s'.next == s.next
  {
  }

  // ----- ownership -----

  /** The engines this module made while its counter went from `from` to `to`. */
  function MadeBetween(from: nat, to: nat): multiset<Engine> {
    if to <= from then multiset{} else MadeBetween(from, to - 1) + multiset{Created(to - 1)}
  }

  lemma OneMore(es: multiset<Engine>, added: Engine, e: Engine)
    ensures (es + multiset{added})[e] == es[e] + if e == added then 1 else 0
  {
  }

  lemma {:induction false} MadeOnce(from: nat, to: nat, e: Engine)
    ensures MadeBetween(from, to)[e] == if e.Created? && from <= e.id < to then 1 else 0
  {
    if to > from {
      MadeOnce(from, to - 1, e);
      OneMore(MadeBetween(from, to - 1), Created(to - 1), e);
    }
  }

  lemma MadeInTwoParts(a: nat, b: nat, c: nat)
    requires a <= b <= c
    ensures MadeBetween(a, c) == MadeBetween(a, b) + MadeBetween(b, c)
  {
    forall e ensures MadeBetween(a, c)[e] == (MadeBetween(a, b) + MadeBetween(b, c))[e] {
      MadeOnce(a, c, e);
      MadeOnce(a, b, e);
      MadeOnce(b, c, e);
    }
  }

  function PoolOf(s: State): Pool {
    if s.ambientPool.Some? then s.ambientPool.value else []
  }

  /** The record of disposals and the current pool only grow, an entry joining the pool under a name
      that was not there; inside a scope the module cache is at most emptied. */
  ghost predicate Grows(s: State, s': State) {
    && s.next <= s'.next && s.disposed <= s'.disposed && PoolOf(s) <= PoolOf(s')
    && s'.ambientMaker == s.ambientMaker && s'.ambientPool.Some? == s.ambientPool.Some?
    && (s.ambientPool.Some? ==> s'.cache == s.cache || s'.cache == [])
    && (forall e :: e in PoolOf(s')[|PoolOf(s)|..] ==> e.name !in Names(PoolOf(s)))
  }

  /** Every engine disposed, cached, or in the current pool, with its multiplicity. */
  function Ledger(s: State): multiset<Engine> {
    multiset(s.disposed) + multiset(Engines(s.cache)) + multiset(Engines(PoolOf(s)))
  }

  /** The ledger gains exactly the engines made in between. */
  ghost predicate Accounted(s: State, s': State) {
    Grows(s, s') && Ledger(s') == Ledger(s) + MadeBetween(s.next, s'.next)
  }

  lemma {:induction false} MissingName(pool: Pool, name: DbName)
    requires Get(pool, name).None?
    ensures name !in Names(pool)
  {
    if pool != [] {
      MissingName(pool[1..], name);
    }
  }

  lemma EnginesAppend(a: Pool, b: Pool)
    ensures Engines(a + b) == Engines(a) + Engines(b)
  {
  }

  /** One engine is made and joins the pool or the cache. */
  lemma OneMade(n: nat)
    ensures MadeBetween(n, n) == multiset{} && MadeBetween(n, n + 1) == multiset{Created(n)}
  {
  }

  lemma PoolGains(s: State, name: DbName)
    requires s.ambientPool.Some? && Get(s.ambientPool.value, name).None?
    ensures Accounted(s, Lookup(s, name).0)
  {
    var pool, added := PoolOf(s), [Entry(name, Created(s.next))];
    OneMade(s.next);
    MissingName(pool, name);
    assert PoolOf(Lookup(s, name).0) == pool + added && (pool + added)[|pool|..] == added;
    EnginesAppend(pool, added);
    assert Engines(added) == [Created(s.next)];
  }

  lemma CacheGains(s: State, name: DbName)
    requires s.ambientPool.None? && Get(s.cache, name).None?
    ensures Accounted(s, Lookup(s, name).0)
  {
    var added := [Entry(name, Created(s.next))];
    OneMade(s.next);
    EnginesAppend(s.cache, added);
    assert Engines(added) == [Created(s.next)];
    assert PoolOf(s)[|PoolOf(s)|..] == [];
  }

  lemma LookupIsAccounted(s: State, name: DbName)
    ensures Accounted(s, Lookup(s, name).0)
  {
    if s.ambientPool.Some? && Get(s.ambientPool.value, name).None? {
      PoolGains(s, name);
    } else if s.ambientPool.None? && Get(s.cache, name).None? {
      CacheGains(s, name);
    } else {
      NothingIsAccounted(s);
    }
  }

  lemma NothingIsAccounted(s: State)
    ensures Accounted(s, s)
  {
    OneMade(s.next);
    assert PoolOf(s)[|PoolOf(s)|..] == [];
  }

  lemma ShutIsAccounted(s: State)
    ensures Accounted(s, Shut(s))
  {
    assert Engines([]) == [];
    assert PoolOf(s)[|PoolOf(s)|..] == [];
  }

  lemma GrowthAddsUp(s0: State, s1: State, s2: State)
    requires Grows(s0, s1) && Grows(s1, s2)
    ensures Grows(s0, s2)
  {
    var p0, p1, p2 := PoolOf(s0), PoolOf(s1), PoolOf(s2);
    forall e | e in p2[|p0|..] ensures e.name !in Names(p0) {
      assert p2[|p0|..] == p1[|p0|..] + p2[|p1|..];
      assert Names(p0) <= Names(p1);
    }
  }

  lemma AccountsAddUp(s0: State, s1: State, s2: State)
    requires Accounted(s0, s1) && Accounted(s1, s2)
    ensures Accounted(s0, s2)
  {
    GrowthAddsUp(s0, s1, s2);
    MadeInTwoParts(s0.next, s1.next, s2.next);
  }

  /** A scope owns exactly what was added to the pool it was given. */
  lemma {:induction false} OwnedIsWhatWasAdded(given: Pool, added: Pool)
    requires forall e :: e in added ==> e.name !in Names(given)
    ensures Owned(given + added, Names(given)) == Engines(added)
    decreases |added|
  {
    if added == [] {
      assert given + added == given;
      GivenIsNotOwned(given, Names(given));
    } else {
      var n := |added| - 1;
      assert (given + added)[..|given + added| - 1] == given + added[..n];
      OwnedIsWhatWasAdded(given, added[..n]);
      assert Engines(added) == Engines(added[..n]) + [added[n].engine];
    }
  }

  lemma {:induction false} GivenIsNotOwned(given: Pool, borrowed: set<DbName>)
    requires Names(given) <= borrowed
    ensures Owned(given, borrowed) == []
    decreases |given|
  {
    if given != [] {
      assert given[|given| - 1] in given;
      GivenIsNotOwned(given[..|given| - 1], borrowed);
    }
  }

  /** What leaving a scope appends to the disposals. */
  lemma ScopeDisposes(s: State, maker: Maker, given: Pool, inner: State)
    requires Grows(Enter(s, maker, given), inner)
    ensures Leave(s, inner, given).disposed == inner.disposed + Engines(inner.ambientPool.value[|given|..])
  {
    var added := inner.ambientPool.value[|given|..];
    assert inner.ambientPool.value == given + added;
    OwnedIsWhatWasAdded(given, added);
  }

  /** Moving what joined the scope's pool to the disposals keeps the balance. */
  lemma Rebalance(before: multiset<Engine>, after: multiset<Engine>, cache: multiset<Engine>, cache': multiset<Engine>,
                  given: multiset<Engine>, added: multiset<Engine>, pool: multiset<Engine>, made: multiset<Engine>)
    requires after + cache' + (given + added) == before + cache + given + made
    ensures after + added + cache' + pool == before + cache + pool + made
  {
    forall e ensures (after + added + cache' + pool)[e] == (before + cache + pool + made)[e] {
      assert (after + cache' + (given + added))[e] == (before + cache + given + made)[e];
    }
  }

  lemma ScopeIsAccounted(s: State, maker: Maker, given: Pool, inner: State)
    requires Accounted(Enter(s, maker, given), inner)
    ensures Accounted(s, Leave(s, inner, given))
  {
    var s' := Leave(s, inner, given);
    var added := inner.ambientPool.value[|given|..];
    ScopeDisposes(s, maker, given, inner);
    assert inner.ambientPool.value == given + added;
    EnginesAppend(given, added);
    assert PoolOf(s') == PoolOf(s) && PoolOf(s)[|PoolOf(s)|..] == [];
    assert multiset(s'.disposed) == multiset(inner.disposed) + multiset(Engines(added));
    Rebalance(multiset(s.disposed), multiset(inner.disposed),
              multiset(Engines(s.cache)), multiset(Engines(inner.cache)),
              multiset(Engines(given)), multiset(Engines(added)), multiset(Engines(PoolOf(s))),
              MadeBetween(s.next, inner.next));
  }

  lemma {:induction false} RunIsAccounted(s: State, w: Work)
    ensures Accounted(s, Run(s, w).0)
    decreases w, 0
  {
    match w
    case Resolve(name) => LookupIsAccounted(s, name);
    case DisposeAll => ShutIsAccounted(s);
    case Scope(maker, given, body) =>
      RunAllIsAccounted(Enter(s, maker, given), body);
      ScopeIsAccounted(s, maker, given, RunAll(Enter(s, maker, given), body).0);
    case Raise => NothingIsAccounted(s);
    case Catch(body) => RunAllIsAccounted(s, body);
  }

  lemma {:induction false} RunAllIsAccounted(s: State, ws: seq<Work>)
    ensures Accounted(s, RunAll(s, ws).0)
    decreases ws, 1
  {
    if ws == [] {
      NothingIsAccounted(s);
    } else {
      RunIsAccounted(s, ws[0]);
      var (s', ok) := Run(s, ws[0]);
      if ok {
        RunAllIsAccounted(s', ws[1..]);
        AccountsAddUp(s, s', RunAll(s', ws[1..]).0);
      }
    }
  }

  /** Whatever runs inside it, and however it ends, a scope disposes of each engine made inside
      exactly once, puts both bindings back as they were, and disposes of no other engine but
      those of a module cache that was shut down inside. */
  lemma ScopeDisposesWhatItMade(s: State, maker: Maker, given: Pool, body: seq<Work>, e: Engine)
    ensures var s' := Run(s, Scope(maker, given, body)).0;
            && s.disposed <= s'.disposed
            && (s'.cache == s.cache || s'.cache == [])
            && multiset(s'.disposed[|s.disposed|..])[e]
               == (if e.Created? && s.next <= e.id < s'.next then 1 else 0)
                  + (if s'.cache == s.cache then 0 else multiset(Engines(s.cache))[e])
            && s'.ambientMaker == s.ambientMaker && s'.ambientPool == s.ambientPool
  {
    RunIsAccounted(s, Scope(maker, given, body));
    RunAllIsAccounted(Enter(s, maker, given), body);
    var s' := Run(s, Scope(maker, given, body)).0;
    NewDisposals(s, s', e);
    MadeOnce(s.next, s'.next, e);
    assert Engines([]) == [];
  }

  lemma NewDisposals(s: State, s': State, e: Engine)
    requires Accounted(s, s') && PoolOf(s') == PoolOf(s)
    ensures multiset(s'.disposed[|s.disposed|..])[e] + multiset(Engines(s'.cache))[e]
         == multiset(Engines(s.cache))[e] + MadeBetween(s.next, s'.next)[e]
  {
    assert s'.disposed == s.disposed + s'.disposed[|s.disposed|..];
    assert Ledger(s')[e] == Ledger(s)[e] + MadeBetween(s.next, s'.next)[e];
  }

  /** The work never shuts the cached engines down. */
  predicate NeverShuts(w: Work)
    decreases w, 0
  {
    match w
    case Resolve(_) => true
    case DisposeAll => false
    case Scope(_, _, body) => NoneShuts(body)
    case Raise => true
    case Catch(body) => NoneShuts(body)
  }

  predicate NoneShuts(ws: seq<Work>)
    decreases ws, 1
  {
    ws == [] || (NeverShuts(ws[0]) && NoneShuts(ws[1..]))
  }

  /** Inside a scope no lookup reads or writes the module cache: without a shutdown the outcome is
      the same over any other cache. */
  lemma {:induction false} ScopedWorkIgnoresTheCache(s: State, w: Work, cache: Pool)
    requires s.ambientPool.Some? && NeverShuts(w)
    ensures Run(s.(cache := cache), w) == (Run(s, w).0.(cache := cache), Run(s, w).1)
    ensures Run(s, w).0.cache == s.cache
    decreases w, 0
  {
    match w
    case Resolve(_) =>
    case Scope(maker, given, body) => ScopedListIgnoresTheCache(Enter(s, maker, given), body, cache);
    case Raise =>
    case Catch(body) => ScopedListIgnoresTheCache(s, body, cache);
  }

  lemma {:induction false} ScopedListIgnoresTheCache(s: State, ws: seq<Work>, cache: Pool)
    requires s.ambientPool.Some? && NoneShuts(ws)
    ensures RunAll(s.(cache := cache), ws) == (RunAll(s, ws).0.(cache := cache), RunAll(s, ws).1)
    ensures RunAll(s, ws).0.cache == s.cache
    decreases ws, 1
  {
    if ws != [] {
      ScopedWorkIgnoresTheCache(s, ws[0], cache);
      var (s', ok) := Run(s, ws[0]);
      if ok {
        ScopedListIgnoresTheCache(s', ws[1..], cache);
      }
    }
  }

  /** Outside any scope, over any work, shutdowns included: each engine ever made has been disposed
      exactly once or is in the module cache exactly once, never both, and no engine a caller
      made is either. */
  lemma EveryEngineIsDisposedOrCached(work: seq<Work>, e: Engine)
    ensures var s := RunAll(State([], None, None, 0, []), work).0;
            multiset(s.disposed)[e] + multiset(Engines(s.cache))[e] == if e.Created? && e.id < s.next then 1 else 0
  {
    var s0 := State([], None, None, 0, []);
    RunAllIsAccounted(s0, work);
    var s := RunAll(s0, work).0;
    MadeOnce(0, s.next, e);
    assert Engines([]) == [];
    assert Ledger(s)[e] == Ledger(s0)[e] + MadeBetween(0, s.next)[e];
  }

  /** So no lookup outside a scope hands out an engine that was disposed. */
  lemma NoDisposedEngineIsHandedOut(work: seq<Work>, name: DbName)
    ensures var s := RunAll(State([], None, None, 0, []), work).0;
            Lookup(s, name).1 !in s.disposed
  {
    var s := RunAll(State([], None, None, 0, []), work).0;
    var e := Lookup(s, name).1;
    RunAllIsAccounted(State([], None, None, 0, []), work);
    EveryEngineIsDisposedOrCached(work, e);
    if Get(s.cache, name).Some? {
      FoundIsThere(s.cache, name);
    }
  }

  lemma {:induction false} FoundIsThere(pool: Pool, name: DbName)
    requires Get(pool, name).Some?
    ensures Get(pool, name).value in Engines(pool)
  {
    if pool[0].name == name {
      assert Engines(pool)[0] == pool[0].engine;
    } else {
      FoundIsThere(pool[1..], name);
      assert Engines(pool) == [pool[0].engine] + Engines(pool[1..]);
    }
  }

  /** Whatever ran before, nested scopes that ended or raised included, a session is opened with the
      maker of the innermost scope around the call, and outside every scope with the default. */
  lemma InnermostMakerOpensSessions(s: State, ws: seq<Work>, maker: Maker, given: Pool, default: Maker)
    ensures SessionMaker(RunAll(Enter(s, maker, given), ws).0, default) == maker
    ensures SessionMaker(RunAll(s, ws).0, default) == SessionMaker(s, default)
    ensures SessionMaker(RunAll(State([], None, None, 0, []), ws).0, default) == default
  {
    RunAllIsAccounted(Enter(s, maker, given), ws);
    RunAllIsAccounted(s, ws);
    RunAllIsAccounted(State([], None, None, 0, []), ws);
  }

  lemma {:induction false} CacheOnlyGrows(s: State, w: Work)
    requires NeverShuts(w)
    ensures s.cache <= Run(s, w).0.cache
    decreases w, 0
  {
    match w
    case Resolve(_) =>
    case Scope(maker, given, body) => CacheOnlyGrowsOver(Enter(s, maker, given), body);
    case Raise =>
    case Catch(body) => CacheOnlyGrowsOver(s, body);
  }

  lemma {:induction false} CacheOnlyGrowsOver(s: State, ws: seq<Work>)
    requires NoneShuts(ws)
    ensures s.cache <= RunAll(s, ws).0.cache
    decreases ws, 1
  {
    if ws != [] {
      CacheOnlyGrows(s, ws[0]);
      var (s', ok) := Run(s, ws[0]);
      if ok {
        CacheOnlyGrowsOver(s', ws[1..]);
      }
    }
  }

  /** The same name resolves to the same engine as long as its scope lasts, or, outside every
      scope, until a shutdown, whatever ran in between. */
  lemma ResolutionIsStable(s: State, ws: seq<Work>, name: DbName)
    requires s.ambientPool.Some? || NoneShuts(ws)
    ensures var (s1, e) := Lookup(s, name);
            Lookup(RunAll(s1, ws).0, name).1 == e
  {
    var (s1, e) := Lookup(s, name);
    RunAllIsAccounted(s1, ws);
    var s2 := RunAll(s1, ws).0;
    if s.ambientPool.Some? {
      FoundAfterAppend(PoolOf(s), name, e);
      FoundStaysFound(PoolOf(s1), PoolOf(s2), name);
    } else {
      CacheOnlyGrowsOver(s1, ws);
      FoundAfterAppend(s.cache, name, e);
      FoundStaysFound(s1.cache, s2.cache, name);
    }
  }

  lemma {:induction false} FoundAfterAppend(pool: Pool, name: DbName, e: Engine)
    ensures Get(pool + [Entry(name, e)], name) == if Get(pool, name).Some? then Get(pool, name) else Some(e)
  {
    if pool == [] {
      assert pool + [Entry(name, e)] == [Entry(name, e)];
    } else {
      assert (pool + [Entry(name, e)])[1..] == pool[1..] + [Entry(name, e)];
      FoundAfterAppend(pool[1..], name, e);
    }
  }

  lemma {:induction false} FoundStaysFound(a: Pool, b: Pool, name: DbName)
    requires a <= b && Get(a, name).Some?
    ensures Get(b, name) == Get(a, name)
    decreases |a|
  {
    if a[0].name != name {
      FoundStaysFound(a[1..], b[1..], name);
    }
  }
}
