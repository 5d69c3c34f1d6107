/** Commit before response: a request opens any number of database sessions; each registers a
    commit on the exit stack the framework unwinds before sending, and commits or rolls back
    again when the dependency generators are unwound after sending. */
module RequestLifecycle {
  type Write = nat
  type SessionId = nat

  /** A session's uncommitted and committed writes. A write opens a transaction; so does a read. */
  datatype Session = Session(pending: seq<Write>, durable: seq<Write>, inTransaction: bool) {
    predicate Valid() {
      pending != [] ==> inTransaction
    }

    function Committed(): Session {
      Session([], durable + pending, false)
    }

    function RolledBack(): Session {
      Session([], durable, false)
    }

    function Written(ws: seq<Write>): Session {
      if ws == [] then this else Session(pending + ws, durable, true)
    }
  }

  datatype Event = Commit(id: SessionId) | Rollback(id: SessionId) | Respond

  /** What an exit stack leaves: the sessions, whether an exception is in flight, and what happened. */
  datatype Outcome = Outcome(sessions: seq<Session>, raising: bool, trace: seq<Event>)

  predicate InRange(ids: seq<SessionId>, n: nat) {
    forall k | 0 <= k < |ids| :: ids[k] < n
  }

  predicate DistinctIds(ids: seq<SessionId>) {
    forall j, k | 0 <= j < k < |ids| :: ids[j] != ids[k]
  }

  ghost predicate AllValid(ss: seq<Session>) {
    forall i | 0 <= i < |ss| :: ss[i].Valid()
  }

  /** The stack unwound before sending: hooks run last-registered first, and each commits only
      when nothing has raised so far. `failing` are the sessions whose commit raises. */
  function Unwind(ss: seq<Session>, hooks: seq<SessionId>, raising: bool, failing: set<SessionId>): (o: Outcome)
    requires InRange(hooks, |ss|)
    ensures |o.sessions| == |ss|
    decreases |hooks|
  {
    if hooks == [] then Outcome(ss, raising, [])
    else
      var id, rest := hooks[|hooks| - 1], hooks[..|hooks| - 1];
      if raising || !ss[id].inTransaction then Unwind(ss, rest, raising, failing)
      else if id in failing then Unwind(ss, rest, true, failing)
      else
        var o := Unwind(ss[id := ss[id].Committed()], rest, false, failing);
        o.(trace := [Commit(id)] + o.trace)
  }

  /** The generators' code after `yield`, last-opened first: commit when something is left to
      commit, roll back on any exception and pass it on. */
  function Teardown(ss: seq<Session>, n: nat, raising: bool, failing: set<SessionId>): (o: Outcome)
    requires n <= |ss|
    ensures |o.sessions| == |ss|
    decreases n
  {
    if n == 0 then Outcome(ss, raising, [])
    else
      var id := n - 1;
      if !raising && !ss[id].inTransaction then Teardown(ss, id, false, failing)
      else if !raising && id !in failing then
        var o := Teardown(ss[id := ss[id].Committed()], id, false, failing);
        o.(trace := [Commit(id)] + o.trace)
      else
        var o := Teardown(ss[id := ss[id].RolledBack()], id, true, failing);
        o.(trace := [Rollback(id)] + o.trace)
  }

  /** What is outside the providers' control: whether the handler raised, which commits fail
      before and after sending, what a streaming body wrote, and whether sending raised. */
  datatype Circumstances = Circumstances(
    handlerRaises: bool,
    failingBefore: set<SessionId>,
    bodyWrites: seq<seq<Write>>,
    sendRaises: bool,
    failingAfter: set<SessionId>)

  function AfterBody(ss: seq<Session>, writes: seq<seq<Write>>): seq<Session>
    requires |writes| == |ss|
  {
    seq(|ss|, i requires 0 <= i < |ss| => ss[i].Written(writes[i]))
  }

  /** The rest of a request, from the moment the handler returns or raises. */
  function Finish(ss: seq<Session>, hooks: seq<SessionId>, c: Circumstances): (o: Outcome)
    requires InRange(hooks, |ss|) && |c.bodyWrites| == |ss|
    ensures |o.sessions| == |ss|
  {
    var before := Unwind(ss, hooks, c.handlerRaises, c.failingBefore);
    if before.raising then
      var o := Teardown(before.sessions, |ss|, true, c.failingAfter);
      o.(trace := before.trace + o.trace)
    else
      var o := Teardown(AfterBody(before.sessions, c.bodyWrites), |ss|, c.sendRaises, c.failingAfter);
      o.(trace := before.trace + [Respond] + o.trace)
  }

  // ----- the providers -----

  class Request {
    var sessions: seq<Session>
    var hooks: seq<SessionId>
    var trace: seq<Event>

    constructor ()
      ensures sessions == [] && hooks == [] && trace == []
    {
      sessions, hooks, trace := [], [], [];
    }

    /** A hook names a session of the request, at most one each. */
    ghost predicate Valid()
      reads this
    {
      InRange(hooks, |sessions|) && DistinctIds(hooks) && AllValid(sessions)
    }

    /** commit_before_response: false without a usable exit stack. */
    method CommitBeforeResponse(id: SessionId, usableStack: bool) returns (registered: bool)
      requires Valid() && id < |sessions| && id !in hooks
      modifies this`hooks
      ensures Valid() && registered == usableStack
      ensures hooks == if usableStack then old(hooks) + [id] else old(hooks)
    {
      if usableStack {
        hooks := hooks + [id];
      }
      registered := usableStack;
    }

    /** get_control_db and get_tenant_db up to their `yield`. */
    method Open(usableStack: bool) returns (id: SessionId)
      requires Valid()
      modifies this`sessions, this`hooks
      ensures Valid() && id == |old(sessions)|
      ensures sessions == old(sessions) + [Session([], [], false)]
      ensures hooks == if usableStack then old(hooks) + [id] else old(hooks)
    {
      id := |sessions|;
      sessions := sessions + [Session([], [], false)];
      assert forall k | 0 <= k < |hooks| :: hooks[k] < id;
      var _ := CommitBeforeResponse(id, usableStack);
    }

    /** The handler's own statements on a session. */
    method Execute(id: SessionId, ws: seq<Write>)
      requires Valid() && id < |sessions|
      modifies this`sessions
      ensures Valid() && sessions == old(sessions)[id := old(sessions)[id].Written(ws)]
    {
      sessions := sessions[id := sessions[id].Written(ws)];
    }

    /** A commit the handler makes itself. */
    method CommitNow(id: SessionId)
      requires Valid() && id < |sessions|
      modifies this`sessions, this`trace
      ensures Valid() && sessions == old(sessions)[id := old(sessions)[id].Committed()]
      ensures trace == old(trace) + [Commit(id)]
    {
      sessions := sessions[id := sessions[id].Committed()];
      trace := trace + [Commit(id)];
    }

    /** The framework unwinding the hooks. */
    method UnwindHooks(handlerRaises: bool, failing: set<SessionId>) returns (raising: bool)
      requires Valid()
      modifies this`sessions, this`trace
      ensures var o := Unwind(old(sessions), hooks, handlerRaises, failing);
              sessions == o.sessions && raising == o.raising && trace == old(trace) + o.trace
    {
      raising := handlerRaises;
      var n: nat := |hooks|;
      ghost var done: seq<Event> := [];
      assert hooks[..n] == hooks;
      while n > 0
        invariant n <= |hooks| && |sessions| == |old(sessions)|
        invariant var all := Unwind(old(sessions), hooks, handlerRaises, failing);
                  var rest := Unwind(sessions, hooks[..n], raising, failing);
                  all == Outcome(rest.sessions, rest.raising, done + rest.trace)
        invariant trace == old(trace) + done
      {
        n := n - 1;
        var id := hooks[n];
        UnwindLast(sessions, hooks, n, raising, failing, done);
        if !raising && sessions[id].inTransaction {
          if id in failing {
            raising := true;
          } else {
            sessions := sessions[id := sessions[id].Committed()];
            trace := trace + [Commit(id)];
            done := done + [Commit(id)];
          }
        }
      }
    }

    /** The framework unwinding the generators. */
    method UnwindGenerators(raisingBefore: bool, failing: set<SessionId>)
      modifies this`sessions, this`trace
      ensures var o := Teardown(old(sessions), |old(sessions)|, raisingBefore, failing);
              sessions == o.sessions && trace == old(trace) + o.trace
    {
      var raising, n: nat := raisingBefore, |sessions|;
      ghost var done: seq<Event> := [];
      while n > 0
        invariant n <= |sessions| == |old(sessions)|
        invariant var all := Teardown(old(sessions), |old(sessions)|, raisingBefore, failing);
                  var rest := Teardown(sessions, n, raising, failing);
                  all == Outcome(rest.sessions, rest.raising, done + rest.trace)
        invariant trace == old(trace) + done
      {
        n := n - 1;
        if raising || (sessions[n].inTransaction && n in failing) {
          raising := true;
          sessions := sessions[n := sessions[n].RolledBack()];
          trace := trace + [Rollback(n)];
          done := done + [Rollback(n)];
        } else if sessions[n].inTransaction {
          sessions := sessions[n := sessions[n].Committed()];
          trace := trace + [Commit(n)];
          done := done + [Commit(n)];
        }
      }
    }

    method Complete(c: Circumstances)
      requires Valid() && |c.bodyWrites| == |sessions|
      modifies this`sessions, this`trace
      ensures var o := Finish(old(sessions), hooks, c);
              sessions == o.sessions && trace == old(trace) + o.trace
    {
      ghost var start, before := trace, Unwind(sessions, hooks, c.handlerRaises, c.failingBefore);
      var raising := UnwindHooks(c.handlerRaises, c.failingBefore);
      if raising {
        ghost var after := Teardown(before.sessions, |before.sessions|, true, c.failingAfter);
        UnwindGenerators(true, c.failingAfter);
        assert trace == start + before.trace + after.trace == start + (before.trace + after.trace);
      } else {
        ghost var mid := AfterBody(before.sessions, c.bodyWrites);
        ghost var after := Teardown(mid, |mid|, c.sendRaises, c.failingAfter);
        trace := trace + [Respond];
        sessions := AfterBody(sessions, c.bodyWrites);
        UnwindGenerators(c.sendRaises, c.failingAfter);
        SentTrace(start, before.trace, after.trace);
      }
    }
  }

  lemma SentTrace(start: seq<Event>, before: seq<Event>, after: seq<Event>)
    ensures start + before + [Respond] + after == start + (before + [Respond] + after)
  {
  }

  lemma UnwindLast(ss: seq<Session>, hooks: seq<SessionId>, n: nat, raising: bool,
        failing: set<SessionId>, done: seq<Event>)
    requires InRange(hooks, |ss|) && n < |hooks|
    ensures var id, o := hooks[n], Unwind(ss, hooks[..n + 1], raising, failing);
            if raising || !ss[id].inTransaction then o == Unwind(ss, hooks[..n], raising, failing)
            else if id in failing then o == Unwind(ss, hooks[..n], true, failing)
            else
              var r := Unwind(ss[id := ss[id].Committed()], hooks[..n], false, failing);
              o == r.(trace := o.trace) && done + o.trace == done + [Commit(id)] + r.trace
  {
    assert hooks[..n + 1][..n] == hooks[..n];
  }

  // ----- what one unwinding does -----

  function Settled(s: Session): Session {
    if s.inTransaction then Session([], s.durable + s.pending, false) else s
  }

  function Commits(trace: seq<Event>, id: SessionId): nat {
    multiset(trace)[Commit(id)]
  }

  /** The commit of the hook at position `k` raises, if it is reached. */
  predicate FailsAt(ss: seq<Session>, hooks: seq<SessionId>, failing: set<SessionId>, k: nat)
    requires InRange(hooks, |ss|)
  {
    k < |hooks| && ss[hooks[k]].inTransaction && hooks[k] in failing
  }

  /** A failing commit at or after position `p`, that is, unwound no later. */
  ghost predicate FailedBy(ss: seq<Session>, hooks: seq<SessionId>, failing: set<SessionId>, p: nat)
    requires InRange(hooks, |ss|)
  {
    exists k :: p <= k && FailsAt(ss, hooks, failing, k)
  }

  lemma {:induction false} RaisedUnwindDoesNothing(ss: seq<Session>, hooks: seq<SessionId>, failing: set<SessionId>)
    requires InRange(hooks, |ss|)
    ensures Unwind(ss, hooks, true, failing) == Outcome(ss, true, [])
    decreases |hooks|
  {
    if hooks != [] {
      RaisedUnwindDoesNothing(ss, hooks[..|hooks| - 1], failing);
    }
  }

  /** What is left of the session hooked at position `p`: it commits unless a commit unwound
      before it, or its own, raised. */
  ghost predicate HookedTo(ss: seq<Session>, hooks: seq<SessionId>, failing: set<SessionId>, o: Outcome, p: nat)
    requires InRange(hooks, |ss|) && |o.sessions| == |ss| && p < |hooks|
  {
    var i := hooks[p];
    if FailedBy(ss, hooks, failing, p)
    then o.sessions[i] == ss[i] && Commits(o.trace, i) == 0
    else o.sessions[i] == Settled(ss[i]) && Commits(o.trace, i) == if ss[i].inTransaction then 1 else 0
  }

  /** After a handler that returned; sessions without a hook are untouched. */
  ghost predicate UnwoundTo(ss: seq<Session>, hooks: seq<SessionId>, failing: set<SessionId>, o: Outcome)
    requires InRange(hooks, |ss|) && |o.sessions| == |ss|
  {
    && (o.raising <==> FailedBy(ss, hooks, failing, 0))
    && (forall p: nat | p < |hooks| :: HookedTo(ss, hooks, failing, o, p))
    && (forall i: nat | i < |ss| && i !in hooks :: o.sessions[i] == ss[i] && Commits(o.trace, i) == 0)
    && (forall e :: e in o.trace ==> e.Commit?)
  }

  lemma LastHookFails(ss: seq<Session>, hooks: seq<SessionId>, failing: set<SessionId>)
    requires hooks != [] && InRange(hooks, |ss|) && FailsAt(ss, hooks, failing, |hooks| - 1)
    ensures UnwoundTo(ss, hooks, failing, Unwind(ss, hooks, false, failing))
  {
    RaisedUnwindDoesNothing(ss, hooks[..|hooks| - 1], failing);
    var o := Unwind(ss, hooks, false, failing);
    forall p: nat | p < |hooks| ensures HookedTo(ss, hooks, failing, o, p) {
      assert FailsAt(ss, hooks, failing, |hooks| - 1);
      assert FailedBy(ss, hooks, failing, p);
    }
  }

  /** The last hook does not raise: it settles its own session, and the rest is as without it. */
  lemma LastHookSettles(ss: seq<Session>, ss': seq<Session>, hooks: seq<SessionId>,
        failing: set<SessionId>, o: Outcome, o': Outcome)
    requires hooks != [] && InRange(hooks, |ss|) && DistinctIds(hooks)
    requires |o.sessions| == |ss| && !FailsAt(ss, hooks, failing, |hooks| - 1)
    requires var id := hooks[|hooks| - 1];
             && ss' == ss[id := Settled(ss[id])] && o'.sessions == o.sessions && o'.raising == o.raising
             && o'.trace == (if ss[id].inTransaction then [Commit(id)] else []) + o.trace
    requires UnwoundTo(ss', hooks[..|hooks| - 1], failing, o)
    ensures UnwoundTo(ss, hooks, failing, o')
  {
    var n := |hooks| - 1;
    var rest := hooks[..n];
    FailedByShorter(ss, ss', hooks, failing);
    assert hooks[n] !in rest;
    forall i: nat ensures Commits(o'.trace, i)
               == Commits(o.trace, i) + if i == hooks[n] && ss[i].inTransaction then 1 else 0 {}
    forall p: nat | p < |hooks| ensures HookedTo(ss, hooks, failing, o', p) {
      if p < n {
        assert HookedTo(ss', rest, failing, o, p);
      } else {
        assert !FailedBy(ss', rest, failing, n);
      }
    }
  }

  lemma {:induction false} UnwindIsExact(ss: seq<Session>, hooks: seq<SessionId>, failing: set<SessionId>)
    requires InRange(hooks, |ss|) && DistinctIds(hooks)
    ensures UnwoundTo(ss, hooks, failing, Unwind(ss, hooks, false, failing))
    decreases |hooks|
  {
    if hooks != [] {
      var n := |hooks| - 1;
      var id := hooks[n];
      if FailsAt(ss, hooks, failing, n) {
        LastHookFails(ss, hooks, failing);
      } else {
        var ss' := ss[id := Settled(ss[id])];
        UnwindIsExact(ss', hooks[..n], failing);
        assert !ss[id].inTransaction ==> ss' == ss;
        LastHookSettles(ss, ss', hooks, failing, Unwind(ss', hooks[..n], false, failing),
                        Unwind(ss, hooks, false, failing));
      }
    }
  }

  /** A last hook that does not fail decides nothing for the others. */
  lemma FailedByShorter(ss: seq<Session>, ss': seq<Session>, hooks: seq<SessionId>, failing: set<SessionId>)
    requires hooks != [] && InRange(hooks, |ss|) && |ss'| == |ss|
    requires forall k | 0 <= k < |hooks| - 1 :: ss'[hooks[k]] == ss[hooks[k]]
    requires !FailsAt(ss, hooks, failing, |hooks| - 1)
    ensures forall p: nat :: FailedBy(ss, hooks, failing, p) <==> FailedBy(ss', hooks[..|hooks| - 1], failing, p)
  {
    var rest := hooks[..|hooks| - 1];
    assert forall k: nat :: FailsAt(ss, hooks, failing, k) <==> FailsAt(ss', rest, failing, k);
  }

  /** Some session opened at or after `i`, so unwound no later, fails its late commit. */
  ghost predicate LateFailure(ss: seq<Session>, n: nat, failing: set<SessionId>, i: nat)
    requires n <= |ss|
  {
    exists k: nat :: i <= k < n && ss[k].inTransaction && k in failing
  }

  /** What is left of session `i` of the first `n`: it is rolled back if an exception reaches it. */
  ghost predicate TornDown(ss: seq<Session>, n: nat, raising: bool, failing: set<SessionId>, o: Outcome, i: nat)
    requires i < n <= |ss| == |o.sessions|
  {
    if raising || LateFailure(ss, n, failing, i)
    then o.sessions[i] == Session([], ss[i].durable, false) && Commits(o.trace, i) == 0
    else o.sessions[i] == Settled(ss[i]) && Commits(o.trace, i) == if ss[i].inTransaction then 1 else 0
  }

  ghost predicate TornDownTo(ss: seq<Session>, n: nat, raising: bool, failing: set<SessionId>, o: Outcome)
    requires n <= |ss| == |o.sessions|
  {
    && (forall i: nat | i < n :: TornDown(ss, n, raising, failing, o, i))
    && (forall i: nat | n <= i < |ss| :: o.sessions[i] == ss[i] && Commits(o.trace, i) == 0)
    && (forall e :: e in o.trace ==> e != Respond)
  }

  lemma {:induction false} RaisedTeardownRollsBack(ss: seq<Session>, n: nat, failing: set<SessionId>)
    requires n <= |ss|
    ensures TornDownTo(ss, n, true, failing, Teardown(ss, n, true, failing))
    decreases n
  {
    if n > 0 {
      var id := n - 1;
      var ss' := ss[id := ss[id].RolledBack()];
      RaisedTeardownRollsBack(ss', id, failing);
      var o, o' := Teardown(ss, n, true, failing), Teardown(ss', id, true, failing);
      assert o.sessions == o'.sessions && o.trace == [Rollback(id)] + o'.trace;
      forall i: nat ensures Commits(o.trace, i) == Commits(o'.trace, i) {}
      forall i: nat | i < n ensures TornDown(ss, n, true, failing, o, i) {
        assert i < id ==> TornDown(ss', id, true, failing, o', i);
      }
    }
  }

  lemma LateFailureShrinks(ss: seq<Session>, ss': seq<Session>, n: nat, failing: set<SessionId>)
    requires 0 < n <= |ss| == |ss'| && forall k: nat | k < n - 1 :: ss'[k] == ss[k]
    requires !(ss[n - 1].inTransaction && n - 1 in failing)
    ensures forall i: nat :: LateFailure(ss, n, failing, i) <==> LateFailure(ss', n - 1, failing, i)
  {
  }

  lemma LastOneFails(ss: seq<Session>, n: nat, failing: set<SessionId>)
    requires 0 < n <= |ss| && ss[n - 1].inTransaction && n - 1 in failing
    ensures TornDownTo(ss, n, false, failing, Teardown(ss, n, false, failing))
  {
    var o := Teardown(ss, n, false, failing);
    assert o == Teardown(ss, n, true, failing);
    RaisedTeardownRollsBack(ss, n, failing);
    forall i: nat | i < n ensures TornDown(ss, n, false, failing, o, i) {
      assert TornDown(ss, n, true, failing, o, i);
      assert i <= n - 1 < n && ss[n - 1].inTransaction && n - 1 in failing;
      assert LateFailure(ss, n, failing, i);
    }
  }

  lemma LastOneSettles(ss: seq<Session>, ss': seq<Session>, n: nat, failing: set<SessionId>, o: Outcome, o': Outcome)
    requires 0 < n <= |ss| == |o'.sessions| && !(ss[n - 1].inTransaction && n - 1 in failing)
    requires ss' == ss[n - 1 := Settled(ss[n - 1])] && o.sessions == o'.sessions
    requires o.trace == (if ss[n - 1].inTransaction then [Commit(n - 1)] else []) + o'.trace
    requires TornDownTo(ss', n - 1, false, failing, o')
    ensures TornDownTo(ss, n, false, failing, o)
  {
    LateFailureShrinks(ss, ss', n, failing);
    forall i: nat ensures Commits(o.trace, i)
               == Commits(o'.trace, i) + if i == n - 1 && ss[i].inTransaction then 1 else 0 {}
    forall i: nat | i < n ensures TornDown(ss, n, false, failing, o, i) {
      if i < n - 1 {
        assert TornDown(ss', n - 1, false, failing, o', i);
      } else {
        assert !LateFailure(ss', n - 1, failing, i);
      }
    }
  }

  lemma {:induction false} TeardownIsExact(ss: seq<Session>, n: nat, raising: bool, failing: set<SessionId>)
    requires n <= |ss|
    ensures TornDownTo(ss, n, raising, failing, Teardown(ss, n, raising, failing))
    decreases n
  {
    if raising {
      RaisedTeardownRollsBack(ss, n, failing);
    } else if n > 0 {
      var id := n - 1;
      if ss[id].inTransaction && id in failing {
        LastOneFails(ss, n, failing);
      } else {
        var ss' := ss[id := Settled(ss[id])];
        assert !ss[id].inTransaction ==> ss' == ss;
        TeardownIsExact(ss', id, false, failing);
        LastOneSettles(ss, ss', n, failing, Teardown(ss, n, false, failing), Teardown(ss', id, false, failing));
      }
    }
  }

  lemma TeardownOf(ss: seq<Session>, raising: bool, failing: set<SessionId>, i: nat)
    requires i < |ss|
    ensures TornDown(ss, |ss|, raising, failing, Teardown(ss, |ss|, raising, failing), i)
    ensures Respond !in Teardown(ss, |ss|, raising, failing).trace
  {
    TeardownIsExact(ss, |ss|, raising, failing);
  }

  /** Without failing commits every hooked session is settled, by one commit if any. */
  lemma CalmUnwind(ss: seq<Session>, hooks: seq<SessionId>, i: nat)
    requires InRange(hooks, |ss|) && DistinctIds(hooks) && i < |ss|
    ensures var u := Unwind(ss, hooks, false, {});
            && !u.raising && Respond !in u.trace
            && u.sessions[i] == (if i in hooks then Settled(ss[i]) else ss[i])
            && Commits(u.trace, i) == if i in hooks && ss[i].inTransaction then 1 else 0
  {
    UnwindIsExact(ss, hooks, {});
    if i in hooks {
      var p :| 0 <= p < |hooks| && hooks[p] == i;
      assert HookedTo(ss, hooks, {}, Unwind(ss, hooks, false, {}), p);
      assert !FailedBy(ss, hooks, {}, p);
    }
  }

  lemma CalmTeardown(ss: seq<Session>, i: nat)
    requires i < |ss|
    ensures var t := Teardown(ss, |ss|, false, {});
            && Respond !in t.trace && t.sessions[i] == Settled(ss[i])
            && Commits(t.trace, i) == if ss[i].inTransaction then 1 else 0
  {
    TeardownOf(ss, false, {}, i);
    assert !LateFailure(ss, |ss|, {}, i);
  }

  // ----- whole requests -----

  ghost predicate Wellformed(ss: seq<Session>, hooks: seq<SessionId>, c: Circumstances) {
    InRange(hooks, |ss|) && DistinctIds(hooks) && AllValid(ss) && |c.bodyWrites| == |ss|
  }

  /** A success is sent exactly when the handler returned and no hooked commit raised. */
  lemma WhenSuccessIsSent(ss: seq<Session>, hooks: seq<SessionId>, c: Circumstances)
    requires Wellformed(ss, hooks, c)
    ensures Respond in Finish(ss, hooks, c).trace <==> !c.handlerRaises && !FailedBy(ss, hooks, c.failingBefore, 0)
  {
    if c.handlerRaises {
      RaisedUnwindDoesNothing(ss, hooks, c.failingBefore);
      TeardownIsExact(ss, |ss|, true, c.failingAfter);
    } else {
      UnwindIsExact(ss, hooks, c.failingBefore);
      var u := Unwind(ss, hooks, false, c.failingBefore);
      if u.raising {
        TeardownIsExact(u.sessions, |ss|, true, c.failingAfter);
      }
    }
  }

  lemma HookedIsDurableBeforeSending(ss: seq<Session>, hooks: seq<SessionId>, failing: set<SessionId>, i: nat)
    requires InRange(hooks, |ss|) && DistinctIds(hooks) && AllValid(ss) && i in hooks
    requires !FailedBy(ss, hooks, failing, 0)
    ensures var u := Unwind(ss, hooks, false, failing);
            && (ss[i].pending != [] ==> Commit(i) in u.trace)
            && u.sessions[i].pending == [] && u.sessions[i].durable == ss[i].durable + ss[i].pending
  {
    UnwindIsExact(ss, hooks, failing);
    var p :| 0 <= p < |hooks| && hooks[p] == i;
    assert HookedTo(ss, hooks, failing, Unwind(ss, hooks, false, failing), p);
    assert !FailedBy(ss, hooks, failing, p);
    assert ss[i].Valid();
  }

  /** What teardown can do to a session that was durable when the body began. */
  lemma TeardownKeepsDurable(mid: seq<Session>, raising: bool, failing: set<SessionId>, i: nat)
    requires i < |mid|
    ensures var o := Teardown(mid, |mid|, raising, failing);
            && Respond !in o.trace
            && mid[i].durable <= o.sessions[i].durable <= mid[i].durable + mid[i].pending
  {
    TeardownOf(mid, raising, failing, i);
  }

  /** A sent success parts the trace into the hooks and the teardown. */
  lemma SuccessParts(ss: seq<Session>, hooks: seq<SessionId>, c: Circumstances)
    requires Wellformed(ss, hooks, c) && Respond in Finish(ss, hooks, c).trace
    ensures !FailedBy(ss, hooks, c.failingBefore, 0)
    ensures var u := Unwind(ss, hooks, false, c.failingBefore);
            var t := Teardown(AfterBody(u.sessions, c.bodyWrites), |ss|, c.sendRaises, c.failingAfter);
            Finish(ss, hooks, c) == t.(trace := u.trace + [Respond] + t.trace)
            && Respond !in u.trace && Respond !in t.trace
  {
    WhenSuccessIsSent(ss, hooks, c);
    UnwindIsExact(ss, hooks, c.failingBefore);
    var u := Unwind(ss, hooks, false, c.failingBefore);
    TeardownIsExact(AfterBody(u.sessions, c.bodyWrites), |ss|, c.sendRaises, c.failingAfter);
  }

  /** All that the hooked sessions had written is durable before a success is sent, and stays so. */
  lemma SuccessIsSentAfterDurable(ss: seq<Session>, hooks: seq<SessionId>, c: Circumstances)
    returns (before: seq<Event>, after: seq<Event>)
    requires Wellformed(ss, hooks, c) && Respond in Finish(ss, hooks, c).trace
    ensures Finish(ss, hooks, c).trace == before + [Respond] + after && Respond !in before && Respond !in after
    ensures forall i | i in hooks :: ss[i].pending != [] ==> Commit(i) in before
    ensures forall i | i in hooks ::
              && ss[i].durable + ss[i].pending <= Finish(ss, hooks, c).sessions[i].durable
              && Finish(ss, hooks, c).sessions[i].durable <= ss[i].durable + ss[i].pending + c.bodyWrites[i]
  {
    SuccessParts(ss, hooks, c);
    var u := Unwind(ss, hooks, false, c.failingBefore);
    var mid := AfterBody(u.sessions, c.bodyWrites);
    before, after := u.trace, Teardown(mid, |ss|, c.sendRaises, c.failingAfter).trace;
    forall i | i in hooks
      ensures ss[i].pending != [] ==> Commit(i) in before
      ensures ss[i].durable + ss[i].pending <= Finish(ss, hooks, c).sessions[i].durable
           <= ss[i].durable + ss[i].pending + c.bodyWrites[i]
    {
      HookedIsDurableBeforeSending(ss, hooks, c.failingBefore, i);
      TeardownKeepsDurable(mid, c.sendRaises, c.failingAfter, i);
    }
  }

  /** After a failed commit nothing is sent and teardown rolls every session back. */
  lemma FailureRollsBack(ss: seq<Session>, hooks: seq<SessionId>, c: Circumstances, i: nat)
    requires Wellformed(ss, hooks, c) && !c.handlerRaises && i < |ss|
    requires FailedBy(ss, hooks, c.failingBefore, 0)
    ensures var o, u := Finish(ss, hooks, c), Unwind(ss, hooks, false, c.failingBefore);
            && Respond !in o.trace
            && o.sessions[i] == Session([], u.sessions[i].durable, false)
            && Commits(o.trace, i) == Commits(u.trace, i)
  {
    UnwindIsExact(ss, hooks, c.failingBefore);
    var u := Unwind(ss, hooks, false, c.failingBefore);
    TeardownOf(u.sessions, true, c.failingAfter, i);
    var t := Teardown(u.sessions, |ss|, true, c.failingAfter);
    assert Commits(u.trace + t.trace, i) == Commits(u.trace, i);
  }

  /** When hooked commits raise, the last of them in registration order decides: what was
      registered after it is durable, and neither it nor anything registered before it, nor an
      unhooked session, has committed; no success is sent. */
  lemma FailedCommitStopsTheEarlierOnes(ss: seq<Session>, hooks: seq<SessionId>, c: Circumstances, p: nat)
    requires Wellformed(ss, hooks, c) && !c.handlerRaises
    requires FailedBy(ss, hooks, c.failingBefore, 0) && p < |hooks|
    ensures var o, i := Finish(ss, hooks, c), hooks[p];
            && Respond !in o.trace
            && (if FailedBy(ss, hooks, c.failingBefore, p)
                then o.sessions[i] == Session([], ss[i].durable, false) && Commit(i) !in o.trace
                else o.sessions[i] == Session([], ss[i].durable + ss[i].pending, false))
            && (forall j: nat | j < |ss| && j !in hooks ::
                  o.sessions[j] == Session([], ss[j].durable, false) && Commit(j) !in o.trace)
  {
    UnwindIsExact(ss, hooks, c.failingBefore);
    FailureRollsBack(ss, hooks, c, hooks[p]);
    assert HookedTo(ss, hooks, c.failingBefore, Unwind(ss, hooks, false, c.failingBefore), p);
    assert ss[hooks[p]].Valid();
    var o := Finish(ss, hooks, c);
    forall j: nat | j < |ss| && j !in hooks
      ensures o.sessions[j] == Session([], ss[j].durable, false) && Commit(j) !in o.trace
    {
      FailureRollsBack(ss, hooks, c, j);
      assert Commits(o.trace, j) == 0;
    }
  }

  /** An exception in the handler loses exactly the uncommitted writes: nothing commits behind it. */
  lemma HandlerExceptionRollsBack(ss: seq<Session>, hooks: seq<SessionId>, c: Circumstances, i: nat)
    requires Wellformed(ss, hooks, c) && c.handlerRaises && i < |ss|
    ensures Finish(ss, hooks, c).sessions[i] == Session([], ss[i].durable, false)
    ensures Commit(i) !in Finish(ss, hooks, c).trace && Respond !in Finish(ss, hooks, c).trace
  {
    RaisedUnwindDoesNothing(ss, hooks, c.failingBefore);
    TeardownOf(ss, true, c.failingAfter, i);
    var t := Teardown(ss, |ss|, true, c.failingAfter);
    assert [] + t.trace == t.trace;
    assert Commits(t.trace, i) == 0;
  }

  /** The hook of session `i` commits: no exception reaches it. */
  ghost predicate HookCommits(ss: seq<Session>, hooks: seq<SessionId>, c: Circumstances, i: nat)
    requires InRange(hooks, |ss|)
  {
    !c.handlerRaises && exists p: nat :: p < |hooks| && hooks[p] == i && !FailedBy(ss, hooks, c.failingBefore, p)
  }

  /** A session opened no earlier than `i` is left in a transaction that fails to commit after the response. */
  ghost predicate FailsLate(ss: seq<Session>, hooks: seq<SessionId>, c: Circumstances, i: nat)
    requires |c.bodyWrites| == |ss|
  {
    exists k: nat :: i <= k < |ss| && k in c.failingAfter
      && (c.bodyWrites[k] != [] || (k !in hooks && ss[k].inTransaction))
  }

  /** What is durable in the end, whatever fails: a session's writes up to the response are kept
      exactly when its hook commits, or, without a hook, when its generator does; the writes of the
      body when its generator does. The rest is rolled back, and no transaction stays open. */
  lemma WhatIsDurableInTheEnd(ss: seq<Session>, hooks: seq<SessionId>, c: Circumstances, i: nat)
    requires Wellformed(ss, hooks, c) && i < |ss|
    ensures var sent := !c.handlerRaises && !FailedBy(ss, hooks, c.failingBefore, 0);
            var late := sent && !c.sendRaises && !FailsLate(ss, hooks, c, i);
            Finish(ss, hooks, c).sessions[i] ==
            Session([], ss[i].durable
                        + (if HookCommits(ss, hooks, c, i) || (i !in hooks && late) then ss[i].pending else [])
                        + (if late then c.bodyWrites[i] else []), false)
  {
    if c.handlerRaises {
      HandlerExceptionRollsBack(ss, hooks, c, i);
    } else if FailedBy(ss, hooks, c.failingBefore, 0) {
      if i in hooks {
        var p :| 0 <= p < |hooks| && hooks[p] == i;
        FailedCommitStopsTheEarlierOnes(ss, hooks, c, p);
      } else {
        FailureRollsBack(ss, hooks, c, i);
        UnwindIsExact(ss, hooks, c.failingBefore);
      }
    } else {
      SentSessions(ss, hooks, c);
      SentSessionEnds(ss, hooks, c, i);
    }
  }

  /** The sessions when the generators are unwound after a response. */
  lemma SentSessions(ss: seq<Session>, hooks: seq<SessionId>, c: Circumstances)
    requires Wellformed(ss, hooks, c) && !c.handlerRaises && !FailedBy(ss, hooks, c.failingBefore, 0)
    ensures var mid := AfterBody(Unwind(ss, hooks, false, c.failingBefore).sessions, c.bodyWrites);
            && Finish(ss, hooks, c).sessions == Teardown(mid, |ss|, c.sendRaises, c.failingAfter).sessions
            && forall k: nat | k < |ss| ::
                 mid[k] == (if k in hooks then Settled(ss[k]) else ss[k]).Written(c.bodyWrites[k])
  {
    UnwindIsExact(ss, hooks, c.failingBefore);
    var u := Unwind(ss, hooks, false, c.failingBefore);
    forall k: nat | k < |ss| && k in hooks ensures u.sessions[k] == Settled(ss[k]) {
      var p :| 0 <= p < |hooks| && hooks[p] == k;
      assert HookedTo(ss, hooks, c.failingBefore, u, p);
      assert !FailedBy(ss, hooks, c.failingBefore, p);
    }
  }

  lemma SentSessionEnds(ss: seq<Session>, hooks: seq<SessionId>, c: Circumstances, i: nat)
    requires Wellformed(ss, hooks, c) && !c.handlerRaises && !FailedBy(ss, hooks, c.failingBefore, 0) && i < |ss|
    ensures var late := !c.sendRaises && !FailsLate(ss, hooks, c, i);
            Finish(ss, hooks, c).sessions[i] ==
            Session([], ss[i].durable + (if i in hooks || late then ss[i].pending else [])
                        + (if late then c.bodyWrites[i] else []), false)
  {
    SentSessions(ss, hooks, c);
    var mid := AfterBody(Unwind(ss, hooks, false, c.failingBefore).sessions, c.bodyWrites);
    LateFailuresAre(ss, hooks, c, mid, i);
    TornDownAfterSending(ss[i], i in hooks, c.bodyWrites[i], mid, c.sendRaises, c.failingAfter, i);
  }

  /** Which generators fail to commit depends on what was left uncommitted. */
  lemma LateFailuresAre(ss: seq<Session>, hooks: seq<SessionId>, c: Circumstances, mid: seq<Session>, i: nat)
    requires Wellformed(ss, hooks, c) && |mid| == |ss|
    requires forall k: nat | k < |ss| ::
               mid[k] == (if k in hooks then Settled(ss[k]) else ss[k]).Written(c.bodyWrites[k])
    ensures LateFailure(mid, |ss|, c.failingAfter, i) <==> FailsLate(ss, hooks, c, i)
  {
    forall k: nat | k < |ss|
      ensures mid[k].inTransaction <==> c.bodyWrites[k] != [] || (k !in hooks && ss[k].inTransaction)
    {
      SettledAroundBody(ss[k], k in hooks, c.bodyWrites[k]);
    }
  }

  lemma TornDownAfterSending(s: Session, hooked: bool, ws: seq<Write>, mid: seq<Session>, raising: bool,
        failing: set<SessionId>, i: nat)
    requires s.Valid() && i < |mid| && mid[i] == (if hooked then Settled(s) else s).Written(ws)
    ensures var late := !raising && !LateFailure(mid, |mid|, failing, i);
            Teardown(mid, |mid|, raising, failing).sessions[i] ==
            Session([], s.durable + (if hooked || late then s.pending else []) + (if late then ws else []), false)
  {
    TeardownOf(mid, raising, failing, i);
    SettledAroundBody(s, hooked, ws);
  }

  lemma CommitsAround(before: seq<Event>, after: seq<Event>, i: SessionId)
    ensures Commits(before + [Respond] + after, i) == Commits(before, i) + Commits(after, i)
    ensures Respond in before + [Respond] + after
  {
  }

  /** A session settled before the body, if hooked, and after it. */
  lemma SettledAroundBody(s: Session, hooked: bool, ws: seq<Write>)
    requires s.Valid()
    ensures var mid := (if hooked then Settled(s) else s).Written(ws);
            && Settled(mid) == Session([], s.durable + s.pending + ws, false)
            && (mid.inTransaction <==> ws != [] || (!hooked && s.inTransaction))
  {
    assert s.durable + (s.pending + ws) == s.durable + s.pending + ws;
  }

  /** Without failures every write becomes durable, hooked or not, and nothing commits twice:
      a hooked session commits again only for what the body wrote. */
  lemma NoWriteIsLost(ss: seq<Session>, hooks: seq<SessionId>, c: Circumstances, i: nat)
    requires Wellformed(ss, hooks, c) && i < |ss|
    requires !c.handlerRaises && !c.sendRaises && c.failingBefore == {} && c.failingAfter == {}
    ensures var o := Finish(ss, hooks, c);
            && Respond in o.trace
            && o.sessions[i] == Session([], ss[i].durable + ss[i].pending + c.bodyWrites[i], false)
            && Commits(o.trace, i) ==
               if i in hooks then (if ss[i].inTransaction then 1 else 0) + (if c.bodyWrites[i] != [] then 1 else 0)
               else if ss[i].inTransaction || c.bodyWrites[i] != [] then 1 else 0
  {
    CalmUnwind(ss, hooks, i);
    var u := Unwind(ss, hooks, false, {});
    var mid := AfterBody(u.sessions, c.bodyWrites);
    CalmTeardown(mid, i);
    var t := Teardown(mid, |ss|, false, {});
    CommitsAround(u.trace, t.trace, i);
    assert ss[i].Valid();
    assert mid[i] == u.sessions[i].Written(c.bodyWrites[i]);
    SettledAroundBody(ss[i], i in hooks, c.bodyWrites[i]);
  }

  /** A session whose hook could not be registered still commits, after the response. */
  lemma UnhookedSessionCommitsLate(ss: seq<Session>, hooks: seq<SessionId>, c: Circumstances, i: nat)
    returns (before: seq<Event>, after: seq<Event>)
    requires Wellformed(ss, hooks, c) && i < |ss| && i !in hooks && ss[i].inTransaction
    requires !c.handlerRaises && !c.sendRaises && c.failingBefore == {} && c.failingAfter == {}
    ensures Finish(ss, hooks, c).trace == before + [Respond] + after
    ensures Commit(i) !in before && Commit(i) in after
  {
    CalmUnwind(ss, hooks, i);
    var u := Unwind(ss, hooks, false, {});
    var mid := AfterBody(u.sessions, c.bodyWrites);
    CalmTeardown(mid, i);
    before, after := u.trace, Teardown(mid, |ss|, false, {}).trace;
    assert Commits(before, i) == 0 && Commits(after, i) == 1;
  }
}
