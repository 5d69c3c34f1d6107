/** The inbound billing webhook: claim the event id, apply the event, and release the claim
    when the application raises. Any number of deliveries of any events interleave. */
module WebhookClaims {
  type EventId = string
  type SubscriptionId = string
  type DeliveryId = nat

  datatype BillingEvent = BillingEvent(id: EventId, subscription: SubscriptionId, status: string)

  /** A delivery, standing right before its next step. */
  datatype Delivery =
    | Claiming(ev: BillingEvent)
    | Deciding(ev: BillingEvent)
    | Committing(ev: BillingEvent)
    | Releasing(ev: BillingEvent)

  /** `committed`, `finished` and `stuck` are history: the events whose effect was committed, in
      order; the ids some application of which ended without raising; and the ids whose holder
      vanished, whose claim was taken by a call that never heard so, or whose release failed,
      with the claim in place. */
  datatype State = State(
    claimed: set<EventId>,
    statuses: map<SubscriptionId, string>,
    deliveries: map<DeliveryId, Delivery>,
    committed: seq<BillingEvent>,
    finished: set<EventId>,
    stuck: set<EventId>)

  function Init(statuses: map<SubscriptionId, string>): State {
    State({}, statuses, map[], [], {}, {})
  }

  predicate KnownStatus(status: string) {
    status == "trialing" || status == "active" || status == "past_due" || status == "canceled"
  }

  /** Whether apply_billing_event has something to commit: the event names a known subscription
      and a known status other than the current one. */
  predicate Changes(statuses: map<SubscriptionId, string>, ev: BillingEvent) {
    ev.subscription != "" && KnownStatus(ev.status)
    && ev.subscription in statuses && statuses[ev.subscription] != ev.status
  }

  /** SET NX: an empty id is never recorded. */
  function Claim(s: State, id: EventId): set<EventId> {
    if id == "" then s.claimed else s.claimed + {id}
  }

  function Goto(s: State, d: DeliveryId, next: Delivery): State {
    s.(deliveries := s.deliveries[d := next])
  }

  function End(s: State, d: DeliveryId): State {
    s.(deliveries := s.deliveries - {d})
  }

  /** The next step of a delivery; `fails` says whether that step's own call raises. */
  function Advance(s: State, d: DeliveryId, fails: bool): State
    requires d in s.deliveries
  {
    match s.deliveries[d]
    case Claiming(ev) =>
      if fails then End(s, d)
      else if ev.id != "" && ev.id in s.claimed then End(s, d)
      else Goto(s.(claimed := Claim(s, ev.id)), d, Deciding(ev))
    case Deciding(ev) =>
      if fails then Goto(s, d, Releasing(ev))
      else if Changes(s.statuses, ev) then Goto(s, d, Committing(ev))
      else End(s.(finished := s.finished + {ev.id}), d)
    case Committing(ev) =>
      if fails then Goto(s, d, Releasing(ev))
      else End(s.(statuses := s.statuses[ev.subscription := ev.status],
                  committed := s.committed + [ev],
                  finished := s.finished + {ev.id}), d)
    case Releasing(ev) =>
      if fails then End(s.(stuck := s.stuck + {ev.id}), d)
      else End(s.(claimed := s.claimed - {ev.id}), d)
  }

  /** The process dies with the delivery in flight. */
  function Vanish(s: State, d: DeliveryId): State
    requires d in s.deliveries
  {
    var s' := End(s, d);
    if s.deliveries[d].Claiming? then s' else s'.(stuck := s'.stuck + {s.deliveries[d].ev.id})
  }

  /** The reply to a delivery's SET NX is lost: the claim may have been taken, and the route raises
      before the part that would release it. */
  function LoseReply(s: State, d: DeliveryId): State
    requires d in s.deliveries && s.deliveries[d].Claiming?
  {
    var id := s.deliveries[d].ev.id;
    if id == "" || id in s.claimed then End(s, d)
    else End(s.(claimed := Claim(s, id), stuck := s.stuck + {id}), d)
  }

  datatype Event =
    | Arrive(d: DeliveryId, ev: BillingEvent)
    | Step(d: DeliveryId, fails: bool)
    | Lose(d: DeliveryId)
    | Crash(d: DeliveryId)

  function Apply(s: State, e: Event): State {
    match e
    case Arrive(d, ev) => if d in s.deliveries then s else Goto(s, d, Claiming(ev))
    case Step(d, fails) => if d in s.deliveries then Advance(s, d, fails) else s
    case Lose(d) => if d in s.deliveries && s.deliveries[d].Claiming? then LoseReply(s, d) else s
    case Crash(d) => if d in s.deliveries then Vanish(s, d) else s
  }

  function Run(s: State, es: seq<Event>): State
    decreases |es|
  {
    if es == [] then s else Run(Apply(s, es[0]), es[1..])
  }

  // ----- the invariant -----

  /** The delivery holds the claim on `id`. */
  predicate Holds(dl: Delivery, id: EventId) {
    !dl.Claiming? && dl.ev.id == id
  }

  predicate HolderAt(s: State, d: DeliveryId, id: EventId) {
    d in s.deliveries && Holds(s.deliveries[d], id)
  }

  ghost predicate Held(s: State, id: EventId) {
    exists d :: HolderAt(s, d, id)
  }

  ghost predicate OneHolder(s: State, id: EventId) {
    forall d, e :: HolderAt(s, d, id) && HolderAt(s, e, id) ==> d == e
  }

  function CommitsOf(committed: seq<BillingEvent>, id: EventId): nat {
    if committed == [] then 0
    else CommitsOf(committed[..|committed| - 1], id) + if committed[|committed| - 1].id == id then 1 else 0
  }

  /** Of a holder, an end without raising and a stuck claim, at most one; the id is claimed
      exactly while one of them is there; and an effect is only committed by ending. */
  ghost predicate Inv(s: State, id: EventId) {
    && OneHolder(s, id)
    && (Held(s, id) ==> id in s.claimed && id !in s.finished && id !in s.stuck)
    && (id in s.claimed ==> Held(s, id) || id in s.finished || id in s.stuck)
    && (id in s.finished || id in s.stuck ==> id in s.claimed)
    && !(id in s.finished && id in s.stuck)
    && CommitsOf(s.committed, id) <= if id in s.finished then 1 else 0
  }

  /** Only delivery `d` may differ between the two states. */
  predicate OthersSame(s: State, s': State, d: DeliveryId) {
    s'.deliveries - {d} == s.deliveries - {d}
  }

  /** Under OneHolder, who else holds the id is decided by the one delivery that moved. */
  lemma HeldAfter(s: State, s': State, d: DeliveryId, id: EventId)
    requires OthersSame(s, s', d)
    ensures HolderAt(s', d, id) ==> Held(s', id)
    ensures HolderAt(s, d, id) && OneHolder(s, id) ==> (Held(s', id) <==> HolderAt(s', d, id))
    ensures !HolderAt(s, d, id) ==> (Held(s', id) <==> Held(s, id) || HolderAt(s', d, id))
    ensures OneHolder(s, id) && (HolderAt(s', d, id) ==> HolderAt(s, d, id) || !Held(s, id)) ==> OneHolder(s', id)
  {
    forall x | x != d ensures HolderAt(s', x, id) <==> HolderAt(s, x, id) {
      assert x in s'.deliveries <==> x in s'.deliveries - {d};
      assert x in s.deliveries <==> x in s.deliveries - {d};
      assert x in s'.deliveries ==> (s'.deliveries - {d})[x] == s'.deliveries[x];
      assert x in s.deliveries ==> (s.deliveries - {d})[x] == s.deliveries[x];
    }
    if Held(s', id) {
      var x :| HolderAt(s', x, id);
      assert x != d ==> HolderAt(s, x, id);
    }
    if Held(s, id) {
      var x :| HolderAt(s, x, id);
      assert x != d ==> HolderAt(s', x, id);
    }
  }

  lemma CommitsExtend(committed: seq<BillingEvent>, ev: BillingEvent, id: EventId)
    ensures CommitsOf(committed + [ev], id) == CommitsOf(committed, id) + if ev.id == id then 1 else 0
  {
    assert (committed + [ev])[..|committed|] == committed;
  }

  lemma OtherAdvanceTouchesNothing(s: State, d: DeliveryId, fails: bool, id: EventId)
    requires id != "" && d in s.deliveries && s.deliveries[d].ev.id != id
    ensures var s' := Advance(s, d, fails);
            && (id in s'.claimed <==> id in s.claimed)
            && (id in s'.finished <==> id in s.finished)
            && (id in s'.stuck <==> id in s.stuck)
            && CommitsOf(s'.committed, id) == CommitsOf(s.committed, id)
            && OthersSame(s, s', d) && !HolderAt(s', d, id)
  {
    CommitsExtend(s.committed, s.deliveries[d].ev, id);
  }

  /** A step of a delivery of another event. */
  lemma OtherAdvanceKeeps(s: State, d: DeliveryId, fails: bool, id: EventId)
    requires id != "" && Inv(s, id) && d in s.deliveries && s.deliveries[d].ev.id != id
    ensures Inv(Advance(s, d, fails), id)
  {
    OtherAdvanceTouchesNothing(s, d, fails, id);
    HeldAfter(s, Advance(s, d, fails), d, id);
  }

  /** A delivery of `id` that tries to claim it. */
  lemma ClaimKeeps(s: State, d: DeliveryId, fails: bool, id: EventId)
    requires id != "" && Inv(s, id) && d in s.deliveries && s.deliveries[d].Claiming? && s.deliveries[d].ev.id == id
    ensures Inv(Advance(s, d, fails), id)
  {
    var s' := Advance(s, d, fails);
    assert OthersSame(s, s', d);
    HeldAfter(s, s', d, id);
  }

  /** A step of the holder. */
  lemma HolderAdvanceKeeps(s: State, d: DeliveryId, fails: bool, id: EventId)
    requires id != "" && Inv(s, id) && HolderAt(s, d, id)
    ensures Inv(Advance(s, d, fails), id)
  {
    var s' := Advance(s, d, fails);
    assert Held(s, id);
    assert OthersSame(s, s', d);
    HeldAfter(s, s', d, id);
    CommitsExtend(s.committed, s.deliveries[d].ev, id);
  }

  lemma AdvanceKeeps(s: State, d: DeliveryId, fails: bool, id: EventId)
    requires id != "" && Inv(s, id) && d in s.deliveries
    ensures Inv(Advance(s, d, fails), id)
  {
    if s.deliveries[d].ev.id != id { OtherAdvanceKeeps(s, d, fails, id); }
    else if s.deliveries[d].Claiming? { ClaimKeeps(s, d, fails, id); }
    else { HolderAdvanceKeeps(s, d, fails, id); }
  }

  lemma VanishKeeps(s: State, d: DeliveryId, id: EventId)
    requires id != "" && Inv(s, id) && d in s.deliveries
    ensures Inv(Vanish(s, d), id)
  {
    assert OthersSame(s, Vanish(s, d), d);
    HeldAfter(s, Vanish(s, d), d, id);
    if Holds(s.deliveries[d], id) {
      assert Held(s, id);
    }
  }

  lemma LostReplyKeeps(s: State, d: DeliveryId, id: EventId)
    requires id != "" && Inv(s, id) && d in s.deliveries && s.deliveries[d].Claiming?
    ensures Inv(LoseReply(s, d), id)
  {
    var s' := LoseReply(s, d);
    assert OthersSame(s, s', d);
    HeldAfter(s, s', d, id);
  }

  lemma {:induction false} RunKeeps(s: State, es: seq<Event>, id: EventId)
    requires id != "" && Inv(s, id)
    ensures Inv(Run(s, es), id)
    decreases |es|
  {
    if es != [] {
      var s' := Apply(s, es[0]);
      match es[0] {
        case Arrive(d, ev) =>
          if d !in s.deliveries {
            assert OthersSame(s, s', d);
            HeldAfter(s, s', d, id);
          }
        case Step(d, fails) => if d in s.deliveries { AdvanceKeeps(s, d, fails, id); }
        case Lose(d) => if d in s.deliveries && s.deliveries[d].Claiming? { LostReplyKeeps(s, d, id); }
        case Crash(d) => if d in s.deliveries { VanishKeeps(s, d, id); }
      }
      RunKeeps(s', es[1..], id);
    }
  }

  // ----- what every interleaving guarantees -----

  /** However deliveries of whatever events interleave, fail and crash, an event's effect is
      committed at most once. */
  lemma EffectCommitsAtMostOnce(statuses: map<SubscriptionId, string>, es: seq<Event>, id: EventId)
    requires id != ""
    ensures CommitsOf(Run(Init(statuses), es).committed, id) <= 1
  {
    RunKeeps(Init(statuses), es, id);
  }

  /** With no delivery of `id` in flight, it is claimed exactly when an application of it ended
      without raising, or its claim could not be released; and never both. */
  lemma ClaimedWhenFinished(statuses: map<SubscriptionId, string>, es: seq<Event>, id: EventId)
    requires id != "" && !Held(Run(Init(statuses), es), id)
    ensures var s := Run(Init(statuses), es);
            && (id in s.claimed <==> id in s.finished || id in s.stuck)
            && !(id in s.finished && id in s.stuck)
  {
    RunKeeps(Init(statuses), es, id);
  }

  /** After failures only, a redelivery that runs through commits the effect, once. */
  lemma RedeliveryApplies(statuses: map<SubscriptionId, string>, es: seq<Event>, ev: BillingEvent, d: DeliveryId)
    requires ev.id != "" && d !in Run(Init(statuses), es).deliveries && !Held(Run(Init(statuses), es), ev.id)
    requires ev.id !in Run(Init(statuses), es).finished && ev.id !in Run(Init(statuses), es).stuck
    requires ev.subscription != "" && ev.subscription in Run(Init(statuses), es).statuses
    requires ev.status in {"trialing", "active", "past_due", "canceled"}
    requires Run(Init(statuses), es).statuses[ev.subscription] != ev.status
    ensures var s := Run(Init(statuses), es);
            var s' := Run(s, [Arrive(d, ev), Step(d, false), Step(d, false), Step(d, false)]);
            && s'.statuses == s.statuses[ev.subscription := ev.status]
            && s'.deliveries == s.deliveries && s'.claimed == s.claimed + {ev.id}
            && CommitsOf(s.committed, ev.id) == 0 && CommitsOf(s'.committed, ev.id) == 1
  {
    RunKeeps(Init(statuses), es, ev.id);
    UndisturbedDeliveryCommits(Run(Init(statuses), es), ev, d);
  }

  lemma UndisturbedDeliveryCommits(s: State, ev: BillingEvent, d: DeliveryId)
    requires ev.id != "" && d !in s.deliveries && ev.id !in s.claimed && Changes(s.statuses, ev)
    ensures var s' := Run(s, [Arrive(d, ev), Step(d, false), Step(d, false), Step(d, false)]);
            && s'.statuses == s.statuses[ev.subscription := ev.status]
            && s'.deliveries == s.deliveries && s'.claimed == s.claimed + {ev.id}
            && CommitsOf(s'.committed, ev.id) == CommitsOf(s.committed, ev.id) + 1
  {
    var step := Step(d, false);
    var s1 := Apply(s, Arrive(d, ev));
    var s2 := Apply(s1, step);
    var s3 := Apply(s2, step);
    RunFour(s, Arrive(d, ev), step, step, step);
    CommitsExtend(s.committed, ev, ev.id);
    assert Apply(s3, step).deliveries == s.deliveries;
  }

  /** A delivery of an event nobody claimed, whose claim, application or commit fails: once the claim
      is released everything is as if it had not come. */
  lemma FailuresLeaveNoTrace(s: State, ev: BillingEvent, d: DeliveryId)
    requires d !in s.deliveries && (ev.id == "" || ev.id !in s.claimed) && "" !in s.claimed
    ensures Run(s, [Arrive(d, ev), Step(d, true)]) == s
    ensures Run(s, [Arrive(d, ev), Step(d, false), Step(d, true), Step(d, false)]) == s
    ensures Changes(s.statuses, ev) ==>
              Run(s, [Arrive(d, ev), Step(d, false), Step(d, false), Step(d, true), Step(d, false)]) == s
  {
    var arrive, ok, fails := Arrive(d, ev), Step(d, false), Step(d, true);
    var s1 := Apply(s, arrive);
    RunTwo(s, arrive, fails);
    assert Apply(s1, fails).deliveries == s.deliveries;
    var s2 := Apply(s1, ok);
    assert (s.claimed + {ev.id}) - {ev.id} == s.claimed;
    RunFour(s, arrive, ok, fails, ok);
    assert Apply(Apply(s2, fails), ok).deliveries == s.deliveries;
    assert Apply(Apply(s2, fails), ok).claimed == s.claimed;
    if Changes(s.statuses, ev) {
      RunFirst(s, arrive, [ok, ok, fails, ok]);
      assert [arrive] + [ok, ok, fails, ok] == [arrive, ok, ok, fails, ok];
      RunFour(s1, ok, ok, fails, ok);
      assert Apply(Apply(Apply(s2, ok), fails), ok).deliveries == s.deliveries;
      assert Apply(Apply(Apply(s2, ok), fails), ok).claimed == s.claimed;
    }
  }

  /** The condition on empty ids holds in every state there is. */
  lemma {:induction false} EmptyIdsAreNeverClaimed(s: State, es: seq<Event>)
    requires "" !in s.claimed
    ensures "" !in Run(s, es).claimed
    decreases |es|
  {
    if es != [] {
      EmptyIdsAreNeverClaimed(Apply(s, es[0]), es[1..]);
    }
  }

  /** A duplicate changes nothing; an event with nothing to commit is only remembered. */
  lemma DuplicatesAndIdleEvents(s: State, ev: BillingEvent, d: DeliveryId)
    requires d !in s.deliveries && ev.id != ""
    ensures ev.id in s.claimed ==> Run(s, [Arrive(d, ev), Step(d, false)]) == s
    ensures ev.id !in s.claimed && !Changes(s.statuses, ev) ==>
              Run(s, [Arrive(d, ev), Step(d, false), Step(d, false)])
              == s.(claimed := s.claimed + {ev.id}, finished := s.finished + {ev.id})
  {
    var arrive, ok := Arrive(d, ev), Step(d, false);
    var s1 := Apply(s, arrive);
    RunTwo(s, arrive, ok);
    assert s1.deliveries - {d} == s.deliveries;
    RunFirst(s, arrive, [ok, ok]);
    assert [arrive] + [ok, ok] == [arrive, ok, ok];
    RunTwo(s1, ok, ok);
    assert ev.id !in s.claimed ==> Apply(s1, ok).deliveries - {d} == s.deliveries;
  }

  /** What leaves a claim behind that nobody will release: a release that fails, a process that dies
      holding the claim, and a claim whose reply is lost. */
  lemma WhatLeavesAClaimStuck(s: State, ev: BillingEvent, d: DeliveryId)
    requires d !in s.deliveries && ev.id != "" && ev.id !in s.claimed
    ensures var stuck := s.(claimed := s.claimed + {ev.id}, stuck := s.stuck + {ev.id});
            && Run(s, [Arrive(d, ev), Step(d, false), Step(d, true), Step(d, true)]) == stuck
            && Run(s, [Arrive(d, ev), Lose(d)]) == stuck
            && Run(Run(s, [Arrive(d, ev), Step(d, false)]), [Crash(d)]) == stuck
  {
    var arrive, ok, fails := Arrive(d, ev), Step(d, false), Step(d, true);
    var s1 := Apply(s, arrive);
    assert s1.deliveries - {d} == s.deliveries;
    RunFour(s, arrive, ok, fails, fails);
    assert Apply(Apply(Apply(s1, ok), fails), fails).deliveries == s.deliveries;
    RunTwo(s, arrive, Lose(d));
    RunTwo(s, arrive, ok);
    RunFirst(Apply(s1, ok), Crash(d), []);
    assert [Crash(d)] + [] == [Crash(d)];
    assert Apply(Apply(s1, ok), Crash(d)).deliveries == s.deliveries;
  }

  lemma RunTwo(s: State, a: Event, b: Event)
    ensures Run(s, [a, b]) == Apply(Apply(s, a), b)
  {
    RunFirst(s, a, [b]);
    RunFirst(Apply(s, a), b, []);
    assert [a] + [b] == [a, b] && [b] + [] == [b];
  }

  lemma RunFour(s: State, a: Event, b: Event, c: Event, d: Event)
    ensures Run(s, [a, b, c, d]) == Apply(Apply(Apply(Apply(s, a), b), c), d)
  {
    RunFirst(s, a, [b, c, d]);
    RunFirst(Apply(s, a), b, [c, d]);
    RunFirst(Apply(Apply(s, a), b), c, [d]);
    RunFirst(Apply(Apply(Apply(s, a), b), c), d, []);
    assert [a] + [b, c, d] == [a, b, c, d] && [b] + [c, d] == [b, c, d] && [c] + [d] == [c, d] && [d] + [] == [d];
  }

  lemma RunFirst(s: State, e: Event, es: seq<Event>)
    ensures Run(s, [e] + es) == Run(Apply(s, e), es)
  {
    assert ([e] + es)[1..] == es;
  }

  /** Every event that is committed, or about to be, names a subscription there is and one of the four
      lifecycle states. */
  ghost predicate Lawful(s: State) {
    && (forall k | 0 <= k < |s.committed| :: LawfulEvent(s, s.committed[k]))
    && (forall d <- s.deliveries :: s.deliveries[d].Committing? ==> LawfulEvent(s, s.deliveries[d].ev))
  }

  predicate LawfulEvent(s: State, ev: BillingEvent) {
    && ev.subscription != "" && ev.subscription in s.statuses
    && ev.status in {"trialing", "active", "past_due", "canceled"}
  }

  lemma ApplyKeepsLawful(s: State, e: Event)
    requires Lawful(s)
    ensures Lawful(Apply(s, e)) && Apply(s, e).statuses.Keys == s.statuses.Keys
  {
    var s' := Apply(s, e);
    if e.Step? && e.d in s.deliveries {
      var ev := s.deliveries[e.d].ev;
      forall k | 0 <= k < |s'.committed| ensures LawfulEvent(s', s'.committed[k]) {
        assert k < |s.committed| ==> s'.committed[k] == s.committed[k];
      }
    }
  }

  /** Over every interleaving, no event with another status, and none naming an unknown subscription, is
      ever committed, and no subscription appears or disappears. */
  lemma {:induction false} OnlyLawfulEventsCommit(s: State, es: seq<Event>)
    requires Lawful(s)
    ensures Lawful(Run(s, es)) && Run(s, es).statuses.Keys == s.statuses.Keys
    decreases |es|
  {
    if es != [] {
      ApplyKeepsLawful(s, es[0]);
      OnlyLawfulEventsCommit(Apply(s, es[0]), es[1..]);
    }
  }

  function Replay(statuses: map<SubscriptionId, string>, committed: seq<BillingEvent>): map<SubscriptionId, string> {
    if committed == [] then statuses
    else
      var last := committed[|committed| - 1];
      Replay(statuses, committed[..|committed| - 1])[last.subscription := last.status]
  }

  lemma OneEventCommits(s: State, e: Event) returns (news: seq<BillingEvent>)
    ensures Apply(s, e).committed == s.committed + news
    ensures if news == [] then Apply(s, e).statuses == s.statuses
            else |news| == 1 && Apply(s, e).statuses == s.statuses[news[0].subscription := news[0].status]
  {
    if e.Step? && e.d in s.deliveries && s.deliveries[e.d].Committing? && !e.fails {
      news := [s.deliveries[e.d].ev];
    } else {
      news := [];
    }
  }

  /** The subscriptions are what the committed events make of them, in commit order: nothing
      else moves a status. */
  lemma {:induction false} StatusesFollowCommits(s: State, es: seq<Event>)
    ensures s.committed <= Run(s, es).committed
    ensures Run(s, es).statuses == Replay(s.statuses, Run(s, es).committed[|s.committed|..])
    decreases |es|
  {
    if es == [] {
      assert s.committed[|s.committed|..] == [];
    } else {
      var s', r := Apply(s, es[0]), Run(s, es);
      var news := OneEventCommits(s, es[0]);
      StatusesFollowCommits(s', es[1..]);
      var rest := r.committed[|s'.committed|..];
      assert r.committed[|s.committed|..] == news + rest;
      if news == [] {
        assert news + rest == rest;
      } else {
        assert news == [news[0]];
        ReplayFirst(s.statuses, news[0], rest);
      }
    }
  }

  lemma {:induction false} ReplayFirst(statuses: map<SubscriptionId, string>, ev: BillingEvent, rest: seq<BillingEvent>)
    ensures Replay(statuses, [ev] + rest) == Replay(statuses[ev.subscription := ev.status], rest)
    decreases |rest|
  {
    if rest == [] {
      assert [ev] + rest == [ev];
      assert [ev][..0] == [];
    } else {
      var n := |rest| - 1;
      assert ([ev] + rest)[..n + 1] == [ev] + rest[..n];
      ReplayFirst(statuses, ev, rest[..n]);
    }
  }

  // ----- the endpoint -----

  datatype Reply = NoContent | ServerError

  class BillingEndpoint {
    var claimed: set<EventId>
    var statuses: map<SubscriptionId, string>
    var committed: seq<BillingEvent>

    /** `is_event_already_processed` */
    method AlreadyProcessed(id: EventId) returns (duplicate: bool)
      modifies this`claimed
      ensures duplicate <==> id != "" && id in old(claimed)
      ensures claimed == if id == "" then old(claimed) else old(claimed) + {id}
    {
      duplicate := id != "" && id in claimed;
      if id != "" {
        claimed := claimed + {id};
      }
    }

    /** `apply_billing_event`; `raises` says whether its commit, or anything before it, does. */
    method ApplyEvent(ev: BillingEvent, raises: bool) returns (raised: bool)
      modifies this`statuses, this`committed
      ensures raised == raises
      ensures raises || !Changes(old(statuses), ev) ==> statuses == old(statuses) && committed == old(committed)
      ensures !raises && Changes(old(statuses), ev) ==>
                statuses == old(statuses)[ev.subscription := ev.status] && committed == old(committed) + [ev]
      ensures committed != old(committed) <==>
                && !raises && ev.subscription != "" && ev.subscription in old(statuses)
                && ev.status in {"trialing", "active", "past_due", "canceled"}
                && old(statuses)[ev.subscription] != ev.status
    {
      raised := raises;
      if raises || !Changes(statuses, ev) {
        return;
      }
      statuses := statuses[ev.subscription := ev.status];
      committed := committed + [ev];
    }

    /** Steps 4 and 5 of the route, undisturbed: a duplicate changes nothing; a failed
        application leaves everything, the claim included, as it was and answers with an error. */
    method Deliver(ev: BillingEvent, raises: bool) returns (reply: Reply)
      modifies this
      ensures ev.id != "" && ev.id in old(claimed) ==>
                reply == NoContent && claimed == old(claimed)
                && statuses == old(statuses) && committed == old(committed)
      ensures !(ev.id != "" && ev.id in old(claimed)) ==>
                && (reply == ServerError <==> raises)
                && (raises ==> claimed == old(claimed) && statuses == old(statuses) && committed == old(committed))
                && (!raises ==>
                      && claimed == (if ev.id == "" then old(claimed) else old(claimed) + {ev.id})
                      && statuses == (if Changes(old(statuses), ev) then old(statuses)[ev.subscription := ev.status]
                                         else old(statuses))
                      && committed == (if Changes(old(statuses), ev) then old(committed) + [ev] else old(committed)))
    {
      var duplicate := AlreadyProcessed(ev.id);
      if duplicate {
        return NoContent;
      }
      var raised := ApplyEvent(ev, raises);
      if raised {
        if ev.id != "" {
          claimed := claimed - {ev.id};
        }
        return ServerError;
      }
      reply := NoContent;
    }
  }
}
