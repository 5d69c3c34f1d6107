/** The seed's billing baseline: plans and subscriptions under two uniqueness constraints, one
    live row per organization and one row per organization and plan whatever its status. */
module Subscriptions {
  import opened Options

  type Id = nat

  /** `grants` is the truth of the plan's `public_api` entitlement. */
  datatype Plan = Plan(code: string, grants: bool)
  datatype Subscription = Subscription(org: Id, plan: Id, status: string)

  /** `nextId` stands for uuid4: every id below it may be in use, none from it on is. */
  datatype Db = Db(plans: map<Id, Plan>, subs: map<Id, Subscription>, nextId: Id)

  const CANCELED := "canceled"
  const ACME: Id := 1
  const TECHFLOW: Id := 2
  const ACME_PLAN := "growth"
  const TECHFLOW_PLAN := "free"

  predicate Live(s: Subscription) {
    s.status != CANCELED
  }

  /** uq_subscription_one_live_per_org */
  ghost predicate OneLivePerOrg(subs: map<Id, Subscription>) {
    forall i, j :: i in subs && j in subs && i != j && Live(subs[i]) && Live(subs[j]) ==> subs[i].org != subs[j].org
  }

  /** uq_subscription_org_plan: no status filter */
  ghost predicate OneRowPerOrgPlan(subs: map<Id, Subscription>) {
    forall i, j :: i in subs && j in subs && i != j && subs[i].org == subs[j].org ==> subs[i].plan != subs[j].plan
  }

  ghost predicate Valid(db: Db) {
    && OneLivePerOrg(db.subs) && OneRowPerOrgPlan(db.subs)
    && (forall p, q :: p in db.plans && q in db.plans && p != q ==> db.plans[p].code != db.plans[q].code)
    && (forall i :: i in db.subs ==> db.subs[i].plan in db.plans && i < db.nextId)
    && (forall p :: p in db.plans ==> p < db.nextId)
  }

  /** `select(Plan).where(code == ...).scalar_one_or_none()` */
  function PlanByCode(db: Db, code: string): (r: Option<Id>)
    requires Valid(db)
    ensures r.None? <==> forall p :: p in db.plans ==> db.plans[p].code != code
    ensures r.Some? ==> r.value in db.plans && db.plans[r.value].code == code
  {
    if exists p | p in db.plans :: db.plans[p].code == code
    then
      var p :| p in db.plans && db.plans[p].code == code;
      Some(p)
    else None
  }

  /** The organization's live row. */
  function LiveRow(db: Db, org: Id): (r: Option<Id>)
    requires Valid(db)
    ensures r.None? <==> forall i :: i in db.subs && db.subs[i].org == org ==> !Live(db.subs[i])
    ensures r.Some? ==> r.value in db.subs && db.subs[r.value].org == org && Live(db.subs[r.value])
  {
    if exists i | i in db.subs :: db.subs[i].org == org && Live(db.subs[i])
    then
      var i :| i in db.subs && db.subs[i].org == org && Live(db.subs[i]);
      Some(i)
    else None
  }

  /** Whether the organization's live plan grants the feature. */
  predicate Entitled(db: Db, org: Id)
    requires Valid(db)
  {
    var live := LiveRow(db, org);
    live.Some? && db.plans[db.subs[live.value].plan].grants
  }

  /** One entry of ensure_plan_catalog: an existing plan keeps its edits. */
  function EnsurePlan(db: Db, spec: Plan): (r: Db)
    requires Valid(db)
    ensures Valid(r) && r.subs == db.subs
    ensures forall p :: p in db.plans ==> p in r.plans && r.plans[p] == db.plans[p]
  {
    if PlanByCode(db, spec.code).Some? then db
    else db.(plans := db.plans[db.nextId := spec], nextId := db.nextId + 1)
  }

  function EnsurePlans(db: Db, specs: seq<Plan>): (r: Db)
    requires Valid(db)
    ensures Valid(r) && r.subs == db.subs
    ensures forall p :: p in db.plans ==> p in r.plans && r.plans[p] == db.plans[p]
    decreases |specs|
  {
    if specs == [] then db
    else EnsurePlan(EnsurePlans(db, specs[..|specs| - 1]), specs[|specs| - 1])
  }

  /** DEFAULT_PLAN_CATALOG */
  function Catalog(): seq<Plan> {
    [Plan("free", false), Plan("growth", true), Plan("scale", true)]
  }

  function EnsureCatalog(db: Db): (r: Db)
    requires Valid(db)
    ensures Valid(r) && r.subs == db.subs
    ensures forall p :: p in db.plans ==> p in r.plans && r.plans[p] == db.plans[p]
  {
    EnsurePlans(db, Catalog())
  }

  /** clear_stale_canceled_subscription */
  function ClearStale(db: Db, org: Id, plan: Id): (r: Db)
    requires Valid(db)
    ensures Valid(r)
  {
    db.(subs := map i | i in db.subs && !(db.subs[i].org == org && db.subs[i].plan == plan && !Live(db.subs[i]))
               :: db.subs[i])
  }

  /** ensure_subscription */
  function EnsureSubscription(db: Db, org: Id, code: string): (r: Db)
    requires Valid(db)
    ensures Valid(r)
  {
    var plan := PlanByCode(db, code);
    if LiveRow(db, org).Some? || plan.None? then db
    else
      var cleared := ClearStale(db, org, plan.value);
      cleared.(subs := cleared.subs[db.nextId := Subscription(org, plan.value, "active")], nextId := db.nextId + 1)
  }

  /** Whether ensure_public_api_entitled moves the live row. */
  predicate Moves(db: Db, org: Id, code: string)
    requires Valid(db)
  {
    var live, target := LiveRow(db, org), PlanByCode(db, code);
    live.Some? && !Entitled(db, org) && target.Some? && target.value != db.subs[live.value].plan
  }

  /** ensure_public_api_entitled */
  function EnsureEntitled(db: Db, org: Id, code: string): (r: Db)
    requires Valid(db)
    ensures Valid(r)
  {
    if LiveRow(db, org).None? then EnsureSubscription(db, org, code)
    else if !Moves(db, org, code) then db
    else
      var live, target := LiveRow(db, org).value, PlanByCode(db, code).value;
      var cleared := ClearStale(db, org, target);
      cleared.(subs := cleared.subs[live := cleared.subs[live].(plan := target)])
  }

  /** ensure_demo_billing_baseline */
  function Baseline(db: Db): (r: Db)
    requires Valid(db)
    ensures Valid(r)
  {
    var db := EnsureCatalog(db);
    var db := EnsureSubscription(db, ACME, ACME_PLAN);
    var db := EnsureSubscription(db, TECHFLOW, TECHFLOW_PLAN);
    EnsureEntitled(db, ACME, ACME_PLAN)
  }

  // ----- the statements, each of which the database may refuse -----

  class ControlPlane {
    var plans: map<Id, Plan>
    var subs: map<Id, Subscription>
    var nextId: Id

    function View(): Db
      reads this
    {
      Db(plans, subs, nextId)
    }

    /** INSERT INTO plans; the database refuses a code that is taken. */
    method InsertPlan(plan: Plan)
      requires Valid(View()) && PlanByCode(View(), plan.code).None?
      modifies this
      ensures Valid(View())
      ensures View() == old(View()).(plans := old(plans)[old(nextId) := plan], nextId := old(nextId) + 1)
    {
      plans := plans[nextId := plan];
      nextId := nextId + 1;
    }

    /** INSERT INTO subscriptions; the database refuses a second live row and a taken slot. */
    method InsertSubscription(sub: Subscription)
      requires Valid(View()) && sub.plan in plans
      requires Live(sub) ==> LiveRow(View(), sub.org).None?
      requires forall i :: i in subs && subs[i].org == sub.org ==> subs[i].plan != sub.plan
      modifies this
      ensures Valid(View())
      ensures View() == old(View()).(subs := old(subs)[old(nextId) := sub], nextId := old(nextId) + 1)
    {
      subs := subs[nextId := sub];
      nextId := nextId + 1;
    }

    /** UPDATE subscriptions SET plan_id; the database refuses a taken slot. */
    method Repoint(id: Id, plan: Id)
      requires Valid(View()) && id in subs && plan in plans
      requires forall i :: i in subs && i != id && subs[i].org == subs[id].org ==> subs[i].plan != plan
      modifies this`subs
      ensures Valid(View())
      ensures subs == old(subs)[id := old(subs)[id].(plan := plan)]
    {
      subs := subs[id := subs[id].(plan := plan)];
    }

    method ClearStaleCanceledSubscription(org: Id, plan: Id)
      requires Valid(View())
      modifies this`subs
      ensures Valid(View()) && View() == ClearStale(old(View()), org, plan)
      ensures subs == map i | i in old(subs) && old(subs)[i] != Subscription(org, plan, "canceled") :: old(subs)[i]
    {
      subs := map i | i in subs && !(subs[i].org == org && subs[i].plan == plan && !Live(subs[i])) :: subs[i];
    }

    method EnsurePlanCatalog()
      requires Valid(View())
      modifies this
      ensures Valid(View()) && View() == EnsureCatalog(old(View()))
    {
      var catalog := Catalog();
      for i := 0 to |catalog|
        invariant Valid(View()) && Valid(old(View()))
        invariant View() == EnsurePlans(old(View()), catalog[..i])
      {
        assert catalog[..i + 1][..i] == catalog[..i];
        if PlanByCode(View(), catalog[i].code).None? {
          InsertPlan(catalog[i]);
        }
      }
      assert catalog[..|catalog|] == catalog;
    }

    method EnsureLiveSubscription(org: Id, code: string)
      requires Valid(View())
      modifies this
      ensures Valid(View()) && View() == EnsureSubscription(old(View()), org, code)
    {
      if LiveRow(View(), org).Some? {
        return;
      }
      var plan := PlanByCode(View(), code);
      if plan.None? {
        return;
      }
      ClearStaleCanceledSubscription(org, plan.value);
      InsertSubscription(Subscription(org, plan.value, "active"));
    }

    method EnsurePublicApiEntitled(org: Id, code: string) returns (moved: bool)
      requires Valid(View())
      modifies this
      ensures moved == Moves(old(View()), org, code)
      ensures Valid(View()) && View() == EnsureEntitled(old(View()), org, code)
    {
      var live := LiveRow(View(), org);
      if live.None? {
        EnsureLiveSubscription(org, code);
        return false;
      }
      if plans[subs[live.value].plan].grants {
        return false;
      }
      var target := PlanByCode(View(), code);
      if target.None? || target.value == subs[live.value].plan {
        return false;
      }
      ClearStaleCanceledSubscription(org, target.value);
      Repoint(live.value, target.value);
      moved := true;
    }

    method EnsureDemoBillingBaseline()
      requires Valid(View())
      modifies this
      ensures Valid(View()) && View() == Baseline(old(View()))
    {
      EnsurePlanCatalog();
      EnsureLiveSubscription(ACME, ACME_PLAN);
      EnsureLiveSubscription(TECHFLOW, TECHFLOW_PLAN);
      var _ := EnsurePublicApiEntitled(ACME, ACME_PLAN);
    }
  }

  // ----- what a run of the baseline does -----

  lemma {:induction false} CatalogHolds(db: Db, specs: seq<Plan>, spec: Plan)
    requires Valid(db) && spec in specs
    ensures PlanByCode(EnsurePlans(db, specs), spec.code).Some?
    decreases |specs|
  {
    var n := |specs| - 1;
    var mid := EnsurePlans(db, specs[..n]);
    if spec == specs[n] {
      if PlanByCode(mid, spec.code).None? {
        assert EnsurePlan(mid, spec).plans[mid.nextId].code == spec.code;
      }
    } else {
      assert spec in specs[..n];
      CatalogHolds(db, specs[..n], spec);
      var p := PlanByCode(mid, spec.code).value;
      assert p in EnsurePlans(db, specs).plans && EnsurePlans(db, specs).plans[p].code == spec.code;
    }
  }

  /** The plans an operator had stay as they were; those added are catalogue entries whose code nobody
      had, each under an id nobody had. */
  lemma {:induction false} OnlyMissingPlansAreAdded(db: Db, specs: seq<Plan>)
    requires Valid(db)
    ensures var r := EnsurePlans(db, specs);
            && r.nextId >= db.nextId
            && (forall p :: p in db.plans ==> p in r.plans && r.plans[p] == db.plans[p])
            && (forall p :: p in r.plans && p !in db.plans ==>
                  && db.nextId <= p < r.nextId && r.plans[p] in specs
                  && PlanByCode(db, r.plans[p].code).None?)
    decreases |specs|
  {
    if specs != [] {
      OnlyMissingPlansAreAdded(db, specs[..|specs| - 1]);
    }
  }

  /** After ensure_plan_catalog there is a plan for each of the three codes; one that was not there grants
      the feature exactly when it is a paid one. */
  lemma CatalogEffect(db: Db)
    requires Valid(db)
    ensures var r := EnsureCatalog(db);
            && r.subs == db.subs
            && (forall code :: code in {"free", "growth", "scale"} ==> PlanByCode(r, code).Some?)
            && (forall p :: p in db.plans ==> p in r.plans && r.plans[p] == db.plans[p])
            && (forall p :: p in r.plans && p !in db.plans ==>
                  && r.plans[p] in {Plan("free", false), Plan("growth", true), Plan("scale", true)}
                  && forall q :: q in db.plans ==> db.plans[q].code != r.plans[p].code)
  {
    OnlyMissingPlansAreAdded(db, Catalog());
    CatalogHolds(db, Catalog(), Plan("free", false));
    CatalogHolds(db, Catalog(), Plan("growth", true));
    CatalogHolds(db, Catalog(), Plan("scale", true));
  }

  /** A plan's row is found by its code and no other. */
  lemma PlanIsUnique(db: Db, code: string, p: Id)
    requires Valid(db) && p in db.plans && db.plans[p].code == code
    ensures PlanByCode(db, code) == Some(p)
  {
  }

  lemma LiveRowIsUnique(db: Db, org: Id, i: Id)
    requires Valid(db) && i in db.subs && db.subs[i].org == org && Live(db.subs[i])
    ensures LiveRow(db, org) == Some(i)
  {
  }

  /** The rows of `org` on `plan` that are canceled go; every other row stays as it was, but for `id`. */
  ghost predicate ClearedBut(a: Db, b: Db, org: Id, plan: Id, id: Id) {
    forall i | i != id ::
      && (i in b.subs <==> i in a.subs && a.subs[i] != Subscription(org, plan, "canceled"))
      && (i in b.subs ==> b.subs[i] == a.subs[i])
  }

  /** ensure_subscription gives an active row on the plan to an organization without a live one, in place
      of a canceled row on that plan, and leaves every other row alone; without the plan it does nothing. */
  lemma EnsureSubscriptionEffect(db: Db, org: Id, code: string)
    requires Valid(db)
    ensures var r := EnsureSubscription(db, org, code);
            && r.plans == db.plans
            && (LiveRow(db, org).Some? || PlanByCode(db, code).None? ==> r == db)
            && (LiveRow(db, org).None? && PlanByCode(db, code).Some? ==>
                  var plan := PlanByCode(db, code).value;
                  && LiveRow(r, org) == Some(db.nextId)
                  && r.subs[db.nextId] == Subscription(org, plan, "active")
                  && ClearedBut(db, r, org, plan, db.nextId))
            && SameRowsBut(db, r, org)
  {
    if LiveRow(db, org).None? && PlanByCode(db, code).Some? {
      var r := EnsureSubscription(db, org, code);
      LiveRowIsUnique(r, org, db.nextId);
    }
  }

  /** No organization but `org` has a row added, removed or changed. */
  ghost predicate SameRowsBut(a: Db, b: Db, org: Id) {
    && (forall i :: i in a.subs && a.subs[i].org != org ==> i in b.subs && b.subs[i] == a.subs[i])
    && (forall i :: i in b.subs && b.subs[i].org != org ==> i in a.subs && a.subs[i] == b.subs[i])
  }

  lemma OthersKeepTheirLiveRow(a: Db, b: Db, org: Id, other: Id)
    requires Valid(a) && Valid(b) && SameRowsBut(a, b, org) && other != org
    ensures LiveRow(b, other) == LiveRow(a, other)
    ensures LiveRow(a, other).Some? ==> b.subs[LiveRow(a, other).value] == a.subs[LiveRow(a, other).value]
  {
    if LiveRow(a, other).Some? {
      LiveRowIsUnique(b, other, LiveRow(a, other).value);
    } else if LiveRow(b, other).Some? {
      LiveRowIsUnique(a, other, LiveRow(b, other).value);
    }
  }

  /** The repair moves the live row in place, to the target plan, exactly when its plan does not
      grant the feature and the target is another plan; it adds no row, and removes a canceled one in
      its way. An organization without a live row is given one instead. */
  lemma EnsureEntitledEffect(db: Db, org: Id, code: string)
    requires Valid(db) && LiveRow(db, org).Some?
    ensures var live, target := LiveRow(db, org).value, PlanByCode(db, code);
            && (Moves(db, org, code) <==>
                  && !db.plans[db.subs[live].plan].grants
                  && target.Some? && target.value != db.subs[live].plan)
            && (Moves(db, org, code) ==> ClearedBut(db, EnsureEntitled(db, org, code), org, target.value, live))
    ensures var r, live := EnsureEntitled(db, org, code), LiveRow(db, org).value;
            && r.plans == db.plans && r.nextId == db.nextId && r.subs.Keys <= db.subs.Keys
            && LiveRow(r, org) == Some(live)
            && r.subs[live] == db.subs[live].(plan := if Moves(db, org, code) then PlanByCode(db, code).value
                                        else db.subs[live].plan)
            && (!Moves(db, org, code) ==> r == db)
            && SameRowsBut(db, r, org)
  {
    var r, live := EnsureEntitled(db, org, code), LiveRow(db, org).value;
    LiveRowIsUnique(r, org, live);
  }

  lemma WithoutALiveRowOneIsGiven(db: Db, org: Id, code: string)
    requires Valid(db) && LiveRow(db, org).None?
    ensures !Moves(db, org, code) && EnsureEntitled(db, org, code) == EnsureSubscription(db, org, code)
  {
  }

  /** What `Live` and `Entitled` mean: one row of the organization that is not canceled, on a plan that
      grants the feature. */
  lemma EntitledByALiveRow(db: Db, org: Id)
    requires Valid(db)
    ensures Entitled(db, org) <==>
            exists i :: i in db.subs && db.subs[i].org == org && db.subs[i].status != "canceled"
                        && db.plans[db.subs[i].plan].grants
  {
    if i :| i in db.subs && db.subs[i].org == org && db.subs[i].status != "canceled"
            && db.plans[db.subs[i].plan].grants {
      LiveRowIsUnique(db, org, i);
    }
  }

  /** A second repair never moves the row again. */
  lemma EntitledIsIdempotent(db: Db, org: Id, code: string)
    requires Valid(db) && LiveRow(db, org).Some?
    ensures !Moves(EnsureEntitled(db, org, code), org, code)
  {
    EnsureEntitledEffect(db, org, code);
    var r := EnsureEntitled(db, org, code);
    if PlanByCode(db, code).Some? {
      PlanIsUnique(r, code, PlanByCode(db, code).value);
    } else {
      assert PlanByCode(r, code).None?;
    }
  }

  /** The state the repair of Acme starts from. */
  function Provisioned(db: Db): (r: Db)
    requires Valid(db)
    ensures Valid(r)
  {
    EnsureSubscription(EnsureSubscription(EnsureCatalog(db), ACME, ACME_PLAN), TECHFLOW, TECHFLOW_PLAN)
  }

  lemma CatalogKeepsLiveRows(db: Db, org: Id)
    requires Valid(db)
    ensures LiveRow(EnsureCatalog(db), org) == LiveRow(db, org)
  {
    if LiveRow(db, org).Some? {
      LiveRowIsUnique(EnsureCatalog(db), org, LiveRow(db, org).value);
    }
  }

  /** After provisioning, a live row of before is still the live row, unchanged; both demo
      organizations have one; a new one of Acme's is active and on the growth plan, one of Techflow's
      on the free plan; and no other organization has a row added, removed or changed. */
  lemma ProvisionedEffect(db: Db, org: Id)
    requires Valid(db)
    ensures var r := Provisioned(db);
            && (LiveRow(db, org).Some? ==>
                  LiveRow(r, org) == LiveRow(db, org)
                  && r.subs[LiveRow(db, org).value] == db.subs[LiveRow(db, org).value])
            && LiveRow(r, ACME).Some? && LiveRow(r, TECHFLOW).Some?
            && PlanByCode(r, ACME_PLAN).Some?
            && (LiveRow(db, ACME).None? ==>
                  && PlanByCode(r, "growth").Some?
                  && r.subs[LiveRow(r, ACME).value] == Subscription(ACME, PlanByCode(r, "growth").value, "active"))
            && (LiveRow(db, TECHFLOW).None? ==>
                  && PlanByCode(r, "free").Some?
                  && r.subs[LiveRow(r, TECHFLOW).value]
                     == Subscription(TECHFLOW, PlanByCode(r, "free").value, "active"))
            && (org != ACME && org != TECHFLOW ==> LiveRow(r, org) == LiveRow(db, org))
            && (forall p :: p in db.plans ==> p in r.plans && r.plans[p] == db.plans[p])
  {
    var db1 := EnsureCatalog(db);
    var db2 := EnsureSubscription(db1, ACME, ACME_PLAN);
    var r := EnsureSubscription(db2, TECHFLOW, TECHFLOW_PLAN);
    CatalogKeepsLiveRows(db, org);
    CatalogKeepsLiveRows(db, ACME);
    CatalogKeepsLiveRows(db, TECHFLOW);
    CatalogHolds(db, Catalog(), Plan(ACME_PLAN, true));
    CatalogHolds(db, Catalog(), Plan(TECHFLOW_PLAN, false));
    EnsureSubscriptionEffect(db1, ACME, ACME_PLAN);
    EnsureSubscriptionEffect(db2, TECHFLOW, TECHFLOW_PLAN);
    OthersKeepTheirLiveRow(db1, db2, ACME, TECHFLOW);
    OthersKeepTheirLiveRow(db2, r, TECHFLOW, ACME);
    PlanIsUnique(db2, ACME_PLAN, PlanByCode(db1, ACME_PLAN).value);
    PlanIsUnique(r, ACME_PLAN, PlanByCode(db1, ACME_PLAN).value);
    PlanIsUnique(db2, TECHFLOW_PLAN, PlanByCode(db1, TECHFLOW_PLAN).value);
    if org != ACME { OthersKeepTheirLiveRow(db1, db2, ACME, org); }
    if org != TECHFLOW { OthersKeepTheirLiveRow(db2, r, TECHFLOW, org); }
  }

  /** What the repair of Acme's row does to the entitlement. */
  lemma RepairEntitles(p: Db)
    requires Valid(p) && LiveRow(p, ACME).Some? && PlanByCode(p, ACME_PLAN).Some?
    ensures var r := EnsureEntitled(p, ACME, ACME_PLAN);
            && PlanByCode(r, ACME_PLAN) == PlanByCode(p, ACME_PLAN)
            && (Entitled(r, ACME) <==> Entitled(p, ACME) || p.plans[PlanByCode(p, ACME_PLAN).value].grants)
  {
    EnsureEntitledEffect(p, ACME, ACME_PLAN);
    PlanIsUnique(EnsureEntitled(p, ACME, ACME_PLAN), ACME_PLAN, PlanByCode(p, ACME_PLAN).value);
  }

  /** A live row is never replaced, and never moved but for Acme's when its plan does not grant
      the feature; afterwards Acme is entitled exactly when it was, or the growth plan grants. */
  lemma BaselineEffect(db: Db, org: Id)
    requires Valid(db)
    ensures var r := Baseline(db);
            && (LiveRow(db, org).Some? ==>
                  && LiveRow(r, org) == LiveRow(db, org)
                  && (org != ACME || Entitled(db, ACME)
                      ==> r.subs[LiveRow(db, org).value] == db.subs[LiveRow(db, org).value]))
            && LiveRow(r, ACME).Some? && LiveRow(r, TECHFLOW).Some? && PlanByCode(r, ACME_PLAN).Some?
            && (Entitled(r, ACME) <==> Entitled(db, ACME) || r.plans[PlanByCode(r, ACME_PLAN).value].grants)
  {
    var p := Provisioned(db);
    ProvisionedEffect(db, org);
    ProvisionedEffect(db, ACME);
    EnsureEntitledEffect(p, ACME, ACME_PLAN);
    RepairEntitles(p);
    var r := Baseline(db);
    assert r == EnsureEntitled(p, ACME, ACME_PLAN);
    OthersKeepTheirLiveRow(p, r, ACME, TECHFLOW);
    if org != ACME { OthersKeepTheirLiveRow(p, r, ACME, org); }
  }

  /** Provisioning adds, removes and changes no row but Acme's, and Techflow's when it has no live one. */
  lemma ProvisioningLeavesOthersAlone(db: Db, i: Id)
    requires Valid(db)
    ensures var r := Provisioned(db);
            && (i in db.subs && OutOfReach(db, db.subs[i].org) ==> i in r.subs && r.subs[i] == db.subs[i])
            && (i in r.subs && OutOfReach(db, r.subs[i].org) ==> i in db.subs && db.subs[i] == r.subs[i])
  {
    var db1 := EnsureCatalog(db);
    var db2 := EnsureSubscription(db1, ACME, ACME_PLAN);
    EnsureSubscriptionEffect(db1, ACME, ACME_PLAN);
    EnsureSubscriptionEffect(db2, TECHFLOW, TECHFLOW_PLAN);
    CatalogKeepsLiveRows(db, TECHFLOW);
    OthersKeepTheirLiveRow(db1, db2, ACME, TECHFLOW);
  }

  /** The organizations the baseline has nothing to do for. */
  predicate OutOfReach(db: Db, org: Id)
    requires Valid(db)
  {
    org != ACME && (org != TECHFLOW || LiveRow(db, TECHFLOW).Some?)
  }

  /** Organizations other than the two demo tenants are left alone, and so is Techflow when it
      already had a live row. */
  lemma BaselineLeavesOthersAlone(db: Db, i: Id)
    requires Valid(db)
    ensures var r := Baseline(db);
            && (i in db.subs && OutOfReach(db, db.subs[i].org) ==> i in r.subs && r.subs[i] == db.subs[i])
            && (i in r.subs && OutOfReach(db, r.subs[i].org) ==> i in db.subs && db.subs[i] == r.subs[i])
  {
    ProvisioningLeavesOthersAlone(db, i);
    ProvisionedEffect(db, ACME);
    EnsureEntitledEffect(Provisioned(db), ACME, ACME_PLAN);
  }

  lemma {:induction false} CatalogAgainIsNothing(db: Db, specs: seq<Plan>)
    requires Valid(db) && forall s :: s in specs ==> PlanByCode(db, s.code).Some?
    ensures EnsurePlans(db, specs) == db
    decreases |specs|
  {
    if specs != [] {
      CatalogAgainIsNothing(db, specs[..|specs| - 1]);
    }
  }

  /** Only the first step of the baseline touches plans. */
  lemma BaselinePlans(db: Db)
    requires Valid(db)
    ensures Baseline(db).plans == EnsureCatalog(db).plans
  {
    var db1 := EnsureCatalog(db);
    var db2 := EnsureSubscription(db1, ACME, ACME_PLAN);
    EnsureSubscriptionEffect(db1, ACME, ACME_PLAN);
    EnsureSubscriptionEffect(db2, TECHFLOW, TECHFLOW_PLAN);
    ProvisionedEffect(db, ACME);
    EnsureEntitledEffect(Provisioned(db), ACME, ACME_PLAN);
  }

  lemma CatalogSurvives(db: Db, r: Db, spec: Plan)
    requires Valid(db) && Valid(r) && r.plans == EnsureCatalog(db).plans && spec in Catalog()
    ensures PlanByCode(r, spec.code).Some?
  {
    CatalogHolds(db, Catalog(), spec);
    var q := PlanByCode(EnsureCatalog(db), spec.code).value;
    assert q in r.plans && r.plans[q].code == spec.code;
  }

  /** Provisioning finds nothing to do after a baseline. */
  lemma NothingToProvision(r: Db)
    requires Valid(r) && LiveRow(r, ACME).Some? && LiveRow(r, TECHFLOW).Some?
    requires forall s :: s in Catalog() ==> PlanByCode(r, s.code).Some?
    ensures Provisioned(r) == r
  {
    CatalogAgainIsNothing(r, Catalog());
    EnsureSubscriptionEffect(r, ACME, ACME_PLAN);
    EnsureSubscriptionEffect(r, TECHFLOW, TECHFLOW_PLAN);
  }

  /** Running the baseline again changes nothing. */
  lemma BaselineIsIdempotent(db: Db)
    requires Valid(db)
    ensures Baseline(Baseline(db)) == Baseline(db)
  {
    var p, r := Provisioned(db), Baseline(db);
    BaselineEffect(db, ACME);
    ProvisionedEffect(db, ACME);
    BaselinePlans(db);
    forall s | s in Catalog() ensures PlanByCode(r, s.code).Some? {
      CatalogSurvives(db, r, s);
    }
    NothingToProvision(r);
    EntitledIsIdempotent(p, ACME, ACME_PLAN);
    EnsureEntitledEffect(r, ACME, ACME_PLAN);
  }
}
