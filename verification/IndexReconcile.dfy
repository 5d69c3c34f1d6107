/** Migration 0093: building the indexes that fresh tenants lack, and converging two index names.
    A database is its tables, with their rows, and its index names. */
module IndexReconcile {
  import opened Options
  import opened Sql

  // ----- rows, unique indexes and counting queries -----

  /** A column that is NULL is absent. */
  type Row = map<string, string>
  type Key = seq<Option<string>>

  datatype Condition = NotNull(column: string) | Differs(column: string, value: string)

  function Evaluate(c: Condition, r: Row): Truth {
    match c
    case NotNull(column) => Known(column in r)
    case Differs(column, value) => if column in r then Known(r[column] != value) else Unknown
  }

  /** Rows under a WHERE clause, by some columns: a partial unique index, or a grouping query. */
  datatype Grouping = Grouping(columns: seq<string>, where: Condition) {
    predicate Covers(r: Row) {
      Evaluate(where, r) == True
    }

    function KeyOf(r: Row): Key {
      seq(|columns|, i requires 0 <= i < |columns| => if columns[i] in r then Some(r[columns[i]]) else None)
    }

    /** Two rows a query puts into one group: it takes NULL keys for equal. */
    predicate Grouped(a: Row, b: Row) {
      Covers(a) && Covers(b) && KeyOf(a) == KeyOf(b)
    }

    predicate Complete(r: Row) {
      forall column <- columns :: column in r
    }

    /** Two rows a unique index refuses: it takes NULL keys for different. */
    predicate Conflict(a: Row, b: Row) {
      Grouped(a, b) && Complete(a)
    }

    /** `CREATE UNIQUE INDEX` over these rows fails. */
    predicate BuildFails(rows: seq<Row>) {
      exists i, j | 0 <= i < j < |rows| :: Conflict(rows[i], rows[j])
    }

    function Group(rows: seq<Row>, key: Key): set<nat> {
      set i: nat | i < |rows| && Covers(rows[i]) && KeyOf(rows[i]) == key
    }

    /** `GROUP BY` the columns, `HAVING count(*) > 1`. */
    function DuplicateKeys(rows: seq<Row>): set<Key> {
      set i: nat | i < |rows| && Covers(rows[i]) && |Group(rows, KeyOf(rows[i]))| > 1 :: KeyOf(rows[i])
    }

    /** `SELECT count(*) FROM` those groups. */
    function CountDuplicates(rows: seq<Row>): nat {
      |DuplicateKeys(rows)|
    }
  }

  /** A WHERE clause lets a row through when its column is there and, if a value is excluded, is another. */
  predicate Admits(c: Condition, r: Row) {
    c.column in r && (c.Differs? ==> r[c.column] != c.value)
  }

  /** Two rows fall into one group exactly when the WHERE clause admits both and on each column they have
      the same value, or none; the unique index refuses them exactly when moreover no value is missing. */
  lemma WhichRowsConflict(g: Grouping, a: Row, b: Row)
    ensures g.Grouped(a, b) <==>
            && Admits(g.where, a) && Admits(g.where, b)
            && forall c <- g.columns :: (c in a <==> c in b) && (c in a ==> a[c] == b[c])
    ensures g.Conflict(a, b) <==>
            && Admits(g.where, a) && Admits(g.where, b)
            && forall c <- g.columns :: c in a && c in b && a[c] == b[c]
  {
    if g.KeyOf(a) == g.KeyOf(b) {
      forall c | c in g.columns ensures (c in a <==> c in b) && (c in a ==> a[c] == b[c]) {
        var i :| 0 <= i < |g.columns| && g.columns[i] == c;
        assert g.KeyOf(a)[i] == g.KeyOf(b)[i];
      }
    }
    if forall c <- g.columns :: (c in a <==> c in b) && (c in a ==> a[c] == b[c]) {
      assert g.KeyOf(a) == g.KeyOf(b);
    }
  }

  lemma TwoInGroup(g: Grouping, rows: seq<Row>, key: Key)
    ensures |g.Group(rows, key)| > 1 <==>
            exists i, j | 0 <= i < j < |rows| :: g.Grouped(rows[i], rows[j]) && g.KeyOf(rows[i]) == key
  {
    var group := g.Group(rows, key);
    if |group| > 1 {
      var i :| i in group;
      var rest := group - {i};
      assert |rest| == |group| - 1;
      var j :| j in rest;
      assert i < j || j < i;
      assert g.Grouped(rows[i], rows[j]) && g.Grouped(rows[j], rows[i]);
    }
    if i, j :| 0 <= i < j < |rows| && g.Grouped(rows[i], rows[j]) && g.KeyOf(rows[i]) == key {
      assert {i, j} <= group;
      SubsetIsNoLarger({i, j}, group);
    }
  }

  lemma SubsetIsNoLarger(a: set<nat>, b: set<nat>)
    requires a <= b
    ensures |a| <= |b|
  {
    assert b == a + (b - a);
  }

  /** The query counts something exactly when two rows fall into one group. */
  lemma CountsTheGrouped(g: Grouping, rows: seq<Row>)
    ensures g.CountDuplicates(rows) > 0 <==> exists i, j | 0 <= i < j < |rows| :: g.Grouped(rows[i], rows[j])
  {
    if g.CountDuplicates(rows) > 0 {
      var key :| key in g.DuplicateKeys(rows);
      TwoInGroup(g, rows, key);
    }
    if i, j :| 0 <= i < j < |rows| && g.Grouped(rows[i], rows[j]) {
      TwoInGroup(g, rows, g.KeyOf(rows[i]));
      assert g.KeyOf(rows[i]) in g.DuplicateKeys(rows);
    }
  }

  /** Two rows that only share a key with a NULL in it. */
  predicate NullKeysShared(g: Grouping, rows: seq<Row>) {
    exists i, j | 0 <= i < j < |rows| :: g.Grouped(rows[i], rows[j]) && !g.Complete(rows[i])
  }

  /** The query that groups by an index's columns under its predicate counts something exactly when
      the index cannot be built, or two rows share a key that holds a NULL. */
  lemma QueryCountsConflicts(g: Grouping, rows: seq<Row>)
    ensures g.CountDuplicates(rows) > 0 <==> g.BuildFails(rows) || NullKeysShared(g, rows)
  {
    CountsTheGrouped(g, rows);
    if i, j :| 0 <= i < j < |rows| && g.Grouped(rows[i], rows[j]) {
      assert g.Conflict(rows[i], rows[j]) || !g.Complete(rows[i]);
    }
  }

  // ----- statements -----

  /** `CREATE [UNIQUE] INDEX IF NOT EXISTS` on a table, and `DROP INDEX IF EXISTS`. */
  datatype Statement = Create(name: string, on: string, unique: Option<Grouping>) | Drop(name: string)

  datatype Gated = Gated(table: string, stmt: Statement)

  datatype Catalog = Catalog(tables: map<string, seq<Row>>, indexes: set<string>) {
    /** The index could not be built, were it missing. */
    predicate Impossible(s: Statement) {
      s.Create? && s.on in tables && s.unique.Some? && s.unique.value.BuildFails(tables[s.on])
    }

    predicate Fails(s: Statement) {
      s.Create? && (s.on !in tables || (s.name !in indexes && Impossible(s)))
    }

    function Perform(s: Statement): Catalog {
      match s
      case Create(name, _, _) => this.(indexes := indexes + {name})
      case Drop(name) => this.(indexes := indexes - {name})
    }
  }

  datatype Outcome = Outcome(catalog: Catalog, failed: bool)

  function Step(c: Catalog, g: Gated): Outcome {
    if g.table !in c.tables then Outcome(c, false)
    else if c.Fails(g.stmt) then Outcome(c, true)
    else Outcome(c.Perform(g.stmt), false)
  }

  /** A statement list, each statement gated on a fresh check of its table, up to the first that fails. */
  function RunAll(c: Catalog, ss: seq<Gated>): (o: Outcome)
    ensures o.catalog.tables == c.tables
  {
    if ss == [] then Outcome(c, false)
    else
      var o := RunAll(c, ss[..|ss| - 1]);
      if o.failed then o else Step(o.catalog, ss[|ss| - 1])
  }

  datatype Check = Check(table: string, query: Grouping)

  predicate Offends(c: Catalog, p: Check) {
    p.table in c.tables && p.query.CountDuplicates(c.tables[p.table]) != 0
  }

  /** The table named by the first offending check. */
  function FirstOffending(c: Catalog, checks: seq<Check>): Option<string> {
    if checks == [] then None
    else if Offends(c, checks[0]) then Some(checks[0].table)
    else FirstOffending(c, checks[1..])
  }

  // ----- the statement lists -----

  datatype Reconcile = Reconcile(table: string, up: Statement, down: Option<Statement>)

  const RUN_FORMAT := "uq_positive_pay_run_format"
  const ONE_LIVE := "uq_subscription_one_live_per_org"
  const BEARER := "ix_organizations_scim_bearer_hash"

  /** The three unique indexes, by name, with the columns and the predicate of their bodies. */
  function UniqueBody(name: string): Option<Grouping> {
    if name == RUN_FORMAT then Some(Grouping(["payment_run_id", "bank_format"], NotNull("payment_run_id")))
    else if name == ONE_LIVE then Some(Grouping(["organization_id"], Differs("status", "canceled")))
    else if name == BEARER then Some(Grouping(["scim_bearer_hash"], NotNull("scim_bearer_hash")))
    else None
  }

  /** Tables and index names of the indexes the revision ensures; each body is on that same table. */
  const ENSURED: seq<(string, string)> := [
    ("users", "ix_users_sso_lookup"),
    ("organizations", BEARER),
    ("subscriptions", ONE_LIVE),
    ("invoice_embeddings", "ix_invoice_embeddings_embedding_hnsw"),
    ("exceptions", "ix_exceptions_due_at"),
    ("payments", "ix_payments_corridor"),
    ("sanctions_checks", "ix_sanctions_checks_vendor_id"),
    ("sanctions_checks", "ix_sanctions_checks_result"),
    ("bank_transactions", "ix_bank_transactions_statement"),
    ("bank_transactions", "ix_bank_transactions_org_date"),
    ("scheduled_reports", "ix_scheduled_reports_due"),
    ("vendor_change_requests", "ix_vendor_change_requests_pending"),
    ("quality_inspections", "ix_quality_inspections_po_id"),
    ("quality_inspections", "ix_quality_inspections_gr_id"),
    ("vendors", "ix_vendors_screening_status"),
    ("vendors", "ix_vendors_last_screened_at"),
    ("vendors", "ix_vendors_payments_blocked"),
    ("positive_pay_files", RUN_FORMAT)
  ]

  /** What each preflight query groups by, and its WHERE. */
  const UNIQUE_PREFLIGHT: seq<Check> := [
    Check("positive_pay_files", Grouping(["payment_run_id", "bank_format"], NotNull("payment_run_id"))),
    Check("subscriptions", Grouping(["organization_id"], Differs("status", "canceled"))),
    Check("organizations", Grouping(["scim_bearer_hash"], NotNull("scim_bearer_hash")))
  ]

  const MATCHED := "ix_bank_transactions_matched_payment"
  const LONG_NAME := "ix_vendor_change_requests_organization_id"
  const SHORT_NAME := "ix_vendor_change_requests_org_id"

  const RECONCILE: seq<Reconcile> := [
    Reconcile("bank_transactions", Drop(MATCHED), Some(Create(MATCHED, "bank_transactions", None))),
    Reconcile("vendor_change_requests", Create(LONG_NAME, "vendor_change_requests", None),
              Some(Create(SHORT_NAME, "vendor_change_requests", None))),
    Reconcile("vendor_change_requests", Drop(SHORT_NAME), None)
  ]

  function Ensure(e: (string, string)): Gated {
    Gated(e.0, Create(e.1, e.0, UniqueBody(e.1)))
  }

  function Ups(ensured: seq<(string, string)>, rs: seq<Reconcile>): seq<Gated> {
    seq(|ensured|, k requires 0 <= k < |ensured| => Ensure(ensured[k]))
    + seq(|rs|, k requires 0 <= k < |rs| => Gated(rs[k].table, rs[k].up))
  }

  /** The downgrade statements there are, in reverse order. */
  function Downs(rs: seq<Reconcile>): seq<Gated> {
    if rs == [] then []
    else Downs(rs[1..]) + if rs[0].down.Some? then [Gated(rs[0].table, rs[0].down.value)] else []
  }

  const UPGRADE: seq<Gated> := Ups(ENSURED, RECONCILE)
  const DOWNGRADE: seq<Gated> := Downs(RECONCILE)

  // ----- the migration -----

  datatype Result = Upgraded | Refused(table: string) | BuildFailed

  class Database {
    const tables: map<string, seq<Row>>
    var indexes: set<string>

    function State(): Catalog
      reads this
    {
      Catalog(tables, indexes)
    }

    /** `op.execute`; `ok` is false when Postgres cannot build the index. */
    method Execute(s: Statement) returns (ok: bool)
      modifies this
      ensures ok == !old(State()).Fails(s)
      ensures State() == if ok then old(State()).Perform(s) else old(State())
    {
      match s
      case Create(name, on, unique) =>
        if on !in tables {
          return false;
        }
        if name !in indexes && unique.Some? {
          if unique.value.BuildFails(tables[on]) {
            return false;
          }
        }
        indexes := indexes + {name};
        ok := true;
      case Drop(name) =>
        indexes := indexes - {name};
        ok := true;
    }

    /** _run: remembers each table's check instead of asking again. */
    method Run(ss: seq<Gated>) returns (ok: bool)
      modifies this
      ensures Outcome(State(), !ok) == RunAll(old(State()), ss)
    {
      var seen: map<string, bool> := map[];
      for k := 0 to |ss|
        invariant forall t <- seen :: seen[t] == (t in tables)
        invariant Outcome(State(), false) == RunAll(old(State()), ss[..k])
      {
        var table := ss[k].table;
        if table !in seen {
          seen := seen[table := table in tables];
        }
        assert ss[..k + 1][..k] == ss[..k];
        if seen[table] {
          ok := Execute(ss[k].stmt);
          if !ok {
            FailureStops(old(State()), ss, k + 1);
            return;
          }
        }
      }
      assert ss[..|ss|] == ss;
      ok := true;
    }

    /** _preflight: counts the duplicate groups of each check whose table is there. */
    method Preflight(checks: seq<Check>) returns (refused: Option<string>)
      ensures refused == FirstOffending(State(), checks)
    {
      for k := 0 to |checks|
        invariant FirstOffending(State(), checks) == FirstOffending(State(), checks[k..])
      {
        if checks[k].table !in tables {
          continue;
        }
        var offending := checks[k].query.CountDuplicates(tables[checks[k].table]);
        if offending != 0 {
          return Some(checks[k].table);
        }
      }
      return None;
    }

    /** A database that passes the preflight never has an index build fail; one that does not is
        left as it was. */
    method Upgrade() returns (r: Result)
      modifies this
      ensures match FirstOffending(old(State()), UNIQUE_PREFLIGHT)
              case Some(table) => r == Refused(table) && indexes == old(indexes)
              case None => r == Upgraded && Outcome(State(), false) == RunAll(old(State()), UPGRADE)
    {
      var refused := Preflight(UNIQUE_PREFLIGHT);
      if refused.Some? {
        return Refused(refused.value);
      }
      PassedPreflightIsClear(State());
      ClearRunsSucceed(State(), UPGRADE);
      var ok := Run(UPGRADE);
      r := if ok then Upgraded else BuildFailed;
    }

    method Downgrade() returns (ok: bool)
      modifies this
      ensures ok && Outcome(State(), false) == RunAll(old(State()), DOWNGRADE)
    {
      DowngradeStatements();
      ClearRunsSucceed(State(), DOWNGRADE);
      ok := Run(DOWNGRADE);
    }
  }

  lemma {:induction false} FailureStops(c: Catalog, ss: seq<Gated>, k: nat)
    requires k <= |ss| && RunAll(c, ss[..k]).failed
    ensures RunAll(c, ss) == RunAll(c, ss[..k])
    decreases |ss| - k
  {
    if k < |ss| {
      assert ss[..k + 1][..k] == ss[..k];
      FailureStops(c, ss, k + 1);
    } else {
      assert ss[..k] == ss;
    }
  }

  // ----- what a statement list does -----

  predicate Names(tables: set<string>, g: Gated, name: string) {
    g.table in tables && g.stmt.name == name
  }

  ghost predicate Decided(tables: set<string>, ss: seq<Gated>, name: string) {
    exists k | 0 <= k < |ss| :: Names(tables, ss[k], name)
  }

  /** The last statement that names an index on a present table decides whether it is there. */
  lemma {:induction false} LastStatementDecides(c: Catalog, ss: seq<Gated>, name: string, k: nat)
    requires !RunAll(c, ss).failed
    requires k < |ss| && Names(c.tables.Keys, ss[k], name)
    requires forall j | k < j < |ss| :: !Names(c.tables.Keys, ss[j], name)
    ensures name in RunAll(c, ss).catalog.indexes <==> ss[k].stmt.Create?
    decreases |ss|
  {
    if k < |ss| - 1 {
      LastStatementDecides(c, ss[..|ss| - 1], name, k);
    }
  }

  /** An index that no statement names on a present table is left as it was. */
  lemma {:induction false} OtherIndexesStay(c: Catalog, ss: seq<Gated>, name: string)
    requires !Decided(c.tables.Keys, ss, name)
    ensures name in RunAll(c, ss).catalog.indexes <==> name in c.indexes
    decreases |ss|
  {
    if ss != [] {
      var init := ss[..|ss| - 1];
      assert !Names(c.tables.Keys, ss[|ss| - 1], name);
      assert forall k | 0 <= k < |init| :: init[k] == ss[k];
      OtherIndexesStay(c, init, name);
    }
  }

  lemma {:induction false} LastNaming(tables: set<string>, ss: seq<Gated>, name: string) returns (k: nat)
    requires Decided(tables, ss, name)
    ensures k < |ss| && Names(tables, ss[k], name)
    ensures forall j | k < j < |ss| :: !Names(tables, ss[j], name)
    decreases |ss|
  {
    var n := |ss| - 1;
    if Names(tables, ss[n], name) {
      k := n;
    } else {
      var j :| 0 <= j < |ss| && Names(tables, ss[j], name);
      assert ss[..n][j] == ss[j];
      k := LastNaming(tables, ss[..n], name);
    }
  }

  ghost predicate AgreeOutside(c: Catalog, d: Catalog, ss: seq<Gated>) {
    && c.tables.Keys == d.tables.Keys
    && forall name :: !Decided(c.tables.Keys, ss, name) ==> (name in c.indexes <==> name in d.indexes)
  }

  /** Two databases with the same tables, whatever their rows, that differ only in indexes the list
      names end with the same indexes. */
  lemma RunsConverge(c: Catalog, d: Catalog, ss: seq<Gated>)
    requires AgreeOutside(c, d, ss)
    requires !RunAll(c, ss).failed && !RunAll(d, ss).failed
    ensures RunAll(c, ss).catalog.indexes == RunAll(d, ss).catalog.indexes
  {
    forall name ensures name in RunAll(c, ss).catalog.indexes <==> name in RunAll(d, ss).catalog.indexes {
      if Decided(c.tables.Keys, ss, name) {
        var k := LastNaming(c.tables.Keys, ss, name);
        LastStatementDecides(c, ss, name, k);
        LastStatementDecides(d, ss, name, k);
      } else {
        OtherIndexesStay(c, ss, name);
        OtherIndexesStay(d, ss, name);
      }
    }
  }

  // ----- failures -----

  /** No statement on a present table could fail. */
  ghost predicate Clear(c: Catalog, ss: seq<Gated>) {
    forall k | 0 <= k < |ss| && ss[k].table in c.tables && ss[k].stmt.Create? ::
      ss[k].stmt.on in c.tables && !c.Impossible(ss[k].stmt)
  }

  lemma {:induction false} ClearRunsSucceed(c: Catalog, ss: seq<Gated>)
    requires Clear(c, ss)
    ensures !RunAll(c, ss).failed
    decreases |ss|
  {
    if ss != [] {
      ClearRunsSucceed(c, ss[..|ss| - 1]);
    }
  }

  /** Every index is built on the table its statement is gated on, and every unique one has a check
      of that table by its own columns and predicate. */
  ghost predicate Checked(ss: seq<Gated>, checks: seq<Check>) {
    forall k | 0 <= k < |ss| && ss[k].stmt.Create? ::
      && ss[k].stmt.on == ss[k].table
      && (ss[k].stmt.unique.Some? ==> Check(ss[k].stmt.on, ss[k].stmt.unique.value) in checks)
  }

  lemma {:induction false} NothingOffends(c: Catalog, checks: seq<Check>)
    ensures FirstOffending(c, checks) == None <==> forall p <- checks :: !Offends(c, p)
    decreases |checks|
  {
    if checks != [] {
      NothingOffends(c, checks[1..]);
      assert checks == [checks[0]] + checks[1..];
    }
  }

  /** Nothing that a list's own checks pass can make it fail. */
  lemma PassedChecksAreClear(c: Catalog, ss: seq<Gated>, checks: seq<Check>)
    requires Checked(ss, checks) && FirstOffending(c, checks) == None
    ensures Clear(c, ss)
  {
    NothingOffends(c, checks);
    forall k | 0 <= k < |ss| && ss[k].table in c.tables && ss[k].stmt.Create?
      ensures ss[k].stmt.on in c.tables && !c.Impossible(ss[k].stmt)
    {
      var stmt := ss[k].stmt;
      if stmt.unique.Some? {
        assert !Offends(c, Check(stmt.on, stmt.unique.value));
        QueryCountsConflicts(stmt.unique.value, c.tables[stmt.on]);
      }
    }
  }

  ghost predicate NeverDrops(ss: seq<Gated>, name: string) {
    forall k | 0 <= k < |ss| :: ss[k].stmt != Drop(name)
  }

  /** A unique index that is missing over conflicting rows fails the run it is built in. */
  lemma {:induction false} ConflictsFail(c: Catalog, ss: seq<Gated>, k: nat)
    requires k < |ss| && ss[k].table in c.tables && c.Impossible(ss[k].stmt) && ss[k].stmt.name !in c.indexes
    requires forall j | 0 <= j < k :: ss[j].stmt.name == ss[k].stmt.name
               ==> ss[j].stmt.Drop? || c.Impossible(ss[j].stmt)
    ensures RunAll(c, ss).failed
    decreases |ss|
  {
    var init := ss[..|ss| - 1];
    if k < |init| {
      ConflictsFail(c, init, k);
    } else {
      StaysMissing(c, init, ss[k].stmt.name);
    }
  }

  lemma {:induction false} StaysMissing(c: Catalog, ss: seq<Gated>, name: string)
    requires name !in c.indexes
    requires forall j | 0 <= j < |ss| :: ss[j].stmt.name == name ==> ss[j].stmt.Drop? || c.Impossible(ss[j].stmt)
    ensures RunAll(c, ss).failed || name !in RunAll(c, ss).catalog.indexes
    decreases |ss|
  {
    if ss != [] {
      StaysMissing(c, ss[..|ss| - 1], name);
    }
  }

  // ----- this revision -----

  /** Each unique index of the revision has a query of its own table that groups by its own columns
      under its own predicate, and no statement builds on another table than its gate's. */
  lemma BuildsAreChecked()
    ensures Checked(UPGRADE, UNIQUE_PREFLIGHT)
  {
    forall k | 0 <= k < |UPGRADE| && UPGRADE[k].stmt.Create?
      ensures UPGRADE[k].stmt.on == UPGRADE[k].table
      ensures UPGRADE[k].stmt.unique.Some?
              ==> Check(UPGRADE[k].stmt.on, UPGRADE[k].stmt.unique.value) in UNIQUE_PREFLIGHT
    {
      var n := |ENSURED|;
      if k < n {
        EnsuredIsChecked(k);
      } else {
        assert UPGRADE[k] == Gated(RECONCILE[k - n].table, RECONCILE[k - n].up);
      }
    }
  }

  lemma EnsuredIsChecked(k: nat)
    requires k < |ENSURED|
    ensures UPGRADE[k] == Ensure(ENSURED[k])
    ensures UniqueBody(ENSURED[k].1).Some? ==> Check(ENSURED[k].0, UniqueBody(ENSURED[k].1).value) in UNIQUE_PREFLIGHT
    ensures UniqueBody(ENSURED[k].1).Some? <==> k == 1 || k == 2 || k == 17
  {
    if k == 1 {
      assert UNIQUE_PREFLIGHT[2] in UNIQUE_PREFLIGHT;
    } else if k == 2 {
      assert UNIQUE_PREFLIGHT[1] in UNIQUE_PREFLIGHT;
    } else if k == 17 {
      assert UNIQUE_PREFLIGHT[0] in UNIQUE_PREFLIGHT;
    }
  }

  lemma PassedPreflightIsClear(c: Catalog)
    requires FirstOffending(c, UNIQUE_PREFLIGHT) == None
    ensures Clear(c, UPGRADE)
  {
    BuildsAreChecked();
    PassedChecksAreClear(c, UPGRADE, UNIQUE_PREFLIGHT);
  }

  lemma DowngradeStatements()
    ensures DOWNGRADE == [Gated("vendor_change_requests", Create(SHORT_NAME, "vendor_change_requests", None)),
                          Gated("bank_transactions", Create(MATCHED, "bank_transactions", None))]
  {
    var rs := RECONCILE;
    assert rs[2..][1..] == [] && rs[1..][1..] == rs[2..];
    assert Downs(rs[2..]) == [];
    assert Downs(rs[1..]) == [Gated("vendor_change_requests", Create(SHORT_NAME, "vendor_change_requests", None))];
    assert Downs(rs) == Downs(rs[1..]) + [Gated("bank_transactions", Create(MATCHED, "bank_transactions", None))];
  }

  /** An index that is there admits its table's rows. */
  ghost predicate Consistent(c: Catalog) {
    forall k | 0 <= k < |UPGRADE| && UPGRADE[k].table in c.tables && UPGRADE[k].stmt.name in c.indexes ::
      !c.Impossible(UPGRADE[k].stmt)
  }

  /** Some check's table has two rows that share a key with a NULL in it. */
  predicate SharesNullKey(c: Catalog, p: Check) {
    p.table in c.tables && NullKeysShared(p.query, c.tables[p.table])
  }

  lemma PositionOf(p: Check) returns (k: nat)
    requires p in UNIQUE_PREFLIGHT
    ensures k < |ENSURED| && ENSURED[k].0 == p.table && UniqueBody(ENSURED[k].1) == Some(p.query)
    ensures forall j | 0 <= j < k :: ENSURED[j].1 != ENSURED[k].1
  {
    k := if p == UNIQUE_PREFLIGHT[0] then 17 else if p == UNIQUE_PREFLIGHT[1] then 2 else 1;
    forall j | 0 <= j < k ensures ENSURED[j].1 != ENSURED[k].1 {
      EnsuredIsChecked(j);
      EnsuredIsChecked(k);
    }
  }

  /** The preflight refuses exactly the databases whose upgrade would fail part-way, and those where
      two rows share a key that holds a NULL. */
  lemma PreflightRefusals(c: Catalog)
    requires Consistent(c)
    ensures FirstOffending(c, UNIQUE_PREFLIGHT).Some? <==>
            RunAll(c, UPGRADE).failed || exists p <- UNIQUE_PREFLIGHT :: SharesNullKey(c, p)
  {
    NothingOffends(c, UNIQUE_PREFLIGHT);
    forall p <- UNIQUE_PREFLIGHT
      ensures Offends(c, p) ==> RunAll(c, UPGRADE).failed || SharesNullKey(c, p)
      ensures SharesNullKey(c, p) ==> Offends(c, p)
    {
      if p.table in c.tables {
        QueryCountsConflicts(p.query, c.tables[p.table]);
        if p.query.BuildFails(c.tables[p.table]) {
          ConflictFailsTheUpgrade(c, p);
        }
      }
    }
    if FirstOffending(c, UNIQUE_PREFLIGHT) == None {
      PassedPreflightIsClear(c);
      ClearRunsSucceed(c, UPGRADE);
    }
  }

  lemma ConflictFailsTheUpgrade(c: Catalog, p: Check)
    requires Consistent(c) && p in UNIQUE_PREFLIGHT && p.table in c.tables && p.query.BuildFails(c.tables[p.table])
    ensures RunAll(c, UPGRADE).failed
  {
    var k := PositionOf(p);
    EnsuredIsChecked(k);
    assert c.Impossible(UPGRADE[k].stmt);
    forall j | 0 <= j < k ensures UPGRADE[j].stmt.name != UPGRADE[k].stmt.name {
      EnsuredIsChecked(j);
    }
    ConflictsFail(c, UPGRADE, k);
  }

  /** The NOT NULL columns of the unique keys that no predicate guards. */
  ghost predicate RequiredColumns(c: Catalog) {
    && ("positive_pay_files" in c.tables ==> forall r <- c.tables["positive_pay_files"] :: "bank_format" in r)
    && ("subscriptions" in c.tables ==> forall r <- c.tables["subscriptions"] :: "organization_id" in r)
  }

  /** Where `bank_format` and `organization_id` are NOT NULL, as the schema declares them, the
      preflight refuses exactly the databases whose upgrade would fail part-way. */
  lemma PreflightIsExact(c: Catalog)
    requires Consistent(c) && RequiredColumns(c)
    ensures FirstOffending(c, UNIQUE_PREFLIGHT).Some? <==> RunAll(c, UPGRADE).failed
  {
    PreflightRefusals(c);
    forall p <- UNIQUE_PREFLIGHT ensures !SharesNullKey(c, p) {
      if p.table in c.tables {
        var rows := c.tables[p.table];
        forall i, j | 0 <= i < j < |rows| && p.query.Grouped(rows[i], rows[j]) ensures p.query.Complete(rows[i]) {
          CoveredKeysAreComplete(c, p, rows[i]);
        }
      }
    }
  }

  lemma CoveredKeysAreComplete(c: Catalog, p: Check, r: Row)
    requires RequiredColumns(c) && p in UNIQUE_PREFLIGHT && p.table in c.tables
    requires r in c.tables[p.table] && p.query.Covers(r)
    ensures p.query.Complete(r)
  {
  }

  /** Without NOT NULL the preflight would refuse a database whose upgrade succeeds: two files of one
      run whose format is NULL. */
  lemma NullFormatsAreRefused(run: string)
    ensures var row := map["payment_run_id" := run];
            var c := Catalog(map["positive_pay_files" := [row, row]], {});
            FirstOffending(c, UNIQUE_PREFLIGHT) == Some("positive_pay_files") && !RunAll(c, UPGRADE).failed
  {
    var row := map["payment_run_id" := run];
    var rows := [row, row];
    var c := Catalog(map["positive_pay_files" := rows], {});
    var p := UNIQUE_PREFLIGHT[0];
    assert p.query.Grouped(rows[0], rows[1]);
    CountsTheGrouped(p.query, rows);
    assert p.query.columns[1] == "bank_format" && "bank_format" in p.query.columns && "bank_format" !in row;
    assert !p.query.BuildFails(rows);
    BuildsAreChecked();
    forall k | 0 <= k < |UPGRADE| && UPGRADE[k].table in c.tables && UPGRADE[k].stmt.Create?
      ensures UPGRADE[k].stmt.on in c.tables && !c.Impossible(UPGRADE[k].stmt)
    {
      if UPGRADE[k].stmt.unique.Some? {
        var check := Check(UPGRADE[k].stmt.on, UPGRADE[k].stmt.unique.value);
        assert check in UNIQUE_PREFLIGHT && check.table == p.table;
        assert check == p;
      }
    }
    ClearRunsSucceed(c, UPGRADE);
  }

  /** Going down and up again ends where the first upgrade did; with nothing in between, that is
      idempotence. */
  lemma RunAbsorbs(c: Catalog, up: seq<Gated>, between: seq<Gated>)
    requires Clear(c, up) && Clear(c, between)
    requires forall name :: Decided(c.tables.Keys, between, name) ==> Decided(c.tables.Keys, up, name)
    ensures var c1 := RunAll(c, up).catalog;
            RunAll(RunAll(c1, between).catalog, up) == Outcome(c1, false)
  {
    var c1 := RunAll(c, up).catalog;
    var c2 := RunAll(c1, between).catalog;
    forall name | !Decided(c.tables.Keys, up, name) ensures name in c.indexes <==> name in c2.indexes {
      OtherIndexesStay(c, up, name);
      OtherIndexesStay(c1, between, name);
    }
    ClearRunsSucceed(c, up);
    ClearRunsSucceed(c2, up);
    RunsConverge(c, c2, up);
  }

  lemma UpgradeUndoesDowngrade(c: Catalog)
    requires FirstOffending(c, UNIQUE_PREFLIGHT) == None
    ensures var c1 := RunAll(c, UPGRADE).catalog;
            && RunAll(c1, UPGRADE) == Outcome(c1, false)
            && RunAll(RunAll(c1, DOWNGRADE).catalog, UPGRADE) == Outcome(c1, false)
  {
    PassedPreflightIsClear(c);
    RunAbsorbs(c, UPGRADE, []);
    DowngradeStatements();
    forall name | Decided(c.tables.Keys, DOWNGRADE, name) ensures Decided(c.tables.Keys, UPGRADE, name) {
      var n := |ENSURED|;
      assert Names(c.tables.Keys, UPGRADE[n], name) || Names(c.tables.Keys, UPGRADE[n + 2], name);
    }
    RunAbsorbs(c, UPGRADE, DOWNGRADE);
  }

  /** Two databases that pass the preflight and differ only in the named indexes end alike. */
  lemma UpgradesConverge(c: Catalog, d: Catalog)
    requires AgreeOutside(c, d, UPGRADE) && FirstOffending(c, UNIQUE_PREFLIGHT) == None
    requires FirstOffending(d, UNIQUE_PREFLIGHT) == None
    ensures RunAll(c, UPGRADE).catalog.indexes == RunAll(d, UPGRADE).catalog.indexes
  {
    PassedPreflightIsClear(c);
    PassedPreflightIsClear(d);
    ClearRunsSucceed(c, UPGRADE);
    ClearRunsSucceed(d, UPGRADE);
    RunsConverge(c, d, UPGRADE);
  }

  lemma CreatedAndNeverDropped(c: Catalog, ss: seq<Gated>, name: string, k: nat)
    requires !RunAll(c, ss).failed && NeverDrops(ss, name)
    requires k < |ss| && Names(c.tables.Keys, ss[k], name)
    ensures name in RunAll(c, ss).catalog.indexes
  {
    var j := LastNaming(c.tables.Keys, ss, name);
    assert ss[j].stmt != Drop(name);
    LastStatementDecides(c, ss, name, j);
  }

  lemma EnsuredAreNeverDropped(k: nat)
    requires k < |ENSURED|
    ensures NeverDrops(UPGRADE, ENSURED[k].1) && NeverDrops(DOWNGRADE, ENSURED[k].1)
  {
    DowngradeStatements();
    assert ENSURED[k].1 != MATCHED && ENSURED[k].1 != SHORT_NAME;
    forall j | 0 <= j < |UPGRADE| ensures UPGRADE[j].stmt != Drop(ENSURED[k].1) {
      var n := |ENSURED|;
      if j < n {
        assert UPGRADE[j] == Ensure(ENSURED[j]);
      } else {
        assert UPGRADE[j].stmt == RECONCILE[j - n].up;
      }
    }
  }

  /** After an upgrade every ensured index of a present table is there, and a downgrade leaves it. */
  lemma EnsuredIndexesSurvive(c: Catalog, k: nat)
    requires FirstOffending(c, UNIQUE_PREFLIGHT) == None
    requires k < |ENSURED| && ENSURED[k].0 in c.tables
    ensures var c1 := RunAll(c, UPGRADE).catalog;
            ENSURED[k].1 in c1.indexes && ENSURED[k].1 in RunAll(c1, DOWNGRADE).catalog.indexes
  {
    PassedPreflightIsClear(c);
    ClearRunsSucceed(c, UPGRADE);
    EnsuredAreNeverDropped(k);
    assert UPGRADE[k] == Ensure(ENSURED[k]);
    CreatedAndNeverDropped(c, UPGRADE, ENSURED[k].1, k);
    DowngradeStatements();
    OnlyCreatesKeep(RunAll(c, UPGRADE).catalog, DOWNGRADE, ENSURED[k].1);
  }

  lemma {:induction false} OnlyCreatesKeep(c: Catalog, ss: seq<Gated>, name: string)
    requires name in c.indexes && NeverDrops(ss, name)
    ensures name in RunAll(c, ss).catalog.indexes
    decreases |ss|
  {
    if ss != [] {
      OnlyCreatesKeep(c, ss[..|ss| - 1], name);
    }
  }

  /** The two reconciled names: the superseded index goes, the model's name replaces the old one,
      and a downgrade brings back both old names without removing the new one. */
  lemma NamesAreReconciled(c: Catalog)
    requires FirstOffending(c, UNIQUE_PREFLIGHT) == None
    ensures var c1 := RunAll(c, UPGRADE).catalog;
            var c2 := RunAll(c1, DOWNGRADE).catalog;
            && c2.indexes == c1.indexes + (if "bank_transactions" in c.tables then {MATCHED} else {})
                                        + (if "vendor_change_requests" in c.tables then {SHORT_NAME} else {})
            && ("bank_transactions" in c.tables ==> MATCHED !in c1.indexes)
            && ("vendor_change_requests" in c.tables ==> LONG_NAME in c1.indexes && SHORT_NAME !in c1.indexes)
  {
    UpgradeReconciles(c);
    DowngradeAdds(RunAll(c, UPGRADE).catalog);
  }

  lemma UpgradeReconciles(c: Catalog)
    requires FirstOffending(c, UNIQUE_PREFLIGHT) == None
    ensures var c1 := RunAll(c, UPGRADE).catalog;
            && ("bank_transactions" in c.tables ==> MATCHED !in c1.indexes)
            && ("vendor_change_requests" in c.tables ==> LONG_NAME in c1.indexes && SHORT_NAME !in c1.indexes)
  {
    PassedPreflightIsClear(c);
    ClearRunsSucceed(c, UPGRADE);
    var n := |ENSURED|;
    assert UPGRADE[n].stmt == Drop(MATCHED) && UPGRADE[n + 1].stmt == Create(LONG_NAME, "vendor_change_requests", None)
        && UPGRADE[n + 2].stmt == Drop(SHORT_NAME) && |UPGRADE| == n + 3;
    if "bank_transactions" in c.tables {
      LastStatementDecides(c, UPGRADE, MATCHED, n);
    }
    if "vendor_change_requests" in c.tables {
      LastStatementDecides(c, UPGRADE, LONG_NAME, n + 1);
      LastStatementDecides(c, UPGRADE, SHORT_NAME, n + 2);
    }
  }

  lemma RunTwo(c: Catalog, a: Gated, b: Gated)
    ensures var o := Step(c, a);
            RunAll(c, [a, b]) == if o.failed then o else Step(o.catalog, b)
  {
    assert [a, b][..1] == [a] && [a][..0] == [];
    assert RunAll(c, [a]) == Step(c, a);
  }

  lemma DowngradeAdds(c: Catalog)
    ensures RunAll(c, DOWNGRADE).catalog.indexes
         == c.indexes + (if "bank_transactions" in c.tables then {MATCHED} else {})
                      + (if "vendor_change_requests" in c.tables then {SHORT_NAME} else {})
  {
    DowngradeStatements();
    RunTwo(c, DOWNGRADE[0], DOWNGRADE[1]);
    assert DOWNGRADE == [DOWNGRADE[0], DOWNGRADE[1]];
  }
}
