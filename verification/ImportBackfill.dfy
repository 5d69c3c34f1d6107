/** Stamping import provenance on a tenant's pre-cutover invoices. The invoices table is a
    sequence in the order its query asks for, by creation time and id. */
module ImportBackfill {
  import opened Options
  import opened Sql

  type Instant = int

  // ----- SQL predicates over a nullable JSONB column -----

  datatype Json = Provenance(at: Instant, source: string, asserted: bool, stampedAt: Instant) | Other(text: string)

  /** The `meta` column: SQL NULL, the JSON value null, or a JSON object. */
  datatype Meta = SqlNull | JsonNull | Bag(fields: map<string, Json>)

  datatype Invoice = Invoice(id: nat, created: Instant, status: string, meta: Meta)

  const KEY := "imported"
  const STAMPABLE: set<string> := {"new", "done", "paid", "rejected"}

  function IsNotNull(m: Meta): Truth {
    Known(!m.SqlNull?)
  }

  /** The operator `?`, NULL on a NULL operand. */
  function HasKey(m: Meta, key: string): Truth {
    match m
    case SqlNull => Unknown
    case JsonNull => False
    case Bag(fields) => Known(key in fields)
  }

  /** `imported_invoice_clause` */
  function ImportedClause(i: Invoice): Truth {
    And(IsNotNull(i.meta), HasKey(i.meta, KEY))
  }

  /** `native_invoice_clause` */
  function NativeClause(i: Invoice): Truth {
    Not(ImportedClause(i))
  }

  /** The three queries of backfill_tenant. */
  datatype Query = AlreadyMarked | SkippedStatuses | Candidates

  function Where(q: Query, i: Invoice, cutover: Instant): Truth {
    var before, stampable := Known(i.created < cutover), Known(i.status in STAMPABLE);
    match q
    case AlreadyMarked => And(before, ImportedClause(i))
    case SkippedStatuses => And(And(before, NativeClause(i)), Not(stampable))
    case Candidates => And(And(before, NativeClause(i)), stampable)
  }

  predicate Selects(q: Query, i: Invoice, cutover: Instant) {
    Where(q, i, cutover) == True
  }

  /** Whether Python finds the marker: `KEY in dict(invoice.meta or {})`. */
  predicate Marked(i: Invoice) {
    KEY in Fields(i.meta)
  }

  function Fields(m: Meta): map<string, Json> {
    if m.Bag? then m.fields else map[]
  }

  /** The three queries never answer Unknown, select no invoice from the cutover on, and select each
      earlier one exactly once; and SQL sees the marker exactly where Python does. */
  lemma QueriesPartitionInvoices(i: Invoice, cutover: Instant)
    ensures forall q: Query :: Where(q, i, cutover) != Unknown
    ensures i.created >= cutover ==> forall q: Query :: !Selects(q, i, cutover)
    ensures i.created < cutover ==>
              exists q: Query :: Selects(q, i, cutover) && forall p: Query :: Selects(p, i, cutover) ==> p == q
    ensures Selects(AlreadyMarked, i, cutover) <==> i.created < cutover && Marked(i)
    ensures Selects(SkippedStatuses, i, cutover) <==> i.created < cutover && !Marked(i) && i.status !in STAMPABLE
    ensures Selects(Candidates, i, cutover) <==> i.created < cutover && !Marked(i) && i.status in STAMPABLE
  {
    assert ImportedClause(i) == Known(Marked(i));
    if i.created < cutover {
      var q := if Marked(i) then AlreadyMarked else if i.status in STAMPABLE then Candidates else SkippedStatuses;
      assert Selects(q, i, cutover);
    }
  }

  /** Without the guard `meta IS NOT NULL` the native clause would lose exactly the candidates whose
      column is NULL. */
  lemma UnguardedLosesNullColumns(i: Invoice, cutover: Instant)
    ensures var unguarded := And(And(Known(i.created < cutover), Not(HasKey(i.meta, KEY))),
                                 Known(i.status in STAMPABLE));
            unguarded == True <==> Selects(Candidates, i, cutover) && i.meta != SqlNull
  {
    QueriesPartitionInvoices(i, cutover);
  }

  // ----- the run -----

  /** The rows a query selects, as positions in the table, in order. */
  function Positions(rows: seq<Invoice>, cutover: Instant, q: Query): (r: seq<nat>)
    ensures forall p: nat :: p in r <==> p < |rows| && Selects(q, rows[p], cutover)
    ensures forall k | 0 <= k < |r| :: r[k] < |rows|
    ensures forall j, k | 0 <= j < k < |r| :: r[j] < r[k]
  {
    if rows == [] then []
    else
      var n := |rows| - 1;
      var init := Positions(rows[..n], cutover, q);
      if Selects(q, rows[n], cutover) then init + [n] else init
  }

  /** `GROUP BY status` over the rows at some positions. */
  function Tally(rows: seq<Invoice>, ps: seq<nat>): map<string, nat>
    requires forall k | 0 <= k < |ps| :: ps[k] < |rows|
  {
    if ps == [] then map[]
    else
      var t := Tally(rows, ps[..|ps| - 1]);
      var s := rows[ps[|ps| - 1]].status;
      t[s := 1 + if s in t then t[s] else 0]
  }

  function Marker(cutover: Instant, now: Instant): Json {
    Provenance(cutover, "operator_backfill", true, now)
  }

  /** The row with the marker in its bag, NULL and JSON null being empty bags. */
  function WithMarker(i: Invoice, marker: Json): Invoice {
    i.(meta := Bag(Fields(i.meta)[KEY := marker]))
  }

  function StampOne(i: Invoice, cutover: Instant, now: Instant): Invoice {
    if Selects(Candidates, i, cutover) then WithMarker(i, Marker(cutover, now)) else i
  }

  /** An applied backfill. */
  function Stamped(rows: seq<Invoice>, cutover: Instant, now: Instant): seq<Invoice> {
    seq(|rows|, p requires 0 <= p < |rows| => StampOne(rows[p], cutover, now))
  }

  datatype Report = Report(
    candidates: nat,
    stamped: nat,
    alreadyMarked: nat,
    skipped: map<string, nat>,
    byStatus: map<string, nat>,
    earliest: Option<Instant>,
    latest: Option<Instant>,
    applied: bool)

  function CountsOf(rows: seq<Invoice>, cutover: Instant, apply: bool): Report {
    var candidates := Positions(rows, cutover, Candidates);
    var skipped := Positions(rows, cutover, SkippedStatuses);
    Report(|candidates|, if apply then |candidates| else 0, |Positions(rows, cutover, AlreadyMarked)|,
           Tally(rows, skipped), Tally(rows, candidates),
           if candidates == [] then None else Some(rows[candidates[0]].created),
           if candidates == [] then None else Some(rows[candidates[|candidates| - 1]].created),
           apply)
  }

  class Tenant {
    var invoices: seq<Invoice>
    var audits: seq<Report>

    /** The loop that writes the marker, with its backstop. */
    method StampAll(ps: seq<nat>, cutover: Instant, now: Instant) returns (stamped: nat)
      requires ps == Positions(invoices, cutover, Candidates)
      modifies this`invoices
      ensures invoices == Stamped(old(invoices), cutover, now) && stamped == |ps|
    {
      stamped := 0;
      var marker := Marker(cutover, now);
      for k := 0 to |ps|
        invariant |invoices| == |old(invoices)| && stamped == k
        invariant forall p: nat | p < |invoices| ::
          invoices[p] == if p in ps[..k] then WithMarker(old(invoices)[p], marker) else old(invoices)[p]
      {
        var p := ps[k];
        assert p in ps && p !in ps[..k];
        QueriesPartitionInvoices(invoices[p], cutover);
        var fields := Fields(invoices[p].meta);
        if KEY in fields {
          continue;
        }
        invoices := invoices[p := invoices[p].(meta := Bag(fields[KEY := marker]))];
        stamped := stamped + 1;
        assert forall q :: q in ps[..k + 1] <==> q in ps[..k] || q == p;
      }
      assert ps[..|ps|] == ps;
    }

    /** The loop over the candidates that counts them by status. */
    method CountByStatus(ps: seq<nat>) returns (byStatus: map<string, nat>)
      requires forall k | 0 <= k < |ps| :: ps[k] < |invoices|
      ensures byStatus == Tally(invoices, ps)
    {
      byStatus := map[];
      for k := 0 to |ps|
        invariant byStatus == Tally(invoices, ps[..k])
      {
        assert ps[..k + 1][..k] == ps[..k];
        var status := invoices[ps[k]].status;
        byStatus := byStatus[status := 1 + if status in byStatus then byStatus[status] else 0];
      }
      assert ps[..|ps|] == ps;
    }

    /** backfill_tenant; the audit row is written only when something was stamped. */
    method BackfillTenant(cutover: Instant, apply: bool, now: Instant) returns (r: Report)
      modifies this
      ensures r == CountsOf(old(invoices), cutover, apply)
      ensures invoices == if apply then Stamped(old(invoices), cutover, now) else old(invoices)
      ensures audits == if apply && r.candidates > 0 then old(audits) + [r] else old(audits)
    {
      var alreadyMarked := |Positions(invoices, cutover, AlreadyMarked)|;
      var skipped := Tally(invoices, Positions(invoices, cutover, SkippedStatuses));
      var ps := Positions(invoices, cutover, Candidates);
      r := Report(|ps|, 0, alreadyMarked, skipped, map[], None, None, apply);
      if ps == [] {
        NoCandidatesNoChange(invoices, cutover, now);
        return;
      }
      var byStatus := CountByStatus(ps);
      r := r.(byStatus := byStatus,
              earliest := Some(invoices[ps[0]].created),
              latest := Some(invoices[ps[|ps| - 1]].created));
      if !apply {
        return;
      }
      var stamped := StampAll(ps, cutover, now);
      r := r.(stamped := stamped);
      audits := audits + [r];
    }
  }

  lemma NoCandidatesNoChange(rows: seq<Invoice>, cutover: Instant, now: Instant)
    requires Positions(rows, cutover, Candidates) == []
    ensures Stamped(rows, cutover, now) == rows
  {
    forall p | 0 <= p < |rows| ensures !Selects(Candidates, rows[p], cutover) {
      assert p !in Positions(rows, cutover, Candidates);
    }
  }

  /** How many invoices the cutover leaves out. */
  function Later(rows: seq<Invoice>, cutover: Instant): nat {
    if rows == [] then 0
    else Later(rows[..|rows| - 1], cutover) + if rows[|rows| - 1].created >= cutover then 1 else 0
  }

  /** Every invoice is later than the cutover, marked, skipped or a candidate, and counted once. */
  lemma {:induction false} QueriesPartitionTheTable(rows: seq<Invoice>, cutover: Instant)
    ensures Later(rows, cutover) + |Positions(rows, cutover, AlreadyMarked)|
            + |Positions(rows, cutover, SkippedStatuses)| + |Positions(rows, cutover, Candidates)| == |rows|
    decreases |rows|
  {
    if rows != [] {
      QueriesPartitionTheTable(rows[..|rows| - 1], cutover);
      QueriesPartitionInvoices(rows[|rows| - 1], cutover);
    }
  }

  function CountIn(t: map<string, nat>, status: string): nat {
    if status in t then t[status] else 0
  }

  /** The report's tallies count each status among the rows they are about. */
  lemma {:induction false} TallyCountsStatuses(rows: seq<Invoice>, ps: seq<nat>, status: string)
    requires forall k | 0 <= k < |ps| :: ps[k] < |rows|
    ensures CountIn(Tally(rows, ps), status)
         == multiset(seq(|ps|, k requires 0 <= k < |ps| => rows[ps[k]].status))[status]
    decreases |ps|
  {
    var statuses := seq(|ps|, k requires 0 <= k < |ps| => rows[ps[k]].status);
    if ps != [] {
      var n := |ps| - 1;
      TallyCountsStatuses(rows, ps[..n], status);
      var init := seq(n, k requires 0 <= k < n => rows[ps[..n][k]].status);
      assert statuses == init + [rows[ps[n]].status];
    }
  }

  /** An applied run changes exactly the candidates, and those only by gaining the marker: every
      other row, every marker that was there and every other field stays. A candidate is an invoice
      from before the cutover without the marker and in a status the importer can make; the marker
      is the operator's assertion with the cutover and the time of the run. */
  lemma StampingMarksTheCandidates(rows: seq<Invoice>, cutover: Instant, now: Instant, p: nat)
    requires p < |rows|
    ensures var i, i' := rows[p], Stamped(rows, cutover, now)[p];
            && (Marked(i') <==> Marked(i) || Selects(Candidates, i, cutover))
            && (i' != i <==> Selects(Candidates, i, cutover))
            && i'.(meta := SqlNull) == i.(meta := SqlNull)
            && Fields(i'.meta) - {KEY} == Fields(i.meta) - {KEY}
            && (Marked(i) ==> i'.meta == i.meta)
            && (i' != i ==>
                  && i'.meta.Bag? && "imported" in i'.meta.fields
                  && i'.meta.fields["imported"] == Provenance(cutover, "operator_backfill", true, now))
            && (Selects(Candidates, i, cutover) <==>
                  && i.created < cutover && !(i.meta.Bag? && "imported" in i.meta.fields)
                  && i.status in {"new", "done", "paid", "rejected"})
  {
    QueriesPartitionInvoices(rows[p], cutover);
    if Selects(Candidates, rows[p], cutover) {
      MarkerIsAllItGains(rows[p], Marker(cutover, now));
    }
  }

  lemma MarkerIsAllItGains(i: Invoice, marker: Json)
    requires !Marked(i)
    ensures var i' := WithMarker(i, marker);
            i' != i && Marked(i') && Fields(i'.meta)[KEY] == marker && Fields(i'.meta) - {KEY} == Fields(i.meta) - {KEY}
  {
    assert KEY in Fields(WithMarker(i, marker).meta);
  }

  lemma EmptyOrInhabited(ps: seq<nat>)
    ensures ps == [] || exists p :: p in ps
  {
    if ps != [] {
      assert ps[0] in ps;
    }
  }

  lemma StampedIsNoCandidate(i: Invoice, cutover: Instant, now: Instant)
    ensures !Selects(Candidates, StampOne(i, cutover, now), cutover)
    ensures Selects(AlreadyMarked, StampOne(i, cutover, now), cutover)
       <==> Selects(AlreadyMarked, i, cutover) || Selects(Candidates, i, cutover)
    ensures Selects(SkippedStatuses, StampOne(i, cutover, now), cutover) <==> Selects(SkippedStatuses, i, cutover)
  {
    QueriesPartitionInvoices(i, cutover);
    QueriesPartitionInvoices(StampOne(i, cutover, now), cutover);
  }

  lemma StampingLeavesNoCandidate(rows: seq<Invoice>, cutover: Instant, now: Instant)
    ensures Positions(Stamped(rows, cutover, now), cutover, Candidates) == []
  {
    var rows' := Stamped(rows, cutover, now);
    var ps := Positions(rows', cutover, Candidates);
    forall p: nat | p < |rows| ensures !Selects(Candidates, rows'[p], cutover) {
      StampedIsNoCandidate(rows[p], cutover, now);
    }
    assert forall p: nat :: p !in ps;
    EmptyOrInhabited(ps);
  }

  /** A second run with the same cutover finds no candidate and changes nothing; the rows it now
      reports as marked are those of before plus those stamped. */
  lemma RerunFindsNothing(rows: seq<Invoice>, cutover: Instant, now: Instant, later: Instant)
    ensures var rows' := Stamped(rows, cutover, now);
            && Positions(rows', cutover, Candidates) == []
            && Stamped(rows', cutover, later) == rows'
            && |Positions(rows', cutover, AlreadyMarked)|
               == |Positions(rows, cutover, AlreadyMarked)| + |Positions(rows, cutover, Candidates)|
            && Positions(rows', cutover, SkippedStatuses) == Positions(rows, cutover, SkippedStatuses)
  {
    StampingLeavesNoCandidate(rows, cutover, now);
    NoCandidatesNoChange(Stamped(rows, cutover, now), cutover, later);
    StampedCounts(rows, cutover, now);
  }

  lemma {:induction false} StampedCounts(rows: seq<Invoice>, cutover: Instant, now: Instant)
    ensures var rows' := Stamped(rows, cutover, now);
            && |Positions(rows', cutover, AlreadyMarked)|
               == |Positions(rows, cutover, AlreadyMarked)| + |Positions(rows, cutover, Candidates)|
            && Positions(rows', cutover, SkippedStatuses) == Positions(rows, cutover, SkippedStatuses)
    decreases |rows|
  {
    if rows != [] {
      var n := |rows| - 1;
      StampedCounts(rows[..n], cutover, now);
      assert Stamped(rows, cutover, now)[..n] == Stamped(rows[..n], cutover, now);
      StampedIsNoCandidate(rows[n], cutover, now);
      QueriesPartitionInvoices(rows[n], cutover);
    }
  }

  /** A wider cutover after a narrower one marks the same rows as the wider one alone; the rows
      the first run stamped keep its marker. */
  lemma CutoversCompose(rows: seq<Invoice>, c1: Instant, c2: Instant, t1: Instant, t2: Instant, p: nat)
    requires c1 <= c2 && p < |rows|
    ensures var twice, once := Stamped(Stamped(rows, c1, t1), c2, t2)[p], Stamped(rows, c2, t2)[p];
            && twice.(meta := SqlNull) == once.(meta := SqlNull)
            && Fields(twice.meta) - {KEY} == Fields(once.meta) - {KEY}
            && (Marked(twice) <==> Marked(once))
            && (if Selects(Candidates, rows[p], c1) then twice == WithMarker(rows[p], Marker(c1, t1))
                else twice == once)
  {
    var i, mid := rows[p], StampOne(rows[p], c1, t1);
    assert Stamped(Stamped(rows, c1, t1), c2, t2)[p] == StampOne(mid, c2, t2);
    QueriesPartitionInvoices(i, c1);
    QueriesPartitionInvoices(i, c2);
    QueriesPartitionInvoices(mid, c2);
    if Selects(Candidates, i, c1) {
      MarkerIsAllItGains(i, Marker(c1, t1));
      MarkerIsAllItGains(i, Marker(c2, t2));
    }
  }

  /** The rows the report counts as candidates, or as marked. */
  function CandidateRows(rows: seq<Invoice>, cutover: Instant): set<nat> {
    set p | 0 <= p < |rows| && rows[p].created < cutover && !Marked(rows[p]) && rows[p].status in STAMPABLE
  }

  function MarkedRows(rows: seq<Invoice>, cutover: Instant): set<nat> {
    set p | 0 <= p < |rows| && rows[p].created < cutover && Marked(rows[p])
  }

  function Elements(ps: seq<nat>): set<nat> {
    set p | p in ps
  }

  lemma {:induction false} IncreasingCounts(ps: seq<nat>)
    requires forall j, k | 0 <= j < k < |ps| :: ps[j] < ps[k]
    ensures |Elements(ps)| == |ps|
    decreases |ps|
  {
    if ps != [] {
      var n := |ps| - 1;
      var init, last := ps[..n], ps[n];
      IncreasingCounts(init);
      assert last !in init;
      assert ps == init + [last];
      assert Elements(ps) == Elements(init) + {last};
    }
  }

  /** Every figure of the report, for a dry run and an applied one. */
  lemma ReportIsExact(rows: seq<Invoice>, cutover: Instant, apply: bool)
    ensures var r := CountsOf(rows, cutover, apply);
            && r.candidates == |CandidateRows(rows, cutover)| && r.alreadyMarked == |MarkedRows(rows, cutover)|
            && r.stamped == (if apply then r.candidates else 0) && r.applied == apply
            && (r.candidates == 0 <==> r.earliest.None?) && (r.candidates == 0 <==> r.latest.None?)
            && r.skipped == Tally(rows, Positions(rows, cutover, SkippedStatuses))
            && r.byStatus == Tally(rows, Positions(rows, cutover, Candidates))
  {
    var ps, ms := Positions(rows, cutover, Candidates), Positions(rows, cutover, AlreadyMarked);
    forall p: nat | p < |rows| ensures p in ps <==> p in CandidateRows(rows, cutover) {
      QueriesPartitionInvoices(rows[p], cutover);
    }
    forall p: nat | p < |rows| ensures p in ms <==> p in MarkedRows(rows, cutover) {
      QueriesPartitionInvoices(rows[p], cutover);
    }
    assert Elements(ps) == CandidateRows(rows, cutover);
    assert Elements(ms) == MarkedRows(rows, cutover);
    IncreasingCounts(ps);
    IncreasingCounts(ms);
  }

  /** In a table ordered by creation time the report's bounds are those of the candidates, and are met. */
  lemma ReportBoundsCandidates(rows: seq<Invoice>, cutover: Instant, apply: bool, p: nat)
    requires forall j, k | 0 <= j < k < |rows| :: rows[j].created <= rows[k].created
    requires p < |rows| && Selects(Candidates, rows[p], cutover)
    ensures var r := CountsOf(rows, cutover, apply);
            && r.earliest.Some? && r.latest.Some?
            && r.earliest.value <= rows[p].created <= r.latest.value < cutover
            && (exists q :: q in CandidateRows(rows, cutover) && rows[q].created == r.earliest.value)
            && (exists q :: q in CandidateRows(rows, cutover) && rows[q].created == r.latest.value)
  {
    var ps := Positions(rows, cutover, Candidates);
    assert p in ps;
    var k :| 0 <= k < |ps| && ps[k] == p;
    assert ps[0] <= p <= ps[|ps| - 1];
    assert ps[0] in ps && ps[|ps| - 1] in ps;
    QueriesPartitionInvoices(rows[ps[0]], cutover);
    QueriesPartitionInvoices(rows[ps[|ps| - 1]], cutover);
    assert ps[0] in CandidateRows(rows, cutover) && ps[|ps| - 1] in CandidateRows(rows, cutover);
  }
}
