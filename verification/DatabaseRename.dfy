/** The FeohLedger rename: two physical stores, the database names and the
    `organizations.db_name` column, changed by separate statements of a script that can stop
    anywhere and be run again. */
module DatabaseRename {
  import opened Options

  type Name = string
  type OrgId = nat

  /** A database's own content, and its `organizations` rows (only the control plane has any). */
  datatype Database = Database(data: nat, orgs: map<OrgId, Name>)

  type Databases = map<Name, Database>

  /** The script's four flags. */
  datatype Flags = Flags(oldControl: Name, newControl: Name, oldPrefix: string, newPrefix: string)

  function Find(dbs: Databases, n: Name): Option<Database> {
    if n in dbs then Some(dbs[n]) else None
  }

  // ----- names -----

  predicate NameChar(c: char) {
    'a' <= c <= 'z' || '0' <= c <= '9' || c == '_' || c == '-'
  }

  /** `_assert_safe_db_name`: `[a-z][a-z0-9_-]{2,62}`. */
  predicate Safe(n: Name) {
    3 <= |n| <= 63 && 'a' <= n[0] <= 'z' && forall i | 0 <= i < |n| :: NameChar(n[i])
  }

  const LETTERS := "abcdefghijklmnopqrstuvwxyz"
  const REST := LETTERS + "0123456789_-"

  lemma LettersAreARange(c: char)
    ensures c in LETTERS <==> 'a' <= c <= 'z'
  {
    if 'a' <= c <= 'z' {
      assert LETTERS[c as int - 'a' as int] == c;
    }
  }

  lemma RestIsNameChars(c: char)
    ensures c in REST <==> NameChar(c)
  {
    LettersAreARange(c);
    var others := "0123456789_-";
    assert REST == LETTERS + others;
    if '0' <= c <= '9' { assert others[c as int - '0' as int] == c; }
    if c == '_' { assert others[10] == c; }
    if c == '-' { assert others[11] == c; }
  }

  /** A safe name is a small letter followed by 2 to 62 small letters, digits, underscores and dashes. */
  lemma SafeNames(n: Name)
    ensures Safe(n) <==> 2 <= |n| - 1 <= 62 && n[0] in LETTERS && forall c :: c in n[1..] ==> c in REST
  {
    if |n| > 0 {
      LettersAreARange(n[0]);
      forall c | c in n ensures c in REST <==> NameChar(c) {
        RestIsNameChars(c);
      }
      assert forall c :: c in n <==> c == n[0] || c in n[1..];
    }
  }

  predicate IsTenant(f: Flags, n: Name) {
    f.oldPrefix <= n
  }

  /** The script's slice: the new prefix and everything past the old one. */
  function Swap(f: Flags, n: Name): Name
    requires IsTenant(f, n)
  {
    f.newPrefix + n[|f.oldPrefix|..]
  }

  function Unswap(f: Flags, n: Name): Name
    requires f.newPrefix <= n
  {
    f.oldPrefix + n[|f.newPrefix|..]
  }

  /** SQL `left(s, n)` and `substring(s from k)`, positions counted from one. */
  function SqlLeft(s: string, n: nat): string {
    if n <= |s| then s[..n] else s
  }

  function SqlSubstring(s: string, from: nat): string
    requires from >= 1
  {
    if from - 1 <= |s| then s[from - 1..] else ""
  }

  /** The UPDATE of one row. */
  function RewriteName(f: Flags, n: Name): Name {
    if SqlLeft(n, |f.oldPrefix|) == f.oldPrefix then f.newPrefix + SqlSubstring(n, |f.oldPrefix| + 1) else n
  }

  function Rewritten(f: Flags, db: Database): Database {
    db.(orgs := map id | id in db.orgs :: RewriteName(f, db.orgs[id]))
  }

  /** Neither tenant prefix starts with the other, and the two control names are different and
      carry neither. */
  predicate Separate(f: Flags) {
    && !(f.oldPrefix <= f.newPrefix) && !(f.newPrefix <= f.oldPrefix)
    && f.oldControl != f.newControl
    && !(f.oldPrefix <= f.oldControl) && !(f.newPrefix <= f.oldControl)
    && !(f.oldPrefix <= f.newControl) && !(f.newPrefix <= f.newControl)
  }

  /** Two prefixes of one name are prefixes of one another. */
  lemma PrefixesNest(a: string, b: string, s: string)
    requires a <= s && b <= s
    ensures a <= b || b <= a
  {
    assert a == s[..|a|] && b == s[..|b|];
  }

  lemma OnePrefix(f: Flags, n: Name)
    requires Separate(f)
    ensures !(IsTenant(f, n) && f.newPrefix <= n)
  {
    if IsTenant(f, n) && f.newPrefix <= n {
      PrefixesNest(f.oldPrefix, f.newPrefix, n);
    }
  }

  /** Replacing one prefix by another can be taken back. */
  lemma PrefixSwapsBack(a: string, b: string, n: string)
    requires a <= n
    ensures b <= b + n[|a|..] && a + (b + n[|a|..])[|b|..] == n
  {
    assert (b + n[|a|..])[|b|..] == n[|a|..];
    assert n == n[..|a|] + n[|a|..] && n[..|a|] == a;
  }

  lemma RewriteIsSwap(f: Flags, n: Name)
    ensures RewriteName(f, n) == if IsTenant(f, n) then Swap(f, n) else n
  {
    if IsTenant(f, n) {
      assert n[..|f.oldPrefix|] == f.oldPrefix;
    }
  }

  /** The SQL rewrite and the Python slice are the same prefix swap, which loses nothing. */
  lemma SqlRewriteIsTheSwap(f: Flags, n: Name)
    ensures RewriteName(f, n) == if IsTenant(f, n) then Swap(f, n) else n
    ensures IsTenant(f, n) ==> f.newPrefix <= Swap(f, n) && Unswap(f, Swap(f, n)) == n
    ensures f.newPrefix <= n ==> IsTenant(f, Unswap(f, n)) && Swap(f, Unswap(f, n)) == n
    ensures Separate(f) ==> RewriteName(f, RewriteName(f, n)) == RewriteName(f, n)
  {
    RewriteIsSwap(f, n);
    if IsTenant(f, n) {
      PrefixSwapsBack(f.oldPrefix, f.newPrefix, n);
    }
    if f.newPrefix <= n {
      PrefixSwapsBack(f.newPrefix, f.oldPrefix, n);
    }
    if Separate(f) {
      RewriteIsSwap(f, RewriteName(f, n));
      if IsTenant(f, n) {
        OnePrefix(f, Swap(f, n));
      }
    }
  }

  // ----- one statement -----

  datatype Step = Rename(src: Name, dst: Name) | Rewrite

  /** `control_db`: the new control name if it exists now, otherwise the old one. */
  function ControlName(f: Flags, dbs: Databases): Name {
    if f.newControl in dbs then f.newControl else f.oldControl
  }

  function Execute(f: Flags, dbs: Databases, step: Step): Databases {
    match step
    case Rename(src, dst) =>
      if Safe(src) && Safe(dst) && dst !in dbs && src in dbs then (dbs - {src})[dst := dbs[src]] else dbs
    case Rewrite =>
      var c := ControlName(f, dbs);
      if c in dbs then dbs[c := Rewritten(f, dbs[c])] else dbs
  }

  /** The script dies on an unsafe name. */
  predicate Raises(step: Step) {
    step.Rename? && !(Safe(step.src) && Safe(step.dst))
  }

  function ExecuteAll(f: Flags, dbs: Databases, steps: seq<Step>): Databases
    decreases |steps|
  {
    if steps == [] || Raises(steps[0]) then dbs
    else ExecuteAll(f, Execute(f, dbs, steps[0]), steps[1..])
  }

  function TenantSteps(f: Flags, tenants: seq<Name>): (r: seq<Step>)
    requires forall n :: n in tenants ==> IsTenant(f, n)
    ensures |r| == |tenants|
    ensures forall i | 0 <= i < |r| :: r[i] == Rename(tenants[i], Swap(f, tenants[i]))
  {
    seq(|tenants|, i requires 0 <= i < |tenants| => Rename(tenants[i], Swap(f, tenants[i])))
  }

  /** An applied run: tenants first, then the control plane, then the rows. */
  function Plan(f: Flags, tenants: seq<Name>): seq<Step>
    requires forall n :: n in tenants ==> IsTenant(f, n)
  {
    TenantSteps(f, tenants) + [Rename(f.oldControl, f.newControl), Rewrite]
  }

  /** What the script reads from pg_database at the start; the order does not matter. */
  ghost predicate Listing(f: Flags, dbs: Databases, tenants: seq<Name>) {
    forall n :: n in tenants <==> n in dbs && IsTenant(f, n)
  }

  predicate PlanStep(f: Flags, step: Step) {
    match step
    case Rename(src, dst) => (IsTenant(f, src) && dst == Swap(f, src)) || (src == f.oldControl && dst == f.newControl)
    case Rewrite => true
  }

  // ----- where everything ends up -----

  /** The database found under `n` once the migration is complete, if any, before the rows are
      rewritten: a database whose new name is taken stays where it is. */
  function Moved(f: Flags, dbs: Databases, n: Name): Option<Database> {
    if IsTenant(f, n) then
      if Swap(f, n) in dbs then Find(dbs, n) else None
    else if f.newPrefix <= n then
      if n in dbs then Find(dbs, n) else Find(dbs, Unswap(f, n))
    else if n == f.oldControl then
      if f.newControl in dbs then Find(dbs, n) else None
    else if n == f.newControl then
      if n in dbs then Find(dbs, n) else Find(dbs, f.oldControl)
    else Find(dbs, n)
  }

  function Final(f: Flags, dbs: Databases, n: Name): Option<Database> {
    var d := Moved(f, dbs, n);
    if n == f.newControl && d.Some? then Some(Rewritten(f, d.value)) else d
  }

  lemma TenantRenameKeepsFinal(f: Flags, dbs: Databases, src: Name, n: Name)
    requires Separate(f) && IsTenant(f, src)
    requires src in dbs && Swap(f, src) !in dbs
    ensures Moved(f, (dbs - {src})[Swap(f, src) := dbs[src]], n) == Moved(f, dbs, n)
  {
    SqlRewriteIsTheSwap(f, src);
    SqlRewriteIsTheSwap(f, n);
    OnePrefix(f, n);
    OnePrefix(f, src);
    OnePrefix(f, Swap(f, src));
  }

  lemma ControlRenameKeepsFinal(f: Flags, dbs: Databases, n: Name)
    requires Separate(f) && f.oldControl in dbs && f.newControl !in dbs
    ensures Moved(f, (dbs - {f.oldControl})[f.newControl := dbs[f.oldControl]], n) == Moved(f, dbs, n)
  {
    SqlRewriteIsTheSwap(f, n);
    OnePrefix(f, n);
  }

  lemma RewriteKeepsFinal(f: Flags, dbs: Databases, n: Name)
    requires Separate(f)
    ensures Final(f, Execute(f, dbs, Rewrite), n) == Final(f, dbs, n)
  {
    var c := ControlName(f, dbs);
    SqlRewriteIsTheSwap(f, n);
    OnePrefix(f, n);
    if c in dbs {
      RewrittenTwice(f, dbs[c]);
    }
  }

  /** No statement of the script changes where anything ends up. */
  lemma ExecuteKeepsFinal(f: Flags, dbs: Databases, step: Step, n: Name)
    requires Separate(f) && PlanStep(f, step)
    ensures Final(f, Execute(f, dbs, step), n) == Final(f, dbs, n)
  {
    if step.Rewrite? {
      RewriteKeepsFinal(f, dbs, n);
    } else if Execute(f, dbs, step) != dbs {
      if IsTenant(f, step.src) && step.dst == Swap(f, step.src) {
        TenantRenameKeepsFinal(f, dbs, step.src, n);
      } else {
        ControlRenameKeepsFinal(f, dbs, n);
      }
    }
  }

  lemma RewrittenTwice(f: Flags, db: Database)
    requires Separate(f)
    ensures Rewritten(f, Rewritten(f, db)) == Rewritten(f, db)
  {
    forall id | id in db.orgs
      ensures RewriteName(f, RewriteName(f, db.orgs[id])) == RewriteName(f, db.orgs[id])
    {
      SqlRewriteIsTheSwap(f, db.orgs[id]);
    }
    assert Rewritten(f, Rewritten(f, db)).orgs == Rewritten(f, db).orgs;
  }

  lemma {:induction false} ExecuteAllKeepsFinal(f: Flags, dbs: Databases, steps: seq<Step>, n: Name)
    requires Separate(f) && forall s :: s in steps ==> PlanStep(f, s)
    ensures Final(f, ExecuteAll(f, dbs, steps), n) == Final(f, dbs, n)
    decreases |steps|
  {
    if steps != [] && !Raises(steps[0]) {
      ExecuteKeepsFinal(f, dbs, steps[0], n);
      ExecuteAllKeepsFinal(f, Execute(f, dbs, steps[0]), steps[1..], n);
    }
  }

  // ----- complete runs -----

  /** No name the script would touch makes it raise. */
  ghost predicate AllSafe(f: Flags, dbs: Databases) {
    && Safe(f.oldControl) && Safe(f.newControl)
    && forall n :: n in dbs && IsTenant(f, n) ==> Safe(n) && Safe(Swap(f, n))
  }

  ghost predicate TenantsDone(f: Flags, dbs: Databases) {
    forall n :: n in dbs && IsTenant(f, n) ==> Swap(f, n) in dbs
  }

  ghost predicate Done(f: Flags, dbs: Databases) {
    && TenantsDone(f, dbs)
    && (f.oldControl in dbs ==> f.newControl in dbs)
    && (f.newControl in dbs ==> Rewritten(f, dbs[f.newControl]) == dbs[f.newControl])
  }

  lemma DoneIsFinal(f: Flags, dbs: Databases, n: Name)
    requires Separate(f) && Done(f, dbs)
    ensures Final(f, dbs, n) == Find(dbs, n)
  {
    OnePrefix(f, n);
    if f.newPrefix <= n {
      SqlRewriteIsTheSwap(f, n);
    }
  }

  lemma {:induction false} ExecuteAllSplits(f: Flags, dbs: Databases, a: seq<Step>, b: seq<Step>)
    requires forall s :: s in a ==> !Raises(s)
    ensures ExecuteAll(f, dbs, a + b) == ExecuteAll(f, ExecuteAll(f, dbs, a), b)
    decreases |a|
  {
    if a == [] {
      assert a + b == b;
    } else {
      assert (a + b)[0] == a[0] && (a + b)[1..] == a[1..] + b;
      ExecuteAllSplits(f, Execute(f, dbs, a[0]), a[1..], b);
    }
  }

  /** Renaming the tenants in any order leaves only those whose new name is taken. */
  lemma {:induction false} TenantsSettle(f: Flags, dbs: Databases, tenants: seq<Name>)
    requires Separate(f)
    requires forall n :: n in tenants ==> IsTenant(f, n) && Safe(n) && Safe(Swap(f, n))
    requires forall n :: n in dbs && IsTenant(f, n) ==> n in tenants || Swap(f, n) in dbs
    ensures TenantsDone(f, ExecuteAll(f, dbs, TenantSteps(f, tenants)))
    decreases |tenants|
  {
    if tenants != [] {
      var t, rest := tenants[0], tenants[1..];
      var steps := TenantSteps(f, tenants);
      var dbs' := Execute(f, dbs, steps[0]);
      assert steps[1..] == TenantSteps(f, rest);
      forall n | n in dbs' && IsTenant(f, n) ensures n in rest || Swap(f, n) in dbs' {
        OnePrefix(f, Swap(f, t));
        OnePrefix(f, Swap(f, n));
        SqlRewriteIsTheSwap(f, t);
        SqlRewriteIsTheSwap(f, n);
      }
      TenantsSettle(f, dbs', rest);
    }
  }

  /** An uninterrupted applied run. */
  function CompleteRun(f: Flags, dbs: Databases, tenants: seq<Name>): Databases
    requires forall n :: n in tenants ==> IsTenant(f, n)
  {
    ExecuteAll(f, dbs, Plan(f, tenants))
  }

  lemma ControlAndRowsSettle(f: Flags, dbs: Databases)
    requires Separate(f) && TenantsDone(f, dbs) && Safe(f.oldControl) && Safe(f.newControl)
    ensures Done(f, ExecuteAll(f, dbs, [Rename(f.oldControl, f.newControl), Rewrite]))
  {
    var steps := [Rename(f.oldControl, f.newControl), Rewrite];
    var d1 := Execute(f, dbs, steps[0]);
    var d2 := Execute(f, d1, Rewrite);
    assert steps[1..] == [Rewrite];
    assert [Rewrite][1..] == [];
    assert ExecuteAll(f, d1, [Rewrite]) == ExecuteAll(f, d2, []);
    assert ExecuteAll(f, dbs, steps) == d2;
    if f.newControl in d2 {
      RewrittenTwice(f, d1[f.newControl]);
    }
    forall n | n in d2 && IsTenant(f, n) ensures Swap(f, n) in d2 {
      SqlRewriteIsTheSwap(f, n);
    }
  }

  /** A complete run puts every database where the migration wants it. */
  lemma CompleteRunReachesFinal(f: Flags, dbs: Databases, tenants: seq<Name>)
    requires Separate(f) && AllSafe(f, dbs) && Listing(f, dbs, tenants)
    ensures forall n :: Find(CompleteRun(f, dbs, tenants), n) == Final(f, dbs, n)
  {
    var renames := TenantSteps(f, tenants);
    var last := [Rename(f.oldControl, f.newControl), Rewrite];
    TenantsSettle(f, dbs, tenants);
    forall s | s in renames ensures !Raises(s) && PlanStep(f, s) {}
    ExecuteAllSplits(f, dbs, renames, last);
    ControlAndRowsSettle(f, ExecuteAll(f, dbs, renames));
    forall n ensures Find(CompleteRun(f, dbs, tenants), n) == Final(f, dbs, n) {
      ExecuteAllKeepsFinal(f, dbs, Plan(f, tenants), n);
      DoneIsFinal(f, CompleteRun(f, dbs, tenants), n);
    }
  }

  // ----- interrupted runs -----

  /** A run that stopped after the first `stop` statements of its plan. */
  datatype Attempt = Attempt(tenants: seq<Name>, stop: nat)

  ghost predicate Plausible(f: Flags, attempts: seq<Attempt>) {
    forall a :: a in attempts ==> forall n :: n in a.tenants ==> IsTenant(f, n)
  }

  function Attempts(f: Flags, dbs: Databases, attempts: seq<Attempt>): Databases
    requires Plausible(f, attempts)
    decreases |attempts|
  {
    if attempts == [] then dbs
    else
      var a := attempts[0];
      var plan := Plan(f, a.tenants);
      Attempts(f, ExecuteAll(f, dbs, if a.stop <= |plan| then plan[..a.stop] else plan), attempts[1..])
  }

  lemma {:induction false} ExecuteAllAddsNoTenant(f: Flags, dbs: Databases, steps: seq<Step>, n: Name)
    requires Separate(f) && forall s :: s in steps ==> PlanStep(f, s)
    requires IsTenant(f, n) && n in ExecuteAll(f, dbs, steps)
    ensures n in dbs
    decreases |steps|
  {
    if steps != [] && !Raises(steps[0]) {
      ExecuteAllAddsNoTenant(f, Execute(f, dbs, steps[0]), steps[1..], n);
      if steps[0].Rename? {
        assert PlanStep(f, steps[0]);
        SqlRewriteIsTheSwap(f, steps[0].src);
        OnePrefix(f, steps[0].dst);
        assert !IsTenant(f, steps[0].dst);
      }
    }
  }

  lemma {:induction false} AttemptsKeepFinal(f: Flags, dbs: Databases, attempts: seq<Attempt>)
    requires Separate(f) && Plausible(f, attempts)
    ensures forall n :: Final(f, Attempts(f, dbs, attempts), n) == Final(f, dbs, n)
    ensures forall n :: IsTenant(f, n) && n in Attempts(f, dbs, attempts) ==> n in dbs
    decreases |attempts|
  {
    if attempts != [] {
      var a := attempts[0];
      var plan := Plan(f, a.tenants);
      var steps := if a.stop <= |plan| then plan[..a.stop] else plan;
      forall s | s in steps ensures PlanStep(f, s) {}
      var dbs' := ExecuteAll(f, dbs, steps);
      AttemptsKeepFinal(f, dbs', attempts[1..]);
      forall n ensures Final(f, dbs', n) == Final(f, dbs, n) { ExecuteAllKeepsFinal(f, dbs, steps, n); }
      forall n | IsTenant(f, n) && n in dbs' ensures n in dbs { ExecuteAllAddsNoTenant(f, dbs, steps, n); }
    }
  }

  /** Runs stopped anywhere, any number of times, then one complete run: the same databases and
      rows as one uninterrupted run, whether or not some names are in conflict. */
  lemma InterruptedRunsConverge(f: Flags, dbs: Databases, attempts: seq<Attempt>, before: seq<Name>, after: seq<Name>)
    requires Separate(f) && AllSafe(f, dbs) && Plausible(f, attempts)
    requires Listing(f, dbs, before) && Listing(f, Attempts(f, dbs, attempts), after)
    ensures CompleteRun(f, Attempts(f, dbs, attempts), after) == CompleteRun(f, dbs, before)
  {
    var mid := Attempts(f, dbs, attempts);
    AttemptsKeepFinal(f, dbs, attempts);
    CompleteRunReachesFinal(f, dbs, before);
    CompleteRunReachesFinal(f, mid, after);
    SameLookups(CompleteRun(f, mid, after), CompleteRun(f, dbs, before));
  }

  lemma SameLookups(a: Databases, b: Databases)
    requires forall n :: Find(a, n) == Find(b, n)
    ensures a == b
  {
    forall n ensures (n in a <==> n in b) && (n in a ==> a[n] == b[n]) {
      assert Find(a, n) == Find(b, n);
    }
  }

  /** A further run changes nothing. */
  lemma RerunChangesNothing(f: Flags, dbs: Databases, before: seq<Name>, after: seq<Name>)
    requires Separate(f) && AllSafe(f, dbs)
    requires Listing(f, dbs, before) && Listing(f, CompleteRun(f, dbs, before), after)
    ensures CompleteRun(f, CompleteRun(f, dbs, before), after) == CompleteRun(f, dbs, before)
  {
    var plan := Plan(f, before);
    var attempts := [Attempt(before, |plan|)];
    assert plan[..|plan|] == plan;
    assert attempts[1..] == [];
    assert Attempts(f, dbs, attempts) == Attempts(f, CompleteRun(f, dbs, before), []);
    InterruptedRunsConverge(f, dbs, attempts, before, after);
  }

  // ----- conservation and resolution -----

  /** Where a complete run leaves the database called `n`. */
  function Home(f: Flags, dbs: Databases, n: Name): Name {
    if IsTenant(f, n) && Swap(f, n) !in dbs then Swap(f, n)
    else if n == f.oldControl && f.newControl !in dbs then f.newControl
    else n
  }

  /** No database is lost or overwritten: each keeps its content under its own new name, and
      there are no others. */
  lemma EveryDatabaseIsConserved(f: Flags, dbs: Databases, tenants: seq<Name>)
    requires Separate(f) && AllSafe(f, dbs) && Listing(f, dbs, tenants)
    ensures var r := CompleteRun(f, dbs, tenants);
            && (forall n :: n in dbs ==> Home(f, dbs, n) in r && r[Home(f, dbs, n)].data == dbs[n].data)
            && (forall m, n :: m in dbs && n in dbs && m != n ==> Home(f, dbs, m) != Home(f, dbs, n))
            && (forall m :: m in r ==> exists n :: n in dbs && Home(f, dbs, n) == m)
  {
    var r := CompleteRun(f, dbs, tenants);
    CompleteRunReachesFinal(f, dbs, tenants);
    forall n | n in dbs ensures Home(f, dbs, n) in r && r[Home(f, dbs, n)].data == dbs[n].data {
      HomeIsFinal(f, dbs, n);
      assert Find(r, Home(f, dbs, n)) == Final(f, dbs, Home(f, dbs, n));
    }
    forall m, n | m in dbs && n in dbs && m != n ensures Home(f, dbs, m) != Home(f, dbs, n) {
      HomesDiffer(f, dbs, m, n);
    }
    forall m | m in r ensures exists n :: n in dbs && Home(f, dbs, n) == m {
      assert Find(r, m) == Final(f, dbs, m);
      HomeIsReached(f, dbs, m);
    }
  }

  lemma HomesDiffer(f: Flags, dbs: Databases, m: Name, n: Name)
    requires Separate(f) && m in dbs && n in dbs && m != n
    ensures Home(f, dbs, m) != Home(f, dbs, n)
  {
    SqlRewriteIsTheSwap(f, m);
    SqlRewriteIsTheSwap(f, n);
  }

  lemma HomeIsFinal(f: Flags, dbs: Databases, n: Name)
    requires Separate(f) && n in dbs
    ensures var d := Final(f, dbs, Home(f, dbs, n));
            d.Some? && d.value.data == dbs[n].data
  {
    OnePrefix(f, n);
    SqlRewriteIsTheSwap(f, n);
    if IsTenant(f, n) { OnePrefix(f, Swap(f, n)); }
  }

  lemma HomeIsReached(f: Flags, dbs: Databases, m: Name)
    requires Separate(f) && Final(f, dbs, m).Some?
    ensures exists n :: n in dbs && Home(f, dbs, n) == m
  {
    OnePrefix(f, m);
    SqlRewriteIsTheSwap(f, m);
    var n := if f.newPrefix <= m && m !in dbs then Unswap(f, m)
             else if m == f.newControl && m !in dbs then f.oldControl else m;
    assert n in dbs && Home(f, dbs, n) == m;
  }

  /** What an organization row resolves to. */
  function Resolve(dbs: Databases, n: Name): Option<nat> {
    if n in dbs then Some(dbs[n].data) else None
  }

  /** After a complete run every organization row holds its rewritten name. */
  lemma RowsAreRewritten(f: Flags, dbs: Databases, tenants: seq<Name>)
    requires Separate(f) && AllSafe(f, dbs) && Listing(f, dbs, tenants)
    requires ControlName(f, dbs) in dbs
    ensures var r := CompleteRun(f, dbs, tenants);
            f.newControl in r && r[f.newControl] == Rewritten(f, dbs[ControlName(f, dbs)])
  {
    CompleteRunReachesFinal(f, dbs, tenants);
    var r := CompleteRun(f, dbs, tenants);
    assert Find(r, f.newControl) == Final(f, dbs, f.newControl);
  }

  /** A row that resolved still resolves to the same content exactly when its new name was not
      already taken by a database of other content. (A row naming the control database itself
      is not rewritten while that database moves.) */
  lemma RowResolvesAsBefore(f: Flags, dbs: Databases, tenants: seq<Name>, n: Name)
    requires Separate(f) && AllSafe(f, dbs) && Listing(f, dbs, tenants)
    requires n in dbs
    ensures Resolve(CompleteRun(f, dbs, tenants), RewriteName(f, n)) == Resolve(dbs, n) <==>
            && (IsTenant(f, n) && Swap(f, n) in dbs ==> dbs[Swap(f, n)].data == dbs[n].data)
            && (n == f.oldControl ==> f.newControl in dbs)
  {
    var r := CompleteRun(f, dbs, tenants);
    CompleteRunReachesFinal(f, dbs, tenants);
    SqlRewriteIsTheSwap(f, n);
    OnePrefix(f, n);
    var m := RewriteName(f, n);
    OnePrefix(f, m);
    assert Find(r, m) == Final(f, dbs, m);
    if IsTenant(f, n) { OnePrefix(f, Swap(f, n)); }
  }

  /** The flags' defaults. */
  const DEFAULTS := Flags("account_payables", "feohledger", "ap_", "feoh_")

  lemma DefaultsAreSeparate()
    ensures Separate(DEFAULTS)
  {
    assert "ap_"[0] == 'a' && "feoh_"[0] == 'f';
    assert "account_payables"[1] == 'c' && "feohledger"[0] == 'f' && "feohledger"[4] == 'l';
  }

  lemma DefaultsAreSafe()
    ensures Safe(DEFAULTS.oldControl) && Safe(DEFAULTS.newControl) && Safe("ap_x") && Safe("feoh_x")
  {
  }

  lemma TenantUnderDefaults(n: Name)
    requires n == "ap_x" || n == "feoh_x" || n == "account_payables"
    ensures IsTenant(DEFAULTS, n) <==> n == "ap_x"
  {
    assert "account_payables"[1] == 'c' && "feoh_x"[0] == 'f' && "ap_x"[..3] == "ap_";
  }

  lemma SwapUnderDefaults()
    ensures IsTenant(DEFAULTS, "ap_x") && Swap(DEFAULTS, "ap_x") == "feoh_x"
  {
    assert "ap_x"[..3] == "ap_" && "ap_x"[3..] == "x";
  }

  /** A state in conflict: one tenant's database exists under both names. */
  function InConflict(mine: nat, other: nat, org: OrgId): Databases {
    map["account_payables" := Database(0, map[org := "ap_x"]), "ap_x" := Database(mine, map[]),
        "feoh_x" := Database(other, map[])]
  }

  /** Its organization row is rewritten and then resolves to the other database. */
  lemma ConflictRepointsARow(mine: nat, other: nat, org: OrgId)
    requires mine != other
    ensures var f, dbs := DEFAULTS, InConflict(mine, other, org);
            && Separate(f) && AllSafe(f, dbs) && Listing(f, dbs, ["ap_x"]) && IsTenant(f, "ap_x")
            && var r := CompleteRun(f, dbs, ["ap_x"]);
            && "feohledger" in r && r["feohledger"].orgs == map[org := "feoh_x"]
            && Resolve(dbs, "ap_x") == Some(mine) && Resolve(r, "feoh_x") == Some(other)
  {
    var f, dbs := DEFAULTS, InConflict(mine, other, org);
    DefaultsAreSeparate();
    DefaultsAreSafe();
    SwapUnderDefaults();
    forall n | n in dbs ensures IsTenant(f, n) <==> n == "ap_x" {
      TenantUnderDefaults(n);
    }
    assert Listing(f, dbs, ["ap_x"]);
    SqlRewriteIsTheSwap(f, "ap_x");
    RowsAreRewritten(f, dbs, ["ap_x"]);
    RowResolvesAsBefore(f, dbs, ["ap_x"], "feoh_x");
    OnePrefix(f, "feoh_x");
    SqlRewriteIsTheSwap(f, "feoh_x");
  }

  // ----- the script -----

  datatype Status = Raised | Conflict | AlreadyRenamed | NotPresent | WouldRename | Renamed
  datatype Exit = Crash | Code(n: nat)

  /** `_rename_database`'s report. */
  function Report(dbs: Databases, src: Name, dst: Name, apply: bool): Status {
    if !(Safe(src) && Safe(dst)) then Raised
    else if dst in dbs then if src in dbs then Conflict else AlreadyRenamed
    else if src !in dbs then NotPresent
    else if !apply then WouldRename
    else Renamed
  }

  class Postgres {
    var dbs: Databases

    constructor (dbs: Databases)
      ensures this.dbs == dbs
    {
      this.dbs := dbs;
    }

    method RenameDatabase(f: Flags, src: Name, dst: Name, apply: bool) returns (status: Status)
      modifies this
      ensures status == Report(old(dbs), src, dst, apply)
      ensures status == Raised <==> !(Safe(src) && Safe(dst))
      ensures status == Conflict <==> Safe(src) && Safe(dst) && src in old(dbs) && dst in old(dbs)
      ensures status == AlreadyRenamed <==> Safe(src) && Safe(dst) && src !in old(dbs) && dst in old(dbs)
      ensures status == NotPresent <==> Safe(src) && Safe(dst) && src !in old(dbs) && dst !in old(dbs)
      ensures status == Renamed <==> apply && Safe(src) && Safe(dst) && src in old(dbs) && dst !in old(dbs)
      ensures dbs == if status == Renamed then (old(dbs) - {src})[dst := old(dbs)[src]] else old(dbs)
      ensures dbs == if apply then Execute(f, old(dbs), Rename(src, dst)) else old(dbs)
    {
      if !Safe(src) || !Safe(dst) {
        return Raised;
      }
      if dst in dbs {
        return if src in dbs then Conflict else AlreadyRenamed;
      }
      if src !in dbs {
        return NotPresent;
      }
      if !apply {
        return WouldRename;
      }
      dbs := (dbs - {src})[dst := dbs[src]];
      status := Renamed;
    }

    method RewriteOrgDbNames(f: Flags, apply: bool)
      modifies this
      ensures dbs == if apply then Execute(f, old(dbs), Rewrite) else old(dbs)
    {
      var control := ControlName(f, dbs);
      if control !in dbs {
        return;
      }
      var db := dbs[control];
      var stale := set id | id in db.orgs && SqlLeft(db.orgs[id], |f.oldPrefix|) == f.oldPrefix;
      if stale == {} {
        assert forall id :: id in db.orgs ==> id !in stale;
        assert Rewritten(f, db).orgs == db.orgs;
        assert dbs[control := Rewritten(f, db)] == dbs;
        return;
      }
      if apply {
        dbs := dbs[control := Rewritten(f, db)];
      }
    }

    /** The tenant databases of pg_database. */
    method TenantDatabases(f: Flags) returns (tenants: seq<Name>)
      ensures Listing(f, dbs, tenants)
      ensures forall i, j | 0 <= i < j < |tenants| :: tenants[i] != tenants[j]
    {
      tenants := [];
      var names := dbs.Keys;
      while names != {}
        invariant names <= dbs.Keys
        invariant forall n :: n in tenants <==> n in dbs && n !in names && IsTenant(f, n)
        invariant forall i, j | 0 <= i < j < |tenants| :: tenants[i] != tenants[j]
        decreases |names|
      {
        var n :| n in names;
        names := names - {n};
        if f.oldPrefix <= n {
          tenants := tenants + [n];
        }
      }
    }

    /** The loop over the tenant databases. It stops at the first name that is not safe; the
        conflicts it counts are the tenants whose new name exists. */
    method RenameTenants(f: Flags, tenants: seq<Name>, apply: bool) returns (crashed: bool, conflicts: nat)
      requires Listing(f, dbs, tenants)
      requires forall i, j | 0 <= i < j < |tenants| :: tenants[i] != tenants[j]
      modifies this
      ensures dbs == if apply then ExecuteAll(f, old(dbs), TenantSteps(f, tenants)) else old(dbs)
      ensures crashed <==> exists n :: n in tenants && !(Safe(n) && Safe(Swap(f, n)))
      ensures !apply && !crashed ==> (conflicts > 0 <==> exists n :: n in tenants && Swap(f, n) in old(dbs))
      ensures apply && Separate(f) && !crashed ==>
                (conflicts > 0 <==> exists n :: n in dbs && IsTenant(f, n))
    {
      crashed, conflicts := false, 0;
      ghost var steps := TenantSteps(f, tenants);
      for i := 0 to |tenants|
        invariant dbs == if apply then ExecuteAll(f, old(dbs), steps[..i]) else old(dbs)
        invariant forall s :: s in steps[..i] ==> !Raises(s)
        invariant !apply ==> (conflicts > 0 <==> exists k :: 0 <= k < i && Swap(f, tenants[k]) in old(dbs))
        invariant apply && Separate(f) ==> ConflictsAmong(f, dbs, tenants, i, conflicts)
      {
        var n := tenants[i];
        assert n in tenants;
        assert steps[..i + 1] == steps[..i] + [steps[i]];
        ExecuteAllExtends(f, old(dbs), steps[..i], steps[i]);
        ghost var before := dbs;
        var status := RenameDatabase(f, n, f.newPrefix + n[|f.oldPrefix|..], apply);
        if status == Raised {
          ExecuteAllStops(f, old(dbs), steps, i);
          return true, conflicts;
        }
        if apply && Separate(f) {
          ConflictsAmongMore(f, before, tenants, i, conflicts);
        }
        if status == Conflict {
          conflicts := conflicts + 1;
        }
      }
      assert steps[..|tenants|] == steps;
      NoneRaises(f, tenants);
    }

    /** `main`, past argument parsing and the connection. It crashes exactly when a name it would touch
        is not safe; an applied run makes every statement of its plan up to that point. Otherwise a dry
        run's exit code tells whether both names of something exist, an applied run's whether some
        database kept its old name. */
    method MigrateNames(f: Flags, apply: bool) returns (exit: Exit)
      modifies this
      ensures !apply ==> dbs == old(dbs)
      ensures apply ==>
                exists tenants :: Listing(f, old(dbs), tenants) && dbs == CompleteRun(f, old(dbs), tenants)
      ensures exit.Crash? <==> !AllSafe(f, old(dbs))
      ensures !apply && exit.Code? ==>
                exit.n == if (f.oldControl in dbs && f.newControl in dbs)
                             || exists n :: n in dbs && IsTenant(f, n) && Swap(f, n) in dbs
                          then 1 else 0
      ensures apply && exit.Code? && Separate(f) ==>
                exit.n == if f.oldControl in dbs || exists n :: n in dbs && IsTenant(f, n) then 1 else 0
    {
      var tenants := TenantDatabases(f);
      var crashed, conflicts := RenameTenants(f, tenants, apply);
      CompleteRunParts(f, old(dbs), tenants);
      if crashed {
        return Crash;
      }
      var status := RenameDatabase(f, f.oldControl, f.newControl, apply);
      if status == Raised {
        return Crash;
      }
      if status == Conflict {
        conflicts := conflicts + 1;
      }
      RewriteOrgDbNames(f, apply);
      exit := Code(if conflicts > 0 then 1 else 0);
    }
  }

  /** A complete run up to where it dies: among the tenants, at the control plane, or nowhere. */
  lemma CompleteRunParts(f: Flags, dbs: Databases, tenants: seq<Name>)
    requires forall n :: n in tenants ==> IsTenant(f, n)
    ensures var d := ExecuteAll(f, dbs, TenantSteps(f, tenants));
            CompleteRun(f, dbs, tenants) ==
            if (exists n :: n in tenants && !(Safe(n) && Safe(Swap(f, n))))
               || !(Safe(f.oldControl) && Safe(f.newControl))
            then d
            else Execute(f, Execute(f, d, Rename(f.oldControl, f.newControl)), Rewrite)
  {
    var steps, last := TenantSteps(f, tenants), [Rename(f.oldControl, f.newControl), Rewrite];
    if n :| n in tenants && !(Safe(n) && Safe(Swap(f, n))) {
      var i :| 0 <= i < |tenants| && tenants[i] == n;
      assert steps[i] in steps && Raises(steps[i]);
      StopsWithin(f, dbs, steps, last);
    } else {
      forall s | s in steps ensures !Raises(s) {}
      ExecuteAllSplits(f, dbs, steps, last);
      assert last[1..] == [Rewrite] && [Rewrite][1..] == [];
    }
  }

  lemma NoneRaises(f: Flags, tenants: seq<Name>)
    requires forall n :: n in tenants ==> IsTenant(f, n)
    requires forall s :: s in TenantSteps(f, tenants) ==> !Raises(s)
    ensures forall n :: n in tenants ==> Safe(n) && Safe(Swap(f, n))
  {
    var steps := TenantSteps(f, tenants);
    forall n | n in tenants ensures Safe(n) && Safe(Swap(f, n)) {
      var i :| 0 <= i < |tenants| && tenants[i] == n;
      assert steps[i] in steps;
    }
  }

  lemma {:induction false} ExecuteAllStops(f: Flags, dbs: Databases, steps: seq<Step>, i: nat)
    requires i < |steps| && Raises(steps[i])
    requires forall s :: s in steps[..i] ==> !Raises(s)
    ensures ExecuteAll(f, dbs, steps) == ExecuteAll(f, dbs, steps[..i])
    decreases i
  {
    if i > 0 {
      assert steps[0] in steps[..i];
      assert steps[..i][1..] == steps[1..][..i - 1];
      ExecuteAllStops(f, Execute(f, dbs, steps[0]), steps[1..], i - 1);
    }
  }

  /** A list that dies on the way dies there whatever follows. */
  lemma {:induction false} StopsWithin(f: Flags, dbs: Databases, steps: seq<Step>, more: seq<Step>)
    requires exists s :: s in steps && Raises(s)
    ensures ExecuteAll(f, dbs, steps + more) == ExecuteAll(f, dbs, steps)
    decreases |steps|
  {
    assert (steps + more)[0] == steps[0] && (steps + more)[1..] == steps[1..] + more;
    if !Raises(steps[0]) {
      var s :| s in steps && Raises(s);
      assert s in steps[1..];
      StopsWithin(f, Execute(f, dbs, steps[0]), steps[1..], more);
    }
  }

  /** Only listed tenants are left, and a conflict was counted exactly when one of the first `i` is. */
  ghost predicate ConflictsAmong(f: Flags, dbs: Databases, tenants: seq<Name>, i: nat, conflicts: nat)
    requires i <= |tenants|
  {
    && (forall n :: n in dbs && IsTenant(f, n) ==> n in tenants)
    && (conflicts > 0 <==> exists k :: 0 <= k < i && tenants[k] in dbs)
  }

  lemma ConflictsAmongMore(f: Flags, dbs: Databases, tenants: seq<Name>, i: nat, conflicts: nat)
    requires Separate(f) && i < |tenants| && ConflictsAmong(f, dbs, tenants, i, conflicts)
    requires forall n :: n in tenants ==> IsTenant(f, n)
    requires forall j, k | 0 <= j < k < |tenants| :: tenants[j] != tenants[k]
    requires Safe(tenants[i]) && Safe(Swap(f, tenants[i]))
    ensures var n := tenants[i];
            var conflict := Report(dbs, n, Swap(f, n), true) == Conflict;
            ConflictsAmong(f, Execute(f, dbs, Rename(n, Swap(f, n))),
                            tenants, i + 1, conflicts + if conflict then 1 else 0)
  {
    var n := tenants[i];
    var dbs' := Execute(f, dbs, Rename(n, Swap(f, n)));
    RenamingOneTenant(f, dbs, n);
    forall m | m in dbs' && IsTenant(f, m) ensures m in tenants {}
    forall k | 0 <= k < i ensures tenants[k] in dbs' <==> tenants[k] in dbs {
      assert tenants[k] in tenants && tenants[k] != n;
    }
    if k :| 0 <= k < i && tenants[k] in dbs {
      assert 0 <= k < i + 1 && tenants[k] in dbs';
    }
    if k :| 0 <= k < i + 1 && tenants[k] in dbs' {
      assert k < i ==> tenants[k] in dbs;
    }
  }

  /** Renaming one tenant touches no other, adds none, and keeps it exactly in a conflict. */
  lemma RenamingOneTenant(f: Flags, dbs: Databases, n: Name)
    requires Separate(f) && IsTenant(f, n) && Safe(n) && Safe(Swap(f, n))
    ensures var dbs' := Execute(f, dbs, Rename(n, Swap(f, n)));
            && (n in dbs' <==> Report(dbs, n, Swap(f, n), true) == Conflict)
            && (forall m :: IsTenant(f, m) && m != n ==> (m in dbs' <==> m in dbs))
  {
    SwapLeavesTenants(f, n);
  }

  lemma SwapLeavesTenants(f: Flags, n: Name)
    requires Separate(f) && IsTenant(f, n)
    ensures !IsTenant(f, Swap(f, n)) && Swap(f, n) != n
  {
    OnePrefix(f, Swap(f, n));
    assert f.newPrefix <= Swap(f, n);
  }

  /** The databases that keep their old name are those whose new name was taken. */
  lemma LeftoversAreConflicts(f: Flags, dbs: Databases, tenants: seq<Name>, n: Name)
    requires Separate(f) && AllSafe(f, dbs) && Listing(f, dbs, tenants)
    ensures IsTenant(f, n) ==> (n in CompleteRun(f, dbs, tenants) <==> n in dbs && Swap(f, n) in dbs)
    ensures f.oldControl in CompleteRun(f, dbs, tenants) <==> f.oldControl in dbs && f.newControl in dbs
  {
    CompleteRunReachesFinal(f, dbs, tenants);
    assert Find(CompleteRun(f, dbs, tenants), n) == Final(f, dbs, n);
    assert Find(CompleteRun(f, dbs, tenants), f.oldControl) == Final(f, dbs, f.oldControl);
  }

  lemma ExecuteAllExtends(f: Flags, dbs: Databases, steps: seq<Step>, step: Step)
    requires forall s :: s in steps ==> !Raises(s)
    ensures ExecuteAll(f, dbs, steps + [step]) ==
            var d := ExecuteAll(f, dbs, steps); if Raises(step) then d else Execute(f, d, step)
  {
    ExecuteAllSplits(f, dbs, steps, [step]);
    var d := ExecuteAll(f, dbs, steps);
    assert [step][1..] == [];
    if !Raises(step) {
      assert ExecuteAll(f, d, [step]) == ExecuteAll(f, Execute(f, d, step), []);
    }
  }
}
