/** The fake ERP's Merge.dev surface: invoice creation under idempotency keys, forced statuses,
    reset, and two-page cursor pagination. */
module FakeErp {
  import opened Options

  // ----- ids -----

  function Decimal(n: nat): string {
    if n < 10 then [('0' as int + n) as char] else Decimal(n / 10) + [('0' as int + n % 10) as char]
  }

  function Value(s: string): int {
    if s == "" then 0 else 10 * Value(s[..|s| - 1]) + (s[|s| - 1] as int - '0' as int)
  }

  lemma {:induction false} DecimalDecodes(n: nat)
    ensures Value(Decimal(n)) == n
  {
    if n >= 10 {
      DecimalDecodes(n / 10);
      assert Decimal(n)[..|Decimal(n)| - 1] == Decimal(n / 10);
    } else {
      assert Decimal(n)[..0] == "";
    }
  }

  const PREFIX := "merge-inv-"

  function InvoiceId(n: nat): string {
    PREFIX + Decimal(n)
  }

  lemma InvoiceIdsDiffer(m: nat, n: nat)
    ensures InvoiceId(m) == InvoiceId(n) ==> m == n
  {
    DecimalDecodes(m);
    DecimalDecodes(n);
    assert InvoiceId(m)[|PREFIX|..] == Decimal(m) && InvoiceId(n)[|PREFIX|..] == Decimal(n);
  }

  // ----- state -----

  /** `details` stands for the model's own fields. */
  datatype Record = Record(id: string, status: string, details: nat)

  /** `cached` holds the response body of each used key: a copy, not the stored record. */
  datatype State = State(counter: nat, invoices: map<string, Record>, cached: map<string, Record>)

  datatype Response = Unauthorized | BadRequest | NotFound | Ok(body: Record) | Created(body: Record) | Done

  datatype Request =
    | Create(authorized: bool, key: string, model: Option<nat>)
    | SetStatus(id: string, status: string)
    | Get(authorized: bool, id: string)
    | Reset

  function Fresh(): State {
    State(0, map[], map[])
  }

  function Handle(s: State, r: Request): (State, Response) {
    match r
    case Create(authorized, key, model) =>
      if !authorized then (s, Unauthorized)
      else if model.None? then (s, BadRequest)
      else if key != "" && key in s.cached then (s, Ok(s.cached[key]))
      else
        var n := s.counter + 1;
        var record := Record(InvoiceId(n), "OPEN", model.value);
        (State(n, s.invoices[record.id := record], if key == "" then s.cached else s.cached[key := record]),
         Created(record))
    case SetStatus(id, status) =>
      if id == "" || status == "" then (s, BadRequest)
      else if id !in s.invoices then (s, NotFound)
      else (s.(invoices := s.invoices[id := s.invoices[id].(status := status)]), Done)
    case Get(authorized, id) =>
      if !authorized then (s, Unauthorized)
      else if id !in s.invoices then (s, NotFound)
      else (s, Ok(s.invoices[id]))
    case Reset => (Fresh(), Done)
  }

  function Run(s: State, rs: seq<Request>): State
    decreases |rs|
  {
    if rs == [] then s else Run(Handle(s, rs[0]).0, rs[1..])
  }

  class FakeMerge {
    var counter: nat
    var invoices: map<string, Record>
    var cached: map<string, Record>

    constructor ()
      ensures View() == Fresh()
    {
      counter, invoices, cached := 0, map[], map[];
    }

    function View(): State
      reads this
    {
      State(counter, invoices, cached)
    }

    method CreateInvoice(authorized: bool, key: string, model: Option<nat>) returns (response: Response)
      modifies this
      ensures (View(), response) == Handle(old(View()), Create(authorized, key, model))
      ensures !authorized ==> response == Unauthorized && View() == old(View())
      ensures authorized && model.None? ==> response == BadRequest && View() == old(View())
      ensures authorized && model.Some? && key != "" && key in old(cached) ==>
                response == Ok(old(cached)[key]) && View() == old(View())
      ensures authorized && model.Some? && !(key != "" && key in old(cached)) ==>
                var record := Record("merge-inv-" + Decimal(old(counter) + 1), "OPEN", model.value);
                && response == Created(record)
                && counter == old(counter) + 1 && invoices == old(invoices)[record.id := record]
                && cached == if key != "" then old(cached)[key := record] else old(cached)
    {
      if !authorized {
        return Unauthorized;
      }
      if model.None? {
        return BadRequest;
      }
      if key != "" {
        if key in cached {
          return Ok(cached[key]);
        }
      }
      counter := counter + 1;
      var record := Record(InvoiceId(counter), "OPEN", model.value);
      invoices := invoices[record.id := record];
      if key != "" {
        cached := cached[key := record];
      }
      response := Created(record);
    }

    method ForceStatus(id: string, status: string) returns (response: Response)
      modifies this
      ensures (View(), response) == Handle(old(View()), SetStatus(id, status))
      ensures counter == old(counter) && cached == old(cached)
      ensures response == BadRequest <==> id == "" || status == ""
      ensures response == Done <==> id != "" && status != "" && id in old(invoices)
      ensures response == BadRequest || response == NotFound || response == Done
      ensures response != Done ==> invoices == old(invoices)
      ensures response == Done ==>
                invoices == old(invoices)[id := Record(old(invoices)[id].id, status, old(invoices)[id].details)]
    {
      if id == "" || status == "" {
        return BadRequest;
      }
      if id !in invoices {
        return NotFound;
      }
      invoices := invoices[id := invoices[id].(status := status)];
      response := Done;
    }

    method ResetState() returns (response: Response)
      modifies this
      ensures (View(), response) == Handle(old(View()), Request.Reset)
      ensures counter == 0 && invoices == map[] && cached == map[] && response == Done
    {
      counter, invoices, cached := 0, map[], map[];
      response := Done;
    }
  }

  lemma {:induction false} RunThen(s: State, rs: seq<Request>, r: Request)
    ensures Run(s, rs + [r]) == Handle(Run(s, rs), r).0
    decreases |rs|
  {
    if rs == [] {
      assert [] + [r] == [r] && [r][1..] == [];
      assert Run(s, [r]) == Run(Handle(s, r).0, []);
    } else {
      assert (rs + [r])[1..] == rs[1..] + [r];
      RunThen(Handle(s, rs[0]).0, rs[1..], r);
    }
  }

  /** What an authorized reader of an invoice is answered. */
  function Served(s: State, id: string): Option<Record> {
    var response := Handle(s, Get(true, id)).1;
    if response.Ok? then Some(response.body) else None
  }

  /** Reading changes nothing. A created invoice is served, open and with the fields it was sent; a
      forced status is served with those same fields; and nothing else changes what is served. */
  lemma WhatIsServed(s: State, r: Request, id: string)
    requires IdsOk(s) && CacheOk(s)
    ensures forall authorized :: Handle(s, Get(authorized, id)).0 == s
    ensures Handle(s, Get(false, id)).1 == Unauthorized
    ensures var (s', response) := Handle(s, r);
            Served(s', id) ==
            if r.Reset? then None
            else if r.Create? && response.Created? && response.body.id == id
            then Some(Record(id, "OPEN", r.model.value))
            else if r.SetStatus? && r.id == id && r.status != "" && id != "" && Served(s, id).Some?
            then Some(Record(id, r.status, Served(s, id).value.details))
            else Served(s, id)
  {
    if r.Create? && Handle(s, r).1.Created? {
      NextIdIsNew(s);
    }
  }

  /** The counter only moves by creating, and only a reset takes it back. */
  lemma WhoMovesTheCounter(s: State, r: Request)
    ensures var (s', response) := Handle(s, r);
            s'.counter == if r.Reset? then 0 else if response.Created? then s.counter + 1 else s.counter
  {
  }

  // ----- what every reachable state satisfies -----

  /** The stored ids are exactly the first `counter` ones. */
  ghost predicate IdsOk(s: State) {
    && (forall id :: id in s.invoices <==> exists n: nat :: 1 <= n <= s.counter && id == InvoiceId(n))
    && (forall id :: id in s.invoices ==> s.invoices[id].id == id)
  }

  /** Each cached body is an open copy of its own stored invoice. */
  ghost predicate CacheOk(s: State) {
    && (forall k :: k in s.cached ==>
          && s.cached[k].id in s.invoices
          && s.cached[k] == s.invoices[s.cached[k].id].(status := "OPEN"))
    && (forall k, l :: k in s.cached && l in s.cached && s.cached[k].id == s.cached[l].id ==> k == l)
  }

  lemma NextIdIsNew(s: State)
    requires IdsOk(s)
    ensures InvoiceId(s.counter + 1) !in s.invoices
  {
    if InvoiceId(s.counter + 1) in s.invoices {
      var n: nat :| 1 <= n <= s.counter && InvoiceId(s.counter + 1) == InvoiceId(n);
      InvoiceIdsDiffer(s.counter + 1, n);
      assert false;
    }
  }

  /** The state after an invoice was really created. */
  function Stored(s: State, key: string, record: Record): State {
    State(s.counter + 1, s.invoices[record.id := record], if key == "" then s.cached else s.cached[key := record])
  }

  lemma StoredKeepsIds(s: State, key: string, record: Record)
    requires IdsOk(s) && record.id == InvoiceId(s.counter + 1)
    ensures IdsOk(Stored(s, key, record))
  {
    var s' := Stored(s, key, record);
    forall id ensures id in s'.invoices <==> exists n: nat :: 1 <= n <= s'.counter && id == InvoiceId(n) {
      if id == record.id {
        assert 1 <= s.counter + 1 <= s'.counter;
      }
      if n: nat :| 1 <= n <= s'.counter && id == InvoiceId(n) {
        assert n == s.counter + 1 || 1 <= n <= s.counter;
      }
    }
  }

  lemma StoredKeepsCache(s: State, key: string, record: Record)
    requires CacheOk(s) && key !in s.cached && record.id !in s.invoices && record.status == "OPEN"
    ensures CacheOk(Stored(s, key, record))
  {
  }

  lemma HandleKeeps(s: State, r: Request)
    requires IdsOk(s) && CacheOk(s)
    ensures IdsOk(Handle(s, r).0) && CacheOk(Handle(s, r).0)
  {
    if r.Create? && Handle(s, r).1.Created? {
      NextIdIsNew(s);
      var record := Handle(s, r).1.body;
      if r.key == "" {
        StoredKeepsIds(s, r.key, record);
        StoredKeepsCacheWithoutKey(s, record);
      } else {
        StoredKeepsIds(s, r.key, record);
        StoredKeepsCache(s, r.key, record);
      }
    } else if r.SetStatus? && Handle(s, r).1.Done? {
      StatusKeepsCache(s, r.id, r.status);
    }
  }

  lemma StoredKeepsCacheWithoutKey(s: State, record: Record)
    requires CacheOk(s) && record.id !in s.invoices
    ensures CacheOk(Stored(s, "", record))
  {
  }

  lemma StatusKeepsCache(s: State, id: string, status: string)
    requires IdsOk(s) && CacheOk(s) && id in s.invoices
    ensures var s' := s.(invoices := s.invoices[id := s.invoices[id].(status := status)]);
            IdsOk(s') && CacheOk(s')
  {
  }

  lemma {:induction false} RunKeeps(s: State, rs: seq<Request>)
    requires IdsOk(s) && CacheOk(s)
    ensures IdsOk(Run(s, rs)) && CacheOk(Run(s, rs))
    decreases |rs|
  {
    if rs != [] {
      HandleKeeps(s, rs[0]);
      RunKeeps(Handle(s, rs[0]).0, rs[1..]);
    }
  }

  /** In every reachable state the invoice ids are exactly 1..counter, and the cached bodies are
      open copies of distinct stored invoices, whatever statuses were forced since. */
  lemma ReachableStatesAreConsistent(rs: seq<Request>)
    ensures IdsOk(Run(Fresh(), rs)) && CacheOk(Run(Fresh(), rs))
    ensures |Run(Fresh(), rs).invoices| == Run(Fresh(), rs).counter
  {
    RunKeeps(Fresh(), rs);
    CountIds(Run(Fresh(), rs).invoices.Keys, Run(Fresh(), rs).counter);
  }

  lemma {:induction false} CountIds(ids: set<string>, counter: nat)
    requires forall id :: id in ids <==> exists n: nat :: 1 <= n <= counter && id == InvoiceId(n)
    ensures |ids| == counter
  {
    if counter == 0 {
      assert ids == {};
    } else {
      var last := InvoiceId(counter);
      var rest := ids - {last};
      assert last in ids;
      forall id ensures id in rest <==> exists n: nat :: 1 <= n <= counter - 1 && id == InvoiceId(n) {
        if n: nat :| 1 <= n <= counter - 1 && id == InvoiceId(n) {
          InvoiceIdsDiffer(n, counter);
          assert 1 <= n <= counter;
        }
      }
      CountIds(rest, counter - 1);
    }
  }

  /** A key, once used, answers with its first response and creates nothing, until a reset. */
  lemma {:induction false} RetryReturnsTheOriginal(s: State, rs: seq<Request>, key: string, model: nat)
    requires key != "" && key in s.cached && forall r :: r in rs ==> !r.Reset?
    ensures var s' := Run(s, rs);
            Handle(s', Create(true, key, Some(model))) == (s', Ok(s.cached[key]))
    decreases |rs|
  {
    if rs != [] {
      assert !rs[0].Reset?;
      RetryReturnsTheOriginal(Handle(s, rs[0]).0, rs[1..], key, model);
    }
  }

  // ----- pagination -----

  datatype Page<T> = Page(next: Option<string>, results: seq<T>)

  /** `_merge_paginate` */
  function Paginate<T>(items: seq<T>, cursor: Option<string>, marker: string): (page: Page<T>)
    ensures cursor.Some? && cursor.value != marker ==> page.results == [] && page.next.None?
    ensures |page.results| <= 2 || cursor.Some?
  {
    if cursor.None? then
      Page(if |items| > 2 then Some(marker) else None, if |items| > 2 then items[..2] else items)
    else if cursor.value == marker then
      Page(None, if |items| > 2 then items[2..] else [])
    else Page(None, [])
  }

  /** The adapter's loop over a paginated list: at most ten pages, stopping at a missing or empty
      cursor. It sees every item once, in order, exactly when the marker can be told from a
      missing cursor or one page is enough. */
  method FollowCursors<T(==)>(items: seq<T>, marker: string) returns (seen: seq<T>)
    ensures seen == if marker == "" && |items| > 2 then items[..2] else items
    ensures seen == items <==> marker != "" || |items| <= 2
  {
    seen := [];
    var cursor: Option<string> := None;
    for i := 0 to 10
      invariant i == 0 ==> cursor.None? && seen == []
      invariant i > 0 ==> i == 1 && cursor == Some(marker) && marker != "" && |items| > 2 && seen == items[..2]
    {
      var page := Paginate(items, cursor, marker);
      seen := seen + page.results;
      cursor := page.next;
      if cursor.None? || cursor.value == "" {
        break;
      }
    }
  }
}
