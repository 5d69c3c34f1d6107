/** Redis sorted sets as ZADD, ZCARD, ZRANGE and ZREM see them: a sequence of
    entries ordered by score and, for equal scores, by member. A token identifier
    (JTI) is a number whose order is the byte order Redis gives to members. */
module SortedSets {
  import opened Options

  type Jti = nat
  datatype Entry = Entry(jti: Jti, score: real)
  type ZSet = seq<Entry>

  predicate Before(a: Entry, b: Entry) {
    a.score < b.score || (a.score == b.score && a.jti < b.jti)
  }

  predicate Ordered(z: ZSet) {
    forall i, j | 0 <= i < j < |z| :: Before(z[i], z[j])
  }

  predicate Distinct(z: ZSet) {
    forall i, j | 0 <= i < j < |z| :: z[i].jti != z[j].jti
  }

  predicate Valid(z: ZSet) {
    Ordered(z) && Distinct(z)
  }

  function Jtis(z: ZSet): set<Jti> {
    set e | e in z :: e.jti
  }

  /** ZREM: what stays once the members of `gone` are taken out. */
  function Remove(z: ZSet, gone: set<Jti>): (r: ZSet)
    ensures forall e :: e in r <==> e in z && e.jti !in gone
    ensures |r| <= |z|
    ensures Ordered(z) ==> Ordered(r)
    ensures Distinct(z) ==> Distinct(r)
  {
    if z == [] then []
    else
      var tail := Remove(z[1..], gone);
      if z[0].jti in gone then tail else [z[0]] + tail
  }

  /** The place of a new entry in an ordered set. */
  function Insert(z: ZSet, e: Entry): (r: ZSet)
    ensures |r| == |z| + 1
    ensures forall x :: x in r <==> x == e || x in z
  {
    if z == [] || Before(e, z[0]) then [e] + z
    else
      var tail := Insert(z[1..], e);
      assert forall x :: x in z <==> x == z[0] || x in z[1..];
      [z[0]] + tail
  }

  /** A member that is not there yet goes to its place in the order. */
  lemma {:induction false} InsertKeepsOrder(z: ZSet, e: Entry)
    requires Valid(z)
    requires forall x :: x in z ==> x.jti != e.jti
    ensures Valid(Insert(z, e))
  {
    if z == [] || Before(e, z[0]) {
    } else {
      InsertKeepsOrder(z[1..], e);
      var tail := Insert(z[1..], e);
      assert Before(z[0], e);
      forall x | x in tail ensures Before(z[0], x) && x.jti != z[0].jti {
        if x != e {
          assert x in z[1..];
        }
      }
    }
  }

  /** ZADD: a member has one score, the last one it was given. */
  function Add(z: ZSet, e: Entry): (r: ZSet)
    ensures Valid(z) ==> Valid(r)
    ensures Jtis(r) == Jtis(z) + {e.jti}
    ensures e in r
    ensures forall x :: x in r && x != e ==> x in z
  {
    var rest := Remove(z, {e.jti});
    var r := Insert(rest, e);
    assert Valid(z) ==> Valid(r) by { if Valid(z) { InsertKeepsOrder(rest, e); } }
    assert forall j :: j in Jtis(z) && j != e.jti ==> j in Jtis(r) by {
      forall j | j in Jtis(z) && j != e.jti ensures j in Jtis(r) {
        var x :| x in z && x.jti == j;
        assert x in rest;
      }
    }
    r
  }

  /** ZRANGE 0 (n - 1): the first `n` members, or all of them when there are fewer. */
  function Lowest(z: ZSet, n: nat): (r: seq<Jti>)
    ensures |r| == if n <= |z| then n else |z|
    ensures forall i | 0 <= i < |r| :: r[i] == z[i].jti
  {
    var k := if n <= |z| then n else |z|;
    seq(k, i requires 0 <= i < k => z[i].jti)
  }

  /** The members beyond `max`, lowest first; no limit when `max` is zero or negative. */
  function Overflow(z: ZSet, max: int): (r: seq<Jti>)
    ensures |r| == if max > 0 && |z| > max then |z| - max else 0
  {
    if max > 0 && |z| > max then Lowest(z, |z| - max) else []
  }

  function Members(js: seq<Jti>): set<Jti> {
    set j | j in js
  }

  /** The members other than `except`, in order. */
  function Without(js: seq<Jti>, except: Option<Jti>): (r: seq<Jti>)
    ensures forall j :: j in r <==> j in js && Some(j) != except
  {
    if js == [] then []
    else
      var tail := Without(js[1..], except);
      if Some(js[0]) == except then tail else [js[0]] + tail
  }

  lemma {:induction false} WithoutNone(js: seq<Jti>, except: Option<Jti>)
    requires except.None? || except.value !in js
    ensures Without(js, except) == js
  {
    if js != [] {
      WithoutNone(js[1..], except);
    }
  }

  /** Leaving one member out keeps the others, in order; there is nothing to leave out of a list without
      it. */
  lemma {:induction false} WithoutOne(before: seq<Jti>, k: Jti, after: seq<Jti>)
    requires k !in before && k !in after
    ensures Without(before + [k] + after, Some(k)) == before + after
    ensures Without(before, Some(k)) == before && Without(before, None) == before
    decreases |before|
  {
    WithoutNone(before, Some(k));
    WithoutNone(before, None);
    if before == [] {
      assert [] + [k] + after == [k] + after && ([k] + after)[1..] == after;
      assert [] + after == after;
      WithoutNone(after, Some(k));
    } else {
      var js := before + [k] + after;
      assert js[0] == before[0] && js[1..] == before[1..] + [k] + after;
      WithoutOne(before[1..], k, after);
      assert before + after == [before[0]] + (before[1..] + after);
    }
  }

  lemma LowestAreAll(z: ZSet)
    ensures Members(Lowest(z, |z|)) == Jtis(z)
  {
    forall j | j in Jtis(z) ensures j in Lowest(z, |z|) {
      var i :| 0 <= i < |z| && z[i].jti == j;
      assert Lowest(z, |z|)[i] == j;
    }
  }

  /** Taking the lowest `n` members out leaves the rest of the sequence, in order. */
  lemma {:induction false} RemoveLowest(z: ZSet, n: nat)
    requires Distinct(z)
    ensures Remove(z, Members(Lowest(z, n))) == if n <= |z| then z[n..] else []
  {
    var k := if n <= |z| then n else |z|;
    var gone := Members(Lowest(z, n));
    assert forall i | 0 <= i < k :: z[i].jti == Lowest(z, n)[i];
    forall i | k <= i < |z| ensures z[i].jti !in gone {
    }
    RemovePrefix(z, k, gone);
  }

  lemma {:induction false} RemovePrefix(z: ZSet, k: nat, gone: set<Jti>)
    requires k <= |z|
    requires forall i | 0 <= i < k :: z[i].jti in gone
    requires forall i | k <= i < |z| :: z[i].jti !in gone
    ensures Remove(z, gone) == z[k..]
  {
    if z == [] {
    } else if k == 0 {
      RemovePrefix(z[1..], 0, gone);
    } else {
      RemovePrefix(z[1..], k - 1, gone);
    }
  }

  /** Taking the overflow out leaves the rest of the sequence, in order. */
  lemma RemoveOverflow(z: ZSet, max: int)
    requires Valid(z)
    ensures Remove(z, Members(Overflow(z, max))) == z[|Overflow(z, max)|..]
  {
    if max > 0 && |z| > max {
      RemoveLowest(z, |z| - max);
    } else {
      RemovePrefix(z, 0, {});
      assert Members([]) == {};
    }
  }

  /** Removing more, or removing earlier, never leaves more members. */
  lemma {:induction false} RemoveShrinks(z: ZSet, a: set<Jti>, b: set<Jti>)
    ensures |Remove(Remove(z, a), b)| <= |Remove(z, b)|
  {
    if z != [] {
      RemoveShrinks(z[1..], a, b);
      var tail := Remove(z[1..], a);
      assert ([z[0]] + tail)[1..] == tail;
    }
  }
}
