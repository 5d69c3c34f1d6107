/** `row_number() OVER (PARTITION BY group ORDER BY created, id)`, as the data-repair
    migrations use it to keep the first row of each group. */
module EarliestPerGroup {
  type Id = nat
  datatype Keyed<G> = Keyed(group: G, created: int)
  type Rows<G> = map<Id, Keyed<G>>

  predicate Earlier<G>(rows: Rows<G>, i: Id, j: Id)
    requires i in rows && j in rows
  {
    rows[i].created < rows[j].created || (rows[i].created == rows[j].created && i < j)
  }

  function Ahead<G(==)>(rows: Rows<G>, id: Id): set<Id>
    requires id in rows
  {
    set j | j in rows && rows[j].group == rows[id].group && Earlier(rows, j, id)
  }

  function RowNumber<G(==)>(rows: Rows<G>, id: Id): nat
    requires id in rows
  {
    1 + |Ahead(rows, id)|
  }

  /** The rows a migration gives up: `rn > 1`. */
  function Extras<G(==)>(rows: Rows<G>): set<Id> {
    set id | id in rows && RowNumber(rows, id) > 1
  }

  ghost predicate IsEarliest<G>(rows: Rows<G>, id: Id) {
    id in rows &&
    forall j :: j in rows && j != id && rows[j].group == rows[id].group ==> Earlier(rows, id, j)
  }

  /** A row is given up exactly when it is not the earliest of its group. */
  lemma ExtrasAreNotEarliest<G>(rows: Rows<G>, id: Id)
    requires id in rows
    ensures id in Extras(rows) <==> !IsEarliest(rows, id)
  {
    if IsEarliest(rows, id) {
      assert Ahead(rows, id) == {};
    } else {
      var j :| j in rows && j != id && rows[j].group == rows[id].group && !Earlier(rows, id, j);
      assert j in Ahead(rows, id);
    }
  }

  /** Every group has an earliest row. */
  lemma EarliestExists<G>(rows: Rows<G>, id: Id) returns (first: Id)
    requires id in rows
    ensures IsEarliest(rows, first) && rows[first].group == rows[id].group
    ensures first == id || Earlier(rows, first, id)
    decreases |Ahead(rows, id)|
  {
    if Ahead(rows, id) == {} {
      assert forall j :: j in rows && rows[j].group == rows[id].group ==> j !in Ahead(rows, id);
      first := id;
    } else {
      var j :| j in Ahead(rows, id);
      assert Ahead(rows, j) < Ahead(rows, id);
      ProperSubsetIsSmaller(Ahead(rows, j), Ahead(rows, id));
      first := EarliestExists(rows, j);
    }
  }

  lemma ProperSubsetIsSmaller(a: set<Id>, b: set<Id>)
    requires a < b
    ensures |a| < |b|
  {
    assert |b| == |a| + |b - a| by {
      assert b == a + (b - a);
    }
  }

  /** Without the given-up rows nothing is left to give up. */
  lemma NoExtrasRemain<G>(rows: Rows<G>)
    ensures Extras(rows - Extras(rows)) == {}
  {
    var kept := rows - Extras(rows);
    forall id | id in kept ensures id !in Extras(kept) {
      ExtrasAreNotEarliest(rows, id);
      assert IsEarliest(kept, id);
      ExtrasAreNotEarliest(kept, id);
    }
  }
}
