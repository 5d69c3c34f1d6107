/** Migration 0050: one default workflow per organization and entity. */
module WorkflowDefaults {
  import opened Options
  import opened EarliestPerGroup

  datatype Definition = Definition(org: Id, entity: Option<Id>, created: int, isDefault: bool, name: nat)
  type Definitions = map<Id, Definition>

  /** `COALESCE(entity_id, sentinel)`: the nil UUID stands for the shared bucket. */
  const SENTINEL: Id := 0

  function Bucket(d: Definition): (Id, Id) {
    (d.org, if d.entity.Some? then d.entity.value else SENTINEL)
  }

  function Defaults(ds: Definitions): Rows<(Id, Id)> {
    map id | id in ds && ds[id].isDefault :: Keyed(Bucket(ds[id]), ds[id].created)
  }

  function Demoted(ds: Definitions): Definitions {
    var extras := Extras(Defaults(ds));
    map id | id in ds :: if id in extras then ds[id].(isDefault := false) else ds[id]
  }

  /** One organization's defaults for one entity; the nil identifier and none are the same entity. */
  ghost predicate SameSlot(d: Definition, e: Definition) {
    d.org == e.org && (d.entity == e.entity || {d.entity, e.entity} == {None, Some(0)})
  }

  lemma BucketsAreSlots(d: Definition, e: Definition)
    ensures Bucket(d) == Bucket(e) <==> SameSlot(d, e)
  {
    if d.entity != e.entity && {d.entity, e.entity} == {None, Some(0)} {
      assert d.entity in {None, Some(0)} && e.entity in {None, Some(0)};
    }
  }

  /** What `uq_workflow_definitions_one_default` demands. */
  ghost predicate OneDefaultPerBucket(ds: Definitions) {
    forall i, j :: i in ds && j in ds && i != j && ds[i].isDefault && ds[j].isDefault ==> !SameSlot(ds[i], ds[j])
  }

  class TenantDb {
    var definitions: Definitions
    var indexed: bool

    /** CREATE UNIQUE INDEX IF NOT EXISTS: fails on a duplicate. */
    method CreateIndex() returns (ok: bool)
      modifies this`indexed
      ensures ok <==> old(indexed) || OneDefaultPerBucket(definitions)
      ensures indexed == (old(indexed) || ok)
    {
      ok := indexed ||
        forall i, j | i in definitions && j in definitions && i != j
          && definitions[i].isDefault && definitions[j].isDefault ::
          Bucket(definitions[i]) != Bucket(definitions[j]);
      forall i, j | i in definitions && j in definitions
        ensures Bucket(definitions[i]) == Bucket(definitions[j]) <==> SameSlot(definitions[i], definitions[j])
      {
        BucketsAreSlots(definitions[i], definitions[j]);
      }
      indexed := ok;
    }

    method Upgrade() returns (ok: bool)
      modifies this
      ensures definitions == Demoted(old(definitions))
      ensures ok && indexed
    {
      var ranked := Defaults(definitions);
      definitions := map id | id in definitions ::
        if id in ranked && RowNumber(ranked, id) > 1 then definitions[id].(isDefault := false) else definitions[id];
      BucketsHaveOneDefault(old(definitions));
      ok := CreateIndex();
    }
  }

  lemma BucketsHaveOneDefault(ds: Definitions)
    ensures OneDefaultPerBucket(Demoted(ds))
  {
    var rows, ds' := Defaults(ds), Demoted(ds);
    forall i, j | i in ds' && j in ds' && i != j && ds'[i].isDefault && ds'[j].isDefault
      ensures !SameSlot(ds'[i], ds'[j])
    {
      BucketsAreSlots(ds[i], ds[j]);
      ExtrasAreNotEarliest(rows, i);
      ExtrasAreNotEarliest(rows, j);
    }
  }

  /** No other default of the slot is older; among equally old ones the least id goes first. */
  ghost predicate First(ds: Definitions, id: Id)
    requires id in ds
  {
    forall k :: k in ds && k != id && ds[k].isDefault && SameSlot(ds[k], ds[id]) ==>
      ds[id].created < ds[k].created || (ds[id].created == ds[k].created && id < k)
  }

  lemma ExtrasAreNotFirst(ds: Definitions, id: Id)
    requires id in ds && ds[id].isDefault
    ensures id in Extras(Defaults(ds)) <==> !First(ds, id)
  {
    var rows := Defaults(ds);
    ExtrasAreNotEarliest(rows, id);
    forall k | k in ds ensures Bucket(ds[k]) == Bucket(ds[id]) <==> SameSlot(ds[k], ds[id]) {
      BucketsAreSlots(ds[k], ds[id]);
    }
    if IsEarliest(rows, id) {
      forall k | k in ds && k != id && ds[k].isDefault && SameSlot(ds[k], ds[id])
        ensures ds[id].created < ds[k].created || (ds[id].created == ds[k].created && id < k)
      {
        assert k in rows && Earlier(rows, id, k);
      }
    }
    if First(ds, id) {
      forall k | k in rows && k != id && rows[k].group == rows[id].group ensures Earlier(rows, id, k) {
        assert SameSlot(ds[k], ds[id]);
      }
    }
  }

  /** A default stays one exactly when it is the first of its slot, and each slot that had one has
      such a first; a row changes at most by losing the flag. A second run changes nothing. */
  lemma EarliestDefaultIsKept(ds: Definitions, id: Id)
    requires id in ds
    ensures Demoted(ds).Keys == ds.Keys
    ensures Demoted(ds)[id] == ds[id].(isDefault := ds[id].isDefault && First(ds, id))
    ensures ds[id].isDefault ==>
              exists k :: k in ds && SameSlot(ds[k], ds[id]) && ds[k].isDefault && First(ds, k)
    ensures Demoted(Demoted(ds)) == Demoted(ds)
  {
    var rows := Defaults(ds);
    if ds[id].isDefault {
      ExtrasAreNotFirst(ds, id);
      var k := EarliestExists(rows, id);
      ExtrasAreNotEarliest(rows, k);
      ExtrasAreNotFirst(ds, k);
      BucketsAreSlots(ds[k], ds[id]);
    }
    assert Defaults(Demoted(ds)) == rows - Extras(rows);
    NoExtrasRemain(rows);
  }
}
