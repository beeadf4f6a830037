/*
  The in-memory restaurant store the server reads and writes. Its own
  source (server/storage.js) is not part of this model: the class below is
  an abstract map from a record's id to the record, and its contracts say
  only what the route handlers rely on. Storing under a key that is already
  present may keep either record (the overwrite policy is not stated).
*/
module Storage {
  import opened Js
  import opened Model

  /** The own properties (attributes and menu items) of every stored
      record, by id. */
  ghost function RecordViews(records: map<Value, Restaurant>): map<Value, map<string, Value>>
    reads records.Values
  {
    map id | id in records :: records[id].View()
  }

  /** The ids listed in `ids`. */
  ghost function IdSet(ids: seq<Value>): set<Value> {
    set i | 0 <= i < |ids| :: ids[i]
  }

  lemma IdSetAppend(ids: seq<Value>, id: Value)
    ensures IdSet(ids + [id]) == IdSet(ids) + {id}
  {
    var longer := ids + [id];
    forall x | x in IdSet(ids)
      ensures x in IdSet(longer)
    {
      var i :| 0 <= i < |ids| && ids[i] == x;
      assert longer[i] == x;
    }
    assert longer[|ids|] == id;
  }

  /** Appending an id not yet listed keeps the ids distinct. */
  lemma DistinctAppend(ids: seq<Value>, id: Value)
    requires forall i, j :: 0 <= i < j < |ids| ==> ids[i] != ids[j]
    requires id !in IdSet(ids)
    ensures forall i, j :: 0 <= i < j < |ids + [id]| ==> (ids + [id])[i] != (ids + [id])[j]
  {
    var longer := ids + [id];
    forall i, j | 0 <= i < j < |longer|
      ensures longer[i] != longer[j]
    {
      if j == |ids| {
        assert longer[i] == ids[i];
      }
    }
  }

  /** Appending a stored record together with its id keeps each listed
      record paired with its id. */
  lemma PairedAppend(all: seq<Restaurant>, ids: seq<Value>, records: map<Value, Restaurant>, id: Value)
    requires |ids| == |all| && id in records
    requires forall i :: 0 <= i < |all| ==> ids[i] in records && all[i] == records[ids[i]]
    ensures forall i :: 0 <= i < |all + [records[id]]| ==>
      (ids + [id])[i] in records && (all + [records[id]])[i] == records[(ids + [id])[i]]
  {
    var longer, longerIds := all + [records[id]], ids + [id];
    forall i | 0 <= i < |longer|
      ensures longerIds[i] in records && longer[i] == records[longerIds[i]]
    {
      if i < |all| {
        assert longer[i] == all[i] && longerIds[i] == ids[i];
      }
    }
  }

  class Memory {
    /** The stored records, by id. */
    var records: map<Value, Restaurant>

    /** Every stored record keeps the record invariant. */
    ghost predicate Valid()
      reads this, records.Values
    {
      forall id :: id in records ==> records[id].Valid()
    }

    constructor ()
      ensures records == map[] && Valid()
    {
      records := map[];
    }

    /** `add(restaurant)`: store under the record's id. */
    method Add(r: Restaurant)
      requires "id" in r.attrs
      modifies this
      ensures records.Keys == old(records).Keys + {r.attrs["id"]}
      ensures forall id :: id in old(records) && id != r.attrs["id"] ==> records[id] == old(records)[id]
      ensures r.attrs["id"] !in old(records) ==> records[r.attrs["id"]] == r
      ensures records[r.attrs["id"]] == r || records[r.attrs["id"]] == old(records)[r.attrs["id"]]
      ensures old(Valid()) && r.Valid() ==> Valid()
      ensures RecordViews(records) == old(RecordViews(records))[r.attrs["id"] := r.View()]
           || (r.attrs["id"] in old(records) && RecordViews(records) == old(RecordViews(records)))
    {
      records := records[r.attrs["id"] := r];
    }

    /** `getById(id)`: the record, or nothing. */
    method GetById(id: Value) returns (r: Option<Restaurant>)
      ensures r.Some? <==> id in records
      ensures r.Some? ==> r.value == records[id]
    {
      if id in records {
        r := Some(records[id]);
      } else {
        r := None;
      }
    }

    /** `deleteById(id)`: remove the entry and report whether there was one. */
    method DeleteById(id: Value) returns (removed: bool)
      modifies this
      ensures removed <==> id in old(records)
      ensures records == old(records) - {id}
      ensures old(Valid()) ==> Valid()
    {
      removed := id in records;
      records := records - {id};
    }

    /** `getAll()`: every stored record, once per id, in no stated order;
        `ids` names the id each entry is stored under. */
    method GetAll() returns (all: seq<Restaurant>, ghost ids: seq<Value>)
      ensures |all| == |records| && |ids| == |all|
      ensures forall i, j :: 0 <= i < j < |ids| ==> ids[i] != ids[j]
      ensures IdSet(ids) == records.Keys
      ensures forall i :: 0 <= i < |all| ==> ids[i] in records && all[i] == records[ids[i]]
    {
      all, ids := [], [];
      var rest := records.Keys;
      ghost var done: set<Value> := {};
      while rest != {}
        invariant rest + done == records.Keys && rest !! done
        invariant |ids| == |all| == |done|
        invariant forall i, j :: 0 <= i < j < |ids| ==> ids[i] != ids[j]
        invariant IdSet(ids) == done
        invariant forall i :: 0 <= i < |all| ==> ids[i] in records && all[i] == records[ids[i]]
        decreases rest
      {
        var id :| id in rest;
        IdSetAppend(ids, id);
        DistinctAppend(ids, id);
        PairedAppend(all, ids, records, id);
        all, ids := all + [records[id]], ids + [id];
        rest := rest - {id};
        done := done + {id};
      }
    }
  }
}
