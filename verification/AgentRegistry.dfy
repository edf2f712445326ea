/** The registry as an object whose calls do not overlap: the cache is then always the decoded table. */
module AgentRegistry {
  import opened Prelude
  import opened AgentCatalog

  class Registry {
    const env: Env
    var db: map<Id, Row>
    var byId: map<Id, Meta>

    ghost predicate Coherent()
      reads this
    {
      byId == DecodeAll(env, db)
    }

    /** Every row is cached under its own id; this does not need the cache to be up to date. */
    ghost predicate KeyedById()
      reads this
    {
      forall id :: id in byId ==> byId[id].id == id
    }

    constructor (env: Env, db: map<Id, Row>)
      ensures this.env == env && this.db == db && byId == map[]
    {
      this.env, this.db, byId := env, db, map[];
    }

    /** Reload every row; rows that do not decode are skipped. */
    method Hydrate()
      modifies this`byId
      ensures Coherent()
    {
      var loaded: map<Id, Meta> := map[];
      var rest := db.Keys;
      while rest != {}
        invariant rest <= db.Keys
        invariant forall id :: id in loaded <==> id in db && id !in rest && Decode(env, id, db[id]).Some?
        invariant forall id :: id in loaded ==> loaded[id] == Decode(env, id, db[id]).value
        decreases rest
      {
        var id :| id in rest;
        rest := rest - {id};
        var meta := Decode(env, id, db[id]);
        if meta.Some? {
          loaded := loaded[id := meta.value];
        }
      }
      byId := loaded;
    }

    /** Probe every cached row again. */
    method RefreshAvailability()
      modifies this`byId
      ensures byId == ProbeAll(env, old(byId)) && byId.Keys == old(byId).Keys
      ensures forall id :: id in byId ==>
                byId[id] == old(byId)[id].(available := byId[id].available, resolved := byId[id].resolved)
      ensures forall id :: id in byId ==>
                (byId[id].available <==> Usable(env, byId[id])) && byId[id].resolved == SpawnPath(env, byId[id])
      ensures old(Coherent()) ==> byId == old(byId)
    {
      var rest := byId.Keys;
      while rest != {}
        invariant rest <= byId.Keys && byId.Keys == old(byId).Keys
        invariant forall id :: id in byId ==> byId[id] == if id in rest then old(byId)[id]
                  else Probed(env, old(byId)[id])
        decreases rest
      {
        var id :| id in rest;
        rest := rest - {id};
        byId := byId[id := Probed(env, byId[id])];
      }
      RefreshAfterLoadIsNoop(env, db);
      forall id | id in byId
        ensures (byId[id].available <==> Usable(env, byId[id])) && byId[id].resolved == SpawnPath(env, byId[id])
      {
        ProbedTwice(env, old(byId)[id]);
        AvailableIff(env, byId[id]);
      }
    }

    /** One message of the consumer loop: merge with the cache, write the row, cache what was written. */
    method ApplyHandshake(id: Id, snapshot: Handshake)
      modifies this`db, this`byId
      ensures id !in old(db) ==> db == old(db) && byId == old(byId)
      ensures id in old(db) ==>
                db == old(db)[id := ApplyToRow(old(db)[id], Prepare(env, CachedOptions(old(byId), id), snapshot))]
      ensures old(Coherent()) ==>
                Coherent() && CachedOptions(old(byId), id) == StoredOptions(env, old(db), id)
    {
      var merged := Prepare(env, CachedOptions(byId, id), snapshot);
      if id !in db {
        return;
      }
      DecodeAllAfter(env, db, id, merged);
      var row := ApplyToRow(db[id], merged);
      db := db[id := row];
      var meta := Decode(env, id, row);
      if meta.Some? {
        byId := byId[id := meta.value];
      }
    }

    /** Every visible row, ordered by `sort_order` and then name. */
    method ListAll() returns (rows: seq<Meta>)
      requires KeyedById()
      ensures SortedRows(rows) && Distinct(rows)
      ensures forall m :: m in rows <==> m.id in byId && byId[m.id] == m && m.enabled && m.available
    {
      rows := [];
      var rest := byId.Keys;
      while rest != {}
        invariant rest <= byId.Keys
        invariant SortedRows(rows) && Distinct(rows)
        invariant forall m :: m in rows <==> m.id in byId && m.id !in rest && byId[m.id] == m && Visible(m)
        decreases rest
      {
        var id :| id in rest;
        rest := rest - {id};
        if Visible(byId[id]) {
          rows := InsertSorted(rows, byId[id]);
        }
      }
    }
  }

  /** Insertion into a sorted list of other rows. */
  method InsertSorted(rows: seq<Meta>, m: Meta) returns (r: seq<Meta>)
    requires SortedRows(rows) && Distinct(rows) && m !in rows
    ensures SortedRows(r) && Distinct(r)
    ensures forall x :: x in r <==> x == m || x in rows
  {
    var i := 0;
    while i < |rows| && Before(rows[i], m)
      invariant 0 <= i <= |rows|
      invariant forall j :: 0 <= j < i ==> Before(rows[j], m)
    {
      i := i + 1;
    }
    r := rows[..i] + [m] + rows[i..];
    forall j | i <= j < |rows|
      ensures Before(m, rows[j])
    {
      BeforeIsAnOrder(m, rows[i], rows[j]);
    }
    InsertedBetween(rows, m, i);
  }

  lemma InsertedBetween(rows: seq<Meta>, m: Meta, i: nat)
    requires i <= |rows| && SortedRows(rows) && Distinct(rows) && m !in rows
    requires forall j :: 0 <= j < i ==> Before(rows[j], m)
    requires forall j :: i <= j < |rows| ==> Before(m, rows[j])
    ensures var r := rows[..i] + [m] + rows[i..];
            SortedRows(r) && Distinct(r) && forall x :: x in r <==> x == m || x in rows
  {
    var r := rows[..i] + [m] + rows[i..];
    assert forall x :: x in rows <==> x in rows[..i] || x in rows[i..];
    assert forall j :: 0 <= j < |r| ==> r[j] == if j < i then rows[j] else if j == i then m else rows[j - 1];
  }
}
