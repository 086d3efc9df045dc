/*
 * The kvdb layer running on the reference engine: each entry point of
 * kvdb/kvdb.py that calls `engine.get`, `engine.fetch_all`, `engine.put` or
 * `engine.delete`, with the engine being a SqliteDBContract.
 */
module KvdbSqlite {
  import opened Kvdb
  import opened Sqlite

  /** Collection.get: the engine's lookup, then decoding. */
  method CollectionGet(engine: SqliteDBContract, c: Collection, key: string) returns (r: Result<Option<Record>>)
    ensures r == Ok(None) <==> forall row :: row in engine.rows ==> !HasKey(row, c.name, key)
    ensures r.Ok? && r.value.Some? ==>
              exists row :: row in engine.rows && HasKey(row, c.name, key) && Decode(c.kind, row.content) == Ok(r.value.value)
    ensures engine.Valid() ==>
              (r.Ok? <==> forall row :: row in engine.rows && HasKey(row, c.name, key) ==> Decode(c.kind, row.content).Ok?)
  {
    var stored := engine.Get(c.name, key);
    if stored.Err? {
      return Err(stored.error);
    }
    r := c.Get(stored.value);
    if engine.Valid() && stored.value.Some? {
      forall row | row in engine.rows && HasKey(row, c.name, key)
        ensures row.content == stored.value.value
      {
        var found := KeyRows(engine.rows, c.name, key);
        assert row in found && |found| <= 1;
      }
    }
  }

  /** What Query.fetch_all returns when the engine's table is `rows`. */
  function FetchResult(rows: seq<Row>, q: Query): Result<seq<Record>>
    reads q
  {
    match Select(rows, q.collection.name, q.filters)
    case Err(e) => Err(e)
    case Ok(docs) => q.FetchAll(docs)
  }

  /** Query.fetch_all: the engine's scan with the query's filters, then decoding each document. */
  method QueryFetchAll(engine: SqliteDBContract, q: Query) returns (r: Result<seq<Record>>)
    ensures r == FetchResult(engine.rows, q)
    ensures r.Ok? && q.filters == [] ==> |r.value| == |CollectionRows(engine.rows, q.collection.name)|
  {
    var docs := engine.FetchAll(q.collection.name, q.filters);
    SelectMeaning(engine.rows, q.collection.name, q.filters);
    if docs.Err? {
      return Err(docs.error);
    }
    r := q.FetchAll(docs.value);
  }

  /**
   * Query.fetch_all fails exactly when the scan fails or some document it
   * keeps does not decode; otherwise it has one record per kept document.
   */
  lemma FetchResultOk(rows: seq<Row>, q: Query)
    ensures FetchResult(rows, q).Ok? <==>
              Select(rows, q.collection.name, q.filters).Ok? &&
              forall row :: row in rows && Matches(row, q) ==> Decode(q.collection.kind, row.content).Ok?
    ensures FetchResult(rows, q).Ok? ==> |FetchResult(rows, q).value| == |Select(rows, q.collection.name, q.filters).value|
  {
    SelectMeaning(rows, q.collection.name, q.filters);
    var selected := Select(rows, q.collection.name, q.filters);
    if selected.Ok? {
      var docs := selected.value;
      if q.FetchAll(docs).Err? {
        var i :| 0 <= i < |docs| && !Decode(q.collection.kind, docs[i]).Ok?;
        assert docs[i] in docs;
      } else {
        forall row | row in rows && Matches(row, q)
          ensures Decode(q.collection.kind, row.content).Ok?
        {
          assert row.content in docs;
        }
      }
    }
  }

  /** Every record Query.fetch_all returns decodes a row of the collection that satisfies every filter. */
  lemma FetchResultSound(rows: seq<Row>, q: Query)
    requires FetchResult(rows, q).Ok?
    ensures forall k :: 0 <= k < |FetchResult(rows, q).value| ==>
              exists row :: row in rows && Matches(row, q) && Decode(q.collection.kind, row.content) == Ok(FetchResult(rows, q).value[k])
  {
    SelectMeaning(rows, q.collection.name, q.filters);
    var docs := Select(rows, q.collection.name, q.filters).value;
    var r := q.FetchAll(docs).value;
    forall k | 0 <= k < |r|
      ensures exists row :: row in rows && Matches(row, q) && Decode(q.collection.kind, row.content) == Ok(r[k])
    {
      assert docs[k] in docs;
    }
  }

  /** Every row of the collection that satisfies every filter is decoded into some record Query.fetch_all returns. */
  lemma FetchResultComplete(rows: seq<Row>, q: Query)
    requires FetchResult(rows, q).Ok?
    ensures forall row :: row in rows && Matches(row, q) ==>
              exists k :: 0 <= k < |FetchResult(rows, q).value| && Decode(q.collection.kind, row.content) == Ok(FetchResult(rows, q).value[k])
  {
    SelectMeaning(rows, q.collection.name, q.filters);
    var docs := Select(rows, q.collection.name, q.filters).value;
    var r := q.FetchAll(docs).value;
    forall row | row in rows && Matches(row, q)
      ensures exists k :: 0 <= k < |r| && Decode(q.collection.kind, row.content) == Ok(r[k])
    {
      assert row.content in docs;
      var k :| 0 <= k < |docs| && docs[k] == row.content;
      assert Decode(q.collection.kind, docs[k]) == Ok(r[k]);
    }
  }

  /** `row` belongs to the query's collection and satisfies every one of its filters. */
  predicate Matches(row: Row, q: Query)
    reads q
  {
    row.collection == q.collection.name && AllSatisfied(row.content, q.filters) == Ok(true)
  }

  /** Query.one_or_none on the engine's scan. */
  method QueryOneOrNone(engine: SqliteDBContract, q: Query) returns (r: Result<Option<Record>>)
    ensures Select(engine.rows, q.collection.name, q.filters).Ok? ==>
              r == q.OneOrNone(Select(engine.rows, q.collection.name, q.filters).value)
    ensures Select(engine.rows, q.collection.name, q.filters).Err? ==>
              r == Err(Select(engine.rows, q.collection.name, q.filters).error)
    ensures r == Ok(None) <==> Select(engine.rows, q.collection.name, q.filters) == Ok([])
    ensures r == Err(TooManyValues) <==>
              exists docs :: Select(engine.rows, q.collection.name, q.filters) == Ok(docs) &&
                |docs| >= 2 && forall i :: 0 <= i < |docs| ==> Decode(q.collection.kind, docs[i]).Ok?
    ensures r.Ok? && r.value.Some? ==>
              exists d :: Select(engine.rows, q.collection.name, q.filters) == Ok([d]) &&
                Decode(q.collection.kind, d) == Ok(r.value.value)
    ensures forall d :: Select(engine.rows, q.collection.name, q.filters) == Ok([d]) && Decode(q.collection.kind, d).Ok? ==>
              r == Ok(Some(Decode(q.collection.kind, d).value))
  {
    var docs := engine.FetchAll(q.collection.name, q.filters);
    SelectMeaning(engine.rows, q.collection.name, q.filters);
    if docs.Err? {
      return Err(docs.error);
    }
    r := q.OneOrNone(docs.value);
    if r.Ok? && r.value.Some? {
      assert docs.value == [docs.value[0]];
    }
  }

  /** Query.one on the engine's scan: NotFound when nothing matches. */
  method QueryOne(engine: SqliteDBContract, q: Query) returns (r: Result<Record>)
    ensures Select(engine.rows, q.collection.name, q.filters).Ok? ==>
              r == q.One(Select(engine.rows, q.collection.name, q.filters).value)
    ensures Select(engine.rows, q.collection.name, q.filters) == Ok([]) ==>
              r == Err(NotFound(q.collection.name, q.filters))
    ensures forall d :: Select(engine.rows, q.collection.name, q.filters) == Ok([d]) ==>
              r == Decode(q.collection.kind, d)
    ensures r == Err(TooManyValues) <==>
              exists docs :: Select(engine.rows, q.collection.name, q.filters) == Ok(docs) &&
                |docs| >= 2 && forall i :: 0 <= i < |docs| ==> Decode(q.collection.kind, docs[i]).Ok?
    ensures r.Err? && r.error.NotFound? ==> Select(engine.rows, q.collection.name, q.filters) == Ok([])
  {
    var docs := engine.FetchAll(q.collection.name, q.filters);
    SelectMeaning(engine.rows, q.collection.name, q.filters);
    if docs.Err? {
      return Err(docs.error);
    }
    r := q.One(docs.value);
  }

  /** DB.put: the batch is built first, so an instance that cannot be stored leaves the table untouched. */
  method Put(db: DB, engine: SqliteDBContract, instances: seq<Record>) returns (r: Result<()>)
    modifies engine
    ensures r.Ok? <==> db.PutOperations(instances).Ok?
    ensures r.Err? ==> r.error == db.PutOperations(instances).error && engine.rows == old(engine.rows)
    ensures r.Ok? ==> engine.rows == PutAll(old(engine.rows), db.PutOperations(instances).value)
    ensures old(engine.Valid()) ==> engine.Valid()
  {
    var batch := db.PutOperations(instances);
    if batch.Err? {
      return Err(batch.error);
    }
    engine.Put(batch.value);
    r := Ok(());
  }

  /** DB.delete. */
  method Delete(db: DB, engine: SqliteDBContract, keys: seq<(RecordKind, string)>)
    modifies engine
    ensures engine.rows == DeleteAll(old(engine.rows), db.DeleteOperations(keys))
    ensures old(engine.Valid()) ==> engine.Valid()
  {
    engine.Delete(db.DeleteOperations(keys));
  }

  /**
   * A registered, well-formed record put through DB.put comes back field for
   * field from Collection.get under its primary key, whatever the table held.
   */
  lemma PutThenGet(db: DB, rows: seq<Row>, rec: Record)
    requires db.Valid()
    requires rec.kindName in db.collections
    requires Conforms(rec, db.collections[rec.kindName].kind)
    requires db.collections[rec.kindName].pkField in rec.values
    ensures db.PutOperations([rec]).Ok?
    ensures var c := db.collections[rec.kindName];
            var id := rec.values[c.pkField];
            Lookup(PutAll(rows, db.PutOperations([rec]).value), c.name, id) == Ok(Some(Encode(rec))) &&
            c.Get(Some(Encode(rec))) == Ok(Some(rec))
  {
    var c := db.collections[rec.kindName];
    var id := rec.values[c.pkField];
    var batch := db.PutOperations([rec]).value;
    assert db.ToPutOperation(rec) == Ok(batch[0]);
    assert batch == [PutOperation(c.name, id, Encode(rec))];
    PutThenLookup(rows, c.name, id, Encode(rec));
    DecodeEncode(rec, c.kind);
  }

  /**
   * Deleting a record by its kind and id: afterwards the engine's lookup of
   * the key finds nothing and the kind's scans return no document held only
   * by the deleted row.
   */
  lemma DeleteThenGet(db: DB, rows: seq<Row>, kind: RecordKind, id: string, filters: seq<Predicate>)
    ensures Lookup(DeleteAll(rows, db.DeleteOperations([(kind, id)])), kind.name, id) == Ok(None)
    ensures var after := DeleteAll(rows, db.DeleteOperations([(kind, id)]));
            Select(after, kind.name, filters).Ok? ==> forall d :: d in Select(after, kind.name, filters).value ==>
              exists row :: row in rows && row.collection == kind.name && row.id != id && row.content == d
  {
    var ops := db.DeleteOperations([(kind, id)]);
    assert ops == [DeleteOperation(kind.name, id)];
    DeleteAllKeyRows(rows, ops, kind.name, id);
    assert Deleted(ops, kind.name, id) by { assert ops[0].collectionName == kind.name && ops[0].id == id; }
    var after := DeleteAll(rows, ops);
    if Select(after, kind.name, filters).Ok? {
      SelectAfterDelete(rows, ops, kind.name, filters);
      forall row | row in rows && row.collection == kind.name && !Deleted(ops, kind.name, row.id)
        ensures row.id != id
      {
      }
    }
  }
}
