/*
 * The shared engine test of kvdb (kvdb/shared_test_code.py, check_engine)
 * replayed against the model: two record kinds, three records put in one
 * batch, lookups, scans with and without filters, single-result queries and
 * a delete. The record ids, fresh uuids in the test, are parameters here.
 */
module CheckEngine {
  import opened Kvdb
  import opened Sqlite
  import opened KvdbSqlite

  const PersonKind := RecordKind("Person", {"id", "first_name", "last_name"})
  const AddressKind := RecordKind("Address", {"id", "street", "number"})

  function Person(id: string, firstName: string, lastName: string): Record {
    Record("Person", map["id" := id, "first_name" := firstName, "last_name" := lastName])
  }

  function Address(id: string): Record {
    Record("Address", map["id" := id, "street" := "Indian Rd", "number" := "10"])
  }

  function RowOf(r: Record): Row
    requires "id" in r.values
  {
    Row(r.values["id"], r.kindName, r.values)
  }

  /** The registry after `add_collection(Person, "id")` and `add_collection(Address, "id")`. */
  predicate Registered(db: DB)
    reads db
  {
    db.collections == map["Person" := Collection("Person", PersonKind, "id"),
                          "Address" := Collection("Address", AddressKind, "id")]
  }

  method Setup() returns (engine: SqliteDBContract, db: DB)
    ensures fresh(engine) && fresh(db)
    ensures engine.rows == [] && engine.Valid() && Registered(db) && db.Valid()
  {
    engine := new SqliteDBContract();
    db := new DB();
    db.AddCollection(PersonKind, "id");
    db.AddCollection(AddressKind, "id");
  }

  /** Before anything is put: both kinds scan empty, one_or_none is absent and one raises NotFound. */
  method CheckEmpty(engine: SqliteDBContract, db: DB)
    returns (persons: Result<seq<Record>>, addresses: Result<seq<Record>>,
             noPerson: Result<Option<Record>>, onePerson: Result<Record>)
    requires engine.rows == [] && Registered(db)
    ensures persons == Ok([]) && addresses == Ok([])
    ensures noPerson == Ok(None)
    ensures onePerson == Err(NotFound("Person", []))
  {
    var q := new Query(db.collections["Person"]);
    persons := QueryFetchAll(engine, q);
    var a := new Query(db.collections["Address"]);
    addresses := QueryFetchAll(engine, a);
    noPerson := QueryOneOrNone(engine, q);
    onePerson := QueryOne(engine, q);
  }

  /** The batch `db.put(john, address, jane)` hands to the engine. */
  lemma BatchOfThree(db: DB, johnId: string, janeId: string, addressId: string)
    requires Registered(db)
    ensures var john, address, jane := Person(johnId, "John", "Doe"), Address(addressId), Person(janeId, "Jane", "Doe");
            db.PutOperations([john, address, jane]) ==
              Ok([PutOperation("Person", johnId, john.values), PutOperation("Address", addressId, address.values),
                  PutOperation("Person", janeId, jane.values)])
  {
    var john, address, jane := Person(johnId, "John", "Doe"), Address(addressId), Person(janeId, "Jane", "Doe");
    var instances := [john, address, jane];
    assert db.Storable(john) && db.Storable(address) && db.Storable(jane);
    assert forall i :: 0 <= i < 3 ==> db.Storable(instances[i]);
    var batch := db.PutOperations(instances).value;
    assert db.ToPutOperation(john) == Ok(batch[0]);
    assert db.ToPutOperation(address) == Ok(batch[1]);
    assert db.ToPutOperation(jane) == Ok(batch[2]);
    assert batch == [PutOperation("Person", johnId, john.values), PutOperation("Address", addressId, address.values),
                     PutOperation("Person", janeId, jane.values)];
  }

  /** That batch, applied to an empty table, stores the three rows in order. */
  lemma RowsOfThree(johnId: string, janeId: string, addressId: string)
    requires johnId != janeId
    ensures var john, address, jane := Person(johnId, "John", "Doe"), Address(addressId), Person(janeId, "Jane", "Doe");
            PutAll([], [PutOperation("Person", johnId, john.values), PutOperation("Address", addressId, address.values),
                        PutOperation("Person", janeId, jane.values)]) ==
              [RowOf(john), RowOf(address), RowOf(jane)]
  {
    var john, address, jane := Person(johnId, "John", "Doe"), Address(addressId), Person(janeId, "Jane", "Doe");
    var batch := [PutOperation("Person", johnId, john.values), PutOperation("Address", addressId, address.values),
                  PutOperation("Person", janeId, jane.values)];
    PutAllFresh([], batch);
    assert OpRows(batch) == [RowOf(john), RowOf(address), RowOf(jane)];
  }

  /** `db.put(john, address, jane)`. */
  method PutAll3(engine: SqliteDBContract, db: DB, johnId: string, janeId: string, addressId: string)
    requires engine.rows == [] && engine.Valid() && Registered(db)
    requires johnId != janeId
    modifies engine
    ensures Stored(engine, johnId, janeId, addressId)
    ensures engine.Valid()
  {
    var john, address, jane := Person(johnId, "John", "Doe"), Address(addressId), Person(janeId, "Jane", "Doe");
    BatchOfThree(db, johnId, janeId, addressId);
    RowsOfThree(johnId, janeId, addressId);
    var r := Put(db, engine, [john, address, jane]);
  }

  /** A table of three rows whose first and last belong to one collection and whose middle row to another. */
  lemma CollectionRowsOfThree(a: Row, b: Row, c: Row)
    requires a.collection == c.collection && b.collection != a.collection
    ensures CollectionRows([a, b, c], a.collection) == [a, c]
    ensures CollectionRows([a, b, c], b.collection) == [b]
  {
    assert [a][..0] == [];
    assert CollectionRows([a], a.collection) == [a];
    assert CollectionRows([a], b.collection) == [];
    assert [a, b][..1] == [a];
    assert CollectionRows([a, b], a.collection) == [a];
    assert CollectionRows([a, b], b.collection) == [b];
    assert [a, b, c][..2] == [a, b];
  }

  /** The unfiltered scans of such a table. */
  lemma ScanOfThree(a: Row, b: Row, c: Row)
    requires a.collection == c.collection && b.collection != a.collection
    ensures Select([a, b, c], a.collection, []) == Ok([a.content, c.content])
    ensures Select([a, b, c], b.collection, []) == Ok([b.content])
  {
    CollectionRowsOfThree(a, b, c);
    FilteredNoFilters([a, c]);
    FilteredNoFilters([b]);
    assert Contents([a, c]) == [a.content, c.content];
    assert Contents([b]) == [b.content];
  }

  /** The table after the put. */
  predicate Stored(engine: SqliteDBContract, johnId: string, janeId: string, addressId: string)
    reads engine
  {
    engine.rows == [RowOf(Person(johnId, "John", "Doe")), RowOf(Address(addressId)), RowOf(Person(janeId, "Jane", "Doe"))]
  }

  /** The unfiltered scans of the stored table, document by document. */
  lemma StoredScans(johnId: string, janeId: string, addressId: string)
    ensures var john, address, jane := Person(johnId, "John", "Doe"), Address(addressId), Person(janeId, "Jane", "Doe");
            var rows := [RowOf(john), RowOf(address), RowOf(jane)];
            Select(rows, "Person", []) == Ok(EncodeAll([john, jane])) &&
            Select(rows, "Address", []) == Ok(EncodeAll([address]))
  {
    var john, address, jane := Person(johnId, "John", "Doe"), Address(addressId), Person(janeId, "Jane", "Doe");
    ScanOfThree(RowOf(john), RowOf(address), RowOf(jane));
    assert EncodeAll([john, jane]) == [john.values, jane.values];
    assert EncodeAll([address]) == [address.values];
  }

  /** After the put: get by id returns the record; get of an id never put is absent. */
  method CheckGet(engine: SqliteDBContract, db: DB, johnId: string, janeId: string, addressId: string)
    returns (gotJohn: Result<Option<Record>>, gotInvalid: Result<Option<Record>>)
    requires Registered(db) && engine.Valid() && Stored(engine, johnId, janeId, addressId)
    requires johnId != janeId && johnId != "invalid" && janeId != "invalid"
    ensures gotJohn == Ok(Some(Person(johnId, "John", "Doe")))
    ensures gotInvalid == Ok(None)
  {
    var john := Person(johnId, "John", "Doe");
    var personC := db.collections["Person"];
    DecodeEncode(john, PersonKind);
    forall row | row in engine.rows && HasKey(row, "Person", johnId)
      ensures row == RowOf(john)
    {
    }
    assert personC.name == "Person" && personC.kind == PersonKind;
    assert HasKey(RowOf(john), "Person", johnId) && RowOf(john) in engine.rows;
    gotJohn := CollectionGet(engine, personC, johnId);
    assert gotJohn.Ok?;
    assert gotJohn.value.Some?;
    gotInvalid := CollectionGet(engine, personC, "invalid");
  }

  /** After the put: two persons, unfiltered. */
  method CheckPersonCount(engine: SqliteDBContract, db: DB, johnId: string, janeId: string, addressId: string)
    returns (persons: Result<seq<Record>>)
    requires Registered(db) && Stored(engine, johnId, janeId, addressId)
    ensures persons == Ok([Person(johnId, "John", "Doe"), Person(janeId, "Jane", "Doe")])
  {
    var john, jane := Person(johnId, "John", "Doe"), Person(janeId, "Jane", "Doe");
    StoredScans(johnId, janeId, addressId);
    var q := new Query(db.collections["Person"]);
    assert q.collection.name == "Person" && q.collection.kind == PersonKind && q.filters == [];
    q.FetchAllEncodeAll([john, jane]);
    persons := QueryFetchAll(engine, q);
  }

  /** After the put: one address, unfiltered. */
  method CheckAddressCount(engine: SqliteDBContract, db: DB, johnId: string, janeId: string, addressId: string)
    returns (addresses: Result<seq<Record>>)
    requires Registered(db) && Stored(engine, johnId, janeId, addressId)
    ensures addresses == Ok([Address(addressId)])
  {
    var address := Address(addressId);
    StoredScans(johnId, janeId, addressId);
    var a := new Query(db.collections["Address"]);
    assert a.collection.name == "Address" && a.collection.kind == AddressKind && a.filters == [];
    a.FetchAllEncodeAll([address]);
    addresses := QueryFetchAll(engine, a);
  }

  /** After the put: the single address is what one() returns. */
  method CheckOneAddress(engine: SqliteDBContract, db: DB, johnId: string, janeId: string, addressId: string)
    returns (oneAddress: Result<Record>)
    requires Registered(db) && Stored(engine, johnId, janeId, addressId)
    ensures oneAddress == Ok(Address(addressId))
  {
    var address := Address(addressId);
    DecodeEncode(address, AddressKind);
    StoredScans(johnId, janeId, addressId);
    var a := new Query(db.collections["Address"]);
    assert a.collection.name == "Address" && a.collection.kind == AddressKind && a.filters == [];
    assert EncodeAll([address]) == [address.values];
    assert Select(engine.rows, a.collection.name, a.filters) == Ok([address.values]);
    oneAddress := QueryOne(engine, a);
  }

  /** After the put: the single address is what one_or_none() returns. */
  method CheckAddressOrNone(engine: SqliteDBContract, db: DB, johnId: string, janeId: string, addressId: string)
    returns (addressOrNone: Result<Option<Record>>)
    requires Registered(db) && Stored(engine, johnId, janeId, addressId)
    ensures addressOrNone == Ok(Some(Address(addressId)))
  {
    var address := Address(addressId);
    DecodeEncode(address, AddressKind);
    StoredScans(johnId, janeId, addressId);
    var a := new Query(db.collections["Address"]);
    assert a.collection.name == "Address" && a.collection.kind == AddressKind && a.filters == [];
    assert EncodeAll([address]) == [address.values];
    assert Select(engine.rows, a.collection.name, a.filters) == Ok([address.values]);
    addressOrNone := QueryOneOrNone(engine, a);
  }

  /** After the put: the two persons make one_or_none raise TooManyValues. */
  method CheckTooMany(engine: SqliteDBContract, db: DB, johnId: string, janeId: string, addressId: string)
    returns (manyPersons: Result<Option<Record>>)
    requires Registered(db) && Stored(engine, johnId, janeId, addressId)
    ensures manyPersons == Err(TooManyValues)
  {
    var john, jane := Person(johnId, "John", "Doe"), Person(janeId, "Jane", "Doe");
    StoredScans(johnId, janeId, addressId);
    var q := new Query(db.collections["Person"]);
    assert q.collection.name == "Person" && q.collection.kind == PersonKind && q.filters == [];
    q.FetchAllEncodeAll([john, jane]);
    assert q.OneOrNone(EncodeAll([john, jane])) == Err(TooManyValues);
    manyPersons := QueryOneOrNone(engine, q);
  }

  /** One equality filter on a document that has the field: it holds exactly when the field equals the value. */
  lemma EqualityFilter(document: Document, field: string, value: Value)
    requires field in document
    ensures AllSatisfied(document, [Predicate(field, "=", value)]) == Ok(document[field] == value)
  {
    var p := Predicate(field, "=", value);
    assert PredicateIsSatisfied(document, p).Ok?;
  }

  /** A two-row scan keeps each row whose filters hold, in order. */
  lemma FilteredTwo(a: Row, b: Row, filters: seq<Predicate>)
    requires AllSatisfied(a.content, filters).Ok? && AllSatisfied(b.content, filters).Ok?
    ensures Filtered([a, b], filters) ==
              Ok((if AllSatisfied(a.content, filters).value then [a.content] else []) +
                 (if AllSatisfied(b.content, filters).value then [b.content] else []))
  {
    var keptA := if AllSatisfied(a.content, filters).value then [a.content] else [];
    assert Filtered([], filters) == Ok([]);
    FilteredSnoc([], a, filters);
    assert [] + [a] == [a] && [] + keptA == keptA;
    FilteredSnoc([a], b, filters);
    assert [a] + [b] == [a, b];
  }

  /** A filtered scan of the first collection of such a table keeps its two rows whose filters hold, in order. */
  lemma FilterOfThree(a: Row, b: Row, c: Row, filters: seq<Predicate>)
    requires a.collection == c.collection && b.collection != a.collection
    requires AllSatisfied(a.content, filters).Ok? && AllSatisfied(c.content, filters).Ok?
    ensures Select([a, b, c], a.collection, filters) ==
              Ok((if AllSatisfied(a.content, filters).value then [a.content] else []) +
                 (if AllSatisfied(c.content, filters).value then [c.content] else []))
  {
    CollectionRowsOfThree(a, b, c);
    FilteredTwo(a, c, filters);
  }

  /** John and Jane, in that order, keeping those whose `field` equals `value`. */
  function PersonsWith(johnId: string, janeId: string, field: string, value: Value): (r: seq<Record>)
    requires field in PersonKind.fields
    ensures forall i :: 0 <= i < |r| ==> Conforms(r[i], PersonKind) && r[i].values[field] == value
  {
    var john, jane := Person(johnId, "John", "Doe"), Person(janeId, "Jane", "Doe");
    (if john.values[field] == value then [john] else []) + (if jane.values[field] == value then [jane] else [])
  }

  /** The stored table scanned for Persons with `field = value`. */
  lemma NameFilterScan(johnId: string, janeId: string, addressId: string, field: string, value: Value)
    requires field in PersonKind.fields
    ensures var rows := [RowOf(Person(johnId, "John", "Doe")), RowOf(Address(addressId)), RowOf(Person(janeId, "Jane", "Doe"))];
            Select(rows, "Person", [Predicate(field, "=", value)]) == Ok(EncodeAll(PersonsWith(johnId, janeId, field, value)))
  {
    var john, address, jane := Person(johnId, "John", "Doe"), Address(addressId), Person(janeId, "Jane", "Doe");
    var filters := [Predicate(field, "=", value)];
    EqualityFilter(john.values, field, value);
    EqualityFilter(jane.values, field, value);
    FilterOfThree(RowOf(john), RowOf(address), RowOf(jane), filters);
    var expected := PersonsWith(johnId, janeId, field, value);
    var docs := (if john.values[field] == value then [john.values] else []) +
                (if jane.values[field] == value then [jane.values] else []);
    assert EncodeAll(expected) == docs;
  }

  /**
   * After the put: `filter(field, "=", value)` on Person keeps the persons
   * whose field equals the value, in the order they were put.
   */
  method CheckNameFilter(engine: SqliteDBContract, db: DB, johnId: string, janeId: string, addressId: string,
                         field: string, value: Value)
    returns (persons: Result<seq<Record>>)
    requires Registered(db) && Stored(engine, johnId, janeId, addressId)
    requires field in PersonKind.fields
    ensures persons == Ok(PersonsWith(johnId, janeId, field, value))
  {
    var expected := PersonsWith(johnId, janeId, field, value);
    NameFilterScan(johnId, janeId, addressId, field, value);
    var q := new Query(db.collections["Person"]);
    q := q.Filter(field, "=", value);
    assert q.collection.name == "Person" && q.collection.kind == PersonKind && q.filters == [Predicate(field, "=", value)];
    q.FetchAllEncodeAll(expected);
    persons := QueryFetchAll(engine, q);
  }

  /** The three filtered scans of the test: two Does, one Jane, no Steve. */
  method CheckFilterCounts(engine: SqliteDBContract, db: DB, johnId: string, janeId: string, addressId: string)
    returns (does: Result<seq<Record>>, janes: Result<seq<Record>>, steves: Result<seq<Record>>)
    requires Registered(db) && Stored(engine, johnId, janeId, addressId)
    ensures does.Ok? && |does.value| == 2
    ensures janes.Ok? && |janes.value| == 1
    ensures steves.Ok? && |steves.value| == 0
  {
    does := CheckNameFilter(engine, db, johnId, janeId, addressId, "last_name", "Doe");
    janes := CheckNameFilter(engine, db, johnId, janeId, addressId, "first_name", "Jane");
    steves := CheckNameFilter(engine, db, johnId, janeId, addressId, "first_name", "Steve");
  }

  /** `db.delete((Person, john_id))` removes John's row and nothing else. */
  lemma DeleteJohn(johnId: string, janeId: string, addressId: string)
    requires johnId != janeId
    ensures var john, address, jane := RowOf(Person(johnId, "John", "Doe")), RowOf(Address(addressId)),
                                       RowOf(Person(janeId, "Jane", "Doe"));
            DeleteAll([john, address, jane], [DeleteOperation("Person", johnId)]) == [address, jane]
  {
    var john, address, jane := RowOf(Person(johnId, "John", "Doe")), RowOf(Address(addressId)),
                               RowOf(Person(janeId, "Jane", "Doe"));
    var rows := [john, address, jane];
    assert [DeleteOperation("Person", johnId)][..0] == [];
    assert [john][..0] == [];
    assert DeleteKey([john], "Person", johnId) == [];
    assert [john, address][..1] == [john];
    assert DeleteKey([john, address], "Person", johnId) == [address];
    assert rows[..2] == [john, address];
  }

  /** The Person scan of the table left by the delete. */
  lemma RemainingScan(janeId: string, addressId: string)
    ensures var address, jane := Address(addressId), Person(janeId, "Jane", "Doe");
            Select([RowOf(address), RowOf(jane)], "Person", []) == Ok(EncodeAll([jane]))
  {
    var address, jane := Address(addressId), Person(janeId, "Jane", "Doe");
    var rows := [RowOf(address), RowOf(jane)];
    assert [RowOf(address)][..0] == [];
    assert CollectionRows([RowOf(address)], "Person") == [];
    assert rows[..1] == [RowOf(address)];
    assert CollectionRows(rows, "Person") == [RowOf(jane)];
    SelectMeaning(rows, "Person", []);
    assert Contents([RowOf(jane)]) == EncodeAll([jane]);
  }

  /** After deleting John, the Person scan returns Jane alone. */
  method CheckDelete(engine: SqliteDBContract, db: DB, johnId: string, janeId: string, addressId: string)
    returns (remaining: Result<seq<Record>>)
    requires Registered(db) && Stored(engine, johnId, janeId, addressId)
    requires johnId != janeId
    modifies engine
    ensures engine.rows == [RowOf(Address(addressId)), RowOf(Person(janeId, "Jane", "Doe"))]
    ensures remaining == Ok([Person(janeId, "Jane", "Doe")])
  {
    var address, jane := Address(addressId), Person(janeId, "Jane", "Doe");
    var keys := [(PersonKind, johnId)];
    assert db.DeleteOperations(keys) == [DeleteOperation("Person", johnId)];
    DeleteJohn(johnId, janeId, addressId);
    Delete(db, engine, keys);
    var rows := [RowOf(address), RowOf(jane)];
    assert engine.rows == rows;
    RemainingScan(janeId, addressId);
    var q := new Query(db.collections["Person"]);
    assert q.collection.name == "Person" && q.collection.kind == PersonKind && q.filters == [];
    q.FetchAllEncodeAll([jane]);
    remaining := QueryFetchAll(engine, q);
  }

  /**
   * The whole test in order, on a fresh engine and registry: every step's
   * outcome is the one the test asserts, and the Person scan at the end
   * returns Jane alone.
   */
  method CheckEngineRun(johnId: string, janeId: string, addressId: string)
    returns (remaining: Result<seq<Record>>)
    requires johnId != janeId && johnId != "invalid" && janeId != "invalid"
    ensures remaining == Ok([Person(janeId, "Jane", "Doe")])
  {
    var engine, db := Setup();
    var persons, addresses, noPerson, onePerson := CheckEmpty(engine, db);
    PutAll3(engine, db, johnId, janeId, addressId);
    var gotJohn, gotInvalid := CheckGet(engine, db, johnId, janeId, addressId);
    persons := CheckPersonCount(engine, db, johnId, janeId, addressId);
    addresses := CheckAddressCount(engine, db, johnId, janeId, addressId);
    var oneAddress := CheckOneAddress(engine, db, johnId, janeId, addressId);
    var addressOrNone := CheckAddressOrNone(engine, db, johnId, janeId, addressId);
    var manyPersons := CheckTooMany(engine, db, johnId, janeId, addressId);
    var does, janes, steves := CheckFilterCounts(engine, db, johnId, janeId, addressId);
    remaining := CheckDelete(engine, db, johnId, janeId, addressId);
  }
}
