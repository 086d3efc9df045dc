# kvdb in Dafny

kvdb is a small typed key–value document store. Records are pydantic
instances. Each record kind is registered with a `DB` as a collection with a
primary-key field. Records are stored as untyped documents by a storage
engine that offers four operations: `get`, `fetch_all`, `put` and `delete`.
This project models the engine-agnostic layer and the reference engine, and
proves what each promises:

- `kvdb.dfy` (module `Kvdb`): the data carried between the layers
  (`Predicate`, `PutOperation`, `DeleteOperation`). Also `Collection.get`, the
  `Query` builder with `filter`, `fetch_all`, `one_or_none` and `one`, and the
  `DB` registry with `add_collection`, `put` and `delete`. Pydantic
  construction (`Kind(**document)`) is `Decode`, and `model_dump()` is
  `Encode`. Python exceptions are the `Err` side of a `Result`. This layer
  never calls the engine itself:
  - an operation that reads from the engine takes the engine's answer as a
    parameter;
  - an operation that writes returns the batch it would hand over.
- `sqlite.dfy` (module `Sqlite`): the reference engine `SqliteDBContract`.
  - Its `document` table is a sequence of rows, and each SQL statement is a
    function over that sequence.
  - The Python loops of `fetch_all`, `put` and `delete` are `while` loops.
    Each loop is proved against a specification function: `Select`, `PutAll`
    or `DeleteAll`.
  - Lemmas about those functions give the meaning of each operation:
    - after a `put`, a key holds exactly the last document written to it;
    - a `delete` removes exactly the named keys;
    - a scan keeps exactly the matching rows of its collection, in order;
    - the scan's errors are those of the comparison table.
  - The table invariant "at most one row per key" is preserved by every
    operation. It is what makes the assertion in `get` hold.
  - Python's string ordering behind `<`, `>`, `<=` and `>=` is `Less`.
- `kvdb_sqlite.dfy` (module `KvdbSqlite`): the `Kvdb` layer running on the
  `Sqlite` engine, with end-to-end properties:
  - a registered record that is put comes back from `Collection.get`;
  - a deleted key is gone;
  - `Query.fetch_all` returns exactly the decoded matching documents.
- `check_engine.dfy` (module `CheckEngine`): the repository's shared engine
  test `check_engine`, replayed step by step against the model. Each step
  states the outcome the test asserts. The uuids of the test are
  parameters.

## Model

| member | source | states |
|---|---|---|
| Kvdb.Decode | kvdb/kvdb.py:56 | constructing a record kind from a document succeeds exactly when every declared field is present; the record has exactly the declared fields with the document's values; otherwise the kind's validation error |
| Kvdb.DecodeEncode | kvdb/kvdb.py:121 | a well-formed record survives `model_dump` followed by construction unchanged |
| Kvdb.Collection.Get | kvdb/kvdb.py:52-56 | absent exactly when the engine found nothing; otherwise the decoded document, or the validation error when it does not decode |
| Kvdb.Probe | kvdb/kvdb.py:80-94 | the two `next` calls give None for no value, the value for exactly one, TooManyValues for two or more |
| Kvdb.Query.constructor | kvdb/kvdb.py:58-64 | a new query is bound to its collection and has no filters |
| Kvdb.Query.Filter | kvdb/kvdb.py:66-68 | appends exactly one predicate to the query's filters and returns the same query object |
| Kvdb.Query.FetchAll | kvdb/kvdb.py:70-72 | succeeds exactly when every fetched document decodes; then it has one record per document, in order, each the decoding of its document; otherwise the validation error |
| Kvdb.Query.FetchAllEncodeAll | kvdb/kvdb.py:70-72 | fetching the dumps of well-formed records of the collection's kind gives back exactly those records, in order |
| Kvdb.Query.OneOrNone | kvdb/kvdb.py:80-94 | None exactly for no documents; the decoded record exactly for one decodable document; TooManyValues exactly for two or more documents that all decode; any other error is a validation error |
| Kvdb.Query.One | kvdb/kvdb.py:74-78 | NotFound, naming the collection and the filters, exactly where one_or_none gives None; otherwise one_or_none's record or error |
| Kvdb.DB.constructor | kvdb/kvdb.py:101-104 | a new registry is empty (and so well formed) |
| Kvdb.DB.AddCollection | kvdb/kvdb.py:110-115 | registers the kind under its own name, replacing an earlier registration of that name, and keeps every entry stored under its own name |
| Kvdb.DB.ToPutOperation | kvdb/kvdb.py:118-124 | succeeds exactly when the kind is registered and the dump has the primary-key field; the operation names the kind, carries the dump and takes the id from the primary-key field; the error otherwise is the registry or dump lookup failure |
| Kvdb.DB.PutOperations | kvdb/kvdb.py:117-125 | the batch succeeds exactly when every instance converts; it has one operation per instance, in order; on failure the error is that of the first instance that cannot be converted |
| Kvdb.DB.DeleteOperations | kvdb/kvdb.py:127-128 | one delete operation per (kind, id) pair, in order, named after the kind |
| Sqlite.LessTrichotomy | kvdb/sqlite.py:12-13 | Python string ordering is total: exactly one of `a < b`, `a == b`, `b < a` |
| Sqlite.LessTransitive | kvdb/sqlite.py:12-15 | Python string ordering is transitive |
| Sqlite.ComparisonsConsistent | kvdb/sqlite.py:9-16 | the table has exactly the six operators; `<`, `=` and `>` are exclusive and exhaustive; `!=`, `>=` and `<=` are the negations of `=`, `<` and `>`; `>` is `<` with operands swapped |
| Sqlite.PredicateIsSatisfied | kvdb/sqlite.py:18-19 | an unknown operator raises before a missing field; otherwise the result is the operator's meaning on the document's field and the predicate's value |
| Sqlite.AllSatisfied | kvdb/sqlite.py:50 | `all([...])` succeeds exactly when every predicate evaluates; it is true exactly when every predicate holds; on failure the error is one a predicate raised |
| Sqlite.KeyRows | kvdb/sqlite.py:33 | the rows selected by collection and id are exactly the table rows with that key |
| Sqlite.DeleteKey | kvdb/sqlite.py:61 | `DELETE ... WHERE collection AND id` keeps exactly the rows without that key |
| Sqlite.CollectionRows | kvdb/sqlite.py:46 | `SELECT ... WHERE collection` returns exactly the rows of that collection |
| Sqlite.KeyRowsDeleteKey | kvdb/sqlite.py:70 | after deleting a key, that key has no rows and every other key keeps its rows |
| Sqlite.LookupUnique | kvdb/sqlite.py:35-41 | under the one-row-per-key invariant the assertion in `get` holds; the result is absent exactly when no row has the key, otherwise the content of a row with the key |
| Sqlite.LastPut | kvdb/sqlite.py:69-71 | absent exactly when no operation writes the key; otherwise the document of the last operation that does |
| Sqlite.PutAllKeyRows | kvdb/sqlite.py:66-71 | after `put(ops)` a key written by the batch has exactly one row, holding the last document written to it; a key not written keeps its rows |
| Sqlite.PutAllUnique | kvdb/sqlite.py:69-71 | `put` preserves at most one row per key |
| Sqlite.PutThenLookup | kvdb/sqlite.py:66-71 | a `get` right after putting a document under a key returns that document, whatever the table held |
| Sqlite.PutAllLookupAbsent | kvdb/sqlite.py:66-71 | a key that is neither stored nor written by the batch is still absent after `put` |
| Sqlite.PutAllFresh | kvdb/sqlite.py:69-71 | a batch of fresh, pairwise distinct keys appends one row per operation, in batch order |
| Sqlite.FreshBeforeLast | kvdb/sqlite.py:69-71 | in a batch of fresh, pairwise distinct keys, the last key is held by no row that exists before its own `INSERT` |
| Sqlite.DeleteAllSurviving | kvdb/sqlite.py:56-61 | `delete(ops)` leaves exactly the rows whose key no operation names, in their order |
| Sqlite.DeleteAllKeyRows | kvdb/sqlite.py:59-61 | after `delete(ops)` a named key has no rows and every other key keeps its rows |
| Sqlite.DeleteAllUnique | kvdb/sqlite.py:59-61 | `delete` preserves at most one row per key |
| Sqlite.DeleteAllAbsent | kvdb/sqlite.py:59-61 | deleting keys that are not stored changes nothing |
| Sqlite.SurvivingAll | kvdb/sqlite.py:59-61 | rows none of whose keys is named all survive |
| Sqlite.SurvivingMembers | kvdb/sqlite.py:59-61 | a row survives exactly when it was in the table and no operation names its key |
| Sqlite.FilteredErrPrefix | kvdb/sqlite.py:48-50 | a scan that fails on some row fails with that error whatever follows |
| Sqlite.FilteredSnoc | kvdb/sqlite.py:48-51 | one more row at the end of the scan is kept after the earlier ones exactly when its filters hold |
| Sqlite.FilteredNoFilters | kvdb/sqlite.py:46-52 | with no filters the scan returns every row's content in scan order |
| Sqlite.FilteredOk | kvdb/sqlite.py:48-50 | the scan fails exactly when the filters fail on some row, and only with an unknown-operator or missing-field error |
| Sqlite.FilteredMembers | kvdb/sqlite.py:48-51 | a successful scan keeps exactly the contents of the rows whose filters all hold |
| Sqlite.SelectMeaning | kvdb/sqlite.py:43-52 | `fetch_all(c, filters)` succeeds exactly when every row of `c` evaluates its filters; it returns exactly the contents of the matching rows of `c`; with no filters it returns all of `c`'s documents in order |
| Sqlite.SelectAfterDelete | kvdb/sqlite.py:43-61 | after `delete`, a scan returns no document that only a deleted row held |
| Sqlite.SqliteDBContract.constructor | kvdb/sqlite.py:23-29 | a new store has an empty table, which satisfies the one-row-per-key invariant |
| Sqlite.SqliteDBContract.Get | kvdb/sqlite.py:31-41 | absent exactly when no row has the key; otherwise the content of a row with the key; the assertion fails exactly when several rows have the key, which the invariant rules out |
| Sqlite.SqliteDBContract.FetchAll | kvdb/sqlite.py:43-54 | the loop computes the scan `Select`, whose meaning is `SelectMeaning` |
| Sqlite.SqliteDBContract.Delete | kvdb/sqlite.py:56-64 | the new table is `DeleteAll` of the old one (see `DeleteAllSurviving`, `DeleteAllKeyRows`) and the invariant is kept |
| Sqlite.SqliteDBContract.Put | kvdb/sqlite.py:66-74 | the new table is `PutAll` of the old one (see `PutAllKeyRows`) and the invariant is kept |
| KvdbSqlite.CollectionGet | kvdb/kvdb.py:52-56 | absent exactly when no row has the key; a found record decodes a row with the key; under the invariant it fails exactly when that row does not decode |
| KvdbSqlite.QueryFetchAll | kvdb/kvdb.py:70-72 | the result is the scan followed by decoding; with no filters it has one record per document of the collection |
| KvdbSqlite.FetchResultOk | kvdb/kvdb.py:70-72 | fetch_all succeeds exactly when the scan succeeds and every matching row decodes; then it has one record per matching document |
| KvdbSqlite.FetchResultSound | kvdb/kvdb.py:70-72 | every record returned decodes a row of the collection that satisfies every filter |
| KvdbSqlite.FetchResultComplete | kvdb/kvdb.py:70-72 | every row of the collection that satisfies every filter is decoded into a returned record |
| KvdbSqlite.QueryOneOrNone | kvdb/kvdb.py:80-94 | scan errors pass through; None exactly for an empty scan; TooManyValues exactly for two or more decodable documents; the record of a single decodable document |
| KvdbSqlite.QueryOne | kvdb/kvdb.py:74-78 | NotFound exactly for an empty scan; the decoding of a single document; TooManyValues exactly for two or more decodable documents |
| KvdbSqlite.Put | kvdb/kvdb.py:117-125 | a batch that cannot be built fails before the engine is touched; otherwise the engine applies exactly the built batch; the invariant is kept |
| KvdbSqlite.Delete | kvdb/kvdb.py:127-128 | the engine deletes exactly the named (kind, id) keys; the invariant is kept |
| KvdbSqlite.PutThenGet | kvdb/kvdb.py:117-125 | a registered, well-formed record that is put comes back unchanged from `Collection.get` under its primary key |
| KvdbSqlite.DeleteThenGet | kvdb/kvdb.py:127-128 | after deleting (kind, id), `get` of that key is absent and scans of the kind return only documents of surviving rows |
| CheckEngine.Setup | kvdb/shared_test_code.py:25-26 | registering Person and Address gives the two-entry registry over an empty table |
| CheckEngine.CheckEmpty | kvdb/shared_test_code.py:28-33 | before any put, both scans are empty, one_or_none is None and one raises NotFound |
| CheckEngine.BatchOfThree | kvdb/shared_test_code.py:37 | `db.put(john, address, jane)` hands the engine three operations, in argument order, keyed by each record's id |
| CheckEngine.RowsOfThree | kvdb/shared_test_code.py:37 | that batch on an empty table stores exactly the three rows, in order |
| CheckEngine.PutAll3 | kvdb/shared_test_code.py:35-37 | putting John, the address and Jane leaves exactly their three rows, in that order |
| CheckEngine.CollectionRowsOfThree | kvdb/sqlite.py:46 | over a three-row table, the rows of a collection are exactly those rows whose collection matches, in order |
| CheckEngine.ScanOfThree | kvdb/shared_test_code.py:42-43 | over the rows (person, address, person) the unfiltered Person scan returns both persons in order and the Address scan the address alone |
| CheckEngine.StoredScans | kvdb/shared_test_code.py:42-43 | after the put, the Person scan returns the dumps of John and Jane and the Address scan the dump of the address |
| CheckEngine.CheckGet | kvdb/shared_test_code.py:39-40 | get of John's id returns John; get of "invalid" returns None |
| CheckEngine.CheckPersonCount | kvdb/shared_test_code.py:42 | the Person scan returns John then Jane |
| CheckEngine.CheckAddressCount | kvdb/shared_test_code.py:43 | the Address scan returns the one address |
| CheckEngine.CheckOneAddress | kvdb/shared_test_code.py:45 | one() on Address returns the address |
| CheckEngine.CheckAddressOrNone | kvdb/shared_test_code.py:46 | one_or_none() on Address returns the address |
| CheckEngine.CheckTooMany | kvdb/shared_test_code.py:47-48 | one_or_none() on Person raises TooManyValues |
| CheckEngine.EqualityFilter | kvdb/sqlite.py:10 | an `=` filter on a present field holds exactly when the field equals the value |
| CheckEngine.FilteredTwo | kvdb/sqlite.py:48-51 | a filtered scan of two rows keeps, in order, those whose filters hold |
| CheckEngine.FilterOfThree | kvdb/sqlite.py:43-52 | a filtered scan of a collection over a three-row table keeps, in order, the matching rows of that collection |
| CheckEngine.PersonsWith | kvdb/shared_test_code.py:50-52 | the persons of the test whose given field equals the value, in order; each is a well-formed Person holding that value |
| CheckEngine.NameFilterScan | kvdb/shared_test_code.py:50-52 | the engine's scan of Person with one `=` filter returns the dumps of the matching persons, in order |
| CheckEngine.CheckNameFilter | kvdb/shared_test_code.py:50-52 | an `=` filter on a Person field keeps, in order, the persons whose field equals the value |
| CheckEngine.CheckFilterCounts | kvdb/shared_test_code.py:50-52 | the filters find two Does, one Jane and no Steve |
| CheckEngine.DeleteJohn | kvdb/shared_test_code.py:54 | deleting (Person, John's id) removes John's row and only it |
| CheckEngine.RemainingScan | kvdb/shared_test_code.py:56 | over the rows left by the delete, the Person scan returns the dump of Jane alone |
| CheckEngine.CheckDelete | kvdb/shared_test_code.py:54-57 | after the delete the Person scan returns Jane alone |
| CheckEngine.CheckEngineRun | kvdb/shared_test_code.py:13-57 | the whole test in order, on a fresh store, ends with Jane as the only Person |

## Left out

- The sqlite3 connection, the SQL text, cursors and commits are not modelled.
  The table is a sequence of rows, and a statement is a function over it.
- Reopening an existing database file is not modelled: a new store always
  starts empty, with the schema created.
- The order of rows in a scan is assumed to be insertion order.
  `SELECT ... WHERE collection = ?` has no `ORDER BY`, so SQLite does not
  promise this.
- JSON encoding and decoding of `content` is treated as the identity: a
  document is stored and read back as the same map.
- Field values are strings only. Comparisons between values of different
  types, and pydantic's coercions (the test's `number="10"` becomes the
  integer 10), are not modelled. `Address.number` holds `"10"` here.
- Pydantic validation is reduced to "every declared field is present".
  Field types and defaults are not modelled.
- `print` in `SqliteDBContract.delete` is I/O and is left out.
- `fetch_all` returns a list, and `one_or_none` iterates over that
  materialised list; lazy iteration is not modelled.
- The `db.c.<Name>` attribute access set up by `setattr` in `add_collection`
  is modelled as a lookup in `DB.collections`.
- `get_internal_contract` and the `_InternalDBContract` interface are not
  modelled separately: the engine is the reference engine.
- The Datastore and Firestore engines are not part of this model.
- `DB.delete` names the collection after the record kind without consulting
  the registry, so an unregistered kind is accepted. The model follows this
  code.
- The uuids of `check_engine` are parameters. The scenario requires only
  that John's and Jane's ids differ from each other and from `"invalid"`,
  which fresh uuids guarantee.
