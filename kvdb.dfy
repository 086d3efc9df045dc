/*
 * The engine-agnostic query/mapping layer of kvdb (kvdb/kvdb.py): the data
 * carried between the typed layer and a storage engine, the Collection and
 * Query entry points, and the DB registry.
 *
 * The storage engine is not called from here. Every operation that asks the
 * engine something takes the engine's answer as a parameter (the document
 * `get` returned, the documents `fetch_all` returned), and every operation
 * that hands a batch to the engine returns that batch. Module KvdbSqlite
 * connects these to the reference engine of module Sqlite.
 */
module Kvdb {

  datatype Option<+T> = None | Some(value: T)

  /** A value, or the exception the Python code raises instead. */
  datatype Result<+T> = Ok(value: T) | Err(error: Error)

  /** The exceptions of the core, built-in ones included. */
  datatype Error =
    | UnknownOperator(operator: string)              // KeyError from the comparison table
    | MissingField(field: string)                    // KeyError from a document lookup
    | Unregistered(kindName: string)                 // KeyError from DB.collections
    | Invalid(kindName: string)                      // the record kind rejects a document
    | DuplicateKey(collectionName: string, id: string)  // the assertion in the engine's get
    | NotFound(collectionName: string, filters: seq<Predicate>)
    | TooManyValues

  /** Field values are strings: the one scalar type modelled. */
  type Value = string

  /** An untyped document: field name to value (JSON encoding is the identity). */
  type Document = map<string, Value>

  datatype Predicate = Predicate(field: string, operator: string, value: Value)

  datatype PutOperation = PutOperation(collectionName: string, id: string, document: Document)

  datatype DeleteOperation = DeleteOperation(collectionName: string, id: string)

  /*
   * Typed records. A record kind (a pydantic class) is its name and the
   * fields it declares; a record is an instance of a kind.
   */

  datatype RecordKind = RecordKind(name: string, fields: set<string>)

  datatype Record = Record(kindName: string, values: Document)

  /** `r` is a well-formed instance of `kind`: it has exactly the declared fields. */
  predicate Conforms(r: Record, kind: RecordKind) {
    r.kindName == kind.name && r.values.Keys == kind.fields
  }

  /** `instance.model_dump()`. */
  function Encode(r: Record): Document {
    r.values
  }

  /**
   * `kind(**document)`: every declared field must be present; fields the kind
   * does not declare are dropped.
   */
  function Decode(kind: RecordKind, d: Document): (r: Result<Record>)
    ensures r.Ok? <==> kind.fields <= d.Keys
    ensures r.Ok? ==> Conforms(r.value, kind)
    ensures r.Ok? ==> forall f :: f in kind.fields ==> r.value.values[f] == d[f]
    ensures r.Err? ==> r.error == Invalid(kind.name)
  {
    if kind.fields <= d.Keys then Ok(Record(kind.name, map f | f in kind.fields :: d[f]))
    else Err(Invalid(kind.name))
  }

  /** Decoding what a well-formed record encodes to gives the record back. */
  lemma DecodeEncode(r: Record, kind: RecordKind)
    requires Conforms(r, kind)
    ensures Decode(kind, Encode(r)) == Ok(r)
  {
    var m := map f | f in kind.fields :: r.values[f];
    assert m == r.values;
  }

  /** The dumps of `records`, in order. */
  function EncodeAll(records: seq<Record>): (r: seq<Document>)
    ensures |r| == |records| && forall i :: 0 <= i < |records| ==> r[i] == Encode(records[i])
  {
    seq(|records|, i requires 0 <= i < |records| => Encode(records[i]))
  }

  /** Binds a record kind to a collection name and a primary-key field. */
  datatype Collection = Collection(name: string, kind: RecordKind, pkField: string) {

    /** Collection.get, given what the engine's get answered for the key. */
    function Get(stored: Option<Document>): (r: Result<Option<Record>>)
      ensures r == Ok(None) <==> stored == None
      ensures stored.Some? ==> (r.Ok? <==> Decode(kind, stored.value).Ok?)
      ensures r.Ok? && r.value.Some? ==>
                stored.Some? && Decode(kind, stored.value) == Ok(r.value.value)
      ensures r.Err? ==> stored.Some? && r.error == Invalid(kind.name)
    {
      match stored
      case None => Ok(None)
      case Some(d) =>
        match Decode(kind, d)
        case Ok(rec) => Ok(Some(rec))
        case Err(e) => Err(e)
    }
  }

  /** The iterator step `next(it)` over a materialised list. */
  function Next<T>(s: seq<T>): Option<(T, seq<T>)> {
    if s == [] then None else Some((s[0], s[1..]))
  }

  /**
   * The two-step probe of one_or_none: pull one value, then check that a
   * second one cannot be pulled.
   */
  function Probe<T>(values: seq<T>): (r: Result<Option<T>>)
    ensures r == Ok(None) <==> |values| == 0
    ensures (r.Ok? && r.value.Some?) <==> |values| == 1
    ensures r.Ok? && r.value.Some? ==> r.value.value == values[0]
    ensures r == Err(TooManyValues) <==> |values| >= 2
  {
    match Next(values)
    case None => Ok(None)
    case Some((first, rest)) =>
      match Next(rest)
      case None => Ok(Some(first))
      case Some(_) => Err(TooManyValues)
  }

  /** A query under construction against one collection. */
  class Query {
    const collection: Collection
    var filters: seq<Predicate>

    /** Collection.query(). */
    constructor (collection: Collection)
      ensures this.collection == collection && filters == []
    {
      this.collection := collection;
      filters := [];
    }

    /** Appends one predicate and returns the same query. */
    method Filter(field: string, operator: string, value: Value) returns (q: Query)
      modifies this
      ensures q == this
      ensures filters == old(filters) + [Predicate(field, operator, value)]
    {
      filters := filters + [Predicate(field, operator, value)];
      q := this;
    }

    /**
     * Query.fetch_all, given the documents the engine's fetch_all returned:
     * each is decoded in order; the first that does not decode fails the call.
     */
    function FetchAll(docs: seq<Document>): (r: Result<seq<Record>>)
      decreases |docs|
      ensures r.Ok? <==> forall i :: 0 <= i < |docs| ==> Decode(collection.kind, docs[i]).Ok?
      ensures r.Ok? ==> |r.value| == |docs|
      ensures r.Ok? ==> forall i :: 0 <= i < |docs| ==> Decode(collection.kind, docs[i]) == Ok(r.value[i])
      ensures r.Err? ==> r.error == Invalid(collection.kind.name)
    {
      if docs == [] then Ok([])
      else
        match FetchAll(docs[..|docs| - 1])
        case Err(e) => Err(e)
        case Ok(init) =>
          match Decode(collection.kind, docs[|docs| - 1])
          case Err(e) => Err(e)
          case Ok(rec) => Ok(init + [rec])
    }

    /** Fetching the dumps of well-formed records of the collection's kind gives those records back, in order. */
    lemma FetchAllEncodeAll(records: seq<Record>)
      requires forall i :: 0 <= i < |records| ==> Conforms(records[i], collection.kind)
      ensures FetchAll(EncodeAll(records)) == Ok(records)
    {
      var docs := EncodeAll(records);
      forall i | 0 <= i < |docs|
        ensures Decode(collection.kind, docs[i]) == Ok(records[i])
      {
        DecodeEncode(records[i], collection.kind);
      }
      var r := FetchAll(docs);
      assert r.Ok? && |r.value| == |records|;
      assert r.value == records;
    }

    /** Query.one_or_none, given the documents the engine's fetch_all returned. */
    function OneOrNone(docs: seq<Document>): (r: Result<Option<Record>>)
      ensures r == Ok(None) <==> |docs| == 0
      ensures r.Ok? && r.value.Some? <==> |docs| == 1 && Decode(collection.kind, docs[0]).Ok?
      ensures r.Ok? && r.value.Some? ==> Decode(collection.kind, docs[0]) == Ok(r.value.value)
      ensures r == Err(TooManyValues) <==>
                |docs| >= 2 && forall i :: 0 <= i < |docs| ==> Decode(collection.kind, docs[i]).Ok?
      ensures r.Err? && r.error != TooManyValues ==> r.error == Invalid(collection.kind.name)
    {
      match FetchAll(docs)
      case Err(e) => Err(e)
      case Ok(records) => Probe(records)
    }

    /** Query.one: NotFound, naming the collection and the filters, where one_or_none finds nothing. */
    function One(docs: seq<Document>): (r: Result<Record>)
      reads this
      ensures r == Err(NotFound(collection.name, filters)) <==> OneOrNone(docs) == Ok(None)
      ensures r.Ok? <==> OneOrNone(docs).Ok? && OneOrNone(docs).value.Some?
      ensures r.Ok? ==> OneOrNone(docs) == Ok(Some(r.value))
      ensures OneOrNone(docs).Err? ==> r == Err(OneOrNone(docs).error)
    {
      match OneOrNone(docs)
      case Err(e) => Err(e)
      case Ok(None) => Err(NotFound(collection.name, filters))
      case Ok(Some(rec)) => Ok(rec)
    }
  }

  /** The registry: record-kind name to Collection. */
  class DB {
    var collections: map<string, Collection>

    /** Every registered collection is stored under its own name, which is its kind's name. */
    ghost predicate Valid()
      reads this
    {
      forall n :: n in collections ==> collections[n].name == n && collections[n].kind.name == n
    }

    constructor ()
      ensures collections == map[] && Valid()
    {
      collections := map[];
    }

    /** Registers `kind` under its name; a second registration of the name replaces the first. */
    method AddCollection(kind: RecordKind, pkField: string)
      modifies this
      ensures collections == old(collections)[kind.name := Collection(kind.name, kind, pkField)]
      ensures old(Valid()) ==> Valid()
    {
      collections := collections[kind.name := Collection(kind.name, kind, pkField)];
    }

    /** The primary-key field registered for the kind of `instance`, if that kind is registered and the field is set. */
    predicate Storable(instance: Record)
      reads this
    {
      instance.kindName in collections && collections[instance.kindName].pkField in Encode(instance)
    }

    /**
     * `to_put_operation` inside DB.put: the collection is the instance's kind
     * name, the document its dump, the id the dump's primary-key field.
     */
    function ToPutOperation(instance: Record): (r: Result<PutOperation>)
      reads this
      ensures r.Ok? <==> Storable(instance)
      ensures r.Ok? ==> r.value.collectionName == instance.kindName && r.value.document == Encode(instance)
      ensures r.Ok? ==> r.value.id == Encode(instance)[collections[instance.kindName].pkField]
      ensures instance.kindName !in collections ==> r == Err(Unregistered(instance.kindName))
      ensures instance.kindName in collections && collections[instance.kindName].pkField !in Encode(instance) ==>
                r == Err(MissingField(collections[instance.kindName].pkField))
    {
      var name := instance.kindName;
      if name !in collections then Err(Unregistered(name))
      else
        var document := Encode(instance);
        var pk := collections[name].pkField;
        if pk !in document then Err(MissingField(pk))
        else Ok(PutOperation(name, document[pk], document))
    }

    /**
     * The batch DB.put hands to the engine: one PutOperation per instance, in
     * argument order; the first instance that cannot be converted fails the
     * call before the engine is reached.
     */
    function PutOperations(instances: seq<Record>): (r: Result<seq<PutOperation>>)
      reads this
      decreases |instances|
      ensures r.Ok? <==> forall i :: 0 <= i < |instances| ==> Storable(instances[i])
      ensures r.Ok? ==> |r.value| == |instances|
      ensures r.Ok? ==> forall i :: 0 <= i < |instances| ==> ToPutOperation(instances[i]) == Ok(r.value[i])
      ensures r.Err? ==> exists i :: FirstUnstorable(instances, i) && r.error == ToPutOperation(instances[i]).error
    {
      if instances == [] then Ok([])
      else
        var n := |instances| - 1;
        match PutOperations(instances[..n])
        case Err(e) =>
          assert forall i :: FirstUnstorable(instances[..n], i) ==> FirstUnstorable(instances, i);
          Err(e)
        case Ok(init) =>
          match ToPutOperation(instances[n])
          case Err(e) =>
            assert FirstUnstorable(instances, n);
            Err(e)
          case Ok(op) => Ok(init + [op])
    }

    /** `instances[i]` is the first instance that cannot be stored. */
    predicate FirstUnstorable(instances: seq<Record>, i: int)
      reads this
    {
      0 <= i < |instances| && !Storable(instances[i]) &&
      forall j :: 0 <= j < i ==> Storable(instances[j])
    }

    /**
     * The batch DB.delete hands to the engine: one DeleteOperation per
     * (kind, id) pair, in order, named after the kind whether or not it is
     * registered.
     */
    function DeleteOperations(keys: seq<(RecordKind, string)>): (r: seq<DeleteOperation>)
      decreases |keys|
      ensures |r| == |keys|
      ensures forall i :: 0 <= i < |keys| ==>
                r[i].collectionName == keys[i].0.name && r[i].id == keys[i].1
    {
      if keys == [] then []
      else
        var (kind, id) := keys[|keys| - 1];
        DeleteOperations(keys[..|keys| - 1]) + [DeleteOperation(kind.name, id)]
    }
  }
}
