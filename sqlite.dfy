/*
 * The reference engine of kvdb (kvdb/sqlite.py). Behind its SQL text it keeps
 * one table of (id, collection, content) rows; here the table is a sequence
 * of rows in scan order (a new row goes to the end, a deleted row leaves the
 * others in place). Each SQL statement is a function over that sequence; the
 * Python loops around them are loops.
 */
module Sqlite {
  import opened Kvdb

  /*
   * The comparison table.
   */

  /** Python's `<` on str: code point by code point; a proper prefix comes first. */
  function Less(a: string, b: string): bool
    decreases |a|
  {
    if |b| == 0 then false
    else if |a| == 0 then true
    else if a[0] != b[0] then a[0] < b[0]
    else Less(a[1..], b[1..])
  }

  /** Exactly one of a < b, a == b, b < a holds. */
  lemma {:induction false} LessTrichotomy(a: string, b: string)
    ensures Less(a, b) || a == b || Less(b, a)
    ensures !(Less(a, b) && a == b) && !(Less(a, b) && Less(b, a)) && !(a == b && Less(b, a))
    decreases |a|
  {
    if |a| > 0 && |b| > 0 && a[0] == b[0] {
      LessTrichotomy(a[1..], b[1..]);
      if a[1..] == b[1..] {
        assert a == [a[0]] + a[1..] && b == [b[0]] + b[1..];
      }
    }
  }

  lemma {:induction false} LessTransitive(a: string, b: string, c: string)
    requires Less(a, b) && Less(b, c)
    ensures Less(a, c)
    decreases |a|
  {
    if |a| > 0 && a[0] == b[0] && b[0] == c[0] {
      LessTransitive(a[1..], b[1..], c[1..]);
    }
  }

  /** `_comparisons`: operator symbol to comparison. */
  const Comparisons: map<string, (Value, Value) -> bool> := map[
    "=" := (a: Value, b: Value) => a == b,
    "!=" := (a: Value, b: Value) => a != b,
    "<" := (a: Value, b: Value) => Less(a, b),
    ">" := (a: Value, b: Value) => Less(b, a),
    "<=" := (a: Value, b: Value) => Less(a, b) || a == b,
    ">=" := (a: Value, b: Value) => Less(b, a) || a == b
  ]

  /**
   * The six operators agree with one another: `<`, `=` and `>` are exclusive
   * and exhaustive, and `!=`, `>=`, `<=` are the negations of `=`, `<`, `>`.
   */
  lemma ComparisonsConsistent(a: Value, b: Value)
    ensures Comparisons.Keys == {"=", "!=", "<", ">", "<=", ">="}
    ensures Comparisons["<"](a, b) || Comparisons["="](a, b) || Comparisons[">"](a, b)
    ensures !(Comparisons["<"](a, b) && Comparisons["="](a, b))
    ensures !(Comparisons["<"](a, b) && Comparisons[">"](a, b))
    ensures !(Comparisons["="](a, b) && Comparisons[">"](a, b))
    ensures Comparisons["!="](a, b) == !Comparisons["="](a, b)
    ensures Comparisons[">="](a, b) == !Comparisons["<"](a, b)
    ensures Comparisons["<="](a, b) == !Comparisons[">"](a, b)
    ensures Comparisons[">"](a, b) == Comparisons["<"](b, a)
  {
    LessTrichotomy(a, b);
  }

  /**
   * `_predicate_is_satisified`: the operator is looked up first, then the
   * field; either lookup can fail.
   */
  function PredicateIsSatisfied(document: Document, p: Predicate): (r: Result<bool>)
    ensures r.Ok? <==> p.operator in Comparisons && p.field in document
    ensures p.operator !in Comparisons ==> r == Err(UnknownOperator(p.operator))
    ensures p.operator in Comparisons && p.field !in document ==> r == Err(MissingField(p.field))
    ensures r.Ok? && p.operator == "=" ==> r.value == (document[p.field] == p.value)
    ensures r.Ok? && p.operator == "!=" ==> r.value == (document[p.field] != p.value)
    ensures r.Ok? && p.operator == "<" ==> r.value == Less(document[p.field], p.value)
    ensures r.Ok? && p.operator == ">" ==> r.value == Less(p.value, document[p.field])
    ensures r.Ok? && p.operator == "<=" ==> r.value == !Less(p.value, document[p.field])
    ensures r.Ok? && p.operator == ">=" ==> r.value == !Less(document[p.field], p.value)
  {
    if p.operator !in Comparisons then Err(UnknownOperator(p.operator))
    else if p.field !in document then Err(MissingField(p.field))
    else
      var holds := Comparisons[p.operator](document[p.field], p.value);
      LessTrichotomy(document[p.field], p.value);
      Ok(holds)
  }

  /**
   * `all([_predicate_is_satisified(document, f) for f in filters])`: every
   * predicate is evaluated, in order, and the first failure is raised.
   */
  function AllSatisfied(document: Document, filters: seq<Predicate>): (r: Result<bool>)
    decreases |filters|
    ensures r.Ok? <==> forall i :: 0 <= i < |filters| ==> PredicateIsSatisfied(document, filters[i]).Ok?
    ensures r == Ok(true) <==> forall i :: 0 <= i < |filters| ==> PredicateIsSatisfied(document, filters[i]) == Ok(true)
    ensures r.Err? ==> exists i :: 0 <= i < |filters| && PredicateIsSatisfied(document, filters[i]) == Err(r.error)
  {
    if filters == [] then Ok(true)
    else
      var n := |filters| - 1;
      match AllSatisfied(document, filters[..n])
      case Err(e) => Err(e)
      case Ok(earlier) =>
        match PredicateIsSatisfied(document, filters[n])
        case Err(e) => Err(e)
        case Ok(last) => Ok(earlier && last)
  }

  /*
   * The table and its SQL statements.
   */

  datatype Row = Row(id: string, collection: string, content: Document)

  predicate HasKey(row: Row, c: string, id: string) {
    row.collection == c && row.id == id
  }

  /** `SELECT ... WHERE collection = c AND id = id`, in scan order. */
  function KeyRows(rows: seq<Row>, c: string, id: string): (r: seq<Row>)
    decreases |rows|
    ensures forall row :: row in r <==> row in rows && HasKey(row, c, id)
  {
    if rows == [] then []
    else
      var n := |rows| - 1;
      if HasKey(rows[n], c, id) then KeyRows(rows[..n], c, id) + [rows[n]] else KeyRows(rows[..n], c, id)
  }

  /** `DELETE ... WHERE collection = c AND id = id`. */
  function DeleteKey(rows: seq<Row>, c: string, id: string): (r: seq<Row>)
    decreases |rows|
    ensures forall row :: row in r <==> row in rows && !HasKey(row, c, id)
  {
    if rows == [] then []
    else
      var n := |rows| - 1;
      if HasKey(rows[n], c, id) then DeleteKey(rows[..n], c, id) else DeleteKey(rows[..n], c, id) + [rows[n]]
  }

  /** `SELECT ... WHERE collection = c`, in scan order. */
  function CollectionRows(rows: seq<Row>, c: string): (r: seq<Row>)
    decreases |rows|
    ensures forall row :: row in r <==> row in rows && row.collection == c
  {
    if rows == [] then []
    else
      var n := |rows| - 1;
      if rows[n].collection == c then CollectionRows(rows[..n], c) + [rows[n]] else CollectionRows(rows[..n], c)
  }

  /** The `content` column of `rows`. */
  function Contents(rows: seq<Row>): (r: seq<Document>)
    ensures |r| == |rows| && forall i :: 0 <= i < |rows| ==> r[i] == rows[i].content
  {
    seq(|rows|, i requires 0 <= i < |rows| => rows[i].content)
  }

  /** The table invariant: at most one row per (collection, id). */
  ghost predicate UniqueKeys(rows: seq<Row>) {
    forall c, id :: |KeyRows(rows, c, id)| <= 1
  }

  lemma {:induction false} KeyRowsAppend(a: seq<Row>, b: seq<Row>, c: string, id: string)
    ensures KeyRows(a + b, c, id) == KeyRows(a, c, id) + KeyRows(b, c, id)
    decreases |b|
  {
    if b != [] {
      var n := |b| - 1;
      assert (a + b)[..|a + b| - 1] == a + b[..n];
      KeyRowsAppend(a, b[..n], c, id);
    } else {
      assert a + b == a;
    }
  }

  /** Deleting one key removes all of its rows and leaves the rows of every other key as they were. */
  lemma {:induction false} KeyRowsDeleteKey(rows: seq<Row>, c: string, id: string, c': string, id': string)
    ensures KeyRows(DeleteKey(rows, c', id'), c, id) ==
              if c == c' && id == id' then [] else KeyRows(rows, c, id)
    decreases |rows|
  {
    if rows != [] {
      var n := |rows| - 1;
      KeyRowsDeleteKey(rows[..n], c, id, c', id');
      if !HasKey(rows[n], c', id') {
        KeyRowsAppend(DeleteKey(rows[..n], c', id'), [rows[n]], c, id);
      }
    }
  }

  /** `get` after the SELECT: none, the one row's content, or the failed assertion. */
  function Lookup(rows: seq<Row>, c: string, id: string): Result<Option<Document>> {
    var found := KeyRows(rows, c, id);
    if |found| == 0 then Ok(None)
    else if |found| == 1 then Ok(Some(found[0].content))
    else Err(DuplicateKey(c, id))
  }

  /** Under the table invariant the assertion in `get` holds. */
  lemma LookupUnique(rows: seq<Row>, c: string, id: string)
    requires UniqueKeys(rows)
    ensures Lookup(rows, c, id).Ok?
    ensures Lookup(rows, c, id) == Ok(None) <==> forall row :: row in rows ==> !HasKey(row, c, id)
    ensures Lookup(rows, c, id).value.Some? ==>
              exists row :: row in rows && HasKey(row, c, id) && row.content == Lookup(rows, c, id).value.value
  {
    var found := KeyRows(rows, c, id);
    assert |found| <= 1;
    if |found| == 1 {
      assert found[0] in found;
    }
  }

  /*
   * put: for each operation, delete the key's rows, then insert one row.
   */

  function PutOne(rows: seq<Row>, op: PutOperation): seq<Row> {
    DeleteKey(rows, op.collectionName, op.id) + [Row(op.id, op.collectionName, op.document)]
  }

  /** The table after `put(ops)`. */
  function PutAll(rows: seq<Row>, ops: seq<PutOperation>): seq<Row>
    decreases |ops|
  {
    if ops == [] then rows else PutOne(PutAll(rows, ops[..|ops| - 1]), ops[|ops| - 1])
  }

  predicate Writes(op: PutOperation, c: string, id: string) {
    op.collectionName == c && op.id == id
  }

  /** `ops[i]` is the last operation of `ops` that writes (c, id). */
  predicate LastWriter(ops: seq<PutOperation>, c: string, id: string, i: int) {
    0 <= i < |ops| && Writes(ops[i], c, id) && forall j :: i < j < |ops| ==> !Writes(ops[j], c, id)
  }

  /** The document of the last operation in `ops` that writes (c, id), if any does. */
  function LastPut(ops: seq<PutOperation>, c: string, id: string): (r: Option<Document>)
    decreases |ops|
    ensures r.None? <==> forall i :: 0 <= i < |ops| ==> !Writes(ops[i], c, id)
    ensures r.Some? ==> exists i :: LastWriter(ops, c, id, i) && ops[i].document == r.value
  {
    if ops == [] then None
    else
      var n := |ops| - 1;
      if Writes(ops[n], c, id) then
        assert LastWriter(ops, c, id, n);
        Some(ops[n].document)
      else
        var r := LastPut(ops[..n], c, id);
        assert forall i :: LastWriter(ops[..n], c, id, i) ==> LastWriter(ops, c, id, i);
        assert forall i :: 0 <= i < n ==> ops[..n][i] == ops[i];
        r
  }

  /**
   * After `put(ops)` a key written by `ops` has exactly one row, holding the
   * document of the last operation on it; any other key keeps its rows.
   */
  lemma {:induction false} PutAllKeyRows(rows: seq<Row>, ops: seq<PutOperation>, c: string, id: string)
    ensures KeyRows(PutAll(rows, ops), c, id) ==
              match LastPut(ops, c, id)
              case Some(d) => [Row(id, c, d)]
              case None => KeyRows(rows, c, id)
    decreases |ops|
  {
    if ops != [] {
      var n := |ops| - 1;
      var op := ops[n];
      var before := PutAll(rows, ops[..n]);
      PutAllKeyRows(rows, ops[..n], c, id);
      KeyRowsAppend(DeleteKey(before, op.collectionName, op.id), [Row(op.id, op.collectionName, op.document)], c, id);
      KeyRowsDeleteKey(before, c, id, op.collectionName, op.id);
    }
  }

  /** `put` keeps the table invariant. */
  lemma PutAllUnique(rows: seq<Row>, ops: seq<PutOperation>)
    requires UniqueKeys(rows)
    ensures UniqueKeys(PutAll(rows, ops))
  {
    forall c, id ensures |KeyRows(PutAll(rows, ops), c, id)| <= 1 {
      PutAllKeyRows(rows, ops, c, id);
    }
  }

  /** `get(c, id)` right after `put([PutOperation(c, id, d)])` returns `d`, whatever the table held. */
  lemma PutThenLookup(rows: seq<Row>, c: string, id: string, d: Document)
    ensures Lookup(PutAll(rows, [PutOperation(c, id, d)]), c, id) == Ok(Some(d))
  {
    PutAllKeyRows(rows, [PutOperation(c, id, d)], c, id);
  }

  /** `get` on a key that no row holds and `ops` does not write returns absent after `put(ops)`. */
  lemma PutAllLookupAbsent(rows: seq<Row>, ops: seq<PutOperation>, c: string, id: string)
    requires forall row :: row in rows ==> !HasKey(row, c, id)
    requires forall i :: 0 <= i < |ops| ==> !Writes(ops[i], c, id)
    ensures Lookup(PutAll(rows, ops), c, id) == Ok(None)
  {
    PutAllKeyRows(rows, ops, c, id);
    KeyRowsNone(rows, c, id);
  }

  lemma {:induction false} KeyRowsNone(rows: seq<Row>, c: string, id: string)
    requires forall row :: row in rows ==> !HasKey(row, c, id)
    ensures KeyRows(rows, c, id) == []
    decreases |rows|
  {
    if rows != [] {
      var n := |rows| - 1;
      assert rows[n] in rows;
      assert forall row :: row in rows[..n] ==> row in rows;
      KeyRowsNone(rows[..n], c, id);
    }
  }

  /** The rows `put(ops)` inserts, one per operation, in order. */
  function OpRows(ops: seq<PutOperation>): (r: seq<Row>)
    ensures |r| == |ops|
    ensures forall i :: 0 <= i < |ops| ==> r[i] == Row(ops[i].id, ops[i].collectionName, ops[i].document)
  {
    seq(|ops|, i requires 0 <= i < |ops| => Row(ops[i].id, ops[i].collectionName, ops[i].document))
  }

  lemma {:induction false} DeleteKeyNone(rows: seq<Row>, c: string, id: string)
    requires forall row :: row in rows ==> !HasKey(row, c, id)
    ensures DeleteKey(rows, c, id) == rows
    decreases |rows|
  {
    if rows != [] {
      var n := |rows| - 1;
      assert rows[n] in rows;
      assert forall row :: row in rows[..n] ==> row in rows;
      DeleteKeyNone(rows[..n], c, id);
      assert rows[..n] + [rows[n]] == rows;
    }
  }

  /** Under the freshness conditions, no row stored or inserted before the last operation has its key. */
  lemma FreshBeforeLast(rows: seq<Row>, ops: seq<PutOperation>)
    requires ops != []
    requires forall i, row :: 0 <= i < |ops| && row in rows ==> !HasKey(row, ops[i].collectionName, ops[i].id)
    requires forall i, j :: 0 <= i < j < |ops| ==> !Writes(ops[j], ops[i].collectionName, ops[i].id)
    ensures var last := ops[|ops| - 1];
            forall row :: row in rows + OpRows(ops[..|ops| - 1]) ==> !HasKey(row, last.collectionName, last.id)
  {
    var n := |ops| - 1;
    var inserted := OpRows(ops[..n]);
    forall row | row in rows + inserted
      ensures !HasKey(row, ops[n].collectionName, ops[n].id)
    {
      if row !in rows {
        var i :| 0 <= i < n && inserted[i] == row;
        assert ops[..n][i] == ops[i];
        assert !Writes(ops[n], ops[i].collectionName, ops[i].id);
      }
    }
  }

  /**
   * Putting records under keys that are new to the table and distinct from
   * one another appends one row per operation, in order.
   */
  lemma {:induction false} PutAllFresh(rows: seq<Row>, ops: seq<PutOperation>)
    requires forall i, row :: 0 <= i < |ops| && row in rows ==> !HasKey(row, ops[i].collectionName, ops[i].id)
    requires forall i, j :: 0 <= i < j < |ops| ==> !Writes(ops[j], ops[i].collectionName, ops[i].id)
    ensures PutAll(rows, ops) == rows + OpRows(ops)
    decreases |ops|
  {
    if ops == [] {
      assert rows + OpRows(ops) == rows;
    } else {
      var n := |ops| - 1;
      var init := ops[..n];
      assert forall i :: 0 <= i < n ==> init[i] == ops[i];
      PutAllFresh(rows, init);
      FreshBeforeLast(rows, ops);
      var before := rows + OpRows(init);
      DeleteKeyNone(before, ops[n].collectionName, ops[n].id);
      assert OpRows(init) + [OpRows(ops)[n]] == OpRows(ops);
      assert before + [OpRows(ops)[n]] == rows + OpRows(ops);
    }
  }

  /*
   * delete: for each operation, delete the key's rows.
   */

  /** The table after `delete(ops)`. */
  function DeleteAll(rows: seq<Row>, ops: seq<DeleteOperation>): seq<Row>
    decreases |ops|
  {
    if ops == [] then rows
    else
      var op := ops[|ops| - 1];
      DeleteKey(DeleteAll(rows, ops[..|ops| - 1]), op.collectionName, op.id)
  }

  /** Some operation of `ops` names the key (c, id). */
  predicate Deleted(ops: seq<DeleteOperation>, c: string, id: string) {
    exists i :: 0 <= i < |ops| && ops[i].collectionName == c && ops[i].id == id
  }

  /** The rows whose key no operation of `ops` names, in their order. */
  function Surviving(rows: seq<Row>, ops: seq<DeleteOperation>): seq<Row>
    decreases |rows|
  {
    if rows == [] then []
    else
      var n := |rows| - 1;
      if Deleted(ops, rows[n].collection, rows[n].id) then Surviving(rows[..n], ops)
      else Surviving(rows[..n], ops) + [rows[n]]
  }

  lemma {:induction false} SurvivingStep(rows: seq<Row>, ops: seq<DeleteOperation>, op: DeleteOperation)
    ensures DeleteKey(Surviving(rows, ops), op.collectionName, op.id) == Surviving(rows, ops + [op])
    decreases |rows|
  {
    if rows != [] {
      var n := |rows| - 1;
      SurvivingStep(rows[..n], ops, op);
      var row := rows[n];
      var ops' := ops + [op];
      assert Deleted(ops', row.collection, row.id) <==>
             Deleted(ops, row.collection, row.id) || HasKey(row, op.collectionName, op.id) by {
        if Deleted(ops, row.collection, row.id) {
          var i :| 0 <= i < |ops| && ops[i].collectionName == row.collection && ops[i].id == row.id;
          assert ops'[i] == ops[i];
        }
        if HasKey(row, op.collectionName, op.id) {
          assert ops'[|ops|] == op;
        }
        if Deleted(ops', row.collection, row.id) {
          var i :| 0 <= i < |ops'| && ops'[i].collectionName == row.collection && ops'[i].id == row.id;
          if i < |ops| { assert ops'[i] == ops[i]; }
        }
      }
    }
  }

  /**
   * `delete(ops)` removes exactly the rows whose key some operation names and
   * leaves every other row, in order.
   */
  lemma {:induction false} DeleteAllSurviving(rows: seq<Row>, ops: seq<DeleteOperation>)
    ensures DeleteAll(rows, ops) == Surviving(rows, ops)
    decreases |ops|
  {
    if ops == [] {
      SurvivingNone(rows, ops);
    } else {
      var n := |ops| - 1;
      DeleteAllSurviving(rows, ops[..n]);
      SurvivingStep(rows, ops[..n], ops[n]);
      assert ops[..n] + [ops[n]] == ops;
    }
  }

  lemma {:induction false} SurvivingNone(rows: seq<Row>, ops: seq<DeleteOperation>)
    requires ops == []
    ensures Surviving(rows, ops) == rows
    decreases |rows|
  {
    if rows != [] {
      var n := |rows| - 1;
      SurvivingNone(rows[..n], ops);
      assert rows[..n] + [rows[n]] == rows;
    }
  }

  /** After `delete(ops)` a named key has no row; any other key keeps its rows. */
  lemma {:induction false} DeleteAllKeyRows(rows: seq<Row>, ops: seq<DeleteOperation>, c: string, id: string)
    ensures KeyRows(DeleteAll(rows, ops), c, id) == if Deleted(ops, c, id) then [] else KeyRows(rows, c, id)
    decreases |ops|
  {
    if ops != [] {
      var n := |ops| - 1;
      DeleteAllKeyRows(rows, ops[..n], c, id);
      KeyRowsDeleteKey(DeleteAll(rows, ops[..n]), c, id, ops[n].collectionName, ops[n].id);
      if Deleted(ops, c, id) {
        var i :| 0 <= i < |ops| && ops[i].collectionName == c && ops[i].id == id;
        if i < n { assert ops[..n][i] == ops[i]; }
      }
      if Deleted(ops[..n], c, id) {
        var i :| 0 <= i < n && ops[..n][i].collectionName == c && ops[..n][i].id == id;
        assert ops[i] == ops[..n][i];
      }
    }
  }

  /** `delete` keeps the table invariant. */
  lemma DeleteAllUnique(rows: seq<Row>, ops: seq<DeleteOperation>)
    requires UniqueKeys(rows)
    ensures UniqueKeys(DeleteAll(rows, ops))
  {
    forall c, id ensures |KeyRows(DeleteAll(rows, ops), c, id)| <= 1 {
      DeleteAllKeyRows(rows, ops, c, id);
    }
  }

  /** Deleting keys that have no row changes nothing. */
  lemma DeleteAllAbsent(rows: seq<Row>, ops: seq<DeleteOperation>)
    requires forall i, row :: 0 <= i < |ops| && row in rows ==> !HasKey(row, ops[i].collectionName, ops[i].id)
    ensures DeleteAll(rows, ops) == rows
  {
    DeleteAllSurviving(rows, ops);
    SurvivingAll(rows, ops);
  }

  lemma {:induction false} SurvivingAll(rows: seq<Row>, ops: seq<DeleteOperation>)
    requires forall row :: row in rows ==> !Deleted(ops, row.collection, row.id)
    ensures Surviving(rows, ops) == rows
    decreases |rows|
  {
    if rows != [] {
      var n := |rows| - 1;
      assert rows[n] in rows;
      SurvivingAll(rows[..n], ops);
      assert rows[..n] + [rows[n]] == rows;
    }
  }

  /*
   * fetch_all: the rows of the collection, filtered in scan order.
   */

  /** The loop of `fetch_all` over already-selected rows. */
  function Filtered(rows: seq<Row>, filters: seq<Predicate>): Result<seq<Document>>
    decreases |rows|
  {
    if rows == [] then Ok([])
    else
      var n := |rows| - 1;
      match Filtered(rows[..n], filters)
      case Err(e) => Err(e)
      case Ok(kept) =>
        match AllSatisfied(rows[n].content, filters)
        case Err(e) => Err(e)
        case Ok(b) => Ok(if b then kept + [rows[n].content] else kept)
  }

  /** What `fetch_all(c, filters)` returns for the table `rows`. */
  function Select(rows: seq<Row>, c: string, filters: seq<Predicate>): Result<seq<Document>> {
    Filtered(CollectionRows(rows, c), filters)
  }

  /** Once a prefix of the scan fails, the scan fails with the same error. */
  lemma {:induction false} FilteredErrPrefix(rows: seq<Row>, i: nat, filters: seq<Predicate>)
    requires i <= |rows| && Filtered(rows[..i], filters).Err?
    ensures Filtered(rows, filters) == Filtered(rows[..i], filters)
    decreases |rows| - i
  {
    if i < |rows| {
      var n := |rows| - 1;
      assert rows[..n][..i] == rows[..i];
      FilteredErrPrefix(rows[..n], i, filters);
    } else {
      assert rows[..i] == rows;
    }
  }

  /** A scan extended by one row keeps that row, after the earlier ones, exactly when its filters hold. */
  lemma FilteredSnoc(rows: seq<Row>, last: Row, filters: seq<Predicate>)
    requires Filtered(rows, filters).Ok? && AllSatisfied(last.content, filters).Ok?
    ensures Filtered(rows + [last], filters) ==
              Ok(Filtered(rows, filters).value + if AllSatisfied(last.content, filters).value then [last.content] else [])
  {
    var full := rows + [last];
    assert full[..|full| - 1] == rows;
    assert full[|full| - 1] == last;
    var kept := Filtered(rows, filters).value;
    var keep := AllSatisfied(last.content, filters).value;
    assert Filtered(full, filters) == Ok(if keep then kept + [last.content] else kept);
    if keep {
    } else {
      assert kept + [] == kept;
    }
  }

  /** With no filters, `fetch_all` returns the content of every row, in scan order. */
  lemma {:induction false} FilteredNoFilters(rows: seq<Row>)
    ensures Filtered(rows, []) == Ok(Contents(rows))
    decreases |rows|
  {
    if rows != [] {
      var n := |rows| - 1;
      FilteredNoFilters(rows[..n]);
      assert AllSatisfied(rows[n].content, []) == Ok(true);
      assert Contents(rows[..n]) + [rows[n].content] == Contents(rows);
    }
  }

  /** The errors a scan can raise: an unknown operator or a field a document lacks. */
  predicate ScanError(e: Error) {
    e.UnknownOperator? || e.MissingField?
  }

  /** The scan fails exactly when the filters of some row fail. */
  lemma {:induction false} FilteredOk(rows: seq<Row>, filters: seq<Predicate>)
    ensures Filtered(rows, filters).Ok? <==> forall row :: row in rows ==> AllSatisfied(row.content, filters).Ok?
    ensures Filtered(rows, filters).Err? ==> ScanError(Filtered(rows, filters).error)
    decreases |rows|
  {
    if rows != [] {
      var n := |rows| - 1;
      FilteredOk(rows[..n], filters);
      assert rows == rows[..n] + [rows[n]];
    }
  }

  /** A successful scan keeps exactly the contents of the rows whose filters all hold. */
  lemma {:induction false} FilteredMembers(rows: seq<Row>, filters: seq<Predicate>)
    requires Filtered(rows, filters).Ok?
    ensures forall d :: d in Filtered(rows, filters).value <==>
              exists row :: row in rows && row.content == d && AllSatisfied(d, filters) == Ok(true)
    decreases |rows|
  {
    if rows != [] {
      var n := |rows| - 1;
      FilteredMembers(rows[..n], filters);
      assert rows == rows[..n] + [rows[n]];
      var kept := Filtered(rows[..n], filters).value;
      forall d ensures d in Filtered(rows, filters).value <==>
          exists row :: row in rows && row.content == d && AllSatisfied(d, filters) == Ok(true)
      {
        if exists row :: row in rows && row.content == d && AllSatisfied(d, filters) == Ok(true) {
          var row :| row in rows && row.content == d && AllSatisfied(d, filters) == Ok(true);
          if row != rows[n] {
            assert row in rows[..n];
          }
        }
      }
    }
  }

  /**
   * `fetch_all(c, filters)` returns exactly the contents of the rows of
   * collection `c` that satisfy every filter, and nothing from any other
   * collection; with no filters it returns every document of `c`.
   */
  lemma SelectMeaning(rows: seq<Row>, c: string, filters: seq<Predicate>)
    ensures Select(rows, c, filters).Ok? <==>
              forall row :: row in rows && row.collection == c ==> AllSatisfied(row.content, filters).Ok?
    ensures Select(rows, c, filters).Err? ==> ScanError(Select(rows, c, filters).error)
    ensures Select(rows, c, filters).Ok? ==> forall d :: d in Select(rows, c, filters).value <==>
              exists row :: row in rows && row.collection == c && row.content == d && AllSatisfied(d, filters) == Ok(true)
    ensures Select(rows, c, []) == Ok(Contents(CollectionRows(rows, c)))
  {
    var selected := CollectionRows(rows, c);
    FilteredNoFilters(selected);
    FilteredOk(selected, filters);
    if Select(rows, c, filters).Ok? {
      FilteredMembers(selected, filters);
    }
  }

  /** After `delete(ops)`, `fetch_all` returns no document that only a deleted row held. */
  lemma SelectAfterDelete(rows: seq<Row>, ops: seq<DeleteOperation>, c: string, filters: seq<Predicate>)
    requires Select(DeleteAll(rows, ops), c, filters).Ok?
    ensures forall d :: d in Select(DeleteAll(rows, ops), c, filters).value ==>
              exists row :: row in rows && row.collection == c && !Deleted(ops, c, row.id) && row.content == d
  {
    var after := DeleteAll(rows, ops);
    DeleteAllSurviving(rows, ops);
    SurvivingMembers(rows, ops);
    SelectMeaning(after, c, filters);
  }

  lemma {:induction false} SurvivingMembers(rows: seq<Row>, ops: seq<DeleteOperation>)
    ensures forall row :: row in Surviving(rows, ops) <==> row in rows && !Deleted(ops, row.collection, row.id)
    decreases |rows|
  {
    if rows != [] {
      SurvivingMembers(rows[..|rows| - 1], ops);
      assert rows == rows[..|rows| - 1] + [rows[|rows| - 1]];
    }
  }

  /** The reference engine: one table of rows. */
  class SqliteDBContract {
    var rows: seq<Row>

    ghost predicate Valid()
      reads this
    {
      UniqueKeys(rows)
    }

    /** A fresh storage location: the table is created empty. */
    constructor ()
      ensures rows == [] && Valid()
    {
      rows := [];
    }

    /** `get`: absent when no row has the key, the stored document when one row has it. */
    method Get(c: string, key: string) returns (r: Result<Option<Document>>)
      ensures r == Lookup(rows, c, key)
      ensures r == Ok(None) <==> forall row :: row in rows ==> !HasKey(row, c, key)
      ensures r.Ok? && r.value.Some? ==>
                exists row :: row in rows && HasKey(row, c, key) && row.content == r.value.value
      ensures r.Err? <==> |KeyRows(rows, c, key)| > 1
      ensures Valid() ==> r.Ok?
    {
      var found := KeyRows(rows, c, key);
      if |found| > 0 {
        assert found[0] in found;
      }
      if |found| == 0 {
        r := Ok(None);
      } else if |found| != 1 {
        r := Err(DuplicateKey(c, key));
      } else {
        r := Ok(Some(found[0].content));
      }
    }

    /** `fetch_all`: scans the rows of collection `c` in order, keeping those that satisfy every filter. */
    method FetchAll(c: string, filters: seq<Predicate>) returns (r: Result<seq<Document>>)
      ensures r == Select(rows, c, filters)
    {
      var selected := CollectionRows(rows, c);
      var kept: seq<Document> := [];
      var i := 0;
      while i < |selected|
        invariant 0 <= i <= |selected|
        invariant Filtered(selected[..i], filters) == Ok(kept)
      {
        assert selected[..i + 1][..i] == selected[..i];
        var document := selected[i].content;
        var satisfied := AllSatisfied(document, filters);
        if satisfied.Err? {
          FilteredErrPrefix(selected, i + 1, filters);
          return Err(satisfied.error);
        }
        if satisfied.value {
          kept := kept + [document];
        }
        i := i + 1;
      }
      assert selected[..i] == selected;
      r := Ok(kept);
    }

    /** `delete`: removes the rows of each named key in turn. */
    method Delete(ops: seq<DeleteOperation>)
      modifies this
      ensures rows == DeleteAll(old(rows), ops)
      ensures old(Valid()) ==> Valid()
    {
      var i := 0;
      while i < |ops|
        invariant 0 <= i <= |ops|
        invariant rows == DeleteAll(old(rows), ops[..i])
      {
        assert ops[..i + 1][..i] == ops[..i];
        rows := DeleteKey(rows, ops[i].collectionName, ops[i].id);
        i := i + 1;
      }
      assert ops[..i] == ops;
      if UniqueKeys(old(rows)) {
        DeleteAllUnique(old(rows), ops);
      }
    }

    /** `put`: for each operation in turn, deletes the key's rows and inserts the new one. */
    method Put(ops: seq<PutOperation>)
      modifies this
      ensures rows == PutAll(old(rows), ops)
      ensures old(Valid()) ==> Valid()
    {
      var i := 0;
      while i < |ops|
        invariant 0 <= i <= |ops|
        invariant rows == PutAll(old(rows), ops[..i])
      {
        assert ops[..i + 1][..i] == ops[..i];
        var op := ops[i];
        rows := DeleteKey(rows, op.collectionName, op.id);
        rows := rows + [Row(op.id, op.collectionName, op.document)];
        i := i + 1;
      }
      assert ops[..i] == ops;
      if UniqueKeys(old(rows)) {
        PutAllUnique(old(rows), ops);
      }
    }
  }
}
