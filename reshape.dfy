/**
 * Reshaping of row records into columns (create_data in server/server.js).
 *
 * A row is kept as its ordered list of (column name, value) pairs, the order
 * `Object.keys` reports; the result keeps its column names in the order they
 * were created, as a JavaScript object does, next to the map from name to
 * values.
 */
module Reshape {
  import opened Wrappers

  /**
   * A cell as the engine returns it: an object with a `value` field (a typed
   * value box), whose inner value is kept, or anything else, kept as its JSON text.
   */
  datatype Value = Bare(json: string) | Wrapped(inner: Value)

  /** The names of a row's fields, in order. */
  function KeysOf(row: seq<(string, Value)>): (ks: seq<string>)
    ensures |ks| == |row|
    ensures forall i :: 0 <= i < |row| ==> ks[i] == row[i].0
  {
    seq(|row|, i requires 0 <= i < |row| => row[i].0)
  }

  /** A JavaScript object never holds the same field twice. */
  predicate DistinctKeys(row: seq<(string, Value)>) {
    forall i, j :: 0 <= i < j < |row| ==> row[i].0 != row[j].0
  }

  type Row = row: seq<(string, Value)> | DistinctKeys(row) witness []

  /** The columnar result: column names in creation order and each column's values. */
  datatype ColumnarResult = ColumnarResult(keys: seq<string>, columns: map<string, seq<Value>>)

  /** Pushing on `result[key]` for a key the first row lacks: `result[key]` is undefined and the call throws. */
  datatype ReshapeError = UndefinedColumn(key: string)

  /** The value pushed for a cell: the inner `value` of a wrapper, anything else as it is. */
  function Unwrap(v: Value): (r: Value)
    ensures v == Wrapped(r) || (v.Bare? && r == v)
  {
    match v
    case Wrapped(inner) => inner
    case Bare(_) => v
  }

  /** The columns are those of the first row; no row, no column. */
  function ColumnKeys(rows: seq<Row>): seq<string> {
    if rows == [] then [] else KeysOf(rows[0])
  }

  /** The value of a field of a row (the last one of that name). */
  function Lookup(row: seq<(string, Value)>, key: string): Value
    requires key in KeysOf(row)
  {
    var n := |row| - 1;
    if row[n].0 == key then row[n].1
    else
      assert KeysOf(row[..n]) == KeysOf(row)[..n];
      Lookup(row[..n], key)
  }

  /** What one row pushes onto column `key`, in the row's field order. */
  function Cells(row: seq<(string, Value)>, key: string): seq<Value> {
    if row == [] then []
    else
      var n := |row| - 1;
      Cells(row[..n], key) + (if row[n].0 == key then [Unwrap(row[n].1)] else [])
  }

  /** What all rows push onto column `key`, in row order. */
  function Column(rows: seq<Row>, key: string): seq<Value> {
    if rows == [] then []
    else
      var n := |rows| - 1;
      Column(rows[..n], key) + Cells(rows[n], key)
  }

  /** The first field of a row, in field order, whose name is not among `keys`. */
  function ForeignKeyIn(row: seq<(string, Value)>, keys: seq<string>): Option<string> {
    if row == [] then None
    else
      var n := |row| - 1;
      var f := ForeignKeyIn(row[..n], keys);
      if f.Some? then f else if row[n].0 in keys then None else Some(row[n].0)
  }

  /** The first field name, in row-major order, that is not among `keys`. */
  function FirstForeignKey(rows: seq<Row>, keys: seq<string>): Option<string> {
    if rows == [] then None
    else
      var n := |rows| - 1;
      var f := FirstForeignKey(rows[..n], keys);
      if f.Some? then f else ForeignKeyIn(rows[n], keys)
  }

  /** ForeignKeyIn finds a foreign field exactly when the row has one, and what it finds is one. */
  lemma {:induction false} ForeignKeyInCharacterised(row: seq<(string, Value)>, keys: seq<string>)
    ensures ForeignKeyIn(row, keys).None? <==> forall i :: 0 <= i < |row| ==> row[i].0 in keys
    ensures ForeignKeyIn(row, keys).Some? ==>
      ForeignKeyIn(row, keys).value !in keys && ForeignKeyIn(row, keys).value in KeysOf(row)
  {
    if row != [] {
      var n := |row| - 1;
      ForeignKeyInCharacterised(row[..n], keys);
      assert forall i :: 0 <= i < n ==> row[..n][i] == row[i];
      assert KeysOf(row[..n]) == KeysOf(row)[..n];
    }
  }

  /**
   * The rows conform to `keys` (every field of every row is among them)
   * exactly when FirstForeignKey finds nothing; what it finds is a field of
   * some row that is not among them.
   */
  lemma {:induction false} FirstForeignKeyCharacterised(rows: seq<Row>, keys: seq<string>)
    ensures FirstForeignKey(rows, keys).None? <==>
      forall i, j :: 0 <= i < |rows| && 0 <= j < |rows[i]| ==> rows[i][j].0 in keys
    ensures FirstForeignKey(rows, keys).Some? ==>
      && FirstForeignKey(rows, keys).value !in keys
      && exists i :: 0 <= i < |rows| && FirstForeignKey(rows, keys).value in KeysOf(rows[i])
  {
    if rows != [] {
      var n := |rows| - 1;
      FirstForeignKeyCharacterised(rows[..n], keys);
      ForeignKeyInCharacterised(rows[n], keys);
      assert forall i :: 0 <= i < n ==> rows[..n][i] == rows[i];
    }
  }

  lemma {:induction false} ForeignKeyInPrefix(row: seq<(string, Value)>, m: nat, keys: seq<string>)
    requires m <= |row| && ForeignKeyIn(row[..m], keys).Some?
    ensures ForeignKeyIn(row, keys) == ForeignKeyIn(row[..m], keys)
    decreases |row| - m
  {
    if m < |row| {
      var n := |row| - 1;
      assert row[..n][..m] == row[..m];
      ForeignKeyInPrefix(row[..n], m, keys);
    } else {
      assert row[..m] == row;
    }
  }

  lemma {:induction false} FirstForeignKeyPrefix(rows: seq<Row>, m: nat, keys: seq<string>)
    requires m <= |rows| && FirstForeignKey(rows[..m], keys).Some?
    ensures FirstForeignKey(rows, keys) == FirstForeignKey(rows[..m], keys)
    decreases |rows| - m
  {
    if m < |rows| {
      var n := |rows| - 1;
      assert rows[..n][..m] == rows[..m];
      FirstForeignKeyPrefix(rows[..n], m, keys);
    } else {
      assert rows[..m] == rows;
    }
  }

  lemma CellsStep(row: seq<(string, Value)>, j: nat, key: string)
    requires j < |row|
    ensures Cells(row[..j + 1], key) == Cells(row[..j], key) + (if row[j].0 == key then [Unwrap(row[j].1)] else [])
  {
    assert row[..j + 1][..j] == row[..j];
  }

  /** A row pushes one value onto each column it has a field for, and none onto the others. */
  lemma {:induction false} CellsOfRow(row: Row, key: string)
    ensures Cells(row, key) == if key in KeysOf(row) then [Unwrap(Lookup(row, key))] else []
  {
    if row != [] {
      var n := |row| - 1;
      var init: Row := row[..n];
      assert KeysOf(init) == KeysOf(row)[..n];
      CellsOfRow(init, key);
      if row[n].0 == key {
        assert key !in KeysOf(init);
      }
    }
  }

  /**
   * A column is as long as the rows exactly when every row has that field;
   * rows lacking it are skipped, so the column falls out of line with the others.
   */
  lemma {:induction false} ColumnLength(rows: seq<Row>, key: string)
    ensures |Column(rows, key)| <= |rows|
    ensures |Column(rows, key)| == |rows| <==> forall i :: 0 <= i < |rows| ==> key in KeysOf(rows[i])
  {
    if rows != [] {
      var n := |rows| - 1;
      ColumnLength(rows[..n], key);
      CellsOfRow(rows[n], key);
      assert forall i :: 0 <= i < n ==> rows[..n][i] == rows[i];
    }
  }

  /** When every row has the field, entry `i` of its column is the unwrapped value of row `i`'s field. */
  lemma {:induction false} ColumnAligned(rows: seq<Row>, key: string)
    requires forall i :: 0 <= i < |rows| ==> key in KeysOf(rows[i])
    ensures |Column(rows, key)| == |rows|
    ensures forall i :: 0 <= i < |rows| ==> Column(rows, key)[i] == Unwrap(Lookup(rows[i], key))
  {
    if rows != [] {
      var n := |rows| - 1;
      var init := rows[..n];
      assert forall i :: 0 <= i < n ==> init[i] == rows[i];
      ColumnAligned(init, key);
      CellsOfRow(rows[n], key);
      var col := Column(rows, key);
      assert col == Column(init, key) + [Unwrap(Lookup(rows[n], key))];
      forall i | 0 <= i < |rows| ensures col[i] == Unwrap(Lookup(rows[i], key)) {
        if i < n {
          assert col[i] == Column(init, key)[i];
        }
      }
    }
  }

  /** All rows have the same field names as the first (in any order). */
  predicate Homogeneous(rows: seq<Row>) {
    forall i :: 0 <= i < |rows| ==>
      && (forall k :: k in KeysOf(rows[i]) ==> k in ColumnKeys(rows))
      && (forall k :: k in ColumnKeys(rows) ==> k in KeysOf(rows[i]))
  }

  /**
   * Homogeneous rows reshape without error, one column per field of the first
   * row, each as long as the rows and holding row `i`'s unwrapped value at `i`.
   */
  lemma HomogeneousRowsAlign(rows: seq<Row>)
    requires Homogeneous(rows)
    ensures FirstForeignKey(rows, ColumnKeys(rows)) == None
    ensures forall k, i :: k in ColumnKeys(rows) && 0 <= i < |rows| ==>
      |Column(rows, k)| == |rows| && Column(rows, k)[i] == Unwrap(Lookup(rows[i], k))
  {
    FirstForeignKeyCharacterised(rows, ColumnKeys(rows));
    forall i, j | 0 <= i < |rows| && 0 <= j < |rows[i]| ensures rows[i][j].0 in ColumnKeys(rows) {
      assert KeysOf(rows[i])[j] == rows[i][j].0;
    }
    forall k | k in ColumnKeys(rows)
      ensures |Column(rows, k)| == |rows|
      ensures forall i :: 0 <= i < |rows| ==> Column(rows, k)[i] == Unwrap(Lookup(rows[i], k))
    {
      ColumnAligned(rows, k);
    }
  }

  /** One empty column per field of the first row (server/server.js:105-109). */
  method EmptyColumns(first: Row) returns (keys: seq<string>, columns: map<string, seq<Value>>)
    ensures keys == KeysOf(first)
    ensures forall k :: k in columns <==> k in keys
    ensures forall k :: k in columns ==> columns[k] == []
  {
    keys, columns := [], map[];
    for j := 0 to |first|
      invariant keys == KeysOf(first)[..j]
      invariant forall k :: k in columns <==> k in keys
      invariant forall k :: k in columns ==> columns[k] == []
    {
      keys := keys + [first[j].0];
      columns := columns[first[j].0 := []];
    }
    assert KeysOf(first)[..|first|] == KeysOf(first);
  }

  /**
   * The pushes for one row, field by field (server/server.js:112-118); a
   * field with no column makes the push throw, and the columns it has already
   * grown are discarded with the call.
   */
  method PushRow(columns: map<string, seq<Value>>, keys: seq<string>, row: seq<(string, Value)>)
    returns (r: Result<map<string, seq<Value>>, ReshapeError>)
    requires forall k :: k in columns <==> k in keys
    ensures ForeignKeyIn(row, keys).Some? ==> r == Failure(UndefinedColumn(ForeignKeyIn(row, keys).value))
    ensures ForeignKeyIn(row, keys).None? ==>
      && r.Success?
      && (forall k :: k in r.value <==> k in keys)
      && (forall k :: k in columns ==> r.value[k] == columns[k] + Cells(row, k))
  {
    var grown := columns;
    for j := 0 to |row|
      invariant forall k :: k in grown <==> k in keys
      invariant ForeignKeyIn(row[..j], keys) == None
      invariant forall k :: k in columns ==> grown[k] == columns[k] + Cells(row[..j], k)
    {
      var (key, v) := row[j];
      assert row[..j + 1][..j] == row[..j];
      if key !in grown {
        assert ForeignKeyIn(row[..j + 1], keys) == Some(key);
        ForeignKeyInPrefix(row, j + 1, keys);
        return Failure(UndefinedColumn(key));
      }
      forall k | k in columns
        ensures Cells(row[..j + 1], k) == Cells(row[..j], k) + (if key == k then [Unwrap(v)] else [])
      {
        CellsStep(row, j, k);
      }
      grown := grown[key := grown[key] + [Unwrap(v)]];
    }
    assert row[..|row|] == row;
    r := Success(grown);
  }

  /**
   * create_data: the empty columns of the first row, then each row's pushes
   * in row order; the first field the first row lacks makes the call throw.
   */
  method CreateData(rows: seq<Row>) returns (r: Result<ColumnarResult, ReshapeError>)
    ensures rows == [] ==> r == Success(ColumnarResult([], map[]))
    ensures FirstForeignKey(rows, ColumnKeys(rows)).Some? ==>
      r == Failure(UndefinedColumn(FirstForeignKey(rows, ColumnKeys(rows)).value))
    ensures FirstForeignKey(rows, ColumnKeys(rows)).None? ==>
      && r.Success?
      && r.value.keys == ColumnKeys(rows)
      && (forall k :: k in r.value.columns <==> k in ColumnKeys(rows))
      && (forall k :: k in r.value.columns ==> r.value.columns[k] == Column(rows, k))
  {
    var keys: seq<string> := [];
    var columns: map<string, seq<Value>> := map[];
    if |rows| > 0 {
      keys, columns := EmptyColumns(rows[0]);
    }
    for i := 0 to |rows|
      invariant keys == ColumnKeys(rows)
      invariant forall k :: k in columns <==> k in keys
      invariant FirstForeignKey(rows[..i], keys) == None
      invariant forall k :: k in columns ==> columns[k] == Column(rows[..i], k)
    {
      assert rows[..i + 1][..i] == rows[..i];
      var pushed := PushRow(columns, keys, rows[i]);
      if pushed.Failure? {
        FirstForeignKeyPrefix(rows, i + 1, keys);
        return Failure(pushed.error);
      }
      columns := pushed.value;
    }
    assert rows[..|rows|] == rows;
    r := Success(ColumnarResult(keys, columns));
  }

  lemma ColumnOfTwoRows(r0: Row, r1: Row, key: string)
    ensures Column([r0, r1], key) == Cells(r0, key) + Cells(r1, key)
  {
    var rows: seq<Row> := [r0, r1];
    var one: seq<Row> := [r0];
    assert rows[..1] == one && one[..0] == [];
    assert Column(one, key) == Column([], key) + Cells(r0, key);
    assert Column(rows, key) == Column(one, key) + Cells(r1, key);
  }

  /** Column values of a row with fields `a` and `b`. */
  lemma CellsOfAB(row: Row, x: Value, y: Value)
    requires row == [("a", x), ("b", y)]
    ensures KeysOf(row) == ["a", "b"]
    ensures Cells(row, "a") == [Unwrap(x)] && Cells(row, "b") == [Unwrap(y)]
  {
    assert KeysOf(row) == ["a", "b"];
    assert row[..1] == [row[0]];
    CellsOfRow(row, "a");
    CellsOfRow(row, "b");
  }

  /**
   * Two homogeneous rows become two aligned columns; a wrapped cell and a
   * bare one with the same inner value give the same entry.
   */
  method ExampleTwoRows() returns (r: Result<ColumnarResult, ReshapeError>)
    ensures r == Success(ColumnarResult(["a", "b"], map[
      "a" := [Bare("1"), Bare("3")],
      "b" := [Bare("2"), Bare("4")]]))
  {
    var r0: Row := [("a", Bare("1")), ("b", Bare("2"))];
    var r1: Row := [("a", Wrapped(Bare("3"))), ("b", Bare("4"))];
    var rows := [r0, r1];
    CellsOfAB(r0, Bare("1"), Bare("2"));
    CellsOfAB(r1, Wrapped(Bare("3")), Bare("4"));
    ColumnOfTwoRows(r0, r1, "a");
    ColumnOfTwoRows(r0, r1, "b");
    FirstForeignKeyCharacterised(rows, ["a", "b"]);
    r := CreateData(rows);
    var cols := r.value.columns;
    assert cols.Keys == {"a", "b"};
    assert cols["a"] == Column(rows, "a") == [Bare("1"), Bare("3")];
    assert cols["b"] == Column(rows, "b") == [Bare("2"), Bare("4")];
    assert cols == map["a" := [Bare("1"), Bare("3")], "b" := [Bare("2"), Bare("4")]];
  }

  /** A later row lacking a field does not throw: its column is simply shorter. */
  method ExampleMissingField() returns (r: Result<ColumnarResult, ReshapeError>)
    ensures r == Success(ColumnarResult(["a", "b"], map[
      "a" := [Bare("1"), Bare("3")],
      "b" := [Bare("2")]]))
  {
    var r0: Row := [("a", Bare("1")), ("b", Bare("2"))];
    var r1: Row := [("a", Bare("3"))];
    var rows := [r0, r1];
    CellsOfAB(r0, Bare("1"), Bare("2"));
    assert KeysOf(r1) == ["a"];
    CellsOfRow(r1, "a");
    CellsOfRow(r1, "b");
    ColumnOfTwoRows(r0, r1, "a");
    ColumnOfTwoRows(r0, r1, "b");
    FirstForeignKeyCharacterised(rows, ["a", "b"]);
    r := CreateData(rows);
    var cols := r.value.columns;
    assert cols.Keys == {"a", "b"};
    assert cols["a"] == Column(rows, "a") == [Bare("1"), Bare("3")];
    assert cols["b"] == Column(rows, "b") == [Bare("2")];
    assert cols == map["a" := [Bare("1"), Bare("3")], "b" := [Bare("2")]];
  }

  /** A later row with a field the first row lacks: the reshaping throws on that field. */
  method ExampleExtraField() returns (r: Result<ColumnarResult, ReshapeError>)
    ensures r == Failure(UndefinedColumn("c"))
  {
    var r0: Row := [("a", Bare("1"))];
    var r1: Row := [("a", Bare("2")), ("c", Bare("3"))];
    var rows := [r0, r1];
    assert KeysOf(r0) == ["a"];
    assert rows[..1] == [r0] && rows[..1][..0] == [] && r0[..0] == [];
    assert r1[..1] == [r1[0]] && r1[..1][..0] == [];
    assert ForeignKeyIn(r0, ["a"]) == None;
    assert ForeignKeyIn(r1[..1], ["a"]) == None;
    assert ForeignKeyIn(r1, ["a"]) == Some("c");
    assert FirstForeignKey(rows[..1], ["a"]) == None;
    assert FirstForeignKey(rows, ["a"]) == Some("c");
    r := CreateData(rows);
  }
}
