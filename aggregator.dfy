/**
 * `cargar_logs`: the records of every uploaded file, in upload order, are
 * gathered into one list; an empty list gives the empty table, anything else
 * is normalised into one table and cast to the declared schema, and a cast
 * that raises gives the empty table too.
 */
module Aggregator {
  import opened Wrappers
  import opened Values
  import opened Extractor
  import opened Normalizer
  import opened Coercion

  /** The records of all files, file after file, each file's in line order. */
  function Gather(files: seq<seq<Line>>, decode: string -> Parsed): seq<Record>
    decreases |files|
  {
    if files == [] then []
    else Gather(files[..|files| - 1], decode) + Extract(files[|files| - 1], decode)
  }

  /** The table `cargar_logs` returns, with the schema applied to the columns the table has. */
  function Ingest(files: seq<seq<Line>>, decode: string -> Parsed): Table {
    var data := Gather(files, decode);
    if data == [] then EmptyTable
    else
      match Astype(Normalize(data), ColDTypes)
      case Some(t) => t
      case None => EmptyTable
  }

  /** The schema step of the batch raises no `OverflowError`. */
  predicate CastsCleanly(files: seq<seq<Line>>, decode: string -> Parsed) {
    !Raises(Normalize(Gather(files, decode)), ColDTypes)
  }

  /** `cargar_logs`: read every file in turn, extend the record list, then build the table. */
  method LoadLogs(files: seq<seq<Line>>, decode: string -> Parsed) returns (table: Table)
    ensures table == Ingest(files, decode)
  {
    var data: seq<Record> := [];
    for k := 0 to |files|
      invariant data == Gather(files[..k], decode)
    {
      var records := ProcessFile(files[k], decode);
      assert files[..k + 1][..k] == files[..k];
      data := data + records;
    }
    assert files[..|files|] == files;
    table := EmptyTable;
    if data != [] {
      var df := Normalize(data);
      var cast := Astype(df, ColDTypes);
      if cast.Some? {
        table := cast.value;
      }
    }
  }

  /** Loading two batches of files together gathers the first batch's records, then the second's. */
  lemma {:induction false} GatherAppend(a: seq<seq<Line>>, b: seq<seq<Line>>, decode: string -> Parsed)
    ensures Gather(a + b, decode) == Gather(a, decode) + Gather(b, decode)
    decreases |b|
  {
    if b == [] {
      assert a + b == a;
    } else {
      var n := |b| - 1;
      assert (a + b)[..|a + b| - 1] == a + b[..n];
      assert (a + b)[|a + b| - 1] == b[n];
      GatherAppend(a, b[..n], decode);
    }
  }

  /** There are at most as many records as complete line pairs over all files. */
  lemma {:induction false} GatherBound(files: seq<seq<Line>>, decode: string -> Parsed)
    ensures |Gather(files, decode)| <= SumHalves(files)
    decreases |files|
  {
    if files != [] {
      GatherBound(files[..|files| - 1], decode);
      ExtractStamped(files[|files| - 1], decode);
    }
  }

  /** Files that each yield nothing together yield nothing. */
  lemma {:induction false} GatherNothing(files: seq<seq<Line>>, decode: string -> Parsed)
    requires forall f :: f in files ==> Extract(f, decode) == []
    ensures Gather(files, decode) == []
    decreases |files|
  {
    if files != [] {
      GatherNothing(files[..|files| - 1], decode);
    }
  }

  /** Every gathered record carries a `Datetime` value, a timestamp or NaT. */
  lemma {:induction false} GatherStamped(files: seq<seq<Line>>, decode: string -> Parsed)
    ensures forall r :: r in Gather(files, decode) ==> Stamped(r)
    decreases |files|
  {
    if files != [] {
      var n := |files| - 1;
      GatherStamped(files[..n], decode);
      ExtractStamped(files[n], decode);
    }
  }

  /** The number of complete line pairs over all files. */
  function SumHalves(files: seq<seq<Line>>): nat
    decreases |files|
  {
    if files == [] then 0 else SumHalves(files[..|files| - 1]) + |files[|files| - 1]| / 2
  }

  /** No files, or files that yield no record, give the empty table. */
  lemma IngestEmpty(files: seq<seq<Line>>, decode: string -> Parsed)
    requires forall f :: f in files ==> Extract(f, decode) == []
    ensures Ingest(files, decode) == EmptyTable
  {
    GatherNothing(files, decode);
  }

  /**
   * A batch whose schema step raises loads as the empty table. Otherwise the
   * table has one row per gathered record (so at most one per line pair), its
   * columns are exactly the flattened names of the records, every row has
   * every column, and a cell is filled exactly where its record has that name.
   */
  lemma IngestShape(files: seq<seq<Line>>, decode: string -> Parsed)
    ensures |Gather(files, decode)| <= SumHalves(files)
    ensures !CastsCleanly(files, decode) ==> Ingest(files, decode) == EmptyTable
    ensures var t := Ingest(files, decode);
      var data := Gather(files, decode);
      CastsCleanly(files, decode) ==>
      && Rectangular(t)
      && |t.rows| == |data|
      && Elems(t.columns) == FlatKeys(data)
      && forall i, c :: 0 <= i < |data| && c in t.rows[i] ==>
           (t.rows[i][c].Present? <==> c in KeySet(Flatten(data[i])))
  {
    var data := Gather(files, decode);
    GatherBound(files, decode);
    if data == [] {
      assert FlatKeys(data) == {};
    } else {
      TableShape(data, ColDTypes);
    }
  }

  /**
   * A batch whose first record carries, under a column declared Int64, the
   * text of an integer past int64 loads as the empty table: the cast raises
   * `OverflowError`, which `errors='ignore'` does not absorb.
   */
  lemma IngestOverflow(files: seq<seq<Line>>, decode: string -> Parsed, c: string, n: int)
    requires Gather(files, decode) != []
    requires c in ColDTypes && ColDTypes[c] == Int64 && n > Int64Max
    requires var f := Flatten(Gather(files, decode)[0]);
      c in KeySet(f) && ToMap(f)[c] == Str(IntToString(n))
    ensures Ingest(files, decode) == EmptyTable
  {
    var data := Gather(files, decode);
    NormalizeShape(data);
    var df := Normalize(data);
    assert c in FlatKeys(data) by {
      assert FlattenAll(data)[0] == Flatten(data[0]);
    }
    OverflowTextRaises(df, ColDTypes, c, n);
  }

  /** The shape of a normalised table survives the schema step. */
  lemma TableShape(data: seq<Record>, schema: map<string, DType>)
    ensures var t := Coerce(Normalize(data), schema);
      && Rectangular(t)
      && |t.rows| == |data|
      && Elems(t.columns) == FlatKeys(data)
      && forall i, c :: 0 <= i < |data| && c in t.rows[i] ==>
           (t.rows[i][c].Present? <==> c in KeySet(Flatten(data[i])))
  {
    var df := Normalize(data);
    NormalizeShape(data);
    CoerceCell(df, schema);
    var t := Coerce(df, schema);
    forall i, c | 0 <= i < |data| && c in t.rows[i]
      ensures t.rows[i][c].Present? <==> df.rows[i][c].Present?
    {
    }
  }

  /** A record's `Datetime` value is a leaf of its flattening under the same name. */
  lemma DatetimeSurvivesFlatten(r: Record)
    requires Stamped(r)
    ensures DatetimeKey in KeySet(Flatten(r))
  {
    var v := Lookup(r, DatetimeKey).value;
    LookupFound(r, DatetimeKey);
    var j :| 0 <= j < |r| && r[j] == (DatetimeKey, v);
    FlattenKeepsLeaf("", r, 0, j);
    var f := Flatten(r);
    var m :| 0 <= m < |f| && f[m] == (DatetimeKey, v);
  }

  /**
   * A table with any row has the `Datetime` column, and no row has a gap
   * there; a batch whose schema step raises is the empty table.
   */
  lemma IngestDatetime(files: seq<seq<Line>>, decode: string -> Parsed)
    requires Gather(files, decode) != []
    ensures !CastsCleanly(files, decode) ==> Ingest(files, decode) == EmptyTable
    ensures var t := Ingest(files, decode);
      CastsCleanly(files, decode) ==>
      && DatetimeKey in Elems(t.columns)
      && forall i :: 0 <= i < |t.rows| ==> DatetimeKey in t.rows[i] && t.rows[i][DatetimeKey].Present?
  {
    var data := Gather(files, decode);
    GatherStamped(files, decode);
    if CastsCleanly(files, decode) {
      assert Ingest(files, decode) == Coerce(Normalize(data), ColDTypes);
      TableDatetime(data, ColDTypes);
    }
  }

  lemma TableDatetime(data: seq<Record>, schema: map<string, DType>)
    requires data != []
    requires forall r :: r in data ==> Stamped(r)
    ensures var t := Coerce(Normalize(data), schema);
      && DatetimeKey in Elems(t.columns)
      && forall i :: 0 <= i < |t.rows| ==> DatetimeKey in t.rows[i] && t.rows[i][DatetimeKey].Present?
  {
    TableShape(data, schema);
    forall i | 0 <= i < |data| ensures DatetimeKey in KeySet(Flatten(data[i])) {
      DatetimeSurvivesFlatten(data[i]);
    }
    assert DatetimeKey in FlatKeys(data) by {
      assert FlattenAll(data)[0] == Flatten(data[0]);
    }
  }

  lemma DatetimeKeyUndotted()
    ensures '.' !in DatetimeKey
  {
    assert DatetimeKey == ['D', 'a', 't', 'e', 't', 'i', 'm', 'e'];
  }

  /**
   * In a stamped record with unique keys and no object under the empty key,
   * the `Datetime` leaf of the flattening is the record's stamp.
   */
  lemma FlattenedDatetime(r: Record)
    requires Stamped(r) && UniqueKeys(r) && NoObjectUnderEmptyKey(r)
    ensures DatetimeKey in KeySet(Flatten(r))
    ensures ToMap(Flatten(r))[DatetimeKey] == Lookup(r, DatetimeKey).value
  {
    DatetimeSurvivesFlatten(r);
    DatetimeKeyUndotted();
    var f := Flatten(r);
    var x := (DatetimeKey, ToMap(f)[DatetimeKey]);
    FlattenSound("", r, 0, x);
    var j :| 0 <= j < |r| && x in FlattenHead("", r[j]);
    if r[j].1.Dict? {
      NestedNamesDotted(Join("", r[j].0), r[j].1.entries, 0, x);
    } else {
      LookupFound(r, DatetimeKey);
      var m :| 0 <= m < |r| && r[m] == (DatetimeKey, Lookup(r, DatetimeKey).value);
      assert r[j].0 == DatetimeKey;
      assert m == j;
    }
  }

  /**
   * When every record has unique keys and no object under the empty key, each
   * row's `Datetime` cell holds exactly its record's stamp, whatever the schema.
   */
  lemma TableDatetimeStamp(data: seq<Record>, schema: map<string, DType>)
    requires forall i :: 0 <= i < |data| ==> Stamped(data[i]) && UniqueKeys(data[i]) && NoObjectUnderEmptyKey(data[i])
    ensures var t := Coerce(Normalize(data), schema);
      && |t.rows| == |data|
      && forall i :: 0 <= i < |data| ==>
           && DatetimeKey in t.rows[i] && t.rows[i][DatetimeKey].Present?
           && Lookup(data[i], DatetimeKey) == Some(t.rows[i][DatetimeKey].value)
  {
    var df := Normalize(data);
    NormalizeShape(data);
    CoerceCell(df, schema);
    forall i | 0 <= i < |data|
      ensures DatetimeKey in df.rows[i] && df.rows[i][DatetimeKey] == Present(Lookup(data[i], DatetimeKey).value)
    {
      RowDatetime(data, df, i);
    }
    forall i | 0 <= i < |data|
      ensures Coerced(df, schema, DatetimeKey, df.rows[i][DatetimeKey]) == df.rows[i][DatetimeKey]
    {
      CastKeepsTime(if DatetimeKey in schema then schema[DatetimeKey] else Object, Lookup(data[i], DatetimeKey).value);
    }
  }

  lemma RowDatetime(data: seq<Record>, df: Table, i: nat)
    requires i < |data| && Stamped(data[i]) && UniqueKeys(data[i]) && NoObjectUnderEmptyKey(data[i])
    requires df == Normalize(data)
    ensures DatetimeKey in df.rows[i] && df.rows[i][DatetimeKey] == Present(Lookup(data[i], DatetimeKey).value)
  {
    NormalizeShape(data);
    FlattenedDatetime(data[i]);
    assert DatetimeKey in FlatKeys(data) by {
      assert FlattenAll(data)[i] == Flatten(data[i]);
    }
  }

  /**
   * When the records have unique keys and no object under the empty key, a
   * batch whose cast does not raise has, in every row's `Datetime` cell, that
   * record's timestamp or NaT.
   */
  lemma IngestDatetimeStamp(files: seq<seq<Line>>, decode: string -> Parsed)
    requires forall r :: r in Gather(files, decode) ==> UniqueKeys(r) && NoObjectUnderEmptyKey(r)
    ensures var t := Ingest(files, decode);
      var data := Gather(files, decode);
      CastsCleanly(files, decode) ==>
      && |t.rows| == |data|
      && forall i :: 0 <= i < |data| ==>
           && DatetimeKey in t.rows[i] && t.rows[i][DatetimeKey].Present?
           && t.rows[i][DatetimeKey].value.Time?
           && Lookup(data[i], DatetimeKey) == Some(t.rows[i][DatetimeKey].value)
  {
    var data := Gather(files, decode);
    GatherStamped(files, decode);
    if CastsCleanly(files, decode) && data != [] {
      assert Ingest(files, decode) == Coerce(Normalize(data), ColDTypes);
      forall i | 0 <= i < |data| ensures Stamped(data[i]) && UniqueKeys(data[i]) && NoObjectUnderEmptyKey(data[i]) {
        assert data[i] in data;
      }
      TableDatetimeStamp(data, ColDTypes);
    }
  }

  lemma FlatKeysAppend(x: seq<Record>, y: seq<Record>)
    ensures FlatKeys(x + y) == FlatKeys(x) + FlatKeys(y)
  {
    var xy := x + y;
    forall k | k in FlatKeys(xy) ensures k in FlatKeys(x) + FlatKeys(y) {
      var i :| 0 <= i < |xy| && k in KeySet(FlattenAll(xy)[i]);
      if i < |x| {
        assert FlattenAll(x)[i] == Flatten(x[i]) == Flatten(xy[i]);
      } else {
        assert FlattenAll(y)[i - |x|] == Flatten(y[i - |x|]) == Flatten(xy[i]);
      }
    }
    forall k | k in FlatKeys(x) ensures k in FlatKeys(xy) {
      var i :| 0 <= i < |x| && k in KeySet(FlattenAll(x)[i]);
      assert FlattenAll(xy)[i] == Flatten(xy[i]) == Flatten(x[i]);
    }
    forall k | k in FlatKeys(y) ensures k in FlatKeys(xy) {
      var i :| 0 <= i < |y| && k in KeySet(FlattenAll(y)[i]);
      assert FlattenAll(xy)[|x| + i] == Flatten(xy[|x| + i]) == Flatten(y[i]);
    }
  }

  /**
   * Loading two batches together gives as many rows as loading them apart,
   * and its columns are the union of the two tables' columns, when no schema
   * step raises.
   */
  lemma IngestMultiFile(a: seq<seq<Line>>, b: seq<seq<Line>>, decode: string -> Parsed)
    requires CastsCleanly(a, decode) && CastsCleanly(b, decode) && CastsCleanly(a + b, decode)
    ensures |Ingest(a + b, decode).rows| == |Ingest(a, decode).rows| + |Ingest(b, decode).rows|
    ensures Elems(Ingest(a + b, decode).columns) == Elems(Ingest(a, decode).columns) + Elems(Ingest(b, decode).columns)
  {
    GatherAppend(a, b, decode);
    FlatKeysAppend(Gather(a, decode), Gather(b, decode));
    IngestShape(a, decode);
    IngestShape(b, decode);
    IngestShape(a + b, decode);
  }

  // ---------------------------------------------------------------------------
  // The schema step as written

  /**
   * `cargar_logs` exactly as written: `astype` raises KeyError as soon as one
   * declared column is absent from the table, and the `except` around it
   * returns the empty table.
   */
  function IngestAsWritten(files: seq<seq<Line>>, decode: string -> Parsed): (t: Table)
    ensures Gather(files, decode) != [] && ColDTypes.Keys <= FlatKeys(Gather(files, decode)) ==> t == Ingest(files, decode)
    ensures !(ColDTypes.Keys <= FlatKeys(Gather(files, decode))) ==> t == EmptyTable
  {
    var data := Gather(files, decode);
    if data == [] then EmptyTable
    else
      NormalizeShape(data);
      match CoerceAsWritten(Normalize(data), ColDTypes)
      case Some(t) => t
      case None => EmptyTable
  }

  /**
   * As written, a batch that lacks any one declared column loads as the empty
   * table, however many records it has.
   */
  lemma MissingDeclaredColumn(files: seq<seq<Line>>, decode: string -> Parsed, c: string)
    requires c in ColDTypes && c !in FlatKeys(Gather(files, decode))
    ensures IngestAsWritten(files, decode) == EmptyTable
  {
  }

}
