/**
 * A worked batch: one file with two line pairs whose JSON objects nest under
 * the same key. The corrected load gives two rows over the columns
 * `Datetime`, `a.b`, `a.c` and `d`; the load as written gives the empty table,
 * because the declared schema names columns this batch does not have.
 */
module Example {
  import opened Wrappers
  import opened Timestamp
  import opened Values
  import opened Extractor
  import opened Normalizer
  import opened Coercion
  import opened Aggregator

  const Stamp1: string := "01-01-2024 10:00:00"
  const Stamp2: string := "01-01-2024 10:00:05"
  const Json1: string := "{\"a\": {\"b\": 1}}\n"
  const Json2: string := "{\"a\": {\"c\": 2}, \"d\": \"x\"}\n"

  const Object1: Entries := [("a", Dict([("b", Int(1))]))]
  const Object2: Entries := [("a", Dict([("c", Int(2))])), ("d", Str("x"))]

  const File: seq<Line> := [Text(Stamp1 + "\n"), Text(Json1), Text(Stamp2 + "\n"), Text(Json2)]

  const Time1: Value := Time(Some(DateTime(2024, 1, 1, 10, 0, 0)))
  const Time2: Value := Time(Some(DateTime(2024, 1, 1, 10, 0, 5)))

  predicate DecodesExample(decode: string -> Parsed) {
    decode(Json1) == Json(Dict(Object1)) && decode(Json2) == Json(Dict(Object2))
  }

  lemma StampOfLine(text: string, dt: DateTime)
    requires Accepted(dt) && InNanosecondRange(dt) && Format(dt) == text
    ensures Stamp(text + "\n") == Time(Some(Roll(dt)))
  {
    assert text != [] && !IsSpace(text[0]) && !IsSpace(text[|text| - 1]) by {
      FormatPieces(dt);
      assert text[0] == text[0..2][0] && text[18] == text[17..19][1];
    }
    StripPadded([], text, "\n");
    assert [] + text + "\n" == text + "\n";
    ParseFormat(dt);
  }

  lemma Stamps()
    ensures Stamp(Stamp1 + "\n") == Time1
    ensures Stamp(Stamp2 + "\n") == Time2
  {
    FirstStamp();
    SecondStamp();
  }

  lemma FirstStamp()
    ensures Stamp(Stamp1 + "\n") == Time1
  {
    var d1 := DateTime(2024, 1, 1, 10, 0, 0);
    assert Valid(d1) && InNanosecondRange(d1);
    assert Format(d1) == Stamp1;
    StampOfLine(Stamp1, d1);
  }

  lemma SecondStamp()
    ensures Stamp(Stamp2 + "\n") == Time2
  {
    var d2 := DateTime(2024, 1, 1, 10, 0, 5);
    assert Valid(d2) && InNanosecondRange(d2);
    assert Format(d2) == Stamp2;
    StampOfLine(Stamp2, d2);
  }

  const LeapLine: string := "31-12-2024 23:59:60"
  const LeapFields: DateTime := DateTime(2024, 12, 31, 23, 59, 60)

  /** A leap second on New Year's Eve: `31-12-2024 23:59:60` is stored as 2025-01-01 00:00:00. */
  lemma LeapStamp()
    ensures Stamp(LeapLine + "\n") == Time(Some(DateTime(2025, 1, 1, 0, 0, 0)))
  {
    LeapFieldsFormat();
    LeapFieldsRoll();
    StampOfLine(LeapLine, LeapFields);
  }

  lemma LeapFieldsFormat()
    ensures Accepted(LeapFields) && InNanosecondRange(LeapFields)
    ensures Format(LeapFields) == LeapLine
  {
    LeapFieldsAccepted();
    assert Pad4(2024) == "2024";
  }

  lemma LeapFieldsAccepted()
    ensures Accepted(LeapFields) && InNanosecondRange(LeapFields)
  {
  }

  lemma LeapFieldsRoll()
    requires Accepted(LeapFields)
    ensures Roll(LeapFields) == DateTime(2025, 1, 1, 0, 0, 0)
  {
  }

  lemma ExampleWellFormed(decode: string -> Parsed)
    requires DecodesExample(decode)
    ensures WellFormed(File, decode)
  {
    var rest := File[2..];
    assert rest[0] == Text(Stamp2 + "\n") && rest[1] == Text(Json2) && rest[2..] == [];
    assert WellFormed(rest, decode);
    assert File[0] == Text(Stamp1 + "\n") && File[1] == Text(Json1);
  }

  lemma ExamplePairs(decode: string -> Parsed)
    requires DecodesExample(decode)
    ensures WellFormed(File, decode)
    ensures PairRecord(File, decode, 0) == Object1 + [("Datetime", Time1)]
    ensures PairRecord(File, decode, 1) == Object2 + [("Datetime", Time2)]
  {
    ExampleFirst(decode);
    ExampleSecond(decode);
  }

  lemma ExampleFirst(decode: string -> Parsed)
    requires DecodesExample(decode)
    ensures WellFormed(File, decode)
    ensures PairRecord(File, decode, 0) == Object1 + [("Datetime", Time1)]
  {
    ExampleWellFormed(decode);
    Stamps();
    FirstPair(File, decode, Stamp1 + "\n", Object1, Time1);
  }

  lemma ExampleSecond(decode: string -> Parsed)
    requires DecodesExample(decode)
    ensures WellFormed(File, decode)
    ensures PairRecord(File, decode, 1) == Object2 + [("Datetime", Time2)]
  {
    ExampleWellFormed(decode);
    Stamps();
    SecondPair(File, decode, Stamp2 + "\n", Object2, Time2);
  }

  lemma FirstPair(f: seq<Line>, decode: string -> Parsed, ts: string, o: Entries, v: Value)
    requires WellFormed(f, decode) && |f| == 4
    requires f[0] == Text(ts) && f[1] == Text(Json1) && decode(Json1) == Json(Dict(o))
    requires Stamp(ts) == v && o == Object1
    ensures PairRecord(f, decode, 0) == o + [("Datetime", v)]
  {
    assert KeySet(o) == {"a"} by {
      assert o[0].0 == "a";
    }
    PairOf(f, decode, 0, ts, Json1, o, v);
  }

  lemma SecondPair(f: seq<Line>, decode: string -> Parsed, ts: string, o: Entries, v: Value)
    requires WellFormed(f, decode) && |f| == 4
    requires f[2] == Text(ts) && f[3] == Text(Json2) && decode(Json2) == Json(Dict(o))
    requires Stamp(ts) == v && o == Object2
    ensures PairRecord(f, decode, 1) == o + [("Datetime", v)]
  {
    assert KeySet(o) == {"a", "d"} by {
      assert o[0].0 == "a" && o[1].0 == "d";
    }
    PairOf(f, decode, 1, ts, Json2, o, v);
  }

  /** A pair whose object lacks `Datetime` gives the object with the stamp appended. */
  lemma PairOf(f: seq<Line>, decode: string -> Parsed, k: nat, ts: string, js: string, o: Entries, v: Value)
    requires WellFormed(f, decode) && k < |f| / 2
    requires f[2 * k] == Text(ts) && f[2 * k + 1] == Text(js) && decode(js) == Json(Dict(o))
    requires Stamp(ts) == v
    requires DatetimeKey !in KeySet(o)
    ensures PairRecord(f, decode, k) == o + [("Datetime", v)]
  {
    PairRecordAt(f, decode, k);
    assert PairRecord(f, decode, k) == SetKey(o, DatetimeKey, v);
  }

  lemma GatherOne(f: seq<Line>, decode: string -> Parsed)
    ensures Gather([f], decode) == Extract(f, decode)
  {
    assert [f][..0] == [];
  }

  /** The file yields two records, each its object with the timestamp appended under `Datetime`. */
  lemma ExampleRecords(decode: string -> Parsed)
    requires DecodesExample(decode)
    ensures Gather([File], decode) == [Object1 + [("Datetime", Time1)], Object2 + [("Datetime", Time2)]]
  {
    ExamplePairs(decode);
    RecordsOfPairs(File, decode);
    GatherOne(File, decode);
  }

  lemma RecordsOfPairs(f: seq<Line>, decode: string -> Parsed)
    requires WellFormed(f, decode) && |f| == 4
    ensures Extract(f, decode) == [PairRecord(f, decode, 0), PairRecord(f, decode, 1)]
  {
    ExtractPairs(f, decode);
    var e := Extract(f, decode);
    assert |e| == 2 && e[0] == PairRecord(f, decode, 0) && e[1] == PairRecord(f, decode, 1);
    assert e == [e[0], e[1]];
  }

  /** The two records flatten to dotted names, a later record adding the columns the earlier lacks. */
  lemma ExampleFlatten()
    ensures Flatten(Object1 + [("Datetime", Time1)]) == [("a.b", Int(1)), ("Datetime", Time1)]
    ensures Flatten(Object2 + [("Datetime", Time2)]) == [("a.c", Int(2)), ("d", Str("x")), ("Datetime", Time2)]
  {
    var r1 := Object1 + [("Datetime", Time1)];
    var r2 := Object2 + [("Datetime", Time2)];
    assert Join("a", "b") == "a.b" && Join("a", "c") == "a.c";
    assert FlattenFrom("a", [("b", Int(1))], 0) == [("a.b", Int(1))] by {
      assert FlattenHead("a", ("b", Int(1))) == [("a.b", Int(1))];
    }
    assert FlattenFrom("a", [("c", Int(2))], 0) == [("a.c", Int(2))] by {
      assert FlattenHead("a", ("c", Int(2))) == [("a.c", Int(2))];
    }
    assert FlattenHead("", r1[0]) == [("a.b", Int(1))];
    assert FlattenHead("", r2[0]) == [("a.c", Int(2))];
    assert FlattenFrom("", r1, 2) == [];
    assert FlattenFrom("", r1, 1) == [("Datetime", Time1)];
    assert FlattenFrom("", r2, 3) == [];
    assert FlattenFrom("", r2, 2) == [("Datetime", Time2)];
    assert FlattenFrom("", r2, 1) == [("d", Str("x")), ("Datetime", Time2)];
  }

  /**
   * Loading the file: two rows over the four flattened names; each row has
   * its own values and a gap where its record lacks a name.
   */
  lemma ExampleLoad(decode: string -> Parsed)
    requires DecodesExample(decode)
    ensures ExampleCells(Ingest([File], decode))
  {
    ExampleRecords(decode);
    ExampleTable(Gather([File], decode));
  }

  lemma ExampleTable(data: seq<Record>)
    requires data == [Object1 + [("Datetime", Time1)], Object2 + [("Datetime", Time2)]]
    ensures FlatKeys(data) == {"Datetime", "a.b", "a.c", "d"}
    ensures Astype(Normalize(data), ColDTypes) == Some(Coerce(Normalize(data), ColDTypes))
    ensures ExampleCells(Coerce(Normalize(data), ColDTypes))
  {
    ExampleNormalized(data);
    ExampleCoerced(Normalize(data));
    ExampleCastsCleanly(Normalize(data));
  }

  /** Only `Datetime` is declared among the example's columns, and a datetime cast never raises. */
  lemma ExampleCastsCleanly(df: Table)
    requires Elems(df.columns) == {"Datetime", "a.b", "a.c", "d"}
    ensures !Raises(df, ColDTypes)
  {
    ExampleDeclared();
    forall c | c in ColDTypes && c in Elems(df.columns)
      ensures !ColumnRaises(df, c, ColDTypes[c])
    {
      assert c == "Datetime";
      ColumnRaisesAt(df, c, ColDTypes[c]);
    }
  }

  lemma ExampleNormalized(data: seq<Record>)
    requires data == [Object1 + [("Datetime", Time1)], Object2 + [("Datetime", Time2)]]
    ensures FlatKeys(data) == {"Datetime", "a.b", "a.c", "d"}
    ensures ExampleCells(Normalize(data))
  {
    ExampleFlatten();
    var f0, f1 := Flatten(data[0]), Flatten(data[1]);
    ExampleMaps(f0, f1);
    ExampleFlatKeys(data, f0, f1);
    NormalizeShape(data);
    var df := Normalize(data);
    ExampleRows(df.columns, ToMap(f0), ToMap(f1), df.rows[0], df.rows[1]);
  }

  lemma ExampleFlatKeys(data: seq<Record>, f0: Entries, f1: Entries)
    requires |data| == 2 && f0 == Flatten(data[0]) && f1 == Flatten(data[1])
    requires KeySet(f0) == {"a.b", "Datetime"} && KeySet(f1) == {"a.c", "d", "Datetime"}
    ensures FlatKeys(data) == {"Datetime", "a.b", "a.c", "d"}
  {
    var fl := FlattenAll(data);
    assert fl[0] == f0 && fl[1] == f1;
    assert AllKeys(fl) == KeySet(fl[0]) + KeySet(fl[1]);
  }

  lemma ExampleRows(cols: seq<string>, m0: map<string, Value>, m1: map<string, Value>, row0: map<string, Cell>, row1: map<string, Cell>)
    requires Elems(cols) == {"Datetime", "a.b", "a.c", "d"}
    requires m0.Keys == {"a.b", "Datetime"} && m0["a.b"] == Int(1) && m0["Datetime"] == Time1
    requires m1.Keys == {"a.c", "d", "Datetime"} && m1["a.c"] == Int(2) && m1["d"] == Str("x") && m1["Datetime"] == Time2
    requires row0 == Densify(cols, m0) && row1 == Densify(cols, m1)
    ensures row0["Datetime"] == Present(Time1) && row1["Datetime"] == Present(Time2)
    ensures row0["a.b"] == Present(Int(1)) && row1["a.b"] == Missing
    ensures row0["a.c"] == Missing && row1["a.c"] == Present(Int(2))
    ensures row0["d"] == Missing && row1["d"] == Present(Str("x"))
  {
  }

  /** The table the example batch loads to: two rows over four columns, gaps where a record lacks a name. */
  predicate ExampleCells(t: Table) {
    && Rectangular(t)
    && |t.rows| == 2
    && Elems(t.columns) == {"Datetime", "a.b", "a.c", "d"}
    && t.rows[0]["Datetime"] == Present(Time1) && t.rows[1]["Datetime"] == Present(Time2)
    && t.rows[0]["a.b"] == Present(Int(1)) && t.rows[1]["a.b"] == Missing
    && t.rows[0]["a.c"] == Missing && t.rows[1]["a.c"] == Present(Int(2))
    && t.rows[0]["d"] == Missing && t.rows[1]["d"] == Present(Str("x"))
  }

  lemma ExampleMaps(f0: Entries, f1: Entries)
    requires f0 == [("a.b", Int(1)), ("Datetime", Time1)]
    requires f1 == [("a.c", Int(2)), ("d", Str("x")), ("Datetime", Time2)]
    ensures KeySet(f0) == {"a.b", "Datetime"} && KeySet(f1) == {"a.c", "d", "Datetime"}
    ensures var m0 := ToMap(f0); m0.Keys == {"a.b", "Datetime"} && m0["a.b"] == Int(1) && m0["Datetime"] == Time1
    ensures var m1 := ToMap(f1);
      m1.Keys == {"a.c", "d", "Datetime"} && m1["a.c"] == Int(2) && m1["d"] == Str("x") && m1["Datetime"] == Time2
  {
    ToMapTwo(f0, "a.b", Int(1), "Datetime", Time1);
    ToMapThree(f1, "a.c", Int(2), "d", Str("x"), "Datetime", Time2);
  }

  /** Two entries with different names map each name to its own value. */
  lemma ToMapTwo(g: Entries, k1: string, v1: Value, k2: string, v2: Value)
    requires g == [(k1, v1), (k2, v2)] && k1 != k2
    ensures KeySet(g) == {k1, k2}
    ensures var m := ToMap(g); m.Keys == {k1, k2} && m[k1] == v1 && m[k2] == v2
  {
    assert g[0].0 == k1 && g[1].0 == k2;
  }

  /** Three entries with different names map each name to its own value. */
  lemma ToMapThree(g: Entries, k1: string, v1: Value, k2: string, v2: Value, k3: string, v3: Value)
    requires g == [(k1, v1), (k2, v2), (k3, v3)] && k1 != k2 && k1 != k3 && k2 != k3
    ensures KeySet(g) == {k1, k2, k3}
    ensures var m := ToMap(g); m.Keys == {k1, k2, k3} && m[k1] == v1 && m[k2] == v2 && m[k3] == v3
  {
    assert g[0].0 == k1 && g[1].0 == k2 && g[2].0 == k3;
  }

  /** The schema step leaves this table as it is: `Datetime` already holds timestamps, the rest is undeclared. */
  lemma ExampleCoerced(df: Table)
    requires ExampleCells(df)
    ensures ExampleCells(Coerce(df, ColDTypes))
  {
    ExampleDeclared();
    ExampleCoercedUnder(df, ColDTypes);
  }

  lemma ExampleDeclared()
    ensures "Datetime" in ColDTypes && ColDTypes["Datetime"] == Datetime64
    ensures "a.b" !in ColDTypes && "a.c" !in ColDTypes && "d" !in ColDTypes
  {
    DatetimeDeclared();
    UndeclaredAB();
    UndeclaredAC();
    UndeclaredD();
  }

  lemma UndeclaredAB()
    ensures "a.b" !in ColDTypes
  {
  }

  lemma UndeclaredAC()
    ensures "a.c" !in ColDTypes
  {
  }

  lemma UndeclaredD()
    ensures "d" !in ColDTypes
  {
  }

  lemma ExampleCoercedUnder(df: Table, schema: map<string, DType>)
    requires ExampleCells(df)
    requires "Datetime" in schema && schema["Datetime"] == Datetime64
    requires "a.b" !in schema && "a.c" !in schema && "d" !in schema
    ensures ExampleCells(Coerce(df, schema))
  {
    CoerceCell(df, schema);
    assert "Datetime" in df.rows[0] && "Datetime" in df.rows[1];
    assert ColumnCasts(df, "Datetime", Datetime64) by {
      forall i | 0 <= i < |df.rows| && "Datetime" in df.rows[i]
        ensures CastCell(Datetime64, df.rows[i]["Datetime"]).Some?
      {
        assert i == 0 || i == 1;
      }
    }
    var t := Coerce(df, schema);
    forall i, c | 0 <= i < 2 && c in {"a.b", "a.c", "d"}
      ensures c in df.rows[i] && t.rows[i][c] == df.rows[i][c]
    {
    }
  }

  /** The same file through `cargar_logs` as written: the schema step raises, and the table is empty. */
  lemma ExampleLoadAsWritten(decode: string -> Parsed)
    requires DecodesExample(decode)
    ensures IngestAsWritten([File], decode) == EmptyTable
    ensures |Ingest([File], decode).rows| == 2
  {
    ExampleLoad(decode);
    ExampleRecords(decode);
    var data := Gather([File], decode);
    ExampleNormalized(data);
    ExampleSchemaGap(FlatKeys(data));
    MissingDeclaredColumn([File], decode, "source.Redundancy Group");
  }

  lemma ExampleSchemaGap(keys: set<string>)
    requires keys == {"Datetime", "a.b", "a.c", "d"}
    ensures "source.Redundancy Group" in ColDTypes && "source.Redundancy Group" !in keys
  {
  }

}
