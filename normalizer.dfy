/**
 * `pd.json_normalize` over the combined record list: every record is flattened
 * into dotted-path leaves, the columns are the union of all leaf names in order
 * of first appearance, and every record becomes one row with a gap (NaN)
 * wherever it lacks a column.
 */
module Normalizer {
  import opened Wrappers
  import opened Values

  /** A table cell: a value, or the gap left where the row's record lacks the column. */
  datatype Cell = Missing | Present(value: Value)

  /** A rectangular table: the column names and, per row, a cell for every column. */
  datatype Table = Table(columns: seq<string>, rows: seq<map<string, Cell>>)

  /** `pd.DataFrame()`: no rows and no columns. */
  const EmptyTable: Table := Table([], [])

  function Elems(s: seq<string>): set<string> {
    set i | 0 <= i < |s| :: s[i]
  }

  lemma ElemsSnoc(s: seq<string>, x: string)
    ensures Elems(s + [x]) == Elems(s) + {x}
  {
    var t := s + [x];
    assert t[|s|] == x;
    forall y | y in Elems(s) ensures y in Elems(t) {
      var i :| 0 <= i < |s| && s[i] == y;
      assert t[i] == y;
    }
  }

  predicate Distinct(s: seq<string>) {
    forall i, j :: 0 <= i < j < |s| ==> s[i] != s[j]
  }

  /** Every row has exactly the table's columns, and no column is named twice. */
  predicate Rectangular(t: Table) {
    && Distinct(t.columns)
    && forall i :: 0 <= i < |t.rows| ==> t.rows[i].Keys == Elems(t.columns)
  }

  // ---------------------------------------------------------------------------
  // Flattening one record

  /** The dotted name of key k below the path prefix; at the top level it is k itself. */
  function Join(prefix: string, k: string): string {
    if prefix == "" then k else prefix + "." + k
  }

  /** A value that flattening keeps whole: anything but an object (a list stays one opaque value). */
  predicate IsLeaf(v: Value) {
    !v.Dict?
  }

  /**
   * The dotted-path leaves of the entries e[i..], depth first: a nested object
   * is expanded under its key, anything else is kept under its dotted name.
   */
  function FlattenFrom(prefix: string, e: Entries, i: nat): (r: Entries)
    requires i <= |e|
    ensures forall j :: 0 <= j < |r| ==> IsLeaf(r[j].1)
    decreases Dict(e), 0, |e| - i
  {
    if i == |e| then []
    else FlattenHead(prefix, e[i]) + FlattenFrom(prefix, e, i + 1)
  }

  /** The leaves one entry contributes: its nested object's leaves, or itself under its dotted name. */
  function FlattenHead(prefix: string, entry: (string, Value)): (r: Entries)
    ensures forall j :: 0 <= j < |r| ==> IsLeaf(r[j].1)
    decreases entry.1, 1, 0
  {
    if entry.1.Dict? then FlattenFrom(Join(prefix, entry.0), entry.1.entries, 0)
    else [(Join(prefix, entry.0), entry.1)]
  }

  function Flatten(record: Entries): Entries {
    FlattenFrom("", record, 0)
  }

  /** Every leaf an entry contributes is in the flattened record, whichever entry it is. */
  lemma {:induction false} FlattenComplete(prefix: string, e: Entries, i: nat, j: nat, x: (string, Value))
    requires i <= j < |e| && x in FlattenHead(prefix, e[j])
    ensures x in FlattenFrom(prefix, e, i)
    decreases j - i
  {
    if i < j {
      FlattenComplete(prefix, e, i + 1, j, x);
    }
  }

  /** An entry that is not an object survives flattening under its own dotted name. */
  lemma FlattenKeepsLeaf(prefix: string, e: Entries, i: nat, j: nat)
    requires i <= j < |e| && IsLeaf(e[j].1)
    ensures (Join(prefix, e[j].0), e[j].1) in FlattenFrom(prefix, e, i)
  {
    FlattenComplete(prefix, e, i, j, (Join(prefix, e[j].0), e[j].1));
  }

  /** A leaf of a nested object appears in the flattened record under the object's key, joined by a dot. */
  lemma FlattenExpandsNested(prefix: string, e: Entries, i: nat, j: nat, x: (string, Value))
    requires i <= j < |e| && e[j].1.Dict?
    requires x in FlattenFrom(Join(prefix, e[j].0), e[j].1.entries, 0)
    ensures x in FlattenFrom(prefix, e, i)
  {
    FlattenComplete(prefix, e, i, j, x);
  }

  /** Everything in a flattened record is a leaf contributed by one of its entries. */
  lemma {:induction false} FlattenSound(prefix: string, e: Entries, i: nat, x: (string, Value))
    requires i <= |e| && x in FlattenFrom(prefix, e, i)
    ensures exists j :: i <= j < |e| && x in FlattenHead(prefix, e[j])
    decreases |e| - i
  {
    if x !in FlattenHead(prefix, e[i]) {
      FlattenSound(prefix, e, i + 1, x);
    }
  }

  /** No entry holds an object under the empty key, whose leaves would flatten to undotted names. */
  predicate NoObjectUnderEmptyKey(e: Entries) {
    forall j :: 0 <= j < |e| && e[j].0 == "" ==> !e[j].1.Dict?
  }

  /** Below a non-empty path prefix every flattened name holds a dot. */
  lemma {:induction false} NestedNamesDotted(prefix: string, e: Entries, i: nat, x: (string, Value))
    requires prefix != "" && i <= |e| && x in FlattenFrom(prefix, e, i)
    ensures '.' in x.0
    decreases Dict(e), 0, |e| - i
  {
    if x in FlattenHead(prefix, e[i]) {
      HeadNamesDotted(prefix, e[i], x);
    } else {
      NestedNamesDotted(prefix, e, i + 1, x);
    }
  }

  lemma {:induction false} HeadNamesDotted(prefix: string, entry: (string, Value), x: (string, Value))
    requires prefix != "" && x in FlattenHead(prefix, entry)
    ensures '.' in x.0
    decreases entry.1, 1, 0
  {
    var name := Join(prefix, entry.0);
    assert name[|prefix|] == '.';
    if entry.1.Dict? {
      NestedNamesDotted(name, entry.1.entries, 0, x);
    } else {
      assert x.0 == name;
    }
  }

  /** A record with no nested objects is its own flattening. */
  lemma {:induction false} FlattenFlat(e: Entries, i: nat)
    requires i <= |e|
    requires forall j :: 0 <= j < |e| ==> IsLeaf(e[j].1)
    ensures FlattenFrom("", e, i) == e[i..]
    decreases |e| - i
  {
    if i < |e| {
      FlattenFlat(e, i + 1);
      assert e[i..] == [e[i]] + e[i + 1..];
    }
  }

  /** Flattening a flattened record changes nothing. */
  lemma FlattenIdempotent(record: Entries)
    ensures Flatten(Flatten(record)) == Flatten(record)
  {
    FlattenFlat(Flatten(record), 0);
  }

  // ---------------------------------------------------------------------------
  // Columns and rows

  /** The dict a flattened record becomes: a later entry with the same name wins. */
  function ToMap(f: Entries): (m: map<string, Value>)
    ensures m.Keys == KeySet(f)
    ensures forall k :: k in m ==> (k, m[k]) in f
  {
    if f == [] then map[]
    else
      KeySetCons(f[0], f[1..]);
      assert [f[0]] + f[1..] == f;
      map[f[0].0 := f[0].1] + ToMap(f[1..])
  }

  /** Appends the names of f that cols does not hold yet, in order of first appearance. */
  function AddColumns(cols: seq<string>, f: Entries): (r: seq<string>)
    ensures |cols| <= |r| && r[..|cols|] == cols
    ensures Elems(r) == Elems(cols) + KeySet(f)
    ensures Distinct(cols) ==> Distinct(r)
    decreases |f|
  {
    if f == [] then cols
    else
      var next := if f[0].0 in cols then cols else cols + [f[0].0];
      KeySetCons(f[0], f[1..]);
      assert [f[0]] + f[1..] == f;
      assert Elems(next) == Elems(cols) + {f[0].0} by {
        if f[0].0 in cols {
          var i :| 0 <= i < |cols| && cols[i] == f[0].0;
        } else {
          ElemsSnoc(cols, f[0].0);
        }
      }
      var r := AddColumns(next, f[1..]);
      assert r[..|cols|] == r[..|next|][..|cols|];
      r
  }

  /** The names that occur in any of the flattened records. */
  function AllKeys(flats: seq<Entries>): set<string> {
    set i, k | 0 <= i < |flats| && k in KeySet(flats[i]) :: k
  }

  /** The column union: every name of every flattened record, once, in order of first appearance. */
  function Columns(flats: seq<Entries>): (cols: seq<string>)
    ensures Distinct(cols)
    ensures Elems(cols) == AllKeys(flats)
    decreases |flats|
  {
    if flats == [] then []
    else
      var n := |flats| - 1;
      var cols := AddColumns(Columns(flats[..n]), flats[n]);
      assert AllKeys(flats) == AllKeys(flats[..n]) + KeySet(flats[n]) by {
        forall k | k in AllKeys(flats) ensures k in AllKeys(flats[..n]) + KeySet(flats[n]) {
          var i :| 0 <= i < |flats| && k in KeySet(flats[i]);
          if i < n { assert flats[..n][i] == flats[i]; }
        }
        forall k | k in AllKeys(flats[..n]) ensures k in AllKeys(flats) {
          var i :| 0 <= i < n && k in KeySet(flats[..n][i]);
          assert flats[..n][i] == flats[i];
        }
      }
      cols
  }

  /** One row: every column gets the record's value, or a gap where the record lacks it. */
  function Densify(cols: seq<string>, m: map<string, Value>): (row: map<string, Cell>)
    ensures row.Keys == Elems(cols)
  {
    map c | c in Elems(cols) :: if c in m then Present(m[c]) else Missing
  }

  function FlattenAll(records: seq<Entries>): (flats: seq<Entries>)
    ensures |flats| == |records|
    ensures forall i :: 0 <= i < |records| ==> flats[i] == Flatten(records[i])
  {
    seq(|records|, i requires 0 <= i < |records| => Flatten(records[i]))
  }

  /** `pd.json_normalize(datos)`: flatten, take the column union, one row per record. */
  function Normalize(records: seq<Entries>): Table {
    var flats := FlattenAll(records);
    var cols := Columns(flats);
    Table(cols, seq(|flats|, i requires 0 <= i < |flats| => Densify(cols, ToMap(flats[i]))))
  }

  /** The names that occur in the flattening of any record. */
  function FlatKeys(records: seq<Entries>): set<string> {
    AllKeys(FlattenAll(records))
  }

  /**
   * The normalised table is rectangular with one row per record, in record
   * order; its columns are exactly the flattened names of all records; row i
   * holds a value under a column exactly when record i has that flattened
   * name, and that value is never a nested object.
   */
  lemma NormalizeShape(records: seq<Entries>)
    ensures var t := Normalize(records);
      && Rectangular(t)
      && |t.rows| == |records|
      && Elems(t.columns) == FlatKeys(records)
      && forall i, c :: 0 <= i < |records| && c in t.rows[i] ==>
           && (t.rows[i][c].Present? <==> c in KeySet(Flatten(records[i])))
           && (t.rows[i][c].Present? ==>
                 t.rows[i][c].value == ToMap(Flatten(records[i]))[c] && IsLeaf(t.rows[i][c].value))
  {
    var t := Normalize(records);
    forall i, c | 0 <= i < |records| && c in t.rows[i] && t.rows[i][c].Present?
      ensures IsLeaf(t.rows[i][c].value)
    {
      var f := Flatten(records[i]);
      assert (c, ToMap(f)[c]) in f;
    }
  }

}
