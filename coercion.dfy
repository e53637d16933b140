/**
 * `df.astype(COL_DTYPES, errors='ignore')`: each column named in the declared
 * schema is cast to its declared type as a whole; a column whose cast fails
 * for any of its cells is left exactly as it was, and the other columns are
 * cast regardless. `errors='ignore'` absorbs only `ValueError` and
 * `TypeError`: an `OverflowError` from an Int64 cast escapes the whole call.
 */
module Coercion {
  import opened Wrappers
  import opened Timestamp
  import opened Values
  import opened Normalizer

  /** The declared types the schema uses: `Int64`, `string`, `object`, `datetime64[ns]`. */
  datatype DType = Int64 | String | Object | Datetime64

  /** `COL_DTYPES`: the static schema of the radio-event log format. */
  const ColDTypes: map<string, DType> := map[
    "Datetime" := Datetime64,
    "source.Redundancy Group" := Int64,
    "source.App Type Id" := Int64,
    "source.Server Id" := Int64,
    "source.Repeater Id" := Int64,
    "source.Device Site Id" := Int64,
    "source.Repeater Slots" := String,
    "descriptor.Protocol" := Int64,
    "descriptor.Opcode" := String,
    "descriptor.Source Unique Id" := Int64,
    "descriptor.Destination Unique Id" := Int64,
    "descriptor.Sequence Number" := Int64,
    "descriptor.Timestamp" := Int64,
    "descriptor.Fragment" := Int64,
    "descriptor.Version" := Int64,
    "descriptor.Role Info" := String,
    "payload.Timestamp" := Int64,
    "payload.Csn" := Int64,
    "payload.Src" := Int64,
    "payload.Tgt" := Int64,
    "payload.Site all call site id" := Int64,
    "payload.CallType" := String,
    "payload.Action" := String,
    "payload.Info" := String,
    "payload.Value" := Int64,
    "payload.Originating Site Id" := Int64,
    "payload.RSSI" := String,
    "payload.Participating sites" := Object,
    "payload.Logical Channel Number" := Int64,
    "payload.Talkgroup Subscription List" := Object,
    "payload.Radio Type" := String,
    "payload.Phone Info" := String,
    "payload.Preempt Priority" := String,
    "payload.TG Alias" := String,
    "payload.TG Id" := String,
    "payload.State" := String
  ]

  /** `Datetime` is the only column the schema declares `datetime64[ns]`. */
  lemma DatetimeDeclared()
    ensures "Datetime" in ColDTypes && ColDTypes["Datetime"] == Datetime64
    ensures forall c :: c in ColDTypes && ColDTypes[c] == Datetime64 ==> c == "Datetime"
  {
  }

  /** The two list-valued payload fields are the only columns the schema declares `object`. */
  lemma ObjectDeclared()
    ensures forall c :: c in ColDTypes && ColDTypes[c] == Object ==>
      c == "payload.Participating sites" || c == "payload.Talkgroup Subscription List"
  {
  }

  // ---------------------------------------------------------------------------
  // Decimal text of integers

  /** The decimal digits of n, without leading zeros. */
  function DigitsOf(n: nat): (s: string)
    ensures |s| >= 1 && AllDigits(s)
    ensures Number(s) == n
    ensures IsDigit(s[0])
  {
    if n < 10 then
      var s := [DigitChar(n)];
      assert s[..0] == [];
      s
    else
      var hi := DigitsOf(n / 10);
      var s := hi + [DigitChar(n % 10)];
      assert s[..|s| - 1] == hi;
      s
  }

  /** `str(i)` for an integer. */
  function IntToString(i: int): string {
    if i < 0 then "-" + DigitsOf(-i) else DigitsOf(i)
  }

  /** An optionally signed run of decimal digits, the integer texts the model accepts. */
  function ParseInt(s: string): (r: Option<int>)
    ensures r.Some? ==> |s| >= 1
  {
    if |s| >= 2 && s[0] == '-' && AllDigits(s[1..]) then Some(0 - Number(s[1..]))
    else if |s| >= 2 && s[0] == '+' && AllDigits(s[1..]) then Some(Number(s[1..]))
    else if |s| >= 1 && AllDigits(s) then Some(Number(s))
    else None
  }

  /** Reading back the decimal text of an integer gives the integer. */
  lemma ParseIntToString(i: int)
    ensures ParseInt(IntToString(i)) == Some(i)
  {
    var s := IntToString(i);
    if i < 0 {
      assert s[1..] == DigitsOf(-i);
    } else {
      assert s == DigitsOf(i) && s[0] != '-' && s[0] != '+';
    }
  }

  // ---------------------------------------------------------------------------
  // Casting cells

  const Int64Min: int := -0x8000_0000_0000_0000
  const Int64Max: int := 0x7FFF_FFFF_FFFF_FFFF

  predicate InInt64(i: int) {
    Int64Min <= i <= Int64Max
  }

  /** The values a column of the declared type can hold (Null is the type's missing value). */
  predicate HasType(ty: DType, v: Value) {
    match ty
    case Int64 => v.Null? || (v.Int? && InInt64(v.i))
    case String => v.Null? || v.Str?
    case Object => true
    case Datetime64 => v.Time?
  }

  /**
   * The Int64 cast of v raises `OverflowError`: v is an integer, or the text of
   * an integer, outside int64.
   */
  predicate Overflows(ty: DType, v: Value) {
    && ty == Int64
    && ((v.Int? && !InInt64(v.i)) || (v.Str? && ParseInt(v.s).Some? && !InInt64(ParseInt(v.s).value)))
  }

  /** The cast of one value to a declared type, or `None` where that cast raises. */
  function Cast(ty: DType, v: Value): (r: Option<Value>)
    ensures r.Some? ==> HasType(ty, r.value)
    ensures HasType(ty, v) ==> r == Some(v)
    ensures Overflows(ty, v) ==> r.None?
  {
    match ty
    case Object => Some(v)
    case Int64 =>
      (match v
       case Null => Some(Null)
       case Int(i) => if InInt64(i) then Some(v) else None
       case Str(s) =>
         (match ParseInt(s)
          case Some(i) => if InInt64(i) then Some(Int(i)) else None
          case None => None)
       case _ => None)
    case String =>
      (match v
       case Null => Some(Null)
       case Str(_) => Some(v)
       case Int(i) => Some(Str(IntToString(i)))
       case Bool(b) => Some(Str(if b then "True" else "False"))
       case _ => None)
    case Datetime64 =>
      (match v
       case Null => Some(Time(None))
       case Time(_) => Some(v)
       case _ => None)
  }

  /** An integer column cast to text and back to Int64 is unchanged. */
  lemma IntTextRoundTrip(i: int)
    requires InInt64(i)
    ensures Cast(String, Int(i)).Some?
    ensures Cast(Int64, Cast(String, Int(i)).value) == Some(Int(i))
  {
    ParseIntToString(i);
  }

  /** A cast value casts to itself again: casting a column twice is casting it once. */
  lemma CastIdempotent(ty: DType, v: Value)
    requires Cast(ty, v).Some?
    ensures Cast(ty, Cast(ty, v).value) == Cast(ty, v)
  {
  }

  /** A gap stays a gap; a value is cast. */
  function CastCell(ty: DType, c: Cell): Option<Cell> {
    match c
    case Missing => Some(Missing)
    case Present(v) =>
      (match Cast(ty, v)
       case Some(w) => Some(Present(w))
       case None => None)
  }

  /** The cast cell where the cast succeeds, the cell itself where it raises. */
  function CastOr(ty: DType, c: Cell): (r: Cell)
    ensures r.Present? <==> c.Present?
  {
    match CastCell(ty, c)
    case Some(d) => d
    case None => c
  }

  /** A timestamp or NaT stays as it is under every declared type: it casts to itself or the cast fails. */
  lemma CastKeepsTime(ty: DType, v: Value)
    requires v.Time?
    ensures CastOr(ty, Present(v)) == Present(v)
  {
  }

  /** Every cell of column c casts to ty. */
  predicate ColumnCasts(t: Table, c: string, ty: DType) {
    forall i :: 0 <= i < |t.rows| && c in t.rows[i] ==> CastCell(ty, t.rows[i][c]).Some?
  }

  // ---------------------------------------------------------------------------
  // Casting columns

  /** `Series.astype(ty, errors='ignore')` on column c: all cells cast, or none. */
  function CoerceColumn(t: Table, c: string, ty: DType): (r: Table)
    ensures r.columns == t.columns && |r.rows| == |t.rows|
    ensures forall i :: 0 <= i < |t.rows| ==> r.rows[i].Keys == t.rows[i].Keys
    ensures forall i, d :: 0 <= i < |t.rows| && d in t.rows[i] && d != c ==> r.rows[i][d] == t.rows[i][d]
    ensures forall i :: 0 <= i < |t.rows| && c in t.rows[i] ==>
      r.rows[i][c] == if ColumnCasts(t, c, ty) then CastOr(ty, t.rows[i][c]) else t.rows[i][c]
  {
    if ColumnCasts(t, c, ty) then
      Table(t.columns, seq(|t.rows|, i requires 0 <= i < |t.rows| =>
        if c in t.rows[i] then t.rows[i][c := CastOr(ty, t.rows[i][c])] else t.rows[i]))
    else t
  }

  /** Row k's cell of column c is a value whose cast overflows. */
  predicate OverflowsAt(t: Table, c: string, ty: DType, k: int) {
    0 <= k < |t.rows| && c in t.rows[k] && t.rows[k][c].Present? && Overflows(ty, t.rows[k][c].value)
  }

  /** Every cell of column c in rows i up to k (excluded) casts. */
  predicate CastsBetween(t: Table, c: string, ty: DType, i: int, k: int) {
    forall j :: 0 <= i <= j < k && j < |t.rows| && c in t.rows[j] ==> CastCell(ty, t.rows[j][c]).Some?
  }

  /**
   * Scanning column c from row i on, the first cell that fails to cast is one
   * that overflows: the element-by-element cast stops at its first failure,
   * and only an overflow escapes `errors='ignore'`.
   */
  function FirstFailureOverflows(t: Table, c: string, ty: DType, i: nat): bool
    decreases |t.rows| - i
  {
    if i >= |t.rows| then false
    else if c in t.rows[i] && CastCell(ty, t.rows[i][c]).None? then Overflows(ty, t.rows[i][c].value)
    else FirstFailureOverflows(t, c, ty, i + 1)
  }

  /** Casting column c raises `OverflowError`. */
  predicate ColumnRaises(t: Table, c: string, ty: DType) {
    FirstFailureOverflows(t, c, ty, 0)
  }

  lemma {:induction false} FirstFailureOverflowsAt(t: Table, c: string, ty: DType, i: nat)
    ensures FirstFailureOverflows(t, c, ty, i) <==>
      exists k :: i <= k && OverflowsAt(t, c, ty, k) && CastsBetween(t, c, ty, i, k)
    decreases |t.rows| - i
  {
    if i < |t.rows| {
      if c in t.rows[i] && CastCell(ty, t.rows[i][c]).None? {
        if FirstFailureOverflows(t, c, ty, i) {
          assert OverflowsAt(t, c, ty, i) && CastsBetween(t, c, ty, i, i);
        }
      } else {
        FirstFailureOverflowsAt(t, c, ty, i + 1);
        if FirstFailureOverflows(t, c, ty, i) {
          var k :| i + 1 <= k && OverflowsAt(t, c, ty, k) && CastsBetween(t, c, ty, i + 1, k);
          assert CastsBetween(t, c, ty, i, k);
        }
        forall k | i <= k && OverflowsAt(t, c, ty, k) && CastsBetween(t, c, ty, i, k)
          ensures FirstFailureOverflows(t, c, ty, i)
        {
          assert CastsBetween(t, c, ty, i + 1, k);
        }
      }
    }
  }

  /**
   * Casting column c raises exactly when some cell of it overflows and every
   * cell above that one casts; only an Int64 cast can raise, and a column that
   * raises does not cast.
   */
  lemma ColumnRaisesAt(t: Table, c: string, ty: DType)
    ensures ColumnRaises(t, c, ty) <==> exists k :: OverflowsAt(t, c, ty, k) && CastsBetween(t, c, ty, 0, k)
    ensures ColumnRaises(t, c, ty) ==> ty == Int64 && !ColumnCasts(t, c, ty)
  {
    FirstFailureOverflowsAt(t, c, ty, 0);
    if ColumnRaises(t, c, ty) {
      var k :| OverflowsAt(t, c, ty, k) && CastsBetween(t, c, ty, 0, k);
      assert OverflowsAt(t, c, ty, k);
      assert 0 <= k;
      assert k < |t.rows|;
      assert CastCell(ty, t.rows[k][c]).None?;
    }
  }

  /** Some declared column of the table raises on its cast, and with it the whole `astype`. */
  predicate Raises(t: Table, schema: map<string, DType>) {
    exists c :: c in schema && c in Elems(t.columns) && ColumnRaises(t, c, schema[c])
  }

  /**
   * An Int64 column whose first cell is the text of an integer past int64, such
   * as `"9223372036854775808"`: the cast raises, and `astype` returns nothing.
   */
  lemma OverflowTextRaises(t: Table, schema: map<string, DType>, c: string, n: int)
    requires c in Elems(t.columns) && c in schema && schema[c] == Int64
    requires |t.rows| >= 1 && c in t.rows[0] && t.rows[0][c] == Present(Str(IntToString(n)))
    requires n > Int64Max
    ensures Raises(t, schema) && Astype(t, schema) == None
  {
    ParseIntToString(n);
    assert Overflows(Int64, t.rows[0][c].value);
    assert ColumnRaises(t, c, Int64);
  }

  /** The columns cols, one after another, each cast when the schema declares it. */
  function CoerceFrom(t: Table, schema: map<string, DType>, cols: seq<string>): (r: Table)
    ensures r.columns == t.columns && |r.rows| == |t.rows|
    ensures forall i :: 0 <= i < |t.rows| ==> r.rows[i].Keys == t.rows[i].Keys
    decreases |cols|
  {
    if cols == [] then t
    else
      var next := if cols[0] in schema then CoerceColumn(t, cols[0], schema[cols[0]]) else t;
      CoerceFrom(next, schema, cols[1..])
  }

  /**
   * `astype(schema, errors='ignore')` in the reading the model follows: every
   * column of the table that the schema declares is cast; declared columns the
   * table lacks are passed over.
   */
  function Coerce(t: Table, schema: map<string, DType>): Table {
    CoerceFrom(t, schema, t.columns)
  }

  /**
   * What `astype(schema, errors='ignore')` gives in that reading: nothing when
   * an `OverflowError` escapes, and the cast table otherwise.
   */
  function Astype(t: Table, schema: map<string, DType>): Option<Table> {
    if Raises(t, schema) then None else Some(Coerce(t, schema))
  }

  /** What a cell of column c becomes when the columns are cast independently, all or nothing. */
  function Coerced(t: Table, schema: map<string, DType>, c: string, cell: Cell): (r: Cell)
    ensures r.Present? <==> cell.Present?
  {
    if c in schema && ColumnCasts(t, c, schema[c]) then CastOr(schema[c], cell) else cell
  }

  lemma ColumnCastsFrame(t: Table, u: Table, c: string, ty: DType)
    requires |u.rows| == |t.rows|
    requires forall i :: 0 <= i < |t.rows| ==> u.rows[i].Keys == t.rows[i].Keys
    requires forall i :: 0 <= i < |t.rows| && c in t.rows[i] ==> u.rows[i][c] == t.rows[i][c]
    ensures ColumnCasts(u, c, ty) == ColumnCasts(t, c, ty)
  {
  }

  lemma {:induction false} CoerceFromCell(t: Table, schema: map<string, DType>, cols: seq<string>, i: nat, c: string)
    requires Distinct(cols)
    requires i < |t.rows| && c in t.rows[i]
    ensures CoerceFrom(t, schema, cols).rows[i][c] ==
      if c in Elems(cols) then Coerced(t, schema, c, t.rows[i][c]) else t.rows[i][c]
    decreases |cols|
  {
    if cols != [] {
      var d := cols[0];
      var next := if d in schema then CoerceColumn(t, d, schema[d]) else t;
      assert Distinct(cols[1..]);
      assert Elems(cols) == {d} + Elems(cols[1..]) by {
        forall x | x in Elems(cols) ensures x in {d} + Elems(cols[1..]) {
          var j :| 0 <= j < |cols| && cols[j] == x;
          if j > 0 { assert cols[1..][j - 1] == x; }
        }
        forall x | x in Elems(cols[1..]) ensures x in Elems(cols) {
          var j :| 0 <= j < |cols| - 1 && cols[1..][j] == x;
          assert cols[j + 1] == x;
        }
      }
      CoerceFromCell(next, schema, cols[1..], i, c);
      if c == d {
        assert c !in Elems(cols[1..]) by {
          forall j | 0 <= j < |cols| - 1 ensures cols[1..][j] != c {
            assert cols[1..][j] == cols[j + 1];
          }
        }
      } else if d in schema && c in schema {
        ColumnCastsFrame(t, next, c, schema[c]);
      }
    } else {
      assert Elems(cols) == {};
    }
  }

  /**
   * Casting a rectangular table: the shape is kept, and each cell of a column
   * the schema declares is cast exactly when every cell of that column casts;
   * columns the schema does not declare are untouched.
   */
  lemma CoerceCell(t: Table, schema: map<string, DType>)
    requires Rectangular(t)
    ensures var r := Coerce(t, schema);
      && r.columns == t.columns
      && |r.rows| == |t.rows|
      && Rectangular(r)
      && forall i, c :: 0 <= i < |t.rows| && c in t.rows[i] ==> r.rows[i][c] == Coerced(t, schema, c, t.rows[i][c])
  {
    forall i, c | 0 <= i < |t.rows| && c in t.rows[i]
      ensures Coerce(t, schema).rows[i][c] == Coerced(t, schema, c, t.rows[i][c])
    {
      CoerceFromCell(t, schema, t.columns, i, c);
    }
  }

  /**
   * `astype` as the line is written: a schema key that is not a column of the
   * table raises KeyError (whatever `errors` says) before any column is cast,
   * which the caller turns into an empty table; `None` stands for a raise.
   */
  function CoerceAsWritten(t: Table, schema: map<string, DType>): (r: Option<Table>)
    ensures r.Some? <==> schema.Keys <= Elems(t.columns) && !Raises(t, schema)
    ensures r.Some? ==> r.value == Coerce(t, schema)
  {
    if schema.Keys <= Elems(t.columns) then Astype(t, schema) else None
  }

  /**
   * `errors='ignore'` keeps a declared column whole when any one of its cells
   * fails to cast: every cell of it is left as it was.
   */
  lemma ColumnKeptWhole(t: Table, schema: map<string, DType>, c: string)
    requires Rectangular(t) && c in Elems(t.columns)
    requires c in schema && !ColumnCasts(t, c, schema[c])
    ensures forall i :: 0 <= i < |t.rows| ==> c in t.rows[i] && Coerce(t, schema).rows[i][c] == t.rows[i][c]
  {
    CoerceCell(t, schema);
  }

  /** When every cell of a declared column casts, each cell becomes its cast. */
  lemma ColumnCastWhole(t: Table, schema: map<string, DType>, c: string)
    requires Rectangular(t) && c in Elems(t.columns)
    requires c in schema && ColumnCasts(t, c, schema[c])
    ensures forall i :: 0 <= i < |t.rows| ==>
      c in t.rows[i] && CastCell(schema[c], t.rows[i][c]) == Some(Coerce(t, schema).rows[i][c])
  {
    CoerceCell(t, schema);
  }

  /** A text that is not a decimal integer does not cast to Int64. */
  lemma NonNumericText()
    ensures CastCell(Int64, Present(Str("x"))) == None
  {
    assert ParseInt("x") == None;
  }

  /** A column declared Int64 holding "5", "7" and a non-numeric text is left as it was, all three cells. */
  lemma MixedColumnLeftAsIs(t: Table, schema: map<string, DType>, c: string)
    requires Rectangular(t) && |t.rows| == 3 && c in Elems(t.columns)
    requires c in schema && schema[c] == Int64
    requires t.rows[0][c] == Present(Str("5")) && t.rows[1][c] == Present(Str("7")) && t.rows[2][c] == Present(Str("x"))
    ensures forall i :: 0 <= i < 3 ==> Coerce(t, schema).rows[i][c] == t.rows[i][c]
  {
    NonNumericText();
    assert c in t.rows[2];
    assert !ColumnCasts(t, c, Int64);
    ColumnKeptWhole(t, schema, c);
  }

  lemma CastDigitText(d: int)
    requires 0 <= d <= 9
    ensures Cast(Int64, Str([DigitChar(d)])) == Some(Int(d))
  {
    var s := [DigitChar(d)];
    assert s[..0] == [];
    assert AllDigits(s) && Number(s) == d;
    assert ParseInt(s) == Some(d);
    assert InInt64(d);
  }

  /** The same column with "5", "7" and "9" becomes the integers 5, 7 and 9. */
  lemma NumericColumnCast(t: Table, schema: map<string, DType>, c: string)
    requires Rectangular(t) && |t.rows| == 3 && c in Elems(t.columns)
    requires c in schema && schema[c] == Int64
    requires t.rows[0][c] == Present(Str("5")) && t.rows[1][c] == Present(Str("7")) && t.rows[2][c] == Present(Str("9"))
    ensures Coerce(t, schema).rows[0][c] == Present(Int(5))
    ensures Coerce(t, schema).rows[1][c] == Present(Int(7))
    ensures Coerce(t, schema).rows[2][c] == Present(Int(9))
  {
    CastDigitText(5);
    CastDigitText(7);
    CastDigitText(9);
    assert ColumnCasts(t, c, Int64);
    ColumnCastWhole(t, schema, c);
  }

}
