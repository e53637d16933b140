# Radio-event log ingestion, modelled in Dafny

This project models the log-ingestion pipeline of `app_logs`, which lives in
`src/funcion/data_processing.py`. The pipeline has three parts.

- `procesar_archivo` reads one uploaded log file as alternating lines.
  - Each pair is a timestamp line followed by a JSON line.
  - A pair whose JSON line fails to decode is skipped.
  - Every other decoded object gets a `Datetime` field. Its value is the stripped timestamp line parsed with the layout `%d-%m-%Y %H:%M:%S`, or NaT when that parse fails or the date-time lies outside the span of `datetime64[ns]`. A seconds field of 60 or 61, which `%S` accepts, rolls into the next minute.
  - Any other failure makes the whole file yield nothing. This covers a read failure and a JSON line that decodes to a non-object.
- `cargar_logs` concatenates the records of all files in upload order. It then flattens them once with `pd.json_normalize`:
  - nested objects become dotted-path columns;
  - the columns are the union of all names;
  - a gap is left wherever a record lacks a column.
- The table is then cast to the declared schema `COL_DTYPES` with `astype(..., errors='ignore')`.
  - No records gives the empty table.
  - Any exception in the last two steps also gives the empty table. `errors='ignore'` absorbs a cast's `ValueError` and `TypeError`, but not the `OverflowError` of an Int64 cast past int64.

Modules, in dependency order:

- `Wrappers` holds `Option`.
- `Timestamp` holds Python's `str.strip`, the fixed-layout timestamp parser with the formatter it inverts, and the carry of a seconds field of 60 or 61 into the next minute.
- `Values` holds the decoded JSON value. An object is an ordered list of entries, as a Python dict is. It also holds item assignment.
- `Extractor` holds `procesar_archivo`.
  - `ProcessFile` is the reading loop as a method.
  - It is proved equal to the specification function `Extract`, which is defined through `ScanLines`.
- `Normalizer` holds `json_normalize`: flattening, the column union and densifying.
- `Coercion` holds `COL_DTYPES`, the per-value casts and the column-by-column `astype`, both as corrected and as written.
- `Aggregator` holds `cargar_logs`.
  - `LoadLogs` is the gathering loop as a method.
  - It is proved equal to the specification function `Ingest`.
  - `Ingest`, and so `LoadLogs`, follows the corrected reading of line 125: declared columns the table lacks are passed over.
  - The code as written returns `IngestAsWritten`, which is the empty table whenever a declared column is missing (see Findings).
- `Example` is a two-pair file loaded end to end.

Modelling choices:

- A file is a sequence of lines, each the text `readline` returns including its newline. A read or UTF-8 failure is an explicit `Unreadable` marker at the point where it occurs. Reading past the end gives `""`, as `readline` does.
- `orjson.loads` is a parameter `decode: string -> Parsed` that returns `JsonError` or `Json(v)`.
- A timestamp is a field tuple. NaT is `Time(None)`.
- The library behaviour modelled is that of pandas 2.x:
  - `to_datetime` parses with a format into `datetime64[ns]` only;
  - `parse_today_now` runs before the format;
  - `astype("Int64")` goes through the nullable-integer array;
  - `astype_array_safe` under `errors='ignore'` absorbs only `ValueError` and `TypeError`.

## Model

| member | source | states |
|---|---|---|
| Timestamp.Strip | src/funcion/data_processing.py:89 | the stripped line is no longer than the line and neither starts nor ends with Python whitespace |
| Timestamp.StripPadded | src/funcion/data_processing.py:89 | whitespace padding on both sides of a core that starts and ends with non-whitespace is removed exactly, leaving the core |
| Timestamp.StripIdempotent | src/funcion/data_processing.py:89 | stripping twice is stripping once |
| Timestamp.Parse | src/funcion/data_processing.py:88-92 | fields are produced exactly when the text has the `DD-MM-YYYY HH:MM:SS` layout, names a real calendar date, and has hour below 24, minute below 60 and seconds up to 61 as `%S` allows; whatever it produces is accepted |
| Timestamp.ParseFormat | src/funcion/data_processing.py:90 | parsing the formatted text of any accepted fields, seconds 60 and 61 included, gives those fields back |
| Timestamp.FormatParse | src/funcion/data_processing.py:90 | any text the model's parser accepts is exactly the formatted text of its result, so `Parse` and `Format` are inverses on the zero-padded layout (`strptime` accepts more, see Left out) |
| Timestamp.NumberPad4 | src/funcion/data_processing.py:90 | the four-digit year field reads back as the year it was written from |
| Timestamp.Pad4Number | src/funcion/data_processing.py:90 | every four-digit field is the zero-padded text of the number it reads as |
| Timestamp.NextMinute | src/funcion/data_processing.py:88-92 | one minute after a valid date-time is a valid date-time, carrying into the hour, day, month and year |
| Timestamp.NextMinuteInstant | src/funcion/data_processing.py:88-92 | one minute later is exactly 60 seconds later on the day-count clock `datetime64` uses |
| Timestamp.Roll | src/funcion/data_processing.py:88-92 | accepted fields, a seconds field of 60 or 61 included, stand for a valid date-time |
| Timestamp.RollInstant | src/funcion/data_processing.py:88-92 | rolling keeps the instant that the conversion to `datetime64` computes from the raw fields, and leaves valid fields unchanged |
| Timestamp.RollInRange | src/funcion/data_processing.py:88-92 | fields inside the `datetime64[ns]` span roll to a date-time inside it |
| Timestamp.DaysBeforeDecember | src/funcion/data_processing.py:88-92 | the months before December and December's 31 days make up the year's length |
| Values.Lookup | src/funcion/data_processing.py:88 | a key is found in a decoded object exactly when the object has it |
| Values.SetKey | src/funcion/data_processing.py:88 | item assignment stores the value under the key, leaves every other key as it was, overwrites an existing key in place and appends a new one at the end |
| Values.SetKeyKeepsUnique | src/funcion/data_processing.py:88 | item assignment keeps the keys of an object unique |
| Extractor.Stamp | src/funcion/data_processing.py:88-92 | the `Datetime` value is a timestamp or NaT; it is NaT exactly when the stripped line does not parse or its fields lie outside the span of `datetime64[ns]`; otherwise it is a valid date-time in that span, the stripped line is the formatted text of its fields, and it is those fields rolled, so a line with seconds below 60 is the formatted text of the stamp itself |
| Extractor.StampInstant | src/funcion/data_processing.py:88-92 | a stamp is the instant its line's fields name, 60 or 61 seconds counting as seconds past the minute |
| Extractor.ScanLines | src/funcion/data_processing.py:75-100 | the definition of the reading loop's outcome, pair by pair: an empty read ends it, a decode error skips the pair, an object is kept with its stamp, and an unreadable line or a non-object aborts; its properties are the `Scan…` lemmas below |
| Extractor.Extract | src/funcion/data_processing.py:58-102 | the definition of the list `procesar_archivo` returns: the gathered records, or `[]` after an abort; its properties are the `Extract…` lemmas below |
| Extractor.Attach | src/funcion/data_processing.py:86-92 | the record holds the parsed timestamp (or NaT) under `Datetime`, overwriting any decoded `Datetime`, and every other key keeps its decoded value |
| Extractor.ProcessFile | src/funcion/data_processing.py:58-102 | the reading loop returns exactly the records the line-pair specification `Extract` yields, and `[]` on every path that the outer `except` catches |
| Extractor.ExtractPairs | src/funcion/data_processing.py:75-93 | a file of N line pairs whose JSON lines all decode to objects yields exactly N records, and record k comes from pair k |
| Extractor.PairRecordAt | src/funcion/data_processing.py:76-93 | record k is the object decoded from line 2k+1 with the stamp of line 2k attached |
| Extractor.WellFormedNeverAborts | src/funcion/data_processing.py:69-100 | reading a file made only of good pairs never takes the abort path |
| Extractor.ExtractTruncatedTail | src/funcion/data_processing.py:76-82 | a trailing timestamp line with no JSON line after it is dropped, and every earlier record is still returned |
| Extractor.ScanTruncatedTail | src/funcion/data_processing.py:76-82 | the same at the level of the reading loop's outcome |
| Extractor.ExtractSkipsMalformed | src/funcion/data_processing.py:84-96 | a pair whose JSON line fails to decode contributes nothing, and the pairs after it are read as if it were absent |
| Extractor.ScanSkipsMalformed | src/funcion/data_processing.py:84-96 | the same at the level of the reading loop's outcome |
| Extractor.ExtractAbortsOnUnreadable | src/funcion/data_processing.py:69-100 | a read failure anywhere the loop reaches discards the records already gathered, and the file yields `[]` |
| Extractor.ScanAbortsOnUnreadable | src/funcion/data_processing.py:69-100 | a read failure reached by the loop ends the read on the abort path |
| Extractor.ExtractAbortsOnNonObject | src/funcion/data_processing.py:86-100 | a JSON line that decodes to a non-object raises on item assignment, which is not a decode error, so the file yields `[]` |
| Extractor.ScanAbortsOnNonObject | src/funcion/data_processing.py:86-100 | such a line ends the read on the abort path |
| Extractor.ScanStamped | src/funcion/data_processing.py:75-93 | a completed read keeps at most one record per line pair, and every record carries a `Datetime` timestamp or NaT |
| Extractor.ExtractStamped | src/funcion/data_processing.py:75-102 | a file yields at most one record per line pair, and every record carries a `Datetime` timestamp or NaT |
| Normalizer.FlattenFrom | src/funcion/data_processing.py:123 | every value in a flattened record is a leaf: a nested object never survives flattening |
| Normalizer.Flatten | src/funcion/data_processing.py:123 | the definition of one record's flattening into dotted-path leaves; its properties are `FlattenComplete`, `FlattenSound`, `FlattenKeepsLeaf`, `FlattenExpandsNested`, `FlattenFlat` and `FlattenIdempotent` |
| Normalizer.FlattenComplete | src/funcion/data_processing.py:123 | every leaf that any entry contributes, its own value or a leaf of its nested object, is in the flattened record |
| Normalizer.FlattenKeepsLeaf | src/funcion/data_processing.py:123 | an entry that is not an object, a list included, stays one value under its dotted name |
| Normalizer.FlattenExpandsNested | src/funcion/data_processing.py:123 | a nested object's leaves appear under the object's key joined by a dot |
| Normalizer.FlattenSound | src/funcion/data_processing.py:123 | everything in a flattened record is a leaf contributed by one of the record's entries |
| Normalizer.NestedNamesDotted | src/funcion/data_processing.py:123 | below a non-empty key path every flattened name holds a dot, so only a top-level entry or an object under the key `""` can give an undotted name |
| Normalizer.FlattenFlat | src/funcion/data_processing.py:123 | a record without nested objects is its own flattening |
| Normalizer.FlattenIdempotent | src/funcion/data_processing.py:123 | flattening a flattened record changes nothing |
| Normalizer.ToMap | src/funcion/data_processing.py:123 | the row's values are exactly the names of the flattened record, each holding a value the record gives it |
| Normalizer.AddColumns | src/funcion/data_processing.py:123 | extending the column list keeps the earlier columns in place, adds exactly the record's new names and never repeats a name |
| Normalizer.Columns | src/funcion/data_processing.py:123 | the columns are the union of the names of all flattened records, each named once |
| Normalizer.Normalize | src/funcion/data_processing.py:123 | the definition of `pd.json_normalize` over the record list; its properties are `NormalizeShape` |
| Normalizer.NormalizeShape | src/funcion/data_processing.py:123 | the table is rectangular with one row per record in order; its columns are all flattened names; a cell is filled exactly where its record has that name, with that name's flattened value, and never with a nested object |
| Coercion.DatetimeDeclared | src/funcion/data_processing.py:8-56 | `COL_DTYPES` declares `Datetime` as `datetime64[ns]`, and no other column |
| Coercion.ObjectDeclared | src/funcion/data_processing.py:8-56 | `COL_DTYPES` declares only `payload.Participating sites` and `payload.Talkgroup Subscription List` as `object` |
| Coercion.ParseIntToString | src/funcion/data_processing.py:125 | reading back the decimal text of any integer gives the integer |
| Coercion.Cast | src/funcion/data_processing.py:125 | a successful cast gives a value of the declared type, a value already of that type is kept, and a cast that overflows int64 fails |
| Coercion.IntTextRoundTrip | src/funcion/data_processing.py:125 | an Int64 value cast to text and back to Int64 is unchanged |
| Coercion.CastIdempotent | src/funcion/data_processing.py:125 | casting a cast value again changes nothing |
| Coercion.CastOr | src/funcion/data_processing.py:125 | casting never turns a gap into a value or a value into a gap |
| Coercion.CastKeepsTime | src/funcion/data_processing.py:125 | a timestamp or NaT is left as it is by the cast to any declared type |
| Coercion.CoerceColumn | src/funcion/data_processing.py:125 | casting one column keeps the shape and every other column, and changes that column's cells only when all of them cast |
| Coercion.FirstFailureOverflowsAt | src/funcion/data_processing.py:125 | from row i on, the first cell of a column that fails to cast overflows exactly when some overflowing cell has only casting cells between row i and it |
| Coercion.ColumnRaisesAt | src/funcion/data_processing.py:125-129 | casting a column raises `OverflowError` exactly when some cell overflows and every cell above it casts; only an Int64 cast raises, and a raising column does not cast |
| Coercion.OverflowTextRaises | src/funcion/data_processing.py:125-129 | an Int64 column whose first cell is the text of an integer past int64, such as `"9223372036854775808"`, makes the whole `astype` raise |
| Coercion.Astype | src/funcion/data_processing.py:125 | the definition of the corrected `astype(COL_DTYPES, errors='ignore')` call: nothing when a column raises, and the cast table otherwise; its properties are `ColumnRaisesAt`, `OverflowTextRaises` and those of `Coerce` |
| Coercion.Coerce | src/funcion/data_processing.py:125 | the definition of the corrected `astype(COL_DTYPES, errors='ignore')`: the table's declared columns are cast one after another; its properties are `CoerceCell`, `ColumnKeptWhole` and `ColumnCastWhole` |
| Coercion.CoerceFromCell | src/funcion/data_processing.py:125 | casting the columns one after another gives each cell what casting its own column alone gives it |
| Coercion.CoerceCell | src/funcion/data_processing.py:125 | the cast table keeps the columns, the row count and rectangularity; each cell of a declared column is cast exactly when its whole column casts, and undeclared columns are untouched |
| Coercion.ColumnKeptWhole | src/funcion/data_processing.py:125 | a declared column with one cell that fails to cast is left exactly as it was, every cell of it |
| Coercion.ColumnCastWhole | src/funcion/data_processing.py:125 | a declared column whose cells all cast has every cell replaced by its cast |
| Coercion.MixedColumnLeftAsIs | src/funcion/data_processing.py:125 | an Int64 column holding "5", "7" and a non-numeric text keeps all three texts |
| Coercion.NumericColumnCast | src/funcion/data_processing.py:125 | an Int64 column holding "5", "7" and "9" becomes the integers 5, 7 and 9 |
| Coercion.CoerceAsWritten | src/funcion/data_processing.py:125-129 | as written, the cast succeeds exactly when every declared column is in the table and no column raises, and then it is the corrected cast |
| Aggregator.LoadLogs | src/funcion/data_processing.py:104-132 | the gathering loop returns exactly the table the specification `Ingest` defines, which reads line 125 as passing over declared columns the table lacks and gives the empty table when the cast raises; the code as written returns `IngestAsWritten` |
| Aggregator.Gather | src/funcion/data_processing.py:114-118 | the definition of the combined record list: the files' records, file after file; its properties are the `Gather…` lemmas below |
| Aggregator.Ingest | src/funcion/data_processing.py:120-132 | the definition of the corrected `cargar_logs` result: the empty table when there are no records or the cast raises, and otherwise the normalised table cast to `COL_DTYPES`; its properties are the `Ingest…` lemmas below |
| Aggregator.GatherAppend | src/funcion/data_processing.py:116-118 | loading two batches of files gathers the first batch's records followed by the second's |
| Aggregator.GatherBound | src/funcion/data_processing.py:116-118 | there are at most as many records as complete line pairs over all files |
| Aggregator.GatherNothing | src/funcion/data_processing.py:116-118 | files that each yield nothing together yield nothing |
| Aggregator.GatherStamped | src/funcion/data_processing.py:116-118 | every gathered record carries a `Datetime` timestamp or NaT |
| Aggregator.IngestEmpty | src/funcion/data_processing.py:120-132 | no files, or files that all yield nothing, give the table with no rows and no columns |
| Aggregator.IngestShape | src/funcion/data_processing.py:120-129 | there is at most one record per line pair; a batch whose cast raises loads as the empty table; otherwise the table is rectangular with one row per gathered record, its columns are exactly the flattened names, and a cell is filled exactly where its record has that name |
| Aggregator.IngestOverflow | src/funcion/data_processing.py:120-129 | a batch whose first record holds, under a column declared Int64, the text of an integer past int64 loads as the empty table |
| Aggregator.TableShape | src/funcion/data_processing.py:123-125 | the schema step keeps the normalised table's shape and its pattern of gaps, whatever the schema |
| Aggregator.IngestDatetime | src/funcion/data_processing.py:88-93 | a batch with any record whose cast does not raise has the `Datetime` column, and no row has a gap there; one whose cast raises is the empty table |
| Aggregator.IngestDatetimeStamp | src/funcion/data_processing.py:88-93 | when the records have unique keys and no object under the key `""`, a batch whose cast does not raise holds in every row's `Datetime` cell exactly that record's stamp, a timestamp or NaT |
| Aggregator.TableDatetimeStamp | src/funcion/data_processing.py:123-125 | under the same conditions, for any schema, the normalised and cast table keeps each record's stamp in its row's `Datetime` cell |
| Aggregator.FlattenedDatetime | src/funcion/data_processing.py:123 | in a stamped record with unique keys and no object under the key `""`, the flattened `Datetime` value is the record's stamp |
| Aggregator.IngestMultiFile | src/funcion/data_processing.py:114-126 | loading two batches together, when no cast raises, gives the row counts added and the union of their columns |
| Aggregator.FlatKeysAppend | src/funcion/data_processing.py:123 | the names of two record lists together are the names of each, united |
| Aggregator.IngestAsWritten | src/funcion/data_processing.py:120-132 | as written, a batch gives the corrected table when it has every declared column, and the empty table otherwise |
| Aggregator.MissingDeclaredColumn | src/funcion/data_processing.py:123-129 | as written, a batch lacking any one declared column loads as the empty table |
| Example.Stamps | src/funcion/data_processing.py:88-92 | the two timestamp lines of the example, newline included, parse to their date-times |
| Example.LeapStamp | src/funcion/data_processing.py:88-92 | the line `31-12-2024 23:59:60` is stored as 2025-01-01 00:00:00 |
| Example.ExampleRecords | src/funcion/data_processing.py:75-93 | the example file yields its two objects, each with its timestamp appended under `Datetime` |
| Example.ExampleFlatten | src/funcion/data_processing.py:123 | the example records flatten to `a.b`, `a.c`, `d` and `Datetime` |
| Example.ExampleLoad | src/funcion/data_processing.py:104-126 | the corrected load of the example gives two rows over four columns, with each record's values and a gap where a record lacks a name |
| Example.ExampleLoadAsWritten | src/funcion/data_processing.py:123-129 | the load as written gives the empty table for the same file, which has two records |

## Left out

- Byte and text I/O are not modelled: `archivo.seek(0)` and the UTF-8 `TextIOWrapper`. A file is its lines, with a read or decode failure as a marker at the point where it occurs.
- The internals of `orjson.loads` are not modelled. The decoder is a parameter, and only its outcome matters: a decode error, an object or another value. Only a `JSONDecodeError` is caught there. Any other exception is caught by the outer `except` and gives `[]`.
- Floating-point JSON numbers are not modelled. Numbers are integers.
- Nanosecond `datetime64` values are not modelled. A timestamp is a field tuple of whole seconds. The span `datetime64[ns]` can hold is modelled: `Extractor.Stamp` gives NaT outside it, as `errors='coerce'` does. Like pandas, the model checks the span on the raw fields, before seconds 60 and 61 roll over.
- Extractor.Stamp: a stripped line `now` or `today` gives the current clock time in pandas, through `parse_today_now`, before the format is tried. The model leaves the clock out and gives NaT for these lines.
- `Timestamp.Parse` accepts only the zero-padded layout with single ASCII characters, which is narrower than `pd.to_datetime` with this format. The following lines give a timestamp in the source but NaT in the model:
  - one-digit day, month, hour, minute and second fields, which `strptime` accepts;
  - a run of whitespace, a tab for instance, in place of the single space, because `strptime` matches the space in the format against any whitespace run;
  - digits from other Unicode scripts, which `strptime`'s `\d` matches.
- `Coercion.Cast` models pandas' casting rules only in part.
  - A text is cast to Int64 when it is an optionally signed run of ASCII digits. Python's `int()` also accepts surrounding whitespace, underscores between digits, and decimal digits of other Unicode scripts. These are not modelled.
  - A container cast to `string` is treated as a failing cast.
  - `object` accepts every value.
  - pandas stores an integer column with gaps as float64. So a declared `string` column holding `5` in one record and missing in another becomes `"5.0"` in pandas, where the model gives `"5"`.
  - pandas' `astype("Int64")` accepts a bool column, with True becoming 1. The model treats that cast as failing, so it leaves such a column uncast.
  - An object column that mixes integers and numeric text (`3`, `"5"`) may be refused by pandas' Int64 cast, while the model casts it.
  - An integer outside int64 makes the Int64 cast raise `OverflowError` in the model, as in a pandas object column. pandas gives a column a uint64 dtype when its integers are all non-negative and none is missing. It gives a float64 dtype when some are missing. For those two dtypes pandas refuses the cast with `TypeError`, which keeps the column, while the model raises.
  - In the float64 column that pandas makes of an integer column with gaps, integers above 2^53 are rounded, for instance nanosecond epoch values. The model keeps them exact.
- `Normalizer.Columns` orders the columns by first appearance in a depth-first walk of each record. `json_normalize` lists a record's top-level scalar names before its nested ones. Only the set of columns and the row contents are proved.
- Aggregator.IngestMultiFile: stated only for batches whose casts, apart and together, raise nothing. A raising batch loads as the empty table (`Aggregator.IngestShape`). In that case the row counts do not add.
- Dotted-name collisions are not modelled. An example is a key `"a.b"` next to a nested `a` holding `b`, or a key `""` holding an object with a `Datetime` key. `json_normalize` lets the nested name win, while `ToMap` lets the later entry in depth-first order win. `Aggregator.IngestDatetimeStamp` therefore assumes that no record holds an object under the key `""`.
- Decoded objects with repeated keys are not ruled out by the model, although no Python dict has them. On such a list `Lookup` sees the first entry and `ToMap` keeps the last.
- The Streamlit UI (`src/ui/visual.py`, `app.py`) is not part of this model. That includes its per-file calls to `cargar_logs` and its `pd.concat` merge. `cargar_logs` is modelled as called once with the whole file list.
- Casting: `astype(..., errors='ignore')` works per column. A column in which one value fails to cast is left entirely as it was, including the values that would cast. The model follows this (`Coercion.CoerceColumn`, `Coercion.MixedColumnLeftAsIs`).

## Findings

| source | as written | input that shows it | evidently intended | confidence | as-written member | corrected member |
|---|---|---|---|---|---|---|
| src/funcion/data_processing.py:125-129 | `df.astype(COL_DTYPES, errors='ignore')` raises `KeyError` when some key of `COL_DTYPES` is not a column of the table (`errors` does not cover that check), and the `except` turns this into an empty table | a file with the pairs `01-01-2024 10:00:00` / `{"a": {"b": 1}}` and `01-01-2024 10:00:05` / `{"a": {"c": 2}, "d": "x"}`: it has no `source.Redundancy Group` column, so the load gives an empty table instead of two rows | declared columns absent from the batch are passed over and the others are cast, as the comment on line 125 says | not executed | Aggregator.IngestAsWritten, Example.ExampleLoadAsWritten | Aggregator.Ingest (proved by Aggregator.IngestShape), Example.ExampleLoad |
