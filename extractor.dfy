/**
 * `procesar_archivo`: one log file read as alternating lines, a timestamp line
 * and then a JSON line. A pair whose JSON line does not decode is skipped; a
 * decoded object gets the parsed timestamp under `Datetime` and is kept; any
 * other failure makes the whole file contribute nothing.
 */
module Extractor {
  import opened Wrappers
  import opened Timestamp
  import opened Values

  /**
   * One line as `readline()` returns it, terminator included, or a position
   * where the UTF-8 text layer fails to read or decode the file.
   */
  datatype Line = Text(s: string) | Unreadable

  /** The outcome of the JSON decoder on one line. */
  datatype Parsed = JsonError | Json(v: Value)

  /** A kept record: the decoded object with `Datetime` attached. */
  type Record = Entries

  const DatetimeKey: string := "Datetime"

  /** `readline()` at line index i; at and past the end of the file it returns "". */
  function ReadLine(lines: seq<Line>, i: nat): Line {
    if i < |lines| then lines[i] else Text("")
  }

  /**
   * The value stored under `Datetime`: the stripped timestamp line, parsed, or
   * NaT when it does not parse or its fields lie outside what `datetime64[ns]`
   * can hold. A seconds field of 60 or 61 rolls into the next minute.
   */
  function Stamp(tsLine: string): (v: Value)
    ensures v.Time?
    ensures v.t.None? <==> Parse(Strip(tsLine)).None? || !InNanosecondRange(Parse(Strip(tsLine)).value)
    ensures v.t.Some? ==> Valid(v.t.value) && InNanosecondRange(v.t.value)
    ensures v.t.Some? ==> Format(Parse(Strip(tsLine)).value) == Strip(tsLine)
    ensures v.t.Some? ==> v.t.value == Roll(Parse(Strip(tsLine)).value)
    ensures v.t.Some? && Parse(Strip(tsLine)).value.second < 60 ==> Format(v.t.value) == Strip(tsLine)
  {
    var s := Strip(tsLine);
    var p := Parse(s);
    if p.Some? && InNanosecondRange(p.value) then
      FormatParse(s);
      RollInRange(p.value);
      RollInstant(p.value);
      Time(Some(Roll(p.value)))
    else Time(None)
  }

  /** A stamp is the instant its line's fields name: 60 or 61 seconds count as seconds past the minute. */
  lemma StampInstant(tsLine: string)
    requires Stamp(tsLine).t.Some?
    ensures Instant(Stamp(tsLine).t.value) == Instant(Parse(Strip(tsLine)).value)
  {
    RollInstant(Parse(Strip(tsLine)).value);
  }

  /** `registro['Datetime'] = ...` on a decoded object. */
  function Attach(fields: Entries, tsLine: string): (r: Record)
    ensures Lookup(r, DatetimeKey) == Some(Stamp(tsLine))
    ensures forall k :: k != DatetimeKey ==> Lookup(r, k) == Lookup(fields, k)
    ensures KeySet(r) == KeySet(fields) + {DatetimeKey}
  {
    SetKey(fields, DatetimeKey, Stamp(tsLine))
  }

  /** What reading a file yields: the records gathered, or the abort of the outer `except`. */
  datatype Scan = Done(records: seq<Record>) | Aborted

  /** The records gathered so far, followed by what reading the rest yields. */
  function Resume(acc: seq<Record>, rest: Scan): (r: Scan)
    ensures r.Aborted? <==> rest.Aborted?
    ensures r.Done? ==> r.records == acc + rest.records
  {
    match rest
    case Done(recs) => Done(acc + recs)
    case Aborted => Aborted
  }

  /** The reading loop, from the first of the given lines to the end of the file. */
  function ScanLines(lines: seq<Line>, decode: string -> Parsed): Scan
    decreases |lines|
  {
    match ReadLine(lines, 0)
    case Unreadable => Aborted
    case Text(ts) =>
      if ts == "" then Done([])
      else
        match ReadLine(lines, 1)
        case Unreadable => Aborted
        case Text(js) =>
          if js == "" then Done([])
          else
            match decode(js)
            case JsonError => ScanLines(lines[2..], decode)
            case Json(v) =>
              if v.Dict? then Resume([Attach(v.entries, ts)], ScanLines(lines[2..], decode))
              else Aborted
  }

  /** The list `procesar_archivo` returns: the gathered records, or [] after an abort. */
  function Extract(lines: seq<Line>, decode: string -> Parsed): seq<Record> {
    match ScanLines(lines, decode)
    case Done(recs) => recs
    case Aborted => []
  }

  /** `procesar_archivo`: reads the lines pair by pair, appending each kept record. */
  method ProcessFile(lines: seq<Line>, decode: string -> Parsed) returns (records: seq<Record>)
    ensures records == Extract(lines, decode)
  {
    var acc: seq<Record> := [];
    var i := 0;
    while true
      invariant 0 <= i <= |lines|
      invariant Resume(acc, ScanLines(lines[i..], decode)) == ScanLines(lines, decode)
      decreases |lines| - i
    {
      ghost var rest := lines[i..];
      var tsLine := ReadLine(lines, i);
      assert tsLine == ReadLine(rest, 0);
      if tsLine.Unreadable? {
        return [];
      }
      if tsLine.s == "" {
        break;
      }
      var jsonLine := ReadLine(lines, i + 1);
      assert jsonLine == ReadLine(rest, 1);
      if jsonLine.Unreadable? {
        return [];
      }
      if jsonLine.s == "" {
        break;
      }
      assert rest[2..] == lines[i + 2..];
      var parsed := decode(jsonLine.s);
      if parsed.Json? {
        if !parsed.v.Dict? {
          // item assignment on a decoded non-object raises TypeError
          return [];
        }
        acc := acc + [Attach(parsed.v.entries, tsLine.s)];
      }
      i := i + 2;
    }
    records := acc;
  }

  // ---------------------------------------------------------------------------
  // Properties of the reading loop

  /** Reading a pair [t, j] in front of more lines. */
  lemma ScanPair(t: Line, j: Line, rest: seq<Line>, decode: string -> Parsed)
    ensures var lines := [t, j] + rest;
      ScanLines(lines, decode) ==
        match t
        case Unreadable => Aborted
        case Text(ts) =>
          if ts == "" then Done([])
          else
            match j
            case Unreadable => Aborted
            case Text(js) =>
              if js == "" then Done([])
              else
                match decode(js)
                case JsonError => ScanLines(rest, decode)
                case Json(v) =>
                  if v.Dict? then Resume([Attach(v.entries, ts)], ScanLines(rest, decode))
                  else Aborted
  {
    assert ([t, j] + rest)[2..] == rest;
  }

  /** The first two lines form a pair the loop keeps: both present, the second decoding to an object. */
  predicate GoodPair(lines: seq<Line>, decode: string -> Parsed)
    requires |lines| >= 2
  {
    && lines[0].Text? && lines[0].s != ""
    && lines[1].Text? && lines[1].s != ""
    && decode(lines[1].s).Json? && decode(lines[1].s).v.Dict?
  }

  /** A file made of pairs the loop keeps, to its last line. */
  predicate WellFormed(lines: seq<Line>, decode: string -> Parsed)
    decreases |lines|
  {
    lines == [] || (|lines| >= 2 && GoodPair(lines, decode) && WellFormed(lines[2..], decode))
  }

  /** The record that pair k of a well-formed file gives. */
  function PairRecord(lines: seq<Line>, decode: string -> Parsed, k: nat): Record
    requires WellFormed(lines, decode) && k < |lines| / 2
    decreases k
  {
    if k == 0 then Attach(decode(lines[1].s).v.entries, lines[0].s)
    else PairRecord(lines[2..], decode, k - 1)
  }

  /**
   * In a well-formed file, line 2k is a present timestamp line, line 2k+1 a
   * present JSON line decoding to an object, and pair k's record is that
   * object with that timestamp attached.
   */
  lemma {:induction false} PairRecordAt(lines: seq<Line>, decode: string -> Parsed, k: nat)
    requires WellFormed(lines, decode) && k < |lines| / 2
    ensures lines[2 * k].Text? && lines[2 * k].s != ""
    ensures lines[2 * k + 1].Text? && decode(lines[2 * k + 1].s).Json? && decode(lines[2 * k + 1].s).v.Dict?
    ensures PairRecord(lines, decode, k) == Attach(decode(lines[2 * k + 1].s).v.entries, lines[2 * k].s)
    decreases k
  {
    if k > 0 {
      PairRecordAt(lines[2..], decode, k - 1);
      assert lines[2..][2 * (k - 1)] == lines[2 * k];
      assert lines[2..][2 * (k - 1) + 1] == lines[2 * k + 1];
    }
  }

  /**
   * N well-formed pairs give exactly N records, in line order: record k is
   * the one pair k gives.
   */
  lemma {:induction false} ExtractPairs(lines: seq<Line>, decode: string -> Parsed)
    requires WellFormed(lines, decode)
    ensures |Extract(lines, decode)| == |lines| / 2
    ensures forall k :: 0 <= k < |lines| / 2 ==> Extract(lines, decode)[k] == PairRecord(lines, decode, k)
    decreases |lines|
  {
    if lines != [] {
      var rest := lines[2..];
      ExtractFirstPair(lines, decode);
      ExtractPairs(rest, decode);
      var e, er := Extract(lines, decode), Extract(rest, decode);
      forall k | 1 <= k < |lines| / 2
        ensures e[k] == PairRecord(lines, decode, k)
      {
        assert e[k] == er[k - 1];
      }
    }
  }

  lemma ExtractFirstPair(lines: seq<Line>, decode: string -> Parsed)
    requires WellFormed(lines, decode) && lines != []
    ensures WellFormed(lines[2..], decode)
    ensures Extract(lines, decode) == [PairRecord(lines, decode, 0)] + Extract(lines[2..], decode)
  {
    var rest := lines[2..];
    var t, v := lines[0].s, decode(lines[1].s).v;
    assert ScanLines(lines, decode) == Resume([Attach(v.entries, t)], ScanLines(rest, decode));
    WellFormedNeverAborts(rest, decode);
  }

  /** A well-formed file is read to its end: nothing in it triggers the abort. */
  lemma {:induction false} WellFormedNeverAborts(lines: seq<Line>, decode: string -> Parsed)
    requires WellFormed(lines, decode)
    ensures ScanLines(lines, decode).Done?
    decreases |lines|
  {
    if lines != [] {
      WellFormedNeverAborts(lines[2..], decode);
    }
  }

  /**
   * A trailing timestamp line without its JSON line is dropped: the file reads
   * as if that line were absent.
   */
  lemma {:induction false} ScanTruncatedTail(lines: seq<Line>, ts: string, decode: string -> Parsed)
    requires |lines| % 2 == 0
    ensures ScanLines(lines + [Text(ts)], decode) == ScanLines(lines, decode)
    decreases |lines|
  {
    if lines == [] {
      assert ReadLine([Text(ts)], 1) == Text("");
    } else {
      var rest := lines[2..];
      assert lines == [lines[0], lines[1]] + rest;
      assert lines + [Text(ts)] == [lines[0], lines[1]] + (rest + [Text(ts)]);
      ScanPair(lines[0], lines[1], rest, decode);
      ScanPair(lines[0], lines[1], rest + [Text(ts)], decode);
      ScanTruncatedTail(rest, ts, decode);
    }
  }

  lemma ExtractTruncatedTail(lines: seq<Line>, ts: string, decode: string -> Parsed)
    requires |lines| % 2 == 0
    ensures Extract(lines + [Text(ts)], decode) == Extract(lines, decode)
  {
    ScanTruncatedTail(lines, ts, decode);
  }

  /**
   * A pair whose JSON line fails to decode is skipped: both lines are consumed
   * and the pairs after it are read exactly as if it were not there.
   */
  lemma {:induction false} ScanSkipsMalformed(before: seq<Line>, ts: string, js: string, after: seq<Line>,
                                               decode: string -> Parsed)
    requires |before| % 2 == 0
    requires ts != "" && js != "" && decode(js) == JsonError
    ensures ScanLines(before + [Text(ts), Text(js)] + after, decode) == ScanLines(before + after, decode)
    decreases |before|
  {
    if before == [] {
      assert before + [Text(ts), Text(js)] + after == [Text(ts), Text(js)] + after;
      ScanPair(Text(ts), Text(js), after, decode);
      assert before + after == after;
    } else {
      var rest := before[2..];
      assert before == [before[0], before[1]] + rest;
      assert before + [Text(ts), Text(js)] + after == [before[0], before[1]] + (rest + [Text(ts), Text(js)] + after);
      assert before + after == [before[0], before[1]] + (rest + after);
      ScanPair(before[0], before[1], rest + [Text(ts), Text(js)] + after, decode);
      ScanPair(before[0], before[1], rest + after, decode);
      ScanSkipsMalformed(rest, ts, js, after, decode);
    }
  }

  lemma ExtractSkipsMalformed(before: seq<Line>, ts: string, js: string, after: seq<Line>,
                              decode: string -> Parsed)
    requires |before| % 2 == 0
    requires ts != "" && js != "" && decode(js) == JsonError
    ensures Extract(before + [Text(ts), Text(js)] + after, decode) == Extract(before + after, decode)
  {
    ScanSkipsMalformed(before, ts, js, after, decode);
  }

  /**
   * Lines that the loop reads through without stopping or aborting: every line
   * present, and every JSON line either malformed or an object.
   */
  predicate ReadThrough(lines: seq<Line>, decode: string -> Parsed) {
    forall i :: 0 <= i < |lines| ==>
      && lines[i].Text? && lines[i].s != ""
      && (i % 2 == 1 ==> decode(lines[i].s).JsonError? || decode(lines[i].s).v.Dict?)
  }

  lemma ReadThroughTail(lines: seq<Line>, decode: string -> Parsed)
    requires |lines| >= 2 && ReadThrough(lines, decode)
    ensures ReadThrough(lines[2..], decode)
  {
    forall i | 0 <= i < |lines| - 2
      ensures lines[2..][i] == lines[i + 2] && (i % 2 == 1 <==> (i + 2) % 2 == 1)
    {
    }
  }

  /**
   * A line that cannot be read aborts the whole file, whatever was gathered
   * before it and whatever follows.
   */
  lemma {:induction false} ScanAbortsOnUnreadable(before: seq<Line>, after: seq<Line>, decode: string -> Parsed)
    requires ReadThrough(before, decode)
    ensures ScanLines(before + [Unreadable] + after, decode) == Aborted
    decreases |before|
  {
    var lines := before + [Unreadable] + after;
    if before == [] {
      assert ReadLine(lines, 0) == Unreadable;
    } else if |before| == 1 {
      assert ReadLine(lines, 0) == before[0] && ReadLine(lines, 1) == Unreadable;
    } else {
      var rest := before[2..];
      assert before == [before[0], before[1]] + rest;
      assert lines == [before[0], before[1]] + (rest + [Unreadable] + after);
      ScanPair(before[0], before[1], rest + [Unreadable] + after, decode);
      ReadThroughTail(before, decode);
      ScanAbortsOnUnreadable(rest, after, decode);
    }
  }

  lemma ExtractAbortsOnUnreadable(before: seq<Line>, after: seq<Line>, decode: string -> Parsed)
    requires ReadThrough(before, decode)
    ensures Extract(before + [Unreadable] + after, decode) == []
  {
    ScanAbortsOnUnreadable(before, after, decode);
  }

  /**
   * A JSON line that decodes to something other than an object aborts the
   * whole file: attaching `Datetime` to it raises a TypeError, which is not a
   * decode error.
   */
  lemma {:induction false} ScanAbortsOnNonObject(before: seq<Line>, ts: string, js: string, after: seq<Line>,
                                                  decode: string -> Parsed)
    requires |before| % 2 == 0 && ReadThrough(before, decode)
    requires ts != "" && js != "" && decode(js).Json? && !decode(js).v.Dict?
    ensures ScanLines(before + [Text(ts), Text(js)] + after, decode) == Aborted
    decreases |before|
  {
    if before == [] {
      assert before + [Text(ts), Text(js)] + after == [Text(ts), Text(js)] + after;
      ScanPair(Text(ts), Text(js), after, decode);
    } else {
      var rest := before[2..];
      assert before == [before[0], before[1]] + rest;
      assert before + [Text(ts), Text(js)] + after == [before[0], before[1]] + (rest + [Text(ts), Text(js)] + after);
      ScanPair(before[0], before[1], rest + [Text(ts), Text(js)] + after, decode);
      ReadThroughTail(before, decode);
      ScanAbortsOnNonObject(rest, ts, js, after, decode);
    }
  }

  lemma ExtractAbortsOnNonObject(before: seq<Line>, ts: string, js: string, after: seq<Line>,
                                 decode: string -> Parsed)
    requires |before| % 2 == 0 && ReadThrough(before, decode)
    requires ts != "" && js != "" && decode(js).Json? && !decode(js).v.Dict?
    ensures Extract(before + [Text(ts), Text(js)] + after, decode) == []
  {
    ScanAbortsOnNonObject(before, ts, js, after, decode);
  }

  /** A record carries a `Datetime` value, a timestamp or NaT. */
  predicate Stamped(r: Record) {
    DatetimeKey in KeySet(r) && Lookup(r, DatetimeKey).value.Time?
  }

  /** A completed read keeps at most one record per line pair, each of them stamped. */
  lemma {:induction false} ScanStamped(lines: seq<Line>, decode: string -> Parsed)
    ensures var s := ScanLines(lines, decode);
      s.Done? ==> |s.records| <= |lines| / 2 && forall r :: r in s.records ==> Stamped(r)
    decreases |lines|
  {
    if |lines| >= 2 {
      ScanStamped(lines[2..], decode);
    }
  }

  /** `procesar_archivo` returns at most one record per line pair, and every record is stamped. */
  lemma ExtractStamped(lines: seq<Line>, decode: string -> Parsed)
    ensures |Extract(lines, decode)| <= |lines| / 2
    ensures forall r :: r in Extract(lines, decode) ==> Stamped(r)
  {
    ScanStamped(lines, decode);
  }

}
