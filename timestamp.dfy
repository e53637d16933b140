/**
 * The timestamp line of a log pair: Python's `str.strip()` followed by
 * `pd.to_datetime(..., format="%d-%m-%Y %H:%M:%S", errors='coerce')`.
 * A parse that fails gives `None`, which the pipeline stores as NaT.
 */
module Timestamp {
  import opened Wrappers

  /** A calendar date and wall-clock time, one field per format directive. */
  datatype DateTime = DateTime(year: int, month: int, day: int, hour: int, minute: int, second: int)

  predicate IsLeapYear(y: int) {
    y % 4 == 0 && (y % 100 != 0 || y % 400 == 0)
  }

  function DaysInMonth(y: int, m: int): (d: int)
    requires 1 <= m <= 12
    ensures 28 <= d <= 31
  {
    if m == 2 then (if IsLeapYear(y) then 29 else 28)
    else if m == 4 || m == 6 || m == 9 || m == 11 then 30
    else 31
  }

  /**
   * The fields the layout's directives read, once the date is checked: a real
   * calendar date with a four-digit year, and a seconds field up to 61, which
   * the `%S` directive allows for leap seconds.
   */
  predicate Accepted(dt: DateTime) {
    && 1 <= dt.year <= 9999
    && 1 <= dt.month <= 12
    && 1 <= dt.day <= DaysInMonth(dt.year, dt.month)
    && 0 <= dt.hour < 24
    && 0 <= dt.minute < 60
    && 0 <= dt.second < 62
  }

  /** A date-time that exists in the proleptic Gregorian calendar with a four-digit year. */
  predicate Valid(dt: DateTime) {
    Accepted(dt) && dt.second < 60
  }

  /** dt is no later than the date-time (y, mo, d, h, mi, se), comparing field by field. */
  predicate NotAfter(dt: DateTime, y: int, mo: int, d: int, h: int, mi: int, se: int) {
    dt.year < y || (dt.year == y && (dt.month < mo || (dt.month == mo && (dt.day < d || (dt.day == d &&
      (dt.hour < h || (dt.hour == h && (dt.minute < mi || (dt.minute == mi && dt.second <= se)))))))))
  }

  /**
   * dt, a whole second, lies in the span `datetime64[ns]` can hold:
   * 1677-09-21 00:12:43.145224193 to 2262-04-11 23:47:16.854775807 (the
   * int64 value one below the first is the NaT sentinel).
   */
  predicate InNanosecondRange(dt: DateTime) {
    && !NotAfter(dt, 1677, 9, 21, 0, 12, 43)
    && NotAfter(dt, 2262, 4, 11, 23, 47, 16)
  }

  // ---------------------------------------------------------------------------
  // str.strip()

  /** The characters for which Python's `str.isspace()` holds. */
  predicate IsSpace(c: char) {
    var n := c as int;
    || 9 <= n <= 13
    || 28 <= n <= 32
    || n == 0x85 || n == 0xA0 || n == 0x1680
    || 0x2000 <= n <= 0x200A
    || n == 0x2028 || n == 0x2029 || n == 0x202F || n == 0x205F || n == 0x3000
  }

  predicate AllSpace(s: string) {
    forall i :: 0 <= i < |s| ==> IsSpace(s[i])
  }

  /** Drops leading whitespace: the result is the suffix that starts at the first non-space. */
  function StripLeft(s: string): (r: string)
    ensures |r| <= |s| && r == s[|s| - |r|..]
    ensures forall i :: 0 <= i < |s| - |r| ==> IsSpace(s[i])
    ensures r != [] ==> !IsSpace(r[0])
  {
    if |s| > 0 && IsSpace(s[0]) then
      var r := StripLeft(s[1..]);
      assert s[1..][|s| - 1 - |r|..] == s[|s| - |r|..];
      assert forall i :: 0 < i < |s| ==> s[i] == s[1..][i - 1];
      r
    else s
  }

  /** Drops trailing whitespace: the result is the prefix that ends at the last non-space. */
  function StripRight(s: string): (r: string)
    ensures |r| <= |s| && r == s[..|r|]
    ensures forall i :: |r| <= i < |s| ==> IsSpace(s[i])
    ensures r != [] ==> !IsSpace(r[|r| - 1])
  {
    if |s| > 0 && IsSpace(s[|s| - 1]) then
      var r := StripRight(s[..|s| - 1]);
      assert forall i :: 0 <= i < |s| - 1 ==> s[i] == s[..|s| - 1][i];
      r
    else s
  }

  /** `str.strip()`: the infix between the leading and the trailing whitespace. */
  function Strip(s: string): (r: string)
    ensures |r| <= |s|
    ensures r == [] || (!IsSpace(r[0]) && !IsSpace(r[|r| - 1]))
  {
    StripRight(StripLeft(s))
  }

  /** Whitespace around a core that neither starts nor ends with whitespace is exactly what Strip removes. */
  lemma StripPadded(pre: string, core: string, post: string)
    requires AllSpace(pre) && AllSpace(post)
    requires core == [] || (!IsSpace(core[0]) && !IsSpace(core[|core| - 1]))
    ensures Strip(pre + core + post) == core
  {
    var s := pre + core + post;
    assert pre + (core + post) == s;
    if core == [] {
      assert s == s + [];
      StripLeftPadded(s, []);
    } else {
      StripLeftPadded(pre, core + post);
      StripRightPadded(core, post);
    }
  }

  lemma {:induction false} StripLeftPadded(pre: string, rest: string)
    requires AllSpace(pre)
    requires rest == [] || !IsSpace(rest[0])
    ensures StripLeft(pre + rest) == rest
  {
    if pre != [] {
      assert (pre + rest)[1..] == pre[1..] + rest;
      StripLeftPadded(pre[1..], rest);
    } else {
      assert pre + rest == rest;
    }
  }

  lemma {:induction false} StripRightPadded(core: string, post: string)
    requires AllSpace(post)
    requires core == [] || !IsSpace(core[|core| - 1])
    ensures StripRight(core + post) == core
  {
    if post != [] {
      var n := |post|;
      assert (core + post)[..|core + post| - 1] == core + post[..n - 1];
      StripRightPadded(core, post[..n - 1]);
    } else {
      assert core + post == core;
    }
  }

  /** Stripping twice is stripping once. */
  lemma StripIdempotent(s: string)
    ensures Strip(Strip(s)) == Strip(s)
  {
    var r := Strip(s);
    StripPadded([], r, []);
    assert [] + r + [] == r;
  }

  // ---------------------------------------------------------------------------
  // Fixed layout "DD-MM-YYYY HH:MM:SS"

  predicate IsDigit(c: char) { '0' <= c <= '9' }

  function DigitValue(c: char): int
    requires IsDigit(c)
  {
    c as int - '0' as int
  }

  function DigitChar(d: int): (c: char)
    requires 0 <= d < 10
    ensures IsDigit(c) && DigitValue(c) == d
  {
    ('0' as int + d) as char
  }

  /** The value of a string of decimal digits, most significant first. */
  function Number(t: string): (n: nat)
    requires forall i :: 0 <= i < |t| ==> IsDigit(t[i])
  {
    if t == [] then 0 else Number(t[..|t| - 1]) * 10 + DigitValue(t[|t| - 1])
  }

  /** The two digits a field in 0..99 renders as. */
  function Pad2(n: int): (s: string)
    requires 0 <= n < 100
    ensures |s| == 2 && IsDigit(s[0]) && IsDigit(s[1])
  {
    [DigitChar(n / 10), DigitChar(n % 10)]
  }

  /** The four digits a year in 0..9999 renders as. */
  function Pad4(n: int): (s: string)
    requires 0 <= n < 10000
    ensures |s| == 4 && forall i :: 0 <= i < 4 ==> IsDigit(s[i])
  {
    Pad2(n / 100) + Pad2(n % 100)
  }

  lemma NumberPad2(n: int)
    requires 0 <= n < 100
    ensures Number(Pad2(n)) == n
  {
    var s := Pad2(n);
    assert s[..1][..0] == [] && s[..1][0] == s[0];
    assert Number(s[..1]) == DigitValue(s[0]);
  }

  lemma Pad2Number(t: string)
    requires |t| == 2 && IsDigit(t[0]) && IsDigit(t[1])
    ensures Number(t) < 100 && Pad2(Number(t)) == t
  {
    assert t[..1][..0] == [] && t[..1][0] == t[0];
    assert Number(t[..1]) == DigitValue(t[0]);
  }

  lemma NumberConcat(a: string, b: string)
    requires forall i :: 0 <= i < |a| ==> IsDigit(a[i])
    requires |b| == 2 && IsDigit(b[0]) && IsDigit(b[1])
    ensures forall i :: 0 <= i < |a + b| ==> IsDigit((a + b)[i])
    ensures Number(a + b) == Number(a) * 100 + Number(b)
  {
    var s := a + b;
    var c := a + b[..1];
    assert s[..|s| - 1] == c && s[|s| - 1] == b[1];
    assert c[..|c| - 1] == a && c[|c| - 1] == b[0];
    assert Number(c) == Number(a) * 10 + DigitValue(b[0]);
    assert b[..1][..0] == [] && b[..1][0] == b[0];
    assert Number(b[..1]) == DigitValue(b[0]);
    assert Number(b) == DigitValue(b[0]) * 10 + DigitValue(b[1]);
  }

  lemma NumberPad4(n: int)
    requires 0 <= n < 10000
    ensures Number(Pad4(n)) == n
  {
    NumberPad2(n / 100);
    NumberPad2(n % 100);
    NumberConcat(Pad2(n / 100), Pad2(n % 100));
  }

  lemma Pad4Number(t: string)
    requires |t| == 4 && forall i :: 0 <= i < 4 ==> IsDigit(t[i])
    ensures Number(t) < 10000 && Pad4(Number(t)) == t
  {
    var hi, lo := t[..2], t[2..];
    assert t == hi + lo;
    NumberConcat(hi, lo);
    Pad2Number(hi);
    Pad2Number(lo);
    var n := Number(t);
    DivModHundred(Number(hi), Number(lo));
    assert n / 100 == Number(hi) && n % 100 == Number(lo);
    assert Pad4(n) == Pad2(Number(hi)) + Pad2(Number(lo));
  }

  lemma DivModHundred(h: nat, l: nat)
    requires l < 100
    ensures (h * 100 + l) / 100 == h && (h * 100 + l) % 100 == l
  {
  }

  /** The one text that the layout `%d-%m-%Y %H:%M:%S` gives for accepted fields. */
  function Format(dt: DateTime): (s: string)
    requires Accepted(dt)
    ensures |s| == 19
  {
    Pad2(dt.day) + "-" + Pad2(dt.month) + "-" + Pad4(dt.year) + " "
      + Pad2(dt.hour) + ":" + Pad2(dt.minute) + ":" + Pad2(dt.second)
  }

  predicate AllDigits(t: string) {
    forall i :: 0 <= i < |t| ==> IsDigit(t[i])
  }

  /** The text has the shape `DD-MM-YYYY HH:MM:SS`, every field made of digits. */
  predicate MatchesLayout(s: string) {
    && |s| == 19
    && s[2] == '-' && s[5] == '-' && s[10] == ' ' && s[13] == ':' && s[16] == ':'
    && AllDigits(s[0..2]) && AllDigits(s[3..5]) && AllDigits(s[6..10])
    && AllDigits(s[11..13]) && AllDigits(s[14..16]) && AllDigits(s[17..19])
  }

  /** The fields the layout reads from a text that matches it. */
  function Fields(s: string): DateTime
    requires MatchesLayout(s)
  {
    DateTime(Number(s[6..10]), Number(s[3..5]), Number(s[0..2]),
             Number(s[11..13]), Number(s[14..16]), Number(s[17..19]))
  }

  /**
   * The fields the timestamp parse reads: `None` (NaT) unless the whole text
   * matches the layout and its fields are accepted.
   */
  function Parse(s: string): (r: Option<DateTime>)
    ensures r.Some? ==> Accepted(r.value)
    ensures r.Some? <==> MatchesLayout(s) && Accepted(Fields(s))
  {
    if MatchesLayout(s) && Accepted(Fields(s)) then Some(Fields(s)) else None
  }

  /** The pieces of a formatted date-time, by position. */
  lemma FormatPieces(dt: DateTime)
    requires Accepted(dt)
    ensures var s := Format(dt);
      && s[0..2] == Pad2(dt.day) && s[3..5] == Pad2(dt.month) && s[6..10] == Pad4(dt.year)
      && s[11..13] == Pad2(dt.hour) && s[14..16] == Pad2(dt.minute) && s[17..19] == Pad2(dt.second)
      && s[2] == '-' && s[5] == '-' && s[10] == ' ' && s[13] == ':' && s[16] == ':'
  {
    var s := Format(dt);
    var p1 := Pad2(dt.day) + "-";
    var p2 := p1 + Pad2(dt.month) + "-";
    var p3 := p2 + Pad4(dt.year) + " ";
    var p4 := p3 + Pad2(dt.hour) + ":";
    var p5 := p4 + Pad2(dt.minute) + ":";
    assert s == p5 + Pad2(dt.second);
    Framed(p4 + Pad2(dt.minute), ":", Pad2(dt.second));
    Framed(p3 + Pad2(dt.hour), ":", Pad2(dt.minute) + ":" + Pad2(dt.second));
    Framed(p2 + Pad4(dt.year), " ", Pad2(dt.hour) + ":" + Pad2(dt.minute) + ":" + Pad2(dt.second));
    Piece(p5, Pad2(dt.second), []);
    Piece(p4, Pad2(dt.minute), ":" + Pad2(dt.second));
    Piece(p3, Pad2(dt.hour), ":" + Pad2(dt.minute) + ":" + Pad2(dt.second));
    Piece(p2, Pad4(dt.year), " " + Pad2(dt.hour) + ":" + Pad2(dt.minute) + ":" + Pad2(dt.second));
    Piece(p1, Pad2(dt.month), "-" + Pad4(dt.year) + " " + Pad2(dt.hour) + ":" + Pad2(dt.minute) + ":" + Pad2(dt.second));
    Piece([], Pad2(dt.day), "-" + Pad2(dt.month) + "-" + Pad4(dt.year) + " " + Pad2(dt.hour) + ":" + Pad2(dt.minute) + ":" + Pad2(dt.second));
  }

  lemma Piece(pre: string, p: string, post: string)
    ensures (pre + p + post)[|pre|..|pre| + |p|] == p
  {
    assert (pre + p + post)[|pre|..|pre| + |p|] == (pre + p)[|pre|..];
  }

  lemma Framed(pre: string, sep: string, post: string)
    requires |sep| == 1
    ensures (pre + sep + post)[|pre|] == sep[0]
  {
  }

  /** Parsing the formatted text of accepted fields gives them back. */
  lemma ParseFormat(dt: DateTime)
    requires Accepted(dt)
    ensures Parse(Format(dt)) == Some(dt)
  {
    var s := Format(dt);
    FormatPieces(dt);
    NumberPad2(dt.day);
    NumberPad2(dt.month);
    NumberPad4(dt.year);
    NumberPad2(dt.hour);
    NumberPad2(dt.minute);
    NumberPad2(dt.second);
    assert MatchesLayout(s);
    assert Fields(s) == dt;
  }

  /** A text the parser accepts is exactly the formatted text of what it parsed to. */
  lemma FormatParse(s: string)
    requires Parse(s).Some?
    ensures Format(Parse(s).value) == s
  {
    var dt := Parse(s).value;
    Pad2Number(s[0..2]);
    Pad2Number(s[3..5]);
    Pad4Number(s[6..10]);
    Pad2Number(s[11..13]);
    Pad2Number(s[14..16]);
    Pad2Number(s[17..19]);
    FormatPieces(dt);
    var f := Format(dt);
    assert forall i :: 0 <= i < 19 ==> f[i] == s[i] by {
      forall i | 0 <= i < 19 ensures f[i] == s[i] {
        if i < 2 { assert f[i] == f[0..2][i]; }
        else if 2 < i < 5 { assert f[i] == f[3..5][i - 3]; }
        else if 5 < i < 10 { assert f[i] == f[6..10][i - 6]; }
        else if 10 < i < 13 { assert f[i] == f[11..13][i - 11]; }
        else if 13 < i < 16 { assert f[i] == f[14..16][i - 14]; }
        else if 16 < i { assert f[i] == f[17..19][i - 17]; }
      }
    }
  }

  // ---------------------------------------------------------------------------
  // Seconds 60 and 61

  function YearLength(y: int): int {
    if IsLeapYear(y) then 366 else 365
  }

  /** The days from 1 January of year 1 to 1 January of year y. */
  function DaysBeforeYear(y: int): int
    requires y >= 1
    decreases y
  {
    if y == 1 then 0 else DaysBeforeYear(y - 1) + YearLength(y - 1)
  }

  /** The days from 1 January to the first day of month m of year y. */
  function DaysBeforeMonth(y: int, m: int): int
    requires 1 <= m <= 12
    decreases m
  {
    if m == 1 then 0 else DaysBeforeMonth(y, m - 1) + DaysInMonth(y, m - 1)
  }

  /** December starts 31 days before the year ends. */
  lemma DaysBeforeDecember(y: int)
    ensures DaysBeforeMonth(y, 12) + 31 == YearLength(y)
  {
    var feb := DaysInMonth(y, 2);
    assert DaysBeforeMonth(y, 3) == 31 + feb;
    assert DaysBeforeMonth(y, 6) == 31 + feb + 31 + 30 + 31;
    assert DaysBeforeMonth(y, 9) == 31 + feb + 31 + 30 + 31 + 30 + 31 + 31;
    assert DaysBeforeMonth(y, 12) == 31 + feb + 31 + 30 + 31 + 30 + 31 + 31 + 30 + 31 + 30;
  }

  /**
   * The seconds from 0001-01-01 00:00:00 to the fields, computed the way
   * `datetime64` computes them: day count times 86400 plus the time of day,
   * with no check on the size of the seconds field.
   */
  function Instant(dt: DateTime): int
    requires dt.year >= 1 && 1 <= dt.month <= 12
  {
    (DaysBeforeYear(dt.year) + DaysBeforeMonth(dt.year, dt.month) + dt.day - 1) * 86400
      + dt.hour * 3600 + dt.minute * 60 + dt.second
  }

  /** The same clock reading one minute later, carrying into the hour, day, month and year. */
  function NextMinute(dt: DateTime): (r: DateTime)
    requires Valid(dt) && dt.year < 9999
    ensures Valid(r)
  {
    if dt.minute < 59 then dt.(minute := dt.minute + 1)
    else if dt.hour < 23 then dt.(hour := dt.hour + 1, minute := 0)
    else if dt.day < DaysInMonth(dt.year, dt.month) then dt.(day := dt.day + 1, hour := 0, minute := 0)
    else if dt.month < 12 then dt.(month := dt.month + 1, day := 1, hour := 0, minute := 0)
    else DateTime(dt.year + 1, 1, 1, 0, 0, dt.second)
  }

  /** One minute later is 60 seconds later. */
  lemma NextMinuteInstant(dt: DateTime)
    requires Valid(dt) && dt.year < 9999
    ensures Instant(NextMinute(dt)) == Instant(dt) + 60
  {
    if dt.minute == 59 && dt.hour == 23 && dt.day == DaysInMonth(dt.year, dt.month) && dt.month == 12 {
      DaysBeforeDecember(dt.year);
    }
  }

  /**
   * The date-time accepted fields stand for: a seconds field of 60 or 61
   * spills into the next minute, as the conversion to `datetime64` does.
   */
  function Roll(dt: DateTime): (r: DateTime)
    requires Accepted(dt) && dt.year < 9999
    ensures Valid(r)
  {
    if dt.second < 60 then dt else NextMinute(dt.(second := dt.second - 60))
  }

  /** Rolling keeps the instant, and changes nothing when the fields are already valid. */
  lemma RollInstant(dt: DateTime)
    requires Accepted(dt) && dt.year < 9999
    ensures Instant(Roll(dt)) == Instant(dt)
    ensures Valid(dt) ==> Roll(dt) == dt
  {
    if dt.second >= 60 {
      NextMinuteInstant(dt.(second := dt.second - 60));
    }
  }

  /** Fields in the `datetime64[ns]` span roll to a date-time in that span. */
  lemma RollInRange(dt: DateTime)
    requires Accepted(dt) && InNanosecondRange(dt)
    ensures InNanosecondRange(Roll(dt))
  {
  }

}
