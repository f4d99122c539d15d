/** The line-format checks and small text helpers of pgart_misc_func.py: the validators of the
    hourly-rate, monthly-rate, short-forecast and indoor-sensor files, the reader of the
    hourly-rate file and the joiner of an external program's arguments. A file is the list of
    its lines (`None` when it does not exist). */
module MiscFunc {
  import opened Text
  import opened PyNum
  import opened PyDict
  import opened Strptime

  /** `"".join(rec.strip().split())`: the line with every whitespace character removed. */
  function Clean(rec: string): (c: string)
    ensures forall i :: 0 <= i < |c| ==> !IsSpace(c[i])
  {
    RemoveSpaces(Strip(rec))
  }

  /** What a validator reports about the first line it rejects, or about the whole file. */
  datatype Fault =
    | NotOneColon
    | NotOneDash
    | NotOneComma
    | HourNotNumeric
    | HourOutOfRange
    | RateNotFloat
    | PeriodNotNumeric
    | MonthOutOfRange
    | KeyLength
    | KeyShape
    | BadDate
    | NotTwoValues
    | ValuesNotFloat
    | BadTimestamp
    | WrongCount(records: nat)

  /** The verdict of one validator on one cleaned line; `LineRaises` where Python raises. */
  datatype LineVerdict = LineOk | LineBad(fault: Fault) | LineRaises

  /** `rec.split(sep)` with exactly one `sep` has two pieces. */
  lemma OneSepTwoPieces(c: string, sep: char)
    requires Count(c, sep) == 1
    ensures |Split(c, sep)| == 2
  {
    SplitPieces(c, sep);
  }

  /** One line of the hourly-rate file, `14:38.28`, as `is_hourly_rates_proper` checks it. */
  function HourlyRateLine(c: string): (v: LineVerdict)
    ensures v != LineRaises
  {
    if Count(c, ':') != 1 then LineBad(NotOneColon)
    else
      OneSepTwoPieces(c, ':');
      var buf := Split(c, ':');
      if !IsNumeric(buf[0]) then LineBad(HourNotNumeric)
      else if !(DigitsValue(buf[0]) < 24) then LineBad(HourOutOfRange)
      else if !IsFloat(buf[1]) then LineBad(RateNotFloat)
      else LineOk
  }

  /** One line of the monthly-rate file, `2023-02:138.28`, as `is_monthly_rates_proper` checks
      it; unpacking `buf[0].split("-")` raises when the dash is not before the colon. */
  function MonthlyRateLine(c: string): (v: LineVerdict)
  {
    if Count(c, ':') != 1 then LineBad(NotOneColon)
    else if Count(c, '-') != 1 then LineBad(NotOneDash)
    else
      OneSepTwoPieces(c, ':');
      var buf := Split(c, ':');
      var period := Split(buf[0], '-');
      if |period| != 2 then LineRaises
      else if !(IsNumeric(period[0]) && IsNumeric(period[1])) then LineBad(PeriodNotNumeric)
      else if !(0 < DigitsValue(period[1]) < 13) then LineBad(MonthOutOfRange)
      else if !IsFloat(buf[1]) then LineBad(RateNotFloat)
      else LineOk
  }

  /** One line of the short-forecast file, `2023-01-17_20:0.8,6.8`, as
      `is_forecast_short_proper` checks it. `dateValid` is the date test, kept as a parameter so
      the lemmas about the line's layout hold whatever the calendar; the file check passes
      `DateParses`, `datetime.strptime(d, "%Y-%m-%d")` not raising. */
  function ForecastLine(c: string, dateValid: string -> bool): (v: LineVerdict)
    ensures v != LineRaises
  {
    if Count(c, ':') != 1 then LineBad(NotOneColon)
    else if Count(c, ',') != 1 then LineBad(NotOneComma)
    else
      var (key, val) := SplitOnce(c, ':');
      if |key| != 13 then LineBad(KeyLength)
      else if key[10] != '_' || key[4] != '-' || key[7] != '-' then LineBad(KeyShape)
      else
        SplitPieces(key, '_');
        var d := Split(key, '_');
        if !dateValid(d[0]) then LineBad(BadDate)
        else if !IsNumeric(d[1]) then LineBad(HourNotNumeric)
        else if !(DigitsValue(d[1]) < 24) then LineBad(HourOutOfRange)
        else
          var values := Split(val, ',');
          if |values| != 2 then LineBad(NotTwoValues)
          else if !(IsFloat(values[0]) && IsFloat(values[1])) then LineBad(ValuesNotFloat)
          else LineOk
  }

  function ForecastCheck(dateValid: string -> bool): string -> LineVerdict
  {
    c => ForecastLine(c, dateValid)
  }

  /** One line of the indoor-sensor file, `2023-01-17_20:02:01,20.4`, as
      `get_ext_temp_reading` checks it. `stampValid` is the time-stamp test; the reader passes
      `StampParses`, `datetime.strptime(s, "%Y-%m-%d_%H:%M:%S")` not raising. */
  function ReadingLine(c: string, stampValid: string -> bool): (v: LineVerdict)
    ensures v != LineRaises
    ensures v == LineOk ==> Count(c, ',') == 1 && stampValid(SplitOnce(c, ',').0) && IsFloat(SplitOnce(c, ',').1)
  {
    if Count(c, ',') != 1 then LineBad(NotOneComma)
    else
      var buf := SplitOnce(c, ',');
      if !stampValid(buf.0) then LineBad(BadTimestamp)
      else if !IsFloat(buf.1) then LineBad(ValuesNotFloat)
      else LineOk
  }

  /** The outcome of running a line check over a file: every line passes, or the first line
      that does not is rejected or raises. */
  datatype Scan = AllPass | FailsAt(index: nat, fault: Fault) | RaisesAt(index: nat)

  /** The verdict of a check on line `i`, once cleaned. */
  function VerdictAt(check: string -> LineVerdict, lines: seq<string>, i: nat): LineVerdict
    requires i < |lines|
  {
    check(Clean(lines[i]))
  }

  /** Every line of the file passes the check. */
  predicate AllLinesPass(check: string -> LineVerdict, lines: seq<string>)
  {
    forall i :: 0 <= i < |lines| ==> VerdictAt(check, lines, i) == LineOk
  }

  /** The loop of a validator from line `k` on: the first line whose cleaned text the check
      does not accept ends it. */
  function ScanFrom(check: string -> LineVerdict, lines: seq<string>, k: nat): (s: Scan)
    requires k <= |lines|
    ensures s.AllPass? <==> forall i :: k <= i < |lines| ==> VerdictAt(check, lines, i) == LineOk
    ensures s.FailsAt? ==> k <= s.index < |lines| && VerdictAt(check, lines, s.index) == LineBad(s.fault)
    ensures s.RaisesAt? ==> k <= s.index < |lines| && VerdictAt(check, lines, s.index) == LineRaises
    ensures !s.AllPass? ==> forall i :: k <= i < s.index ==> VerdictAt(check, lines, i) == LineOk
    decreases |lines| - k
  {
    if k == |lines| then AllPass
    else
      match VerdictAt(check, lines, k)
      case LineOk => ScanFrom(check, lines, k + 1)
      case LineBad(f) => FailsAt(k, f)
      case LineRaises => RaisesAt(k)
  }

  /** The common loop of the validators: `nr_rec` counts the lines read, and the first line the
      check does not accept ends it. */
  method CheckLines(check: string -> LineVerdict, lines: seq<string>) returns (s: Scan, nrRec: nat)
    ensures s == ScanFrom(check, lines, 0)
    ensures nrRec == if s.AllPass? then |lines| else s.index + 1
  {
    var k := 0;
    while k < |lines|
      invariant k <= |lines|
      invariant ScanFrom(check, lines, k) == ScanFrom(check, lines, 0)
    {
      match VerdictAt(check, lines, k) {
        case LineBad(f) => return FailsAt(k, f), k + 1;
        case LineRaises => return RaisesAt(k), k + 1;
        case LineOk =>
      }
      k := k + 1;
    }
    return AllPass, k;
  }

  /** The verdict of a file validator: `(True, "")`, `(False, info)` with the fault, the file
      missing, or an exception escaping it. */
  datatype FileCheck = Proper | Improper(fault: Fault) | Missing | Raises

  /** `is_hourly_rates_proper`. */
  function HourlyRatesProper(file: Option<seq<string>>): (r: FileCheck)
    ensures r == Missing <==> file.None?
    ensures r != Raises
    ensures r == Proper <==> (file.Some? && |file.value| == 24 && AllLinesPass(HourlyRateLine, file.value))
  {
    match file
    case None => Missing
    case Some(lines) =>
      match ScanFrom(HourlyRateLine, lines, 0)
      case FailsAt(_, f) => Improper(f)
      case RaisesAt(_) => Raises
      case AllPass => if |lines| != 24 then Improper(WrongCount(|lines|)) else Proper
  }

  /** `is_monthly_rates_proper`. */
  function MonthlyRatesProper(file: Option<seq<string>>): (r: FileCheck)
    ensures r == Missing <==> file.None?
    ensures r == Raises <==> file.Some? && ScanFrom(MonthlyRateLine, file.value, 0).RaisesAt?
    ensures r == Proper <==> (file.Some? && |file.value| >= 1 && AllLinesPass(MonthlyRateLine, file.value))
  {
    match file
    case None => Missing
    case Some(lines) =>
      match ScanFrom(MonthlyRateLine, lines, 0)
      case FailsAt(_, f) => Improper(f)
      case RaisesAt(_) => Raises
      case AllPass => if |lines| < 1 then Improper(WrongCount(|lines|)) else Proper
  }

  /** `is_forecast_short_proper`: no count is checked, so an empty file is proper. */
  function ForecastProper(file: Option<seq<string>>): (r: FileCheck)
    ensures r == Missing <==> file.None?
    ensures r != Raises
    ensures r == Proper <==> (file.Some? && AllLinesPass(ForecastCheck(DateParses), file.value))
  {
    match file
    case None => Missing
    case Some(lines) =>
      match ScanFrom(ForecastCheck(DateParses), lines, 0)
      case FailsAt(_, f) => Improper(f)
      case RaisesAt(_) => Raises
      case AllPass => Proper
  }

  method IsHourlyRatesProper(file: Option<seq<string>>) returns (r: FileCheck)
    ensures r == HourlyRatesProper(file)
  {
    if file.None? { return Missing; }
    var s, nrRec := CheckLines(HourlyRateLine, file.value);
    match s {
      case FailsAt(_, f) => return Improper(f);
      case RaisesAt(_) => return Raises;
      case AllPass =>
    }
    if nrRec != 24 { return Improper(WrongCount(nrRec)); }
    return Proper;
  }

  method IsMonthlyRatesProper(file: Option<seq<string>>) returns (r: FileCheck)
    ensures r == MonthlyRatesProper(file)
  {
    if file.None? { return Missing; }
    var s, nrRec := CheckLines(MonthlyRateLine, file.value);
    match s {
      case FailsAt(_, f) => return Improper(f);
      case RaisesAt(_) => return Raises;
      case AllPass =>
    }
    if nrRec < 1 { return Improper(WrongCount(nrRec)); }
    return Proper;
  }

  method IsForecastProper(file: Option<seq<string>>) returns (r: FileCheck)
    ensures r == ForecastProper(file)
  {
    if file.None? { return Missing; }
    var s, _ := CheckLines(ForecastCheck(DateParses), file.value);
    match s {
      case FailsAt(_, f) => return Improper(f);
      case RaisesAt(_) => return Raises;
      case AllPass =>
    }
    return Proper;
  }

  /** A text without whitespace is its own cleaned form. */
  lemma {:induction false} CleanUnchanged(c: string)
    requires forall i :: 0 <= i < |c| ==> !IsSpace(c[i])
    ensures Strip(c) == c && Clean(c) == c
  {
    if |c| > 0 { StripUnchanged(c); }
    Text.RemoveSpacesNone(c);
  }

  /** The separators in `x + sep + y`. */
  lemma CountJoined(x: string, y: string, sep: char, c: char)
    ensures Count(x + [sep] + y, c) == Count(x, c) + Count(y, c) + (if sep == c then 1 else 0)
  {
    CountAppend(x + [sep], y, c);
    CountAppend(x, [sep], c);
  }

  /** A line written as `str(h) + ":" + rate` for an hour and a float passes the hourly-rate
      check. */
  lemma HourlyLineWritten(h: nat, rate: string)
    requires h < 24 && IsFloat(rate) && ':' !in rate
    ensures HourlyRateLine(NatToString(h) + ":" + rate) == LineOk
  {
    var hs := NatToString(h);
    NatToStringValue(h);
    assert NatToString(h) + ":" + rate == hs + [':'] + rate;
    HourlyLineAccepts(hs, rate);
  }

  /** Hour digits below 24, a colon and a float pass the hourly-rate check. */
  lemma HourlyLineAccepts(d: string, rate: string)
    requires IsNumeric(d) && DigitsValue(d) < 24 && IsFloat(rate) && ':' !in rate
    ensures HourlyRateLine(d + [':'] + rate) == LineOk
  {
    DigitsUnmarked(d);
    CountJoined(d, rate, ':', ':');
    SplitTwo(d, rate, ':');
  }

  /** A monthly-rate line raises exactly when its one dash comes after its one colon. */
  lemma MonthlyRaisesIff(c: string)
    ensures MonthlyRateLine(c) == LineRaises <==>
      (Count(c, ':') == 1 && Count(c, '-') == 1 && '-' !in SplitOnce(c, ':').0)
  {
    if Count(c, ':') == 1 && Count(c, '-') == 1 {
      SplitOnceIsSplit(c, ':');
      var (a, b) := SplitOnce(c, ':');
      CountJoined(a, b, ':', '-');
      SplitPieces(a, '-');
    }
  }

  /** A forecast line written as `date + "_" + hh + ":" + a + "," + b`, with a date of the shape
      `YYYY-MM-DD`, an hour of two digits below 24 and two floats, passes the forecast check
      exactly when the date test accepts the date. */
  lemma ForecastLineWritten(date: string, hh: string, a: string, b: string, dateValid: string -> bool)
    requires |date| == 10 && date[4] == '-' && date[7] == '-'
    requires '_' !in date && ':' !in date && ',' !in date
    requires |hh| == 2 && IsNumeric(hh) && DigitsValue(hh) < 24
    requires IsFloat(a) && IsFloat(b) && ':' !in a + b && ',' !in a + b
    ensures ForecastLine((date + ['_'] + hh) + [':'] + (a + [','] + b), dateValid)
      == if dateValid(date) then LineOk else LineBad(BadDate)
  {
    ForecastKeyWritten(date, hh);
    ForecastValuesWritten(a, b);
    ForecastJoined(date + ['_'] + hh, a + [','] + b, dateValid);
  }

  /** A forecast line whose key and values are well formed is judged on its date alone. */
  lemma ForecastJoined(key: string, val: string, dateValid: string -> bool)
    requires |key| == 13 && key[10] == '_' && key[4] == '-' && key[7] == '-'
    requires Count(key, ':') == 0 && Count(key, ',') == 0 && Count(val, ':') == 0 && Count(val, ',') == 1
    requires |Split(key, '_')| == 2
    requires IsNumeric(Split(key, '_')[1]) && DigitsValue(Split(key, '_')[1]) < 24
    requires |Split(val, ',')| == 2 && IsFloat(Split(val, ',')[0]) && IsFloat(Split(val, ',')[1])
    ensures ForecastLine(key + [':'] + val, dateValid)
      == if dateValid(Split(key, '_')[0]) then LineOk else LineBad(BadDate)
  {
    CountJoined(key, val, ':', ':');
    CountJoined(key, val, ':', ',');
    SplitOnceAt(key, val, ':');
  }

  /** The key `date + "_" + hh` of a written forecast line. */
  lemma ForecastKeyWritten(date: string, hh: string)
    requires |date| == 10 && '_' !in date && ':' !in date && ',' !in date
    requires |hh| == 2 && IsNumeric(hh)
    ensures |date + ['_'] + hh| == 13 && (date + ['_'] + hh)[10] == '_'
    ensures (date + ['_'] + hh)[4] == date[4] && (date + ['_'] + hh)[7] == date[7]
    ensures Count(date + ['_'] + hh, ':') == 0 && Count(date + ['_'] + hh, ',') == 0
    ensures Split(date + ['_'] + hh, '_') == [date, hh]
  {
    DigitsUnmarked(hh);
    CountJoined(date, hh, '_', ':');
    CountJoined(date, hh, '_', ',');
    SplitTwo(date, hh, '_');
  }

  /** The values `a + "," + b` of a written forecast line. */
  lemma ForecastValuesWritten(a: string, b: string)
    requires ':' !in a + b && ',' !in a + b
    ensures Count(a + [','] + b, ':') == 0 && Count(a + [','] + b, ',') == 1
    ensures Split(a + [','] + b, ',') == [a, b]
  {
    assert ':' !in a && ':' !in b && ',' !in a && ',' !in b by {
      assert forall i :: 0 <= i < |a| ==> (a + b)[i] == a[i];
      assert forall i :: 0 <= i < |b| ==> (a + b)[|a| + i] == b[i];
    }
    CountJoined(a, b, ',', ':');
    CountJoined(a, b, ',', ',');
    SplitTwo(a, b, ',');
  }

  /** The line the forecast fetcher writes for hour `h` of day `d`, `d.strftime("%Y-%m-%d")`,
      `"_"`, the hour as two digits, `":"` and two floats, is accepted exactly when `d` is a day
      of the calendar: `2023-02-29_05:1.0,2.0` is refused as a bad date. */
  lemma ForecastEntryWritten(d: Date, h: nat, a: string, b: string)
    requires 1 <= d.year <= 9999 && 1 <= d.month <= 12 && 1 <= d.day <= 31 && h < 24
    requires IsFloat(a) && IsFloat(b) && ':' !in a + b && ',' !in a + b
    ensures ForecastLine((FormatDate(d) + ['_'] + Pad2(h)) + [':'] + (a + [','] + b), DateParses)
      == if ValidDate(d) then LineOk else LineBad(BadDate)
  {
    DateUnmarked(d);
    ParseFormatDate(d);
    ForecastLineWritten(FormatDate(d), Pad2(h), a, b, DateParses);
  }

  function ReadingCheck(stampValid: string -> bool): string -> LineVerdict
  {
    c => ReadingLine(c, stampValid)
  }

  /** What `get_ext_temp_reading` returns: the time stamp and the value of the last line,
      `(False, info, 0, 0)` with the fault, `(False, "No file", 0, 0)`, or an exception escaping
      it (`buf` is unbound after an empty file). */
  datatype Reading = Got(stamp: string, value: string) | Rejected(fault: Fault) | NoFile | ReadRaises

  /** `get_ext_temp_reading`: every line is checked, and the last one is the reading. */
  function ExtTempReading(file: Option<seq<string>>, stampValid: string -> bool): (r: Reading)
    ensures r == NoFile <==> file.None?
    ensures r == ReadRaises <==> file == Some([])
    ensures r.Got? <==> (file.Some? && |file.value| > 0 && AllLinesPass(ReadingCheck(stampValid), file.value))
    ensures r.Got? ==> (r.stamp + "," + r.value == Clean(file.value[|file.value| - 1])
      && stampValid(r.stamp) && IsFloat(r.value))
  {
    match file
    case None => NoFile
    case Some(lines) =>
      match ScanFrom(ReadingCheck(stampValid), lines, 0)
      case FailsAt(_, f) => Rejected(f)
      case RaisesAt(_) => ReadRaises
      case AllPass =>
        if |lines| == 0 then ReadRaises
        else
          var last := Clean(lines[|lines| - 1]);
          assert VerdictAt(ReadingCheck(stampValid), lines, |lines| - 1) == LineOk;
          Got(SplitOnce(last, ',').0, SplitOnce(last, ',').1)
  }

  /** A sensor file of one line `stamp + "," + value`, neither part holding a comma or
      whitespace, reads back as that time stamp and value when the time-stamp test accepts it,
      and is rejected for its time stamp otherwise. */
  lemma ReadingWritten(stamp: string, v: string, stampValid: string -> bool)
    requires ',' !in stamp && forall i :: 0 <= i < |stamp| ==> !IsSpace(stamp[i])
    requires IsFloat(v) && ',' !in v && forall i :: 0 <= i < |v| ==> !IsSpace(v[i])
    ensures ExtTempReading(Some([stamp + [','] + v]), stampValid)
      == if stampValid(stamp) then Got(stamp, v) else Rejected(BadTimestamp)
  {
    var line := stamp + [','] + v;
    NoSpaceJoined(stamp, ',', v);
    ReadingLineWritten(stamp, v, stampValid);
    OneLineReading(line, stampValid);
  }

  /** The file a sensor writes, one line `t.strftime("%Y-%m-%d_%H:%M:%S") + "," + value`, reads
      back with `strptime` as the test exactly when its date is a day of the calendar. */
  lemma ReadingWrittenParsed(t: Stamp, v: string)
    requires 1 <= t.date.year <= 9999 && 1 <= t.date.month <= 12 && 1 <= t.date.day <= 31
    requires t.hour < 24 && t.minute < 60 && t.second < 60
    requires IsFloat(v) && ',' !in v && forall i :: 0 <= i < |v| ==> !IsSpace(v[i])
    ensures ExtTempReading(Some([FormatStamp(t) + [','] + v]), StampParses)
      == if ValidDate(t.date) then Got(FormatStamp(t), v) else Rejected(BadTimestamp)
  {
    StampUnmarked(t);
    ParseFormatStamp(t);
    ReadingWritten(FormatStamp(t), v, StampParses);
  }

  /** A line `stamp + "," + value` is judged on its time stamp. */
  lemma ReadingLineWritten(stamp: string, v: string, stampValid: string -> bool)
    requires IsFloat(v) && ',' !in stamp && ',' !in v
    ensures Count(stamp + [','] + v, ',') == 1
    ensures SplitOnce(stamp + [','] + v, ',') == (stamp, v)
    ensures ReadingLine(stamp + [','] + v, stampValid) == if stampValid(stamp) then LineOk else LineBad(BadTimestamp)
  {
    CountJoined(stamp, v, ',', ',');
    SplitOnceAt(stamp, v, ',');
  }

  /** Two texts without whitespace joined by a separator that is not whitespace. */
  lemma NoSpaceJoined(x: string, sep: char, y: string)
    requires !IsSpace(sep)
    requires forall i :: 0 <= i < |x| ==> !IsSpace(x[i])
    requires forall i :: 0 <= i < |y| ==> !IsSpace(y[i])
    ensures forall i :: 0 <= i < |x + [sep] + y| ==> !IsSpace((x + [sep] + y)[i])
  {
    var s := x + [sep] + y;
    forall i | 0 <= i < |s| ensures !IsSpace(s[i]) {
      if i < |x| { assert s[i] == x[i]; }
      else if i > |x| { assert s[i] == y[i - |x| - 1]; }
    }
  }

  /** A file of one line without whitespace gives that line's reading or its fault. */
  lemma OneLineReading(line: string, stampValid: string -> bool)
    requires Count(line, ',') == 1 && forall i :: 0 <= i < |line| ==> !IsSpace(line[i])
    ensures ExtTempReading(Some([line]), stampValid)
      == if ReadingLine(line, stampValid).LineBad? then Rejected(ReadingLine(line, stampValid).fault)
         else Got(SplitOnce(line, ',').0, SplitOnce(line, ',').1)
  {
    var lines := [line];
    CleanUnchanged(line);
    assert VerdictAt(ReadingCheck(stampValid), lines, 0) == ReadingLine(line, stampValid);
    if ReadingLine(line, stampValid).LineBad? {
      ReadingStops(lines, stampValid, 0);
    } else {
      ReadingPasses(lines, stampValid, line);
    }
  }

  method GetExtTempReading(file: Option<seq<string>>, stampValid: string -> bool) returns (r: Reading)
    ensures r == ExtTempReading(file, stampValid)
  {
    if file.None? { return NoFile; }
    var lines := file.value;
    var buf: Option<(string, string)> := None;
    ghost var last := "";
    var k := 0;
    while k < |lines|
      invariant k <= |lines|
      invariant ScanFrom(ReadingCheck(stampValid), lines, k) == ScanFrom(ReadingCheck(stampValid), lines, 0)
      invariant k == 0 <==> buf.None?
      invariant k > 0 ==> Count(last, ',') == 1 && buf == Some(SplitOnce(last, ','))
      invariant k > 0 ==> last == Clean(lines[k - 1])
    {
      var rec := Clean(lines[k]);
      var v := ReadingLine(rec, stampValid);
      assert VerdictAt(ReadingCheck(stampValid), lines, k) == v;
      if v.LineBad? {
        ReadingStops(lines, stampValid, k);
        return Rejected(v.fault);
      }
      buf := Some(SplitOnce(rec, ','));
      last := rec;
      k := k + 1;
    }
    match buf {
      case None => return ReadRaises;
      case Some(b) =>
        ReadingPasses(lines, stampValid, last);
        return Got(b.0, b.1);
    }
  }

  /** A file whose line `k` is the first the reading check rejects is rejected for its fault. */
  lemma ReadingStops(lines: seq<string>, stampValid: string -> bool, k: nat)
    requires k < |lines| && VerdictAt(ReadingCheck(stampValid), lines, k).LineBad?
    requires ScanFrom(ReadingCheck(stampValid), lines, k) == ScanFrom(ReadingCheck(stampValid), lines, 0)
    ensures ExtTempReading(Some(lines), stampValid) == Rejected(VerdictAt(ReadingCheck(stampValid), lines, k).fault)
  {
  }

  /** A file whose lines all pass the reading check yields its last line. */
  lemma ReadingPasses(lines: seq<string>, stampValid: string -> bool, last: string)
    requires |lines| > 0 && last == Clean(lines[|lines| - 1])
    requires ScanFrom(ReadingCheck(stampValid), lines, 0).AllPass?
    ensures Count(last, ',') == 1
    ensures ExtTempReading(Some(lines), stampValid) == Got(SplitOnce(last, ',').0, SplitOnce(last, ',').1)
  {
    assert VerdictAt(ReadingCheck(stampValid), lines, |lines| - 1) == LineOk;
  }

  /** One line as `get_hourly_rates` reads it: `{int(s[0]): float(s[1])}` for
      `s = rec.strip().split(":")`; `None` where Python raises. */
  function RateEntry(rec: string): Option<(int, PyFloat)>
  {
    EntryOf(Split(Strip(rec), ':'))
  }

  /** `{int(s[0]): float(s[1])}`. */
  function EntryOf(s: seq<string>): Option<(int, PyFloat)>
  {
    if |s| < 2 || ParseInt(s[0]).None? || ParseFloat(s[1]).None? then None
    else Some((ParseInt(s[0]).value, ParseFloat(s[1]).value))
  }

  /** Two pieces that `int` and `float` accept make an entry. */
  lemma EntryParsed(s: seq<string>)
    requires |s| == 2 && ParseInt(s[0]).Some? && ParseFloat(s[1]).Some?
    ensures EntryOf(s) == Some((ParseInt(s[0]).value, ParseFloat(s[1]).value))
  {
  }

  /** How one line becomes an entry of the dictionary; `None` where it raises. */
  type LineReader = string -> Option<(int, PyFloat)>

  /** The dictionary `get_hourly_rates` builds from the lines, `hr_rates.update(...)` line by
      line; `None` where a line raises. */
  function RatesOf(entry: LineReader, lines: seq<string>): (r: Option<seq<(int, PyFloat)>>)
    ensures r.Some? ==> DistinctKeys(r.value)
  {
    if |lines| == 0 then Some([])
    else
      var d := RatesOf(entry, lines[..|lines| - 1]);
      var e := entry(lines[|lines| - 1]);
      if d.None? || e.None? then None else Some(Put(d.value, e.value.0, e.value.1))
  }

  /** `get_hourly_rates`: an empty dictionary when the file does not exist. */
  function HourlyRates(file: Option<seq<string>>): Option<seq<(int, PyFloat)>>
  {
    match file
    case None => Some([])
    case Some(lines) => RatesOf(RateEntry, lines)
  }

  /** The rate of the last line that names hour `h`, the reference the dictionary is read
      against. */
  function LastRate(entry: LineReader, lines: seq<string>, h: int): Option<PyFloat>
  {
    if |lines| == 0 then None
    else
      var e := entry(lines[|lines| - 1]);
      if e.Some? && e.value.0 == h then Some(e.value.1) else LastRate(entry, lines[..|lines| - 1], h)
  }

  /** The file is read exactly when every line is. */
  lemma {:induction false} RatesReadIff(entry: LineReader, lines: seq<string>)
    ensures RatesOf(entry, lines).Some? <==> forall i :: 0 <= i < |lines| ==> entry(lines[i]).Some?
  {
    if |lines| > 0 {
      RatesReadIff(entry, lines[..|lines| - 1]);
      RatesReadStep(entry, lines);
      AllReadStep(entry, lines, lines[..|lines| - 1]);
    }
  }

  /** One more line is read exactly when the lines before it are and it is. */
  lemma RatesReadStep(entry: LineReader, lines: seq<string>)
    requires |lines| > 0
    ensures RatesOf(entry, lines).Some?
      <==> RatesOf(entry, lines[..|lines| - 1]).Some? && entry(lines[|lines| - 1]).Some?
  {
  }

  /** Every line of a list is read exactly when every line but the last is, and the last is. */
  lemma AllReadStep(entry: LineReader, lines: seq<string>, init: seq<string>)
    requires |lines| > 0 && init == lines[..|lines| - 1]
    ensures (forall i :: 0 <= i < |lines| ==> entry(lines[i]).Some?)
      <==> ((forall i :: 0 <= i < |init| ==> entry(init[i]).Some?) && entry(lines[|lines| - 1]).Some?)
  {
    assert forall i :: 0 <= i < |init| ==> init[i] == lines[i];
  }

  /** A later line for the same hour overrides an earlier one: the dictionary holds, for every
      hour, the rate of the last line that names it. */
  lemma {:induction false} LastWins(entry: LineReader, lines: seq<string>, h: int)
    requires RatesOf(entry, lines).Some?
    ensures Get(RatesOf(entry, lines).value, h) == LastRate(entry, lines, h)
  {
    if |lines| > 0 {
      LastWins(entry, lines[..|lines| - 1], h);
    }
  }

  /** `get_hourly_rates`. */
  method GetHourlyRates(file: Option<seq<string>>) returns (r: Option<seq<(int, PyFloat)>>)
    ensures r == HourlyRates(file)
    ensures r.Some? ==> forall h :: Get(r.value, h) == (if file.Some? then LastRate(RateEntry, file.value, h) else None)
  {
    if file.None? { return Some([]); }
    r := ReadRates(RateEntry, file.value);
  }

  /** The loop of `get_hourly_rates`: each line read in turn into the dictionary. */
  method ReadRates(entry: LineReader, lines: seq<string>) returns (r: Option<seq<(int, PyFloat)>>)
    ensures r == RatesOf(entry, lines)
    ensures r.Some? ==> forall h :: Get(r.value, h) == LastRate(entry, lines, h)
  {
    var d: seq<(int, PyFloat)> := [];
    var k := 0;
    while k < |lines|
      invariant k <= |lines|
      invariant RatesOf(entry, lines[..k]) == Some(d)
    {
      var e := entry(lines[k]);
      if e.None? {
        RatesReadIff(entry, lines);
        return None;
      }
      d := Put(d, e.value.0, e.value.1);
      assert lines[..k + 1][..k] == lines[..k];
      k := k + 1;
    }
    assert lines[..k] == lines;
    forall h ensures Get(d, h) == LastRate(entry, lines, h) {
      LastWins(entry, lines, h);
    }
    return Some(d);
  }

  /** A line written as `str(h) + ":" + rate` reads back as hour `h` with `float(rate)`. */
  lemma RateLineRead(h: nat, rate: string)
    requires IsFloat(rate) && ':' !in rate && (|rate| == 0 || !IsSpace(rate[|rate| - 1]))
    ensures RateEntry(NatToString(h) + ":" + rate) == Some((h as int, ParseFloat(rate).value))
  {
    var hs := NatToString(h);
    assert NatToString(h) + ":" + rate == hs + [':'] + rate;
    RateTextSplit(hs, rate);
    NatToStringValue(h);
    ParseDigits(hs, h);
    EntryParsed([hs, rate]);
  }

  /** `str(h) + ":" + rate` strips to itself and splits into the hour and the rate. */
  lemma RateTextSplit(hs: string, rate: string)
    requires |hs| > 0 && AllDigits(hs) && ':' !in rate && (|rate| == 0 || !IsSpace(rate[|rate| - 1]))
    ensures Split(Strip(hs + [':'] + rate), ':') == [hs, rate]
  {
    var c := hs + [':'] + rate;
    DigitsUnmarked(hs);
    assert c[0] == hs[0];
    StripUnchanged(c);
    SplitTwo(hs, rate, ':');
  }

  /** Where the validator accepts a line without whitespace, the reader reads it as an hour
      between 0 and 23. */
  lemma ProperLineRead(c: string)
    requires forall i :: 0 <= i < |c| ==> !IsSpace(c[i])
    requires HourlyRateLine(Clean(c)) == LineOk
    ensures RateEntry(c).Some? && 0 <= RateEntry(c).value.0 < 24
  {
    CleanUnchanged(c);
    assert HourlyRateLine(c) == LineOk;
    OneSepTwoPieces(c, ':');
    var s := Split(c, ':');
    assert IsNumeric(s[0]);
    assert DigitsValue(s[0]) < 24;
    assert IsFloat(s[1]);
    ParseDigits(s[0], DigitsValue(s[0]));
    assert Split(Strip(c), ':') == s;
    EntryParsed(s);
  }

  /** A file the validator accepts, with no whitespace in its lines, is read into a dictionary
      whose hours all lie between 0 and 23. */
  lemma ProperFileRead(lines: seq<string>)
    requires HourlyRatesProper(Some(lines)) == Proper
    requires forall i, j :: 0 <= i < |lines| && 0 <= j < |lines[i]| ==> !IsSpace(lines[i][j])
    ensures HourlyRates(Some(lines)).Some?
    ensures forall h :: h in Keys(HourlyRates(Some(lines)).value) ==> 0 <= h < 24
  {
    forall i | 0 <= i < |lines| ensures RateEntry(lines[i]).Some? && 0 <= RateEntry(lines[i]).value.0 < 24 {
      assert VerdictAt(HourlyRateLine, lines, i) == LineOk;
      ProperLineRead(lines[i]);
    }
    RatesKeysWithin(RateEntry, lines, 0, 24);
  }

  /** Lines that are all read, each with a key in `lo..hi - 1`, give a dictionary whose keys
      lie there. */
  lemma {:induction false} RatesKeysWithin(entry: LineReader, lines: seq<string>, lo: int, hi: int)
    requires forall i :: 0 <= i < |lines| ==> entry(lines[i]).Some? && lo <= entry(lines[i]).value.0 < hi
    ensures RatesOf(entry, lines).Some?
    ensures forall k :: k in Keys(RatesOf(entry, lines).value) ==> lo <= k < hi
  {
    if |lines| > 0 {
      var init := lines[..|lines| - 1];
      assert forall i :: 0 <= i < |init| ==> init[i] == lines[i];
      RatesKeysWithin(entry, init, lo, hi);
    }
  }

  /** The validator counts lines, not hours: 24 copies of one accepted line pass it, and the
      reader then holds a single hour. */
  lemma DuplicateHoursAccepted(line: string)
    requires HourlyRateLine(Clean(line)) == LineOk && RateEntry(line).Some?
    ensures HourlyRatesProper(Some(seq(24, _ => line))) == Proper
    ensures HourlyRates(Some(seq(24, _ => line))).Some?
    ensures Keys(HourlyRates(Some(seq(24, _ => line))).value) == {RateEntry(line).value.0}
  {
    var lines := seq(24, _ => line);
    assert forall i :: 0 <= i < |lines| ==> VerdictAt(HourlyRateLine, lines, i) == LineOk;
    RatesOfRepeated(RateEntry, lines, line);
  }

  /** A list repeating one readable line gives a dictionary of that line's key alone. */
  lemma {:induction false} RatesOfRepeated(entry: LineReader, lines: seq<string>, line: string)
    requires |lines| > 0 && entry(line).Some?
    requires forall i :: 0 <= i < |lines| ==> lines[i] == line
    ensures RatesOf(entry, lines).Some?
    ensures Keys(RatesOf(entry, lines).value) == {entry(line).value.0}
  {
    var init := lines[..|lines| - 1];
    if |init| > 0 {
      assert forall i :: 0 <= i < |init| ==> init[i] == lines[i];
      RatesOfRepeated(entry, init, line);
    }
  }

  /** The validator removes the whitespace inside a line but the reader does not: a line
      such as `1 4:3`, with a space between the digits of its hour, passes the check as hour 14
      and makes the reader raise. */
  lemma InnerSpaceUnread(a: string, b: string, rate: string)
    requires |a| > 0 && |b| > 0 && AllDigits(a) && AllDigits(b) && DigitsValue(a + b) < 24
    requires IsFloat(rate) && ':' !in rate && forall i :: 0 <= i < |rate| ==> !IsSpace(rate[i])
    ensures HourlyRateLine(Clean(a + " " + b + ":" + rate)) == LineOk
    ensures RateEntry(a + " " + b + ":" + rate).None?
  {
    InnerSpaceCleaned(a, b, rate);
    DigitsJoined(a, b);
    HourlyLineAccepts(a + b, rate);
    InnerSpaceRaises(a, b, rate);
  }

  /** Removing whitespace distributes over concatenation. */
  lemma {:induction false} RemoveSpacesAppend(x: string, y: string)
    ensures RemoveSpaces(x + y) == RemoveSpaces(x) + RemoveSpaces(y)
  {
    if |x| > 0 {
      RemoveSpacesAppend(x[1..], y);
      assert (x + y)[1..] == x[1..] + y;
    } else {
      assert x + y == y;
    }
  }

  lemma InnerSpaceCleaned(a: string, b: string, rate: string)
    requires |a| > 0 && AllDigits(a) && AllDigits(b) && forall i :: 0 <= i < |rate| ==> !IsSpace(rate[i])
    ensures Clean(a + " " + b + ":" + rate) == (a + b) + [':'] + rate
  {
    var tail := [':'] + rate;
    var c := a + (" " + (b + tail));
    assert a + " " + b + ":" + rate == c;
    DigitsUnmarked(a);
    assert c[0] == a[0];
    assert !IsSpace(c[|c| - 1]) by {
      if |rate| > 0 { assert c[|c| - 1] == rate[|rate| - 1]; } else { assert c[|c| - 1] == ':'; }
    }
    StripUnchanged(c);
    InnerSpaceRemoved(a, b, tail);
    AppendAssoc(a + b, [':'], rate);
  }

  /** Removing the whitespace of `a + " " + b + tail` joins `a` and `b`. */
  lemma InnerSpaceRemoved(a: string, b: string, tail: string)
    requires AllDigits(a) && AllDigits(b) && forall i :: 0 <= i < |tail| ==> !IsSpace(tail[i])
    ensures RemoveSpaces(a + (" " + (b + tail))) == (a + b) + tail
  {
    DigitsUnmarked(a);
    DigitsUnmarked(b);
    RemoveSpacesAppend(a, " " + (b + tail));
    RemoveSpacesAppend(" ", b + tail);
    RemoveSpacesAppend(b, tail);
    Text.RemoveSpacesNone(a);
    Text.RemoveSpacesNone(b);
    Text.RemoveSpacesNone(tail);
    assert RemoveSpaces(" ") == "";
    assert RemoveSpaces(b + tail) == b + tail;
    assert RemoveSpaces(" " + (b + tail)) == b + tail;
    AppendAssoc(a, b, tail);
  }

  /** Two digit strings joined are a digit string. */
  lemma DigitsJoined(a: string, b: string)
    requires |a| > 0 && AllDigits(a) && AllDigits(b)
    ensures IsNumeric(a + b)
  {
    assert forall i :: 0 <= i < |a| ==> (a + b)[i] == a[i];
    assert forall i :: 0 <= i < |b| ==> (a + b)[|a| + i] == b[i];
  }

  lemma InnerSpaceRaises(a: string, b: string, rate: string)
    requires |a| > 0 && |b| > 0 && AllDigits(a) && AllDigits(b) && ':' !in rate
    requires |rate| == 0 || !IsSpace(rate[|rate| - 1])
    ensures RateEntry(a + " " + b + ":" + rate).None?
  {
    var hour := a + " " + b;
    DigitsUnmarked(a);
    DigitsUnmarked(b);
    assert ':' !in hour;
    assert a + " " + b + ":" + rate == hour + [':'] + rate;
    var c := hour + [':'] + rate;
    assert c[0] == a[0];
    StripUnchanged(c);
    SplitTwo(hour, rate, ':');
    SpacedNotInt(a, b);
  }

  /** Digits, a space and digits are not a number to `int`. */
  lemma SpacedNotInt(a: string, b: string)
    requires |a| > 0 && |b| > 0 && AllDigits(a) && AllDigits(b)
    ensures ParseInt(a + " " + b).None?
  {
    var hour := a + " " + b;
    DigitsUnmarked(a);
    DigitsUnmarked(b);
    assert hour[0] == a[0] && hour[|hour| - 1] == b[|b| - 1];
    StripUnchanged(hour);
    assert !IsDigit(hour[|a|]);
  }

  /** `"".join(exec_args.split()).split(",")` joined with single spaces, where an empty
      `exec_str` is replaced by the next piece instead of extended. */
  function ExecStrFrom(acc: string, pieces: seq<string>): string
    decreases |pieces|
  {
    if |pieces| == 0 then acc
    else ExecStrFrom(if acc == "" then pieces[0] else acc + " " + pieces[0], pieces[1..])
  }

  /** Every comma turned into a space. */
  function CommasToSpaces(s: string): (r: string)
    ensures |r| == |s| && ',' !in r
  {
    if |s| == 0 then "" else [if s[0] == ',' then ' ' else s[0]] + CommasToSpaces(s[1..])
  }

  /** The text after its leading commas. */
  function DropLeadingCommas(s: string): (r: string)
    ensures |r| == 0 || r[0] != ','
  {
    if |s| > 0 && s[0] == ',' then DropLeadingCommas(s[1..]) else s
  }

  /** `get_exec_str`: the arguments with whitespace removed, the leading commas dropped and
      every other comma turned into a space. */
  method GetExecStr(execArgs: string) returns (s: string)
    ensures s == CommasToSpaces(DropLeadingCommas(RemoveSpaces(execArgs)))
    ensures ',' !in s
  {
    var buf := Split(RemoveSpaces(execArgs), ',');
    s := "";
    var k := 0;
    while k < |buf|
      invariant k <= |buf|
      invariant ExecStrFrom(s, buf[k..]) == ExecStrFrom("", buf)
    {
      if s == "" {
        s := buf[k];
      } else {
        s := s + " " + buf[k];
      }
      assert buf[k..][1..] == buf[k + 1..];
      k := k + 1;
    }
    ExecStrIsReplace(RemoveSpaces(execArgs));
  }

  /** Joining the pieces with spaces, starting from a non-empty text. */
  lemma {:induction false} ExecStrJoins(acc: string, pieces: seq<string>)
    requires acc != ""
    ensures ExecStrFrom(acc, pieces) == Join([acc] + pieces, ' ')
    decreases |pieces|
  {
    if |pieces| > 0 {
      var next := acc + " " + pieces[0];
      ExecStrJoins(next, pieces[1..]);
      assert ([acc] + pieces)[1..] == pieces;
      assert ([next] + pieces[1..])[1..] == pieces[1..];
      if |pieces| > 1 {
        assert pieces == [pieces[0]] + pieces[1..];
      }
    }
  }

  /** Joining the pieces of a split on commas with spaces turns every comma into a space. */
  lemma {:induction false} JoinSplitReplaces(u: string)
    ensures Join(Split(u, ','), ' ') == CommasToSpaces(u)
  {
    if |u| > 0 {
      JoinSplitReplaces(u[1..]);
      var rest := Split(u[1..], ',');
      if u[0] != ',' {
        assert Split(u, ',') == [[u[0]] + rest[0]] + rest[1..];
        if |rest| > 1 {
          assert rest == [rest[0]] + rest[1..];
        }
      }
    }
  }

  /** The joiner's result, in closed form. */
  lemma {:induction false} ExecStrIsReplace(u: string)
    ensures ExecStrFrom("", Split(u, ',')) == CommasToSpaces(DropLeadingCommas(u))
  {
    if |u| > 0 && u[0] == ',' {
      ExecStrIsReplace(u[1..]);
      SplitSepFirst(u[1..], ',');
      assert [','] + u[1..] == u;
      assert ([""] + Split(u[1..], ','))[1..] == Split(u[1..], ',');
    } else if |u| > 0 {
      var pieces := Split(u, ',');
      assert pieces[0] != "" by { SplitCharFirst(u[0], u[1..], ','); assert [u[0]] + u[1..] == u; }
      ExecStrJoins(pieces[0], pieces[1..]);
      assert [pieces[0]] + pieces[1..] == pieces;
      JoinSplitReplaces(u);
    }
  }
}
