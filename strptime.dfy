/** `datetime.strptime` for the two formats the controller parses: `%Y-%m-%d` for the forecast
    dates and `%Y-%m-%d_%H:%M:%S` for the sensor time stamps. Each directive matches the text of
    the regular expression CPython's `_strptime` compiles for it (`%Y` four digits; `%m`, `%H`,
    `%M`, `%S` one or two digits in their range; `%d` one or two digits, or a space and a digit),
    the whole text must be consumed, and the fields must then make a valid `datetime`. A text
    that fails any of this makes `strptime` raise `ValueError`, modelled as `None`. */
module Strptime {
  import opened Text
  import opened PyNum

  /** A one- or two-digit field whose value lies in `lo..hi`. */
  predicate NumField(f: string, lo: nat, hi: nat)
  {
    1 <= |f| <= 2 && AllDigits(f) && lo <= DigitsValue(f) <= hi
  }

  predicate IsLeap(y: int)
  {
    y % 4 == 0 && (y % 100 != 0 || y % 400 == 0)
  }

  function DaysInMonth(y: int, m: int): (n: int)
    requires 1 <= m <= 12
    ensures 28 <= n <= 31
    ensures n == 29 <==> m == 2 && IsLeap(y)
  {
    if m == 2 then (if IsLeap(y) then 29 else 28)
    else if m == 4 || m == 6 || m == 9 || m == 11 then 30
    else 31
  }

  /** `%d`: a one- or two-digit day 1..31, or a space followed by a digit 1..9. */
  function DayField(f: string): (r: Option<nat>)
    ensures r.Some? ==> 1 <= r.value <= 31
  {
    if NumField(f, 1, 31) then Some(DigitsValue(f))
    else if |f| == 2 && f[0] == ' ' && '1' <= f[1] <= '9' then Some(DigitsValue(f[1..]))
    else None
  }

  datatype Date = Date(year: nat, month: nat, day: nat)

  datatype Stamp = Stamp(date: Date, hour: nat, minute: nat, second: nat)

  predicate ValidDate(d: Date)
  {
    1 <= d.year <= 9999 && 1 <= d.month <= 12 && 1 <= d.day <= DaysInMonth(d.year, d.month)
  }

  /** `datetime.strptime(s, "%Y-%m-%d")`; `None` where it raises. */
  function ParseDate(s: string): (r: Option<Date>)
    ensures r.Some? ==> ValidDate(r.value)
  {
    if |s| < 5 || !AllDigits(s[..4]) || s[4] != '-' || '-' !in s[5..] then None
    else
      var (m, d) := SplitOnce(s[5..], '-');
      var day := DayField(d);
      if !NumField(m, 1, 12) || day.None? then None
      else
        var y := DigitsValue(s[..4]);
        var mo := DigitsValue(m);
        if y < 1 || day.value > DaysInMonth(y, mo) then None
        else
          DigitsBound(s[..4]);
          Some(Date(y, mo, day.value))
  }

  /** `datetime.strptime(s, "%Y-%m-%d_%H:%M:%S")`; `None` where it raises. The second field's
      pattern admits 60 and 61, which `datetime` then refuses. */
  function ParseStamp(s: string): (r: Option<Stamp>)
    ensures r.Some? ==> ValidDate(r.value.date) && r.value.hour < 24 && r.value.minute < 60 && r.value.second < 60
  {
    if '_' !in s then None
    else
      var (date, time) := SplitOnce(s, '_');
      var t := Split(time, ':');
      var dt := ParseDate(date);
      if dt.None? || |t| != 3 || !NumField(t[0], 0, 23) || !NumField(t[1], 0, 59) || !NumField(t[2], 0, 61) then None
      else if DigitsValue(t[2]) > 59 then None
      else Some(Stamp(dt.value, DigitsValue(t[0]), DigitsValue(t[1]), DigitsValue(t[2])))
  }

  predicate DateParses(s: string) { ParseDate(s).Some? }

  /** `(b - a).days > 0` for two dates: day `a` comes before day `b`. */
  predicate Before(a: Date, b: Date)
  {
    a.year < b.year || (a.year == b.year && (a.month < b.month || (a.month == b.month && a.day < b.day)))
  }

  predicate StampParses(s: string) { ParseStamp(s).Some? }

  /** `k` digits denote less than `10^k`. */
  lemma {:induction false} DigitsBound(s: string)
    requires AllDigits(s)
    ensures DigitsValue(s) < Pow10(|s|)
  {
    if |s| > 0 {
      DigitsBound(s[..|s| - 1]);
    }
  }

  function Digit(n: nat): (c: char)
    requires n < 10
    ensures IsDigit(c) && DigitsValue([c]) == n
  {
    ('0' as int + n) as char
  }

  /** `"%02d" % n`. */
  function Pad2(n: nat): (s: string)
    requires n < 100
    ensures |s| == 2 && AllDigits(s) && DigitsValue(s) == n
  {
    DigitsAppend([Digit(n / 10)], [Digit(n % 10)]);
    [Digit(n / 10)] + [Digit(n % 10)]
  }

  /** `"%04d" % n`. */
  function Pad4(n: nat): (s: string)
    requires n < 10000
    ensures |s| == 4 && AllDigits(s) && DigitsValue(s) == n
  {
    DigitsAppend(Pad2(n / 100), Pad2(n % 100));
    Pad2(n / 100) + Pad2(n % 100)
  }

  /** `d.strftime("%Y-%m-%d")`. */
  function FormatDate(d: Date): (s: string)
    requires d.year < 10000 && d.month < 100 && d.day < 100
  {
    Pad4(d.year) + ['-'] + Pad2(d.month) + ['-'] + Pad2(d.day)
  }

  /** `t.strftime("%Y-%m-%d_%H:%M:%S")`. */
  function FormatStamp(t: Stamp): (s: string)
    requires t.date.year < 10000 && t.date.month < 100 && t.date.day < 100
    requires t.hour < 100 && t.minute < 100 && t.second < 100
  {
    FormatDate(t.date) + ['_'] + (Pad2(t.hour) + [':'] + Pad2(t.minute) + [':'] + Pad2(t.second))
  }

  /** A written date reads back as the same date exactly when the day exists in that month:
      `2023-02-29` is refused, `2024-02-29` is not. */
  lemma ParseFormatDate(d: Date)
    requires 1 <= d.year <= 9999 && 1 <= d.month <= 12 && 1 <= d.day <= 31
    ensures ParseDate(FormatDate(d)) == if ValidDate(d) then Some(d) else None
  {
    var s := FormatDate(d);
    var ys, ms, ds := Pad4(d.year), Pad2(d.month), Pad2(d.day);
    assert s == ys + (['-'] + (ms + ['-'] + ds));
    assert s[..4] == ys;
    assert s[5..] == ms + ['-'] + ds;
    DigitsUnmarked(ms);
    SplitOnceAt(ms, ds, '-');
    assert DayField(ds) == Some(d.day);
  }

  /** A written time stamp reads back as the same instant exactly when its date is valid. */
  lemma ParseFormatStamp(t: Stamp)
    requires 1 <= t.date.year <= 9999 && 1 <= t.date.month <= 12 && 1 <= t.date.day <= 31
    requires t.hour < 24 && t.minute < 60 && t.second < 60
    ensures ParseStamp(FormatStamp(t)) == if ValidDate(t.date) then Some(t) else None
  {
    var date := FormatDate(t.date);
    var hs, ms, ss := Pad2(t.hour), Pad2(t.minute), Pad2(t.second);
    var time := hs + [':'] + ms + [':'] + ss;
    DateUnmarked(t.date);
    SplitOnceAt(date, time, '_');
    TimeFields(hs, ms, ss);
    ParseFormatDate(t.date);
    StampFields(FormatStamp(t), date, time, [hs, ms, ss]);
  }

  /** `strptime` on a time stamp whose date and time parts and time fields are known. */
  lemma StampFields(s: string, date: string, time: string, t: seq<string>)
    requires '_' in s && SplitOnce(s, '_') == (date, time) && Split(time, ':') == t && |t| == 3
    ensures ParseStamp(s).Some? <==> (ParseDate(date).Some? && NumField(t[0], 0, 23)
      && NumField(t[1], 0, 59) && NumField(t[2], 0, 59))
    ensures ParseStamp(s).Some? ==>
      ParseStamp(s).value == Stamp(ParseDate(date).value, DigitsValue(t[0]), DigitsValue(t[1]), DigitsValue(t[2]))
  {
  }

  /** A written date holds no `_`, `:` or `,`. */
  lemma DateUnmarked(d: Date)
    requires d.year < 10000 && d.month < 100 && d.day < 100
    ensures |FormatDate(d)| == 10 && FormatDate(d)[4] == '-' && FormatDate(d)[7] == '-'
    ensures '_' !in FormatDate(d) && ':' !in FormatDate(d) && ',' !in FormatDate(d)
  {
    var ys, ms, ds := Pad4(d.year), Pad2(d.month), Pad2(d.day);
    DigitsUnmarked(ys);
    DigitsUnmarked(ms);
    DigitsUnmarked(ds);
    var s := FormatDate(d);
    forall i | 0 <= i < |s| ensures s[i] != '_' && s[i] != ':' && s[i] != ',' {
      if i < 4 { assert s[i] == ys[i]; }
      else if 5 <= i < 7 { assert s[i] == ms[i - 5]; }
      else if 8 <= i { assert s[i] == ds[i - 8]; }
    }
  }

  /** Text made only of digits and the separators of a date and time. */
  predicate StampText(s: string)
  {
    forall i :: 0 <= i < |s| ==> IsDigit(s[i]) || s[i] == '-' || s[i] == '_' || s[i] == ':'
  }

  lemma StampTextJoin(x: string, y: string)
    requires StampText(x) && StampText(y)
    ensures StampText(x + y)
  {
    forall i | 0 <= i < |x + y| ensures IsDigit((x + y)[i]) || (x + y)[i] in "-_:" {
      if i < |x| { assert (x + y)[i] == x[i]; } else { assert (x + y)[i] == y[i - |x|]; }
    }
  }

  /** A written time stamp holds no `,` and no whitespace. */
  lemma StampUnmarked(t: Stamp)
    requires t.date.year < 10000 && t.date.month < 100 && t.date.day < 100
    requires t.hour < 100 && t.minute < 100 && t.second < 100
    ensures ',' !in FormatStamp(t)
    ensures forall i :: 0 <= i < |FormatStamp(t)| ==> !IsSpace(FormatStamp(t)[i])
  {
    var sep := ['-'];
    var us := ['_'];
    var co := [':'];
    var d := t.date;
    StampTextJoin(Pad4(d.year), sep);
    StampTextJoin(Pad4(d.year) + sep, Pad2(d.month));
    StampTextJoin(Pad4(d.year) + sep + Pad2(d.month), sep);
    StampTextJoin(Pad4(d.year) + sep + Pad2(d.month) + sep, Pad2(d.day));
    StampTextJoin(FormatDate(d), us);
    StampTextJoin(Pad2(t.hour), co);
    StampTextJoin(Pad2(t.hour) + co, Pad2(t.minute));
    StampTextJoin(Pad2(t.hour) + co + Pad2(t.minute), co);
    StampTextJoin(Pad2(t.hour) + co + Pad2(t.minute) + co, Pad2(t.second));
    StampTextJoin(FormatDate(d) + us, Pad2(t.hour) + co + Pad2(t.minute) + co + Pad2(t.second));
    var s := FormatStamp(t);
    forall i | 0 <= i < |s| ensures s[i] != ',' && !IsSpace(s[i]) {
      assert IsDigit(s[i]) || s[i] in "-_:";
    }
  }

  /** `h:m:s` of two-digit fields splits on `:` into those fields. */
  lemma TimeFields(hs: string, ms: string, ss: string)
    requires AllDigits(hs) && AllDigits(ms) && AllDigits(ss)
    ensures Split(hs + [':'] + ms + [':'] + ss, ':') == [hs, ms, ss]
  {
    DigitsUnmarked(hs);
    DigitsUnmarked(ms);
    DigitsUnmarked(ss);
    SplitNoSep(hs, ':');
    SplitNoSep(ms, ':');
    SplitNoSep(ss, ':');
    SplitTwo(hs, ms, ':');
    SplitAppend(hs + [':'] + ms, ss, ':');
  }

  /** `strptime` also takes unpadded fields: `2023-1-5` is 5 January 2023. */
  lemma ShortFieldsAccepted(y: string, m: char, d: char)
    requires |y| == 4 && AllDigits(y) && DigitsValue(y) >= 1
    requires '1' <= m <= '9' && '1' <= d <= '9'
    ensures ParseDate(y + ['-', m, '-', d]) == Some(Date(DigitsValue(y), DigitsValue([m]), DigitsValue([d])))
  {
    var s := y + ['-', m, '-', d];
    assert s[..4] == y;
    assert s[5..] == [m] + ['-'] + [d];
    SplitOnceAt([m], [d], '-');
  }

  /** ... and a day written as a space and a digit: `2023-01- 5`. */
  lemma SpacedDayAccepted(y: string, m: string, d: char)
    requires |y| == 4 && AllDigits(y) && DigitsValue(y) >= 1
    requires NumField(m, 1, 12) && '1' <= d <= '9'
    ensures ParseDate(y + ['-'] + m + ['-', ' ', d]) == Some(Date(DigitsValue(y), DigitsValue(m), DigitsValue([d])))
  {
    var s := y + ['-'] + m + ['-', ' ', d];
    assert s[..4] == y;
    assert s[5..] == m + ['-'] + [' ', d];
    DigitsUnmarked(m);
    SplitOnceAt(m, [' ', d], '-');
    assert [' ', d][1..] == [d];
  }
}
