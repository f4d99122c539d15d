/** The converter of the hourly electricity-consumption files downloaded from E.ON
    (`eon_YYYYMMDD.csv`, rows such as `"01:00";0.422`) into the controller's generic
    `hour:kWh` files, and the selection of the downloaded files by date. The file system is a
    function from a path to the file's lines (`None` where there is no such file). */
module EonConv {
  import opened Text
  import opened PyNum
  import opened Strptime

  /** Why a row stops the conversion of its file. */
  datatype EonFault = NotOneColonOneSemicolon | HourNotNumeric | HourOutOfRange | ValueNotFloat

  /** One record of the generic file, written as `hour + ":" + str(kwh)`: the hour as it stood
      in the row, quotes removed, and the consumption. */
  datatype Record = Record(hour: string, kwh: PyFloat)

  datatype RowOutcome = Skip | Emit(rec: Record) | Fail(fault: EonFault)

  /** The stripped rows the converter passes over: empty ones and the header and total rows. */
  predicate Ignored(rec: string)
  {
    rec == "" || HasSubstring(rec, "Förbrukning") || HasSubstring(rec, "Klockslag") || HasSubstring(rec, "Summa")
  }

  /** What `convert_eon_csv_file_to_generic_file` does with one row of the input. */
  function EonRow(raw: string): (o: RowOutcome)
    ensures o.Emit? ==> IsNumeric(o.rec.hour) && DigitsValue(o.rec.hour) < 24 && '"' !in o.rec.hour
  {
    var rec := Strip(raw);
    if Ignored(rec) then Skip else DataRow(rec)
  }

  /** A stripped row that is not passed over: `"01:00";0.422` gives hour `01` and 0.422. */
  function DataRow(rec: string): (o: RowOutcome)
    ensures o != Skip
    ensures o.Emit? ==> IsNumeric(o.rec.hour) && DigitsValue(o.rec.hour) < 24 && '"' !in o.rec.hour
  {
    if Count(rec, ':') != 1 || Count(rec, ';') != 1 then Fail(NotOneColonOneSemicolon)
    else
      SplitPieces(rec, ';');
      var s := Split(rec, ';');
      var hr := RemoveChar(Split(s[0], ':')[0], '"');
      if !IsNumeric(hr) then Fail(HourNotNumeric)
      else if !(DigitsValue(hr) < 24) then Fail(HourOutOfRange)
      else if !IsFloat(s[1]) then Fail(ValueNotFloat)
      else Emit(Record(hr, ParseFloat(s[1]).value))
  }

  /** The records written so far, and the row that stopped the conversion if one did. */
  datatype Conversion = Done(records: seq<Record>) | Stopped(index: nat, fault: EonFault, records: seq<Record>)

  /** How a row is judged; the converter's is `EonRow`. Keeping it a parameter lets the
      statements about the loop hold for any row rule. */
  type RowRule = string -> RowOutcome

  /** The records the emitted rows give, in input order. */
  function Emitted(rule: RowRule, rows: seq<string>): (r: seq<Record>)
    ensures |r| <= |rows|
  {
    if |rows| == 0 then []
    else
      var init := Emitted(rule, rows[..|rows| - 1]);
      match rule(rows[|rows| - 1])
      case Emit(x) => init + [x]
      case _ => init
  }

  /** The loop of `convert_eon_csv_file_to_generic_file` over the rows. */
  function ConvertRows(rule: RowRule, rows: seq<string>): (c: Conversion)
    ensures c.Done? <==> forall i :: 0 <= i < |rows| ==> !rule(rows[i]).Fail?
    ensures c.Done? ==> c.records == Emitted(rule, rows)
    ensures c.Stopped? ==> (c.index < |rows| && rule(rows[c.index]) == Fail(c.fault)
      && (forall i :: 0 <= i < c.index ==> !rule(rows[i]).Fail?)
      && c.records == Emitted(rule, rows[..c.index]))
  {
    if |rows| == 0 then Done([])
    else
      var init := rows[..|rows| - 1];
      var c := ConvertRows(rule, init);
      assert forall i :: 0 <= i < |init| ==> init[i] == rows[i];
      if c.Stopped? then
        assert rows[..c.index] == init[..c.index];
        c
      else
        match rule(rows[|rows| - 1])
        case Skip => c
        case Emit(x) => Done(c.records + [x])
        case Fail(f) => Stopped(|rows| - 1, f, c.records)
  }

  /** What the conversion of one file leaves: no output file when the input does not exist,
      the written records, or the row (stripped) that stopped it with the records written
      before. */
  datatype FileOutcome = NoInput | Written(records: seq<Record>) | Failed(row: string, fault: EonFault, records: seq<Record>)

  function EonFile(file: Option<seq<string>>): FileOutcome
  {
    match file
    case None => NoInput
    case Some(rows) =>
      match ConvertRows(EonRow, rows)
      case Done(rs) => Written(rs)
      case Stopped(i, f, rs) => Failed(Strip(rows[i]), f, rs)
  }

  /** The status `convert_eon_csv_file_to_generic_file` returns: `False` only for a row it
      cannot convert; a missing input is not an error. */
  predicate Succeeded(o: FileOutcome) { !o.Failed? }

  /** `convert_eon_csv_file_to_generic_file`. */
  method ConvertEonFile(file: Option<seq<string>>) returns (o: FileOutcome)
    ensures o == EonFile(file)
  {
    if file.None? { return NoInput; }
    var c := ConvertEach(EonRow, file.value);
    match c {
      case Done(rs) => return Written(rs);
      case Stopped(i, f, rs) => return Failed(Strip(file.value[i]), f, rs);
    }
  }

  /** The loop over the rows: each row in turn, a record written per hour row, and a stop at
      the first row the rule rejects. */
  method ConvertEach(rule: RowRule, rows: seq<string>) returns (c: Conversion)
    ensures c == ConvertRows(rule, rows)
  {
    var out: seq<Record> := [];
    var k := 0;
    while k < |rows|
      invariant k <= |rows|
      invariant ConvertRows(rule, rows[..k]) == Done(out)
    {
      var v := rule(rows[k]);
      assert rows[..k + 1][..k] == rows[..k];
      match v {
        case Skip =>
        case Emit(x) =>
          out := out + [x];
        case Fail(f) =>
          RowsStop(rule, rows, k);
          return Stopped(k, f, out);
      }
      k := k + 1;
    }
    assert rows[..k] == rows;
    return Done(out);
  }

  /** The first row that fails decides the conversion of the whole file. */
  lemma RowsStop(rule: RowRule, rows: seq<string>, k: nat)
    requires k < |rows| && ConvertRows(rule, rows[..k]).Done? && rule(rows[k]).Fail?
    ensures ConvertRows(rule, rows) == Stopped(k, rule(rows[k]).fault, ConvertRows(rule, rows[..k]).records)
  {
    var pre := rows[..k];
    assert forall i :: 0 <= i < k ==> pre[i] == rows[i];
    assert rows[..k + 1][..k] == pre;
    assert ConvertRows(rule, rows[..k + 1]).Stopped?;
    assert forall i :: 0 <= i < k ==> !rule(rows[i]).Fail?;
  }

  /** A row without the first character of `t` does not contain `t`. */
  lemma {:induction false} NoSubstring(s: string, t: string)
    requires |t| > 0 && t[0] !in s
    ensures !HasSubstring(s, t)
    decreases |s|
  {
    if |s| >= |t| {
      assert !(t <= s) by { if |s| > 0 { assert s[0] != t[0]; } }
      NoSubstring(s[1..], t);
    }
  }

  /** `s.replace(c, "")` leaves a text without `c` as it is. */
  lemma {:induction false} RemoveCharNone(s: string, c: char)
    requires c !in s
    ensures RemoveChar(s, c) == s
  {
    if |s| > 0 {
      RemoveCharNone(s[1..], c);
      assert s == [s[0]] + s[1..];
    }
  }

  /** The first field of the row E.ON writes for hour `hh`, `"HH:00"`. */
  function RowKey(hh: string): string
  {
    ['"'] + hh + [':'] + ['0', '0', '"']
  }

  /** The row E.ON writes for hour `h`, `"HH:00";` followed by the consumption. */
  function HourRow(h: nat, v: string): string
    requires h < 100
  {
    RowKey(Pad2(h)) + [';'] + v
  }

  /** The consumption texts of the rows considered here: digits and decimal points. */
  predicate DecimalText(v: string)
  {
    |v| > 0 && forall i :: 0 <= i < |v| ==> IsDigit(v[i]) || v[i] == '.'
  }

  /** Text made only of digits and the punctuation of a data row. */
  predicate RowText(s: string)
  {
    forall i :: 0 <= i < |s| ==> IsDigit(s[i]) || s[i] == '"' || s[i] == ':' || s[i] == ';' || s[i] == '.'
  }

  lemma RowTextJoin(x: string, y: string)
    requires RowText(x) && RowText(y)
    ensures RowText(x + y)
  {
    forall i | 0 <= i < |x + y| ensures IsDigit((x + y)[i]) || (x + y)[i] in "\":;." {
      if i < |x| { assert (x + y)[i] == x[i]; } else { assert (x + y)[i] == y[i - |x|]; }
    }
  }

  /** A row of E.ON's file is converted to the record of its hour and consumption. */
  lemma HourRowRead(h: nat, v: string)
    requires h < 24 && IsFloat(v) && DecimalText(v)
    ensures EonRow(HourRow(h, v)) == Emit(Record(Pad2(h), ParseFloat(v).value))
  {
    var hh := Pad2(h);
    var key := RowKey(hh);
    var row := key + [';'] + v;
    KeyMarks(hh);
    RowMarks(key, v);
    StripUnchanged(row);
    RowNotIgnored(row);
    SplitTwo(key, v, ';');
    RemoveCharNone(hh, '"');
    assert RemoveChar(['"'] + hh, '"') == hh by { assert (['"'] + hh)[1..] == hh; }
    RowRead(row, key, v, hh);
    assert EonRow(row) == DataRow(row);
  }

  /** A row with one colon and one semicolon whose fields give a valid hour and a float is
      converted to their record. */
  lemma RowRead(row: string, key: string, v: string, hh: string)
    requires Count(row, ':') == 1 && Count(row, ';') == 1 && Split(row, ';') == [key, v]
    requires RemoveChar(Split(key, ':')[0], '"') == hh && IsNumeric(hh) && DigitsValue(hh) < 24
    requires IsFloat(v)
    ensures DataRow(row) == Emit(Record(hh, ParseFloat(v).value))
  {
  }

  /** The first field of a written row: one colon, no semicolon, and the quoted hour before
      the colon. */
  lemma KeyMarks(hh: string)
    requires AllDigits(hh)
    ensures Count(RowKey(hh), ':') == 1 && ';' !in RowKey(hh) && RowText(RowKey(hh))
    ensures Split(RowKey(hh), ':') == [['"'] + hh, ['0', '0', '"']]
  {
    var a := ['"'] + hh;
    var b := ['0', '0', '"'];
    DigitsUnmarked(hh);
    assert ':' !in a && ';' !in a by {
      forall i | 0 <= i < |a| ensures a[i] != ':' && a[i] != ';' { if i > 0 { assert a[i] == hh[i - 1]; } }
    }
    CountAppend(a + [':'], b, ':');
    CountAppend(a, [':'], ':');
    SplitTwo(a, b, ':');
    RowTextJoin(a + [':'], b);
    RowTextJoin(a, [':']);
    RowTextJoin(['"'], hh);
  }

  /** A written row: one colon and one semicolon, no space at either end, and none of the
      letters that begin the words of the skipped rows. */
  lemma RowMarks(key: string, v: string)
    requires Count(key, ':') == 1 && ';' !in key && RowText(key) && |key| > 0 && DecimalText(v)
    ensures Count(key + [';'] + v, ':') == 1 && Count(key + [';'] + v, ';') == 1
    ensures !IsSpace((key + [';'] + v)[0]) && !IsSpace((key + [';'] + v)[|key + [';'] + v| - 1])
    ensures forall i :: 0 <= i < |key + [';'] + v| ==> (key + [';'] + v)[i] !in "FKS"
  {
    var row := key + [';'] + v;
    assert ':' !in v && ';' !in v by { forall i | 0 <= i < |v| ensures v[i] != ':' && v[i] != ';' { } }
    CountAppend(key + [';'], v, ':');
    CountAppend(key, [';'], ':');
    CountAppend(key + [';'], v, ';');
    CountAppend(key, [';'], ';');
    assert RowText(v);
    RowTextJoin(key + [';'], v);
    RowTextJoin(key, [';']);
    assert row[|row| - 1] == v[|v| - 1];
  }

  /** A written row is none of the rows the converter passes over. */
  lemma RowNotIgnored(row: string)
    requires |row| > 0
    requires forall i :: 0 <= i < |row| ==> row[i] !in "FKS"
    ensures !Ignored(row)
  {
    NoSubstring(row, "Förbrukning");
    NoSubstring(row, "Klockslag");
    NoSubstring(row, "Summa");
  }

  /** Rows that are all hour rows give one record each, in order. */
  lemma {:induction false} AllEmitted(rule: RowRule, rows: seq<string>, recs: seq<Record>)
    requires |recs| == |rows|
    requires forall i :: 0 <= i < |rows| ==> rule(rows[i]) == Emit(recs[i])
    ensures Emitted(rule, rows) == recs
  {
    if |rows| > 0 {
      var n := |rows| - 1;
      assert forall i :: 0 <= i < n ==> rows[..n][i] == rows[i];
      AllEmitted(rule, rows[..n], recs[..n]);
      assert recs == recs[..n] + [recs[n]];
    }
  }

  /** A row passed over in front of the others changes nothing. */
  lemma {:induction false} SkipFirst(rule: RowRule, x: string, rows: seq<string>)
    requires rule(x) == Skip
    ensures Emitted(rule, [x] + rows) == Emitted(rule, rows)
  {
    if |rows| > 0 {
      var n := |rows| - 1;
      assert ([x] + rows)[..|rows|] == [x] + rows[..n];
      assert ([x] + rows)[|rows|] == rows[n];
      SkipFirst(rule, x, rows[..n]);
    } else {
      assert [x] + rows == [x];
      assert [x][..0] == [];
    }
  }

  /** A table framed by two rows that are passed over converts to the records of its rows. */
  lemma TableRead(rule: RowRule, header: string, rows: seq<string>, total: string, recs: seq<Record>)
    requires |recs| == |rows|
    requires forall i :: 0 <= i < |rows| ==> rule(rows[i]) == Emit(recs[i])
    requires rule(header) == Skip && rule(total) == Skip
    ensures ConvertRows(rule, [header] + rows + [total]) == Done(recs)
  {
    var file := [header] + rows + [total];
    forall i | 0 <= i < |file| ensures !rule(file[i]).Fail? {
      if 0 < i < |file| - 1 { assert file[i] == rows[i - 1]; }
    }
    AllEmitted(rule, rows, recs);
    SkipFirst(rule, header, rows);
    assert file[..|file| - 1] == [header] + rows;
  }

  /** E.ON's file, a header row, one row per hour and a total row, is converted to one record
      per hour row, in the order of the rows. */
  lemma EonTableRead(header: string, rows: seq<string>, total: string, hours: seq<nat>, vals: seq<string>, recs: seq<Record>)
    requires |rows| == |hours| == |vals| == |recs|
    requires forall i :: 0 <= i < |rows| ==> hours[i] < 24 && IsFloat(vals[i]) && DecimalText(vals[i])
    requires forall i :: 0 <= i < |rows| ==> hours[i] < 24 && rows[i] == HourRow(hours[i], vals[i])
    requires forall i :: 0 <= i < |rows| ==> IsFloat(vals[i]) && recs[i] == Record(Pad2(hours[i]), ParseFloat(vals[i]).value)
    requires EonRow(header) == Skip && EonRow(total) == Skip
    ensures EonFile(Some([header] + rows + [total])) == Written(recs)
  {
    forall i | 0 <= i < |rows| ensures EonRow(rows[i]) == Emit(recs[i]) {
      HourRowRead(hours[i], vals[i]);
    }
    TableRead(EonRow, header, rows, total, recs);
  }

  // ---- Selecting the downloaded files ----

  /** The path of the download for date `dt`, `dir + "/eon_" + dt + ".csv"`. */
  function EonPath(dir: string, dt: string): string
  {
    dir + "/eon_" + dt + ".csv"
  }

  /** The date `find_eon_csv_consumption_files` takes from a file name the glob found,
      `fi.split("_")[1].split(".")[0]`: the text between the first `_` of the whole path and
      the next `.`. */
  function NameDateAsWritten(name: string): string
    requires '_' in name
  {
    SplitPieces(name, '_');
    Split(Split(name, '_')[1], '.')[0]
  }

  /** The date as it is evidently meant: the text after `dir + "/eon_"` up to the first `.`. */
  function NameDate(dir: string, name: string): string
    requires |dir| + 5 <= |name|
  {
    Split(name[|dir| + 5..], '.')[0]
  }

  /** As written, a directory with a `_` in its path makes the date read from every file
      name the text after that `_` instead: the checked path then names no download, and the
      file is passed over. */
  lemma UnderscoreDirMisread(x: string, y: string, d: string)
    requires '_' !in x && '_' !in y && '.' !in y && '/' !in d
    ensures '_' in EonPath(x + "_" + y, d)
    ensures NameDateAsWritten(EonPath(x + "_" + y, d)) == y + "/eon"
    ensures NameDateAsWritten(EonPath(x + "_" + y, d)) != d
  {
    var rest := y + "/eon";
    assert '_' !in rest && '.' !in rest by {
      assert forall i :: 0 <= i < |rest| ==> rest[i] == (if i < |y| then y[i] else "/eon"[i - |y|]);
    }
    var name := EonPath(x + "_" + y, d);
    assert name == x + ['_'] + (rest + ['_'] + (d + ".csv"));
    SplitAppend(x, rest + ['_'] + (d + ".csv"), '_');
    SplitAppend(rest, d + ".csv", '_');
    SplitNoSep(x, '_');
    SplitNoSep(rest, '_');
    SplitNoSep(rest, '.');
    assert rest[|y|] == '/';
  }

  /** The corrected reading gives back the date of every download whose date has no `.`. */
  lemma NameDateRead(dir: string, d: string)
    requires '.' !in d
    ensures |dir| + 5 <= |EonPath(dir, d)|
    ensures NameDate(dir, EonPath(dir, d)) == d
  {
    var name := EonPath(dir, d);
    assert name[|dir| + 5..] == d + ['.'] + "csv";
    SplitTwo(d, "csv", '.');
  }

  /** How a date is read from a listed file name: as the program writes it
      (`NameDateAsWritten`) or as it is evidently meant (`NameDate`). */
  datatype DateReading = AsWritten | Corrected

  /** The date read from a name the glob `dir + "/eon_*"` returned. */
  function DateOf(reading: DateReading, dir: string, name: string): (dt: string)
    requires dir + "/eon_" <= name
    ensures reading == Corrected ==> dt == NameDate(dir, name)
  {
    match reading
    case AsWritten =>
      assert name[|dir| + 4] == (dir + "/eon_")[|dir| + 4] == '_';
      NameDateAsWritten(name)
    case Corrected => NameDate(dir, name)
  }

  /** A date whose download exists and that lies between `from` and `to`, by string order. */
  predicate Kept(dir: string, fs: string -> Option<seq<string>>, from: string, to: string, dt: string)
  {
    fs(EonPath(dir, dt)).Some? && LessEq(from, dt) && LessEq(dt, to)
  }

  /** The names the glob `dir + "/eon_*"` returns all begin with `dir + "/eon_"`. */
  predicate Globbed(dir: string, names: seq<string>)
  {
    forall i :: 0 <= i < |names| ==> dir + "/eon_" <= names[i]
  }

  /** The dates of the kept files, read from the names by `reading`, in the order the glob
      listed them. */
  function Selected(reading: DateReading, dir: string, names: seq<string>, fs: string -> Option<seq<string>>,
                    from: string, to: string): (r: seq<string>)
    requires Globbed(dir, names)
    ensures forall j :: 0 <= j < |r| ==> Kept(dir, fs, from, to, r[j])
    ensures forall i :: 0 <= i < |names| && Kept(dir, fs, from, to, DateOf(reading, dir, names[i])) ==>
      DateOf(reading, dir, names[i]) in r
  {
    if |names| == 0 then []
    else
      var init := names[..|names| - 1];
      assert forall i :: 0 <= i < |init| ==> init[i] == names[i];
      var dt := DateOf(reading, dir, names[|names| - 1]);
      Selected(reading, dir, init, fs, from, to) + (if Kept(dir, fs, from, to, dt) then [dt] else [])
  }

  /** Sorted by Python's string order. */
  predicate SortedDates(s: seq<string>)
  {
    forall i, j :: 0 <= i < j < |s| ==> LessEq(s[i], s[j])
  }

  /** `x` placed into a sorted list before the first element above it. */
  function Insert(s: seq<string>, x: string): (r: seq<string>)
    requires SortedDates(s)
    ensures SortedDates(r) && multiset(r) == multiset(s) + multiset{x}
  {
    if |s| == 0 then [x]
    else if LessEq(x, s[0]) then
      InsertFront(s, x);
      [x] + s
    else
      var t := Insert(s[1..], x);
      LessTrichotomy(x, s[0]);
      InsertBehind(s, x, t);
      assert s == [s[0]] + s[1..];
      [s[0]] + t
  }

  lemma InsertFront(s: seq<string>, x: string)
    requires SortedDates(s) && |s| > 0 && LessEq(x, s[0])
    ensures SortedDates([x] + s)
  {
    forall i, j | 0 <= i < j < |[x] + s| ensures LessEq(([x] + s)[i], ([x] + s)[j]) {
      if i == 0 && j > 1 {
        assert LessEq(s[0], s[j - 1]);
        if x != s[0] && s[0] != s[j - 1] { LessTransitive(x, s[0], s[j - 1]); }
      }
    }
  }

  lemma InsertBehind(s: seq<string>, x: string, t: seq<string>)
    requires SortedDates(s) && |s| > 0 && Less(s[0], x)
    requires SortedDates(t) && multiset(t) == multiset(s[1..]) + multiset{x}
    ensures SortedDates([s[0]] + t)
  {
    forall j | 0 <= j < |t| ensures LessEq(s[0], t[j]) {
      assert t[j] in multiset(t);
      if t[j] != x {
        assert t[j] in multiset(s[1..]);
        var k :| 0 <= k < |s[1..]| && s[1..][k] == t[j];
        assert s[k + 1] == t[j];
      }
    }
  }

  /** `list.sort()` on the dates: sorted, and the same dates. */
  function SortDates(s: seq<string>): (r: seq<string>)
    ensures SortedDates(r) && multiset(r) == multiset(s)
  {
    if |s| == 0 then []
    else
      assert s == s[..|s| - 1] + [s[|s| - 1]];
      Insert(SortDates(s[..|s| - 1]), s[|s| - 1])
  }

  /** `find_eon_csv_consumption_files`: the dates of the downloads between `from` and `to`,
      ascending. The program reads the dates `AsWritten`. */
  method FindEonFiles(reading: DateReading, dir: string, names: seq<string>, fs: string -> Option<seq<string>>,
                      from: string, to: string)
    returns (dates: seq<string>)
    requires Globbed(dir, names)
    ensures dates == SortDates(Selected(reading, dir, names, fs, from, to))
  {
    dates := [];
    var k := 0;
    while k < |names|
      invariant k <= |names| && Globbed(dir, names[..k])
      invariant dates == Selected(reading, dir, names[..k], fs, from, to)
    {
      var dt := DateOf(reading, dir, names[k]);
      assert names[..k + 1][..k] == names[..k];
      if Kept(dir, fs, from, to, dt) {
        dates := dates + [dt];
      }
      k := k + 1;
    }
    assert names[..k] == names;
    dates := SortDates(dates);
  }

  /** Exactly the kept dates are found, each as often as the glob lists it, in ascending
      order. */
  lemma FoundDates(reading: DateReading, dir: string, names: seq<string>, fs: string -> Option<seq<string>>,
                   from: string, to: string)
    requires Globbed(dir, names)
    ensures SortedDates(SortDates(Selected(reading, dir, names, fs, from, to)))
    ensures multiset(SortDates(Selected(reading, dir, names, fs, from, to))) == multiset(Selected(reading, dir, names, fs, from, to))
    ensures forall d :: d in SortDates(Selected(reading, dir, names, fs, from, to)) ==> Kept(dir, fs, from, to, d)
    ensures forall i :: 0 <= i < |names| && Kept(dir, fs, from, to, DateOf(reading, dir, names[i])) ==>
      DateOf(reading, dir, names[i]) in SortDates(Selected(reading, dir, names, fs, from, to))
  {
    var sel := Selected(reading, dir, names, fs, from, to);
    var r := SortDates(sel);
    forall d | d in r ensures Kept(dir, fs, from, to, d) {
      assert d in multiset(r);
      assert d in multiset(sel);
    }
    forall i | 0 <= i < |names| && Kept(dir, fs, from, to, DateOf(reading, dir, names[i]))
      ensures DateOf(reading, dir, names[i]) in r
    {
      assert DateOf(reading, dir, names[i]) in multiset(sel);
    }
  }

  /** Read as meant, every listed download whose date lies in the period is found. */
  lemma CorrectedFindsDownloads(dir: string, dates: seq<string>, fs: string -> Option<seq<string>>,
                                from: string, to: string)
    requires forall i :: 0 <= i < |dates| ==> '.' !in dates[i]
    ensures Globbed(dir, seq(|dates|, i requires 0 <= i < |dates| => EonPath(dir, dates[i])))
    ensures forall i :: 0 <= i < |dates| && Kept(dir, fs, from, to, dates[i]) ==>
      dates[i] in Selected(Corrected, dir, seq(|dates|, i requires 0 <= i < |dates| => EonPath(dir, dates[i])), fs, from, to)
  {
    var names := seq(|dates|, i requires 0 <= i < |dates| => EonPath(dir, dates[i]));
    forall i | 0 <= i < |names| ensures dir + "/eon_" <= names[i] && NameDate(dir, names[i]) == dates[i] {
      NameDateRead(dir, dates[i]);
    }
  }

  /** As written, a directory with a `_` in its path loses a download in the period that the
      corrected reading finds, when the path the misread date names holds no file. */
  lemma UnderscoreDirDropsDownload(x: string, y: string, d: string, fs: string -> Option<seq<string>>,
                                   from: string, to: string)
    requires '_' !in x && '_' !in y && '.' !in y && '/' !in d && '.' !in d
    requires Kept(x + "_" + y, fs, from, to, d) && fs(EonPath(x + "_" + y, y + "/eon")).None?
    ensures Globbed(x + "_" + y, [EonPath(x + "_" + y, d)])
    ensures Selected(AsWritten, x + "_" + y, [EonPath(x + "_" + y, d)], fs, from, to) == []
    ensures Selected(Corrected, x + "_" + y, [EonPath(x + "_" + y, d)], fs, from, to) == [d]
  {
    var dir := x + "_" + y;
    var names := [EonPath(dir, d)];
    assert dir + "/eon_" <= names[0];
    UnderscoreDirMisread(x, y, d);
    NameDateRead(dir, d);
    assert names[..0] == [];
  }

  // ---- Converting the downloads of a period ----

  /** What `convert_downloaded_eon_csv_files_to_generic_el_consumption_files` reports: no
      download in the period, the number of files converted, or the date and the row of the
      first file that could not be converted. */
  datatype BatchResult = NoEonFiles | Converted(count: nat) | StoppedAt(date: string, row: string, fault: EonFault)

  /** The outcome of converting the download of each date. */
  function FileOf(dir: string, fs: string -> Option<seq<string>>): string -> FileOutcome
  {
    dt => EonFile(fs(EonPath(dir, dt)))
  }

  /** The conversion of the files for `dates[k..]`, one after the other, where `outcome` gives
      what the conversion of each date's file yields. */
  function BatchFrom(outcome: string -> FileOutcome, dates: seq<string>, k: nat): (r: BatchResult)
    requires k <= |dates|
    ensures r.Converted? <==> forall i :: k <= i < |dates| ==> Succeeded(outcome(dates[i]))
    ensures r.Converted? ==> r.count == |dates|
    ensures !r.NoEonFiles?
    decreases |dates| - k
  {
    if k == |dates| then Converted(|dates|)
    else
      match outcome(dates[k])
      case Failed(row, f, _) => StoppedAt(dates[k], row, f)
      case _ => BatchFrom(outcome, dates, k + 1)
  }

  /** The whole batch over the dates found. */
  function Batch(dir: string, fs: string -> Option<seq<string>>, dates: seq<string>): BatchResult
  {
    if dates == [] then NoEonFiles else BatchFrom(FileOf(dir, fs), dates, 0)
  }

  /** The batch stops at the first file that fails: every file before it converted. */
  lemma {:induction false} BatchStops(outcome: string -> FileOutcome, dates: seq<string>, k: nat)
    requires k <= |dates|
    ensures BatchFrom(outcome, dates, k).StoppedAt? ==>
      (exists j :: k <= j < |dates| && dates[j] == BatchFrom(outcome, dates, k).date
        && outcome(dates[j]).Failed? && outcome(dates[j]).row == BatchFrom(outcome, dates, k).row
        && (forall i :: k <= i < j ==> Succeeded(outcome(dates[i]))))
    decreases |dates| - k
  {
    if k < |dates| && Succeeded(outcome(dates[k])) {
      BatchStops(outcome, dates, k + 1);
    }
  }

  /** `convert_downloaded_eon_csv_files_to_generic_el_consumption_files`: find the downloads
      of the period and convert them in date order, stopping at the first failure. */
  method ConvertDownloaded(reading: DateReading, dir: string, names: seq<string>, fs: string -> Option<seq<string>>,
                           from: string, to: string)
    returns (r: BatchResult)
    requires Globbed(dir, names)
    ensures r == Batch(dir, fs, SortDates(Selected(reading, dir, names, fs, from, to)))
  {
    var dates := FindEonFiles(reading, dir, names, fs, from, to);
    if dates == [] { return NoEonFiles; }
    var k := 0;
    while k < |dates|
      invariant k <= |dates|
      invariant BatchFrom(FileOf(dir, fs), dates, k) == BatchFrom(FileOf(dir, fs), dates, 0)
    {
      var o := ConvertEonFile(fs(EonPath(dir, dates[k])));
      if o.Failed? {
        return StoppedAt(dates[k], o.row, o.fault);
      }
      k := k + 1;
    }
    return Converted(|dates|);
  }
}
