/** The controller's status store (pgart_control_heating.py): a dictionary from a record name
    to the text `"<date> <field> <field> ..."`. The records are `start_update` (the write-ahead
    record of a pump update), `hourly_rate`, `top_rate`, `windchill` and `indoor_temp`. */
module Settings {
  import opened Text
  import opened PyNum
  import Strptime

  const StartUpdate: string := "start_update"
  const HourlyRate: string := "hourly_rate"
  const TopRate: string := "top_rate"
  const Windchill: string := "windchill"
  const IndoorTemp: string := "indoor_temp"

  /** The five record names differ from each other. */
  lemma RecordKeysDistinct()
    ensures StartUpdate != HourlyRate && StartUpdate != TopRate && StartUpdate != Windchill && StartUpdate != IndoorTemp
    ensures HourlyRate != TopRate && HourlyRate != Windchill && HourlyRate != IndoorTemp
    ensures TopRate != Windchill && TopRate != IndoorTemp && Windchill != IndoorTemp
  {
    assert StartUpdate[0] == 's' && HourlyRate[0] == 'h' && TopRate[0] == 't' && Windchill[0] == 'w' && IndoorTemp[0] == 'i';
  }

  /** A date as `strftime("%Y-%m-%d")` writes it. */
  predicate IsDate(d: string) {
    |d| == 10 && d[4] == '-' && d[7] == '-'
    && forall i :: 0 <= i < 10 && i != 4 && i != 7 ==> IsDigit(d[i])
  }

  /** The fields `get_setting` starts from: `"-"` for the date, then `"0"` for every field. */
  function DefaultFields(nrFields: nat): (f: seq<string>)
    ensures |f| == nrFields + 1 && f[0] == "-"
    ensures forall i :: 1 <= i <= nrFields ==> f[i] == "0"
  {
    ["-"] + seq(nrFields, _ => "0")
  }

  /** `get_setting(key, nr_fields)`: the default fields overlaid by the space-separated parts of
      the stored text; `None` where the text has more parts than fields (Python's `IndexError`). */
  function SettingFields(settings: map<string, string>, key: string, nrFields: nat): Option<seq<string>>
  {
    var d := DefaultFields(nrFields);
    if key !in settings then Some(d)
    else
      var parts := Split(settings[key], ' ');
      if |parts| > |d| then None else Some(parts + d[|parts|..])
  }

  /** What a `get_last_*_setting` wrapper returns: the date and two fields read as integers. */
  datatype LastRecord = LastRecord(date: string, hour: int, value: int)

  /** The record `key` read with `nrFields` fields: date, `int(hour)` and `int` of field `valueIx`;
      `None` where Python raises. */
  function LastSetting(settings: map<string, string>, key: string, nrFields: nat, valueIx: nat): Option<LastRecord>
    requires 1 <= valueIx <= nrFields
  {
    match SettingFields(settings, key, nrFields)
    case None => None
    case Some(f) =>
      var hr := ParseInt(f[1]);
      var v := ParseInt(f[valueIx]);
      if hr.Some? && v.Some? then Some(LastRecord(f[0], hr.value, v.value)) else None
  }

  function LastStartUpdate(settings: map<string, string>): Option<LastRecord> { LastSetting(settings, StartUpdate, 8, 2) }
  function LastHourlyRate(settings: map<string, string>): Option<LastRecord> { LastSetting(settings, HourlyRate, 2, 2) }
  function LastTopRate(settings: map<string, string>): Option<LastRecord> { LastSetting(settings, TopRate, 2, 2) }
  function LastWindchill(settings: map<string, string>): Option<LastRecord> { LastSetting(settings, Windchill, 5, 5) }
  function LastIndoorTemp(settings: map<string, string>): Option<LastRecord> { LastSetting(settings, IndoorTemp, 2, 2) }

  /** A readable record: present with a proper date, or absent (then read as `"-"`, 0, 0). */
  predicate Readable(r: Option<LastRecord>) {
    r.Some? && (r.value.date == "-" || IsDate(r.value.date))
  }

  /** The store as the controller leaves it: every record it reads back parses. */
  predicate ValidSettings(settings: map<string, string>) {
    Readable(LastStartUpdate(settings)) && Readable(LastHourlyRate(settings)) && Readable(LastTopRate(settings))
    && Readable(LastWindchill(settings)) && Readable(LastIndoorTemp(settings))
  }

  /** The value text `save_hourly_rate_setting`, `save_top_rate_setting` and
      `save_indoor_temp_setting` store: hour and temperature. */
  function HourTempText(hour: int, temp: int): string {
    IntToString(hour) + " " + IntToString(temp)
  }

  /** The value text `save_windchill_setting` stores. The apparent temperature and the
      difference are kept as the texts they were read from. */
  function WindchillText(hour: int, code: int, windchillTemp: string, tempDiff: string, increase: int): string {
    IntToString(hour) + " " + IntToString(code) + " " + windchillTemp + " " + tempDiff + " " + IntToString(increase)
  }

  /** The value text `save_start_update` stores: hour, temperature, then a note. */
  function StartUpdateText(hour: int, temp: int, note: string): string {
    IntToString(hour) + " " + IntToString(temp) + " " + note
  }

  /** A word of a record: non-empty and free of spaces. */
  predicate IsWord(w: string) { |w| >= 1 && ' ' !in w }

  lemma SplitTwo(a: string, b: string)
    requires ' ' !in a && ' ' !in b
    ensures Split(a + " " + b, ' ') == [a, b]
  {
    SplitAppend(a, b, ' ');
    SplitNoSep(a, ' ');
    SplitNoSep(b, ' ');
  }

  lemma SplitWords(a: string, rest: string)
    requires ' ' !in a
    ensures Split(a + " " + rest, ' ') == [a] + Split(rest, ' ')
  {
    SplitAppend(a, rest, ' ');
    SplitNoSep(a, ' ');
  }

  /** A stored text that splits into `parts` reads back as `parts` padded with the defaults. */
  lemma StoredFields(settings: map<string, string>, key: string, text: string, nrFields: nat, parts: seq<string>)
    requires Split(text, ' ') == parts && |parts| <= nrFields + 1
    ensures SettingFields(settings[key := text], key, nrFields) == Some(parts + DefaultFields(nrFields)[|parts|..])
  {
  }

  /** A record whose fields are the date, the hour and (at `valueIx`) the value reads back as them. */
  lemma StoredRecord(settings: map<string, string>, key: string, text: string, nrFields: nat, valueIx: nat,
                     parts: seq<string>, today: string, hour: int, value: int)
    requires Split(text, ' ') == parts && 1 <= valueIx <= nrFields && valueIx < |parts| <= nrFields + 1
    requires parts[0] == today && parts[1] == IntToString(hour) && parts[valueIx] == IntToString(value)
    ensures LastSetting(settings[key := text], key, nrFields, valueIx) == Some(LastRecord(today, hour, value))
  {
    StoredFields(settings, key, text, nrFields, parts);
    var f := parts + DefaultFields(nrFields)[|parts|..];
    assert f[0] == today && f[1] == IntToString(hour) && f[valueIx] == IntToString(value);
    ParseIntToString(hour);
    ParseIntToString(value);
  }

  lemma DateHasNoSpace(today: string)
    requires IsDate(today)
    ensures ' ' !in today
  {
    assert forall i :: 0 <= i < |today| ==> today[i] != ' ';
  }

  /** A record saved as `date hour temp` reads back as that date, hour and temperature. */
  lemma HourTempRoundTrip(settings: map<string, string>, key: string, today: string, hour: int, temp: int)
    requires IsDate(today)
    ensures LastSetting(settings[key := today + " " + HourTempText(hour, temp)], key, 2, 2) == Some(LastRecord(today, hour, temp))
  {
    IntToStringChars(hour);
    IntToStringChars(temp);
    DateHasNoSpace(today);
    var h, t := IntToString(hour), IntToString(temp);
    SplitWords(today, h + " " + t);
    SplitTwo(h, t);
    StoredRecord(settings, key, today + " " + HourTempText(hour, temp), 2, 2, [today, h, t], today, hour, temp);
  }

  /** The six fields of a windchill record. */
  lemma WindchillFields(today: string, h: string, c: string, w: string, d: string, inc: string)
    requires ' ' !in today && ' ' !in h && ' ' !in c && ' ' !in w && ' ' !in d && ' ' !in inc
    ensures Split(today + " " + (h + " " + c + " " + w + " " + d + " " + inc), ' ') == [today, h, c, w, d, inc]
  {
    var tail := d + " " + inc;
    var mid := w + " " + tail;
    var rest := c + " " + mid;
    var whole := h + " " + rest;
    SpacedAssoc(h + " " + c + " " + w, d, inc);
    SpacedAssoc(h + " " + c, w, tail);
    SpacedAssoc(h, c, mid);
    SplitTwo(d, inc);
    SplitWords(w, tail);
    SplitWords(c, mid);
    SplitWords(h, rest);
    SplitWords(today, whole);
  }

  /** A windchill record reads back as its date, hour and final increase. */
  lemma WindchillRoundTrip(settings: map<string, string>, today: string, hour: int, code: int,
                           windchillTemp: string, tempDiff: string, increase: int)
    requires IsDate(today) && IsWord(windchillTemp) && IsWord(tempDiff)
    ensures LastWindchill(settings[Windchill := today + " " + WindchillText(hour, code, windchillTemp, tempDiff, increase)])
            == Some(LastRecord(today, hour, increase))
  {
    IntToStringChars(hour);
    IntToStringChars(code);
    IntToStringChars(increase);
    DateHasNoSpace(today);
    var h, c, inc := IntToString(hour), IntToString(code), IntToString(increase);
    WindchillFields(today, h, c, windchillTemp, tempDiff, inc);
    StoredRecord(settings, Windchill, today + " " + WindchillText(hour, code, windchillTemp, tempDiff, increase), 5, 5,
                 [today, h, c, windchillTemp, tempDiff, inc], today, hour, increase);
  }

  /** The fields of a `start_update` record: date, hour, temperature, then the words of the note. */
  lemma StartUpdateFields(today: string, h: string, t: string, note: string)
    requires ' ' !in today && ' ' !in h && ' ' !in t
    ensures Split(today + " " + (h + " " + t + " " + note), ' ') == [today, h, t] + Split(note, ' ')
  {
    var rest := t + " " + note;
    var whole := h + " " + rest;
    SpacedAssoc(h, t, note);
    SplitWords(t, note);
    SplitWords(h, rest);
    SplitWords(today, whole);
  }

  /** A `start_update` record whose note has at most six words reads back as its date, hour and
      temperature. */
  lemma StartUpdateRoundTrip(settings: map<string, string>, today: string, hour: int, temp: int, note: string)
    requires IsDate(today) && |Split(note, ' ')| <= 6
    ensures LastStartUpdate(settings[StartUpdate := today + " " + StartUpdateText(hour, temp, note)])
            == Some(LastRecord(today, hour, temp))
  {
    IntToStringChars(hour);
    IntToStringChars(temp);
    DateHasNoSpace(today);
    var h, t := IntToString(hour), IntToString(temp);
    StartUpdateFields(today, h, t, note);
    StoredRecord(settings, StartUpdate, today + " " + StartUpdateText(hour, temp, note), 8, 2,
                 [today, h, t] + Split(note, ' '), today, hour, temp);
  }

  /** An absent record reads as `"-"`, hour 0, value 0. */
  lemma AbsentRecord(settings: map<string, string>, key: string, nrFields: nat, valueIx: nat)
    requires 1 <= valueIx <= nrFields && key !in settings
    ensures LastSetting(settings, key, nrFields, valueIx) == Some(LastRecord("-", 0, 0))
  {
    var f := DefaultFields(nrFields);
    assert SettingFields(settings, key, nrFields) == Some(f);
    assert f[1] == "0" && f[valueIx] == "0";
    assert IntToString(0) == "0";
    ParseIntToString(0);
  }

  class SettingsStore {
    var settings: map<string, string>

    predicate Valid()
      reads this
    {
      ValidSettings(settings)
    }

    constructor (initial: map<string, string>)
      ensures settings == initial
    {
      settings := initial;
    }

    /** `get_setting`. */
    method GetSetting(key: string, nrFields: nat) returns (fields: Option<seq<string>>)
      ensures fields == SettingFields(settings, key, nrFields)
    {
      var f := ["-"];
      var i := 0;
      while i < nrFields
        invariant 0 <= i <= nrFields && f == DefaultFields(i)
      {
        f := f + ["0"];
        i := i + 1;
      }
      assert f == DefaultFields(nrFields);
      if key in settings {
        var s := Split(settings[key], ' ');
        i := 0;
        while i < |s|
          invariant 0 <= i <= |s| && i <= |f| == nrFields + 1
          invariant f == s[..i] + DefaultFields(nrFields)[i..]
        {
          if i >= |f| {
            return None;
          }
          TakeNext(s, i);
          f := f[i := s[i]];
          i := i + 1;
        }
        assert s[..i] == s;
      }
      fields := Some(f);
    }

    /** `update_setting`: only `key` changes, to the date followed by the value. */
    method UpdateSetting(key: string, val: string, today: string)
      modifies this
      ensures settings == old(settings)[key := today + " " + val]
    {
      settings := settings[key := today + " " + val];
    }

    /** `remove_setting`: only `key` goes; an absent key leaves the store as it was. */
    method RemoveSetting(key: string)
      modifies this
      ensures settings == old(settings) - {key}
    {
      if key in settings {
        settings := settings - {key};
      }
    }

    method GetLast(key: string, nrFields: nat, valueIx: nat) returns (r: Option<LastRecord>)
      requires 1 <= valueIx <= nrFields
      ensures r == LastSetting(settings, key, nrFields, valueIx)
    {
      var fields := GetSetting(key, nrFields);
      if fields.None? {
        return None;
      }
      var hr := ParseInt(fields.value[1]);
      var v := ParseInt(fields.value[valueIx]);
      if hr.None? || v.None? {
        return None;
      }
      r := Some(LastRecord(fields.value[0], hr.value, v.value));
    }

    /** `save_start_update`. */
    method SaveStartUpdate(note: string, hour: int, temp: int, today: string)
      modifies this
      ensures settings == old(settings)[StartUpdate := today + " " + StartUpdateText(hour, temp, note)]
    {
      var val := IntToString(hour) + " " + IntToString(temp) + " " + note;
      UpdateSetting(StartUpdate, val, today);
    }

    /** `get_last_start_update`. */
    method GetLastStartUpdate() returns (r: Option<LastRecord>)
      ensures r == LastStartUpdate(settings)
    {
      r := GetLast(StartUpdate, 8, 2);
    }

    /** `remove_start_update`. */
    method RemoveStartUpdate()
      modifies this
      ensures settings == old(settings) - {StartUpdate}
    {
      RemoveSetting(StartUpdate);
    }

    /** `save_hourly_rate_setting`. */
    method SaveHourlyRateSetting(hour: int, temp: int, today: string)
      modifies this
      ensures settings == old(settings)[HourlyRate := today + " " + HourTempText(hour, temp)]
    {
      var val := IntToString(hour) + " " + IntToString(temp);
      UpdateSetting(HourlyRate, val, today);
    }

    /** `get_last_hourly_rate_setting`. */
    method GetLastHourlyRateSetting() returns (r: Option<LastRecord>)
      ensures r == LastHourlyRate(settings)
    {
      r := GetLast(HourlyRate, 2, 2);
    }

    /** `remove_hourly_rate_setting`. */
    method RemoveHourlyRateSetting()
      modifies this
      ensures settings == old(settings) - {HourlyRate}
    {
      RemoveSetting(HourlyRate);
    }

    /** `save_top_rate_setting`. */
    method SaveTopRateSetting(hour: int, temp: int, today: string)
      modifies this
      ensures settings == old(settings)[TopRate := today + " " + HourTempText(hour, temp)]
    {
      var val := IntToString(hour) + " " + IntToString(temp);
      UpdateSetting(TopRate, val, today);
    }

    /** `get_last_top_rate_setting`. */
    method GetLastTopRateSetting() returns (r: Option<LastRecord>)
      ensures r == LastTopRate(settings)
    {
      r := GetLast(TopRate, 2, 2);
    }

    /** `remove_top_rate_setting`. */
    method RemoveTopRateSetting()
      modifies this
      ensures settings == old(settings) - {TopRate}
    {
      RemoveSetting(TopRate);
    }

    /** `save_windchill_setting`. */
    method SaveWindchillSetting(hour: int, code: int, windchillTemp: string, tempDiff: string, increase: int, today: string)
      modifies this
      ensures settings == old(settings)[Windchill := today + " " + WindchillText(hour, code, windchillTemp, tempDiff, increase)]
    {
      var val := IntToString(hour) + " " + IntToString(code) + " " + windchillTemp + " " + tempDiff + " " + IntToString(increase);
      UpdateSetting(Windchill, val, today);
    }

    /** `get_last_windchill_setting`: the value is the sixth field, the final increase. */
    method GetLastWindchillSetting() returns (r: Option<LastRecord>)
      ensures r == LastWindchill(settings)
    {
      r := GetLast(Windchill, 5, 5);
    }

    /** `remove_windchill_setting`. */
    method RemoveWindchillSetting()
      modifies this
      ensures settings == old(settings) - {Windchill}
    {
      RemoveSetting(Windchill);
    }

    /** `save_indoor_temp_setting`. */
    method SaveIndoorTempSetting(hour: int, temp: int, today: string)
      modifies this
      ensures settings == old(settings)[IndoorTemp := today + " " + HourTempText(hour, temp)]
    {
      var val := IntToString(hour) + " " + IntToString(temp);
      UpdateSetting(IndoorTemp, val, today);
    }

    /** `get_last_indoor_temp_setting`. */
    method GetLastIndoorTempSetting() returns (r: Option<LastRecord>)
      ensures r == LastIndoorTemp(settings)
    {
      r := GetLast(IndoorTemp, 2, 2);
    }

    /** `remove_indoor_temp_setting`. */
    method RemoveIndoorTempSetting()
      modifies this
      ensures settings == old(settings) - {IndoorTemp}
    {
      RemoveSetting(IndoorTemp);
    }

    /** `remove_obsolete_indoor_temp_setting`: an `indoor_temp` record from an earlier day than
        `today` goes. Both dates go through `strptime`, so a record whose date is shaped right but
        names no day (`2023-02-30`) makes it raise (`raised`), and then nothing changes. */
    method RemoveObsoleteIndoorTempSetting(today: string) returns (raised: bool)
      requires Valid() && Strptime.DateParses(today)
      modifies this
      ensures Valid()
      ensures var r := LastIndoorTemp(old(settings)).value;
              raised <==> r.date != "-" && !Strptime.DateParses(r.date)
      ensures var r := LastIndoorTemp(old(settings)).value;
              settings == if r.date != "-" && Strptime.DateParses(r.date)
                             && Strptime.Before(Strptime.ParseDate(r.date).value, Strptime.ParseDate(today).value)
                          then old(settings) - {IndoorTemp} else old(settings)
    {
      var r := GetLastIndoorTempSetting();
      if r.value.date == "-" {
        return false;
      }
      var saved := Strptime.ParseDate(r.value.date);
      if saved.None? {
        return true;
      }
      if Strptime.Before(saved.value, Strptime.ParseDate(today).value) {
        RemoveIndoorTempSetting();
        RemovePreservesValid(old(settings), IndoorTemp);
      }
      return false;
    }

    /** `remove_now_obsolete_settings`. */
    method RemoveNowObsoleteSettings()
      modifies this
      ensures settings == old(settings) - {HourlyRate, TopRate, Windchill}
    {
      RemoveHourlyRateSetting();
      RemoveTopRateSetting();
      RemoveWindchillSetting();
    }
  }

  /** A record reads the same from two stores that agree on it. */
  lemma SameRecord(s1: map<string, string>, s2: map<string, string>, key: string, nrFields: nat, valueIx: nat)
    requires 1 <= valueIx <= nrFields
    requires (key in s1 <==> key in s2) && (key in s1 ==> s1[key] == s2[key])
    ensures LastSetting(s1, key, nrFields, valueIx) == LastSetting(s2, key, nrFields, valueIx)
  {
    assert SettingFields(s1, key, nrFields) == SettingFields(s2, key, nrFields);
  }

  /** A readable record stays readable in a store that agrees on it or no longer holds it. */
  lemma RecordAfterChange(s1: map<string, string>, s2: map<string, string>, key: string, nrFields: nat, valueIx: nat,
                          changed: string)
    requires 1 <= valueIx <= nrFields
    requires Readable(LastSetting(s1, key, nrFields, valueIx))
    requires forall k :: k != changed ==> (k in s1 <==> k in s2) && (k in s1 ==> s1[k] == s2[k])
    requires key == changed ==> key !in s2 || Readable(LastSetting(s2, key, nrFields, valueIx))
    ensures Readable(LastSetting(s2, key, nrFields, valueIx))
  {
    if key == changed {
      if key !in s2 {
        AbsentRecord(s2, key, nrFields, valueIx);
      }
    } else {
      SameRecord(s1, s2, key, nrFields, valueIx);
    }
  }

  lemma RemoveAgrees(settings: map<string, string>, key: string)
    ensures key !in settings - {key}
    ensures forall k :: k != key ==>
      (k in settings <==> k in settings - {key}) && (k in settings ==> settings[k] == (settings - {key})[k])
  {
  }

  lemma UpdateAgrees(settings: map<string, string>, key: string, text: string)
    ensures forall k :: k != key ==>
      (k in settings <==> k in settings[key := text]) && (k in settings ==> settings[k] == settings[key := text][k])
  {
  }

  /** Removing a record keeps the store readable. */
  lemma RemovePreservesValid(settings: map<string, string>, key: string)
    requires ValidSettings(settings)
    ensures ValidSettings(settings - {key})
  {
    var s := settings - {key};
    RemoveAgrees(settings, key);
    RecordAfterChange(settings, s, StartUpdate, 8, 2, key);
    RecordAfterChange(settings, s, HourlyRate, 2, 2, key);
    RecordAfterChange(settings, s, TopRate, 2, 2, key);
    RecordAfterChange(settings, s, Windchill, 5, 5, key);
    RecordAfterChange(settings, s, IndoorTemp, 2, 2, key);
  }

  /** A readable record stays readable when a set of records is removed. */
  lemma RecordAfterRemoval(settings: map<string, string>, keys: set<string>, key: string, nrFields: nat, valueIx: nat)
    requires 1 <= valueIx <= nrFields
    requires Readable(LastSetting(settings, key, nrFields, valueIx))
    ensures Readable(LastSetting(settings - keys, key, nrFields, valueIx))
  {
    if key in keys {
      AbsentRecord(settings - keys, key, nrFields, valueIx);
    } else {
      SameRecord(settings, settings - keys, key, nrFields, valueIx);
    }
  }

  /** Removing any set of records keeps the store readable. */
  lemma RemoveKeysPreservesValid(settings: map<string, string>, keys: set<string>)
    requires ValidSettings(settings)
    ensures ValidSettings(settings - keys)
  {
    RecordAfterRemoval(settings, keys, StartUpdate, 8, 2);
    RecordAfterRemoval(settings, keys, HourlyRate, 2, 2);
    RecordAfterRemoval(settings, keys, TopRate, 2, 2);
    RecordAfterRemoval(settings, keys, Windchill, 5, 5);
    RecordAfterRemoval(settings, keys, IndoorTemp, 2, 2);
  }

  lemma RemoveNothing(settings: map<string, string>)
    ensures settings - {} == settings
  {
  }

  /** A record written and then removed leaves no trace beside a write to another record. */
  lemma WriteThenRemove(settings: map<string, string>, a: string, x: string, b: string, y: string)
    requires a != b
    ensures settings[a := x][b := y] - {a} == settings[b := y] - {a}
  {
  }

  /** Removing other records leaves a record as it was. */
  lemma RemoveOthers(settings: map<string, string>, keys: set<string>, key: string)
    requires key !in keys
    ensures key in settings - keys <==> key in settings
    ensures key in settings ==> (settings - keys)[key] == settings[key]
  {
  }

  /** Writing one record leaves every other record reading as before. */
  lemma UpdateKeepsRecord(settings: map<string, string>, changed: string, text: string, key: string, nrFields: nat, valueIx: nat)
    requires 1 <= valueIx <= nrFields && changed != key
    ensures LastSetting(settings[changed := text], key, nrFields, valueIx) == LastSetting(settings, key, nrFields, valueIx)
  {
    SameRecord(settings, settings[changed := text], key, nrFields, valueIx);
  }

  /** A write to one of a set of records is invisible outside that set. */
  lemma WriteInside(settings: map<string, string>, key: string, text: string, keys: set<string>)
    requires key in keys
    ensures settings[key := text] - keys == settings - keys
  {
  }

  /** Stores equal outside a set of records agree on every record outside it. */
  lemma AgreeOutside(s1: map<string, string>, s2: map<string, string>, keys: set<string>, key: string)
    requires s1 - keys == s2 - keys && key !in keys
    ensures key in s1 <==> key in s2
    ensures key in s1 ==> s1[key] == s2[key]
  {
    assert key in s1 <==> key in s1 - keys;
    assert key in s2 <==> key in s2 - keys;
    if key in s1 {
      assert s1[key] == (s1 - keys)[key];
      assert s2[key] == (s2 - keys)[key];
    }
  }

  /** Two removals in a row remove the union. */
  lemma RemoveTwice(settings: map<string, string>, a: set<string>, b: set<string>)
    ensures settings - a - b == settings - (a + b)
  {
  }

  /** Saving an hour-and-temperature record keeps the store readable. */
  lemma SaveHourTempPreservesValid(settings: map<string, string>, key: string, today: string, hour: int, temp: int)
    requires ValidSettings(settings) && IsDate(today) && (key == HourlyRate || key == TopRate || key == IndoorTemp)
    ensures ValidSettings(settings[key := today + " " + HourTempText(hour, temp)])
  {
    var s := settings[key := today + " " + HourTempText(hour, temp)];
    HourTempRoundTrip(settings, key, today, hour, temp);
    assert Readable(LastSetting(s, key, 2, 2));
    UpdateAgrees(settings, key, today + " " + HourTempText(hour, temp));
    assert key != StartUpdate && key != Windchill;
    RecordAfterChange(settings, s, StartUpdate, 8, 2, key);
    RecordAfterChange(settings, s, HourlyRate, 2, 2, key);
    RecordAfterChange(settings, s, TopRate, 2, 2, key);
    RecordAfterChange(settings, s, Windchill, 5, 5, key);
    RecordAfterChange(settings, s, IndoorTemp, 2, 2, key);
  }

  /** Saving a windchill record keeps the store readable. */
  lemma SaveWindchillPreservesValid(settings: map<string, string>, today: string, hour: int, code: int,
                                    windchillTemp: string, tempDiff: string, increase: int)
    requires ValidSettings(settings) && IsDate(today) && IsWord(windchillTemp) && IsWord(tempDiff)
    ensures ValidSettings(settings[Windchill := today + " " + WindchillText(hour, code, windchillTemp, tempDiff, increase)])
  {
    var s := settings[Windchill := today + " " + WindchillText(hour, code, windchillTemp, tempDiff, increase)];
    WindchillRoundTrip(settings, today, hour, code, windchillTemp, tempDiff, increase);
    RecordAfterChange(settings, s, StartUpdate, 8, 2, Windchill);
    RecordAfterChange(settings, s, HourlyRate, 2, 2, Windchill);
    RecordAfterChange(settings, s, TopRate, 2, 2, Windchill);
    RecordAfterChange(settings, s, Windchill, 5, 5, Windchill);
    RecordAfterChange(settings, s, IndoorTemp, 2, 2, Windchill);
  }

  /** Saving a `start_update` record keeps the store readable. */
  lemma SaveStartUpdatePreservesValid(settings: map<string, string>, today: string, hour: int, temp: int, note: string)
    requires ValidSettings(settings) && IsDate(today) && |Split(note, ' ')| <= 6
    ensures ValidSettings(settings[StartUpdate := today + " " + StartUpdateText(hour, temp, note)])
  {
    var s := settings[StartUpdate := today + " " + StartUpdateText(hour, temp, note)];
    StartUpdateRoundTrip(settings, today, hour, temp, note);
    RecordAfterChange(settings, s, StartUpdate, 8, 2, StartUpdate);
    RecordAfterChange(settings, s, HourlyRate, 2, 2, StartUpdate);
    RecordAfterChange(settings, s, TopRate, 2, 2, StartUpdate);
    RecordAfterChange(settings, s, Windchill, 5, 5, StartUpdate);
    RecordAfterChange(settings, s, IndoorTemp, 2, 2, StartUpdate);
  }
}
