/** `set_new_indoor_temp` (pgart_control_heating.py): the hourly decision that combines the day's
    schedule, the rate adjusters and the windchill adjuster into a new indoor setpoint for the
    heat pump, guarded by a write-ahead `start_update` record. */
module HeatingControl {
  import opened Text
  import opened PyNum
  import opened PyDict
  import opened Settings
  import opened HeatingAdjust
  import RateSchedule

  /** The highest setpoint the controller ever writes. */
  const MaxIndoorTemp := 25

  /** How a run ends. `Crashed`: an adjuster raised. `ManualOverride`: the pump was set by hand
      since the last run, so it is left alone. `Idle`: nothing to do this hour.
      `Applied`: the new setpoint is recorded, and written to the pump where it differs.
      `PumpWriteFailed`: writing the pump failed and the run stopped after the write-ahead record. */
  datatype Outcome = Crashed | ManualOverride | Idle | Applied(newTemp: int, pumpWritten: bool) | PumpWriteFailed(newTemp: int)

  /** The usage tag asks to take back an earlier decrease (`find("reset_hour") != -1`). */
  predicate RateResetting(r: RateResult) {
    r.usage.tag == RateReset || r.usage.tag == RateResetPaus
  }

  /** The usage is exactly `set_hour`. */
  predicate RateSetting(r: RateResult) {
    r.usage.tag == RateSet && r.usage.tooLow.None?
  }

  /** The setpoint an active run arrives at. A scheduled hour starts from the schedule with the
      stored amounts forgotten; any other hour starts from the pump's value with taken-back
      amounts undone. A `set_hour` then applies only the change from the stored amount. The night
      run (the day's last scheduled hour) ignores both adjusters. The result is capped at 25. */
  function Setpoint(scheduled: Option<int>, night: bool, pump: int, rate: RateResult, wind: WindResult): (t: int)
    ensures t <= MaxIndoorTemp
  {
    var rate' := if night then RateResult(RateUsage(RateOff, None), 0, rate.last) else rate;
    var wind' := if night then WindResult(WindOff, 0, wind.last) else wind;
    var base := match scheduled
      case Some(s) => s
      case None => pump + (if RateResetting(rate') then rate'.decrease else 0) - (if wind'.usage == WindReset then wind'.increase else 0);
    var lastDecrease := if scheduled.Some? then 0 else rate'.last;
    var lastIncrease := if scheduled.Some? then 0 else wind'.last;
    var t1 := if RateSetting(rate') then base + lastDecrease - rate'.decrease else base;
    var t2 := if wind'.usage == WindSet then t1 + wind'.increase - lastIncrease else t1;
    if t2 > MaxIndoorTemp then MaxIndoorTemp else t2
  }

  /** The night run sets the scheduled temperature, capped at 25, whatever the adjusters said. */
  lemma NightRunUsesSchedule(s: int, pump: int, rate: RateResult, wind: WindResult)
    ensures Setpoint(Some(s), true, pump, rate, wind) == if s > MaxIndoorTemp then MaxIndoorTemp else s
  {
  }

  /** An unscheduled hour whose adjustments equal the stored ones leaves the pump's value as it
      is (up to the cap). */
  lemma UnchangedAdjustmentIsNoOp(pump: int, rate: RateResult, wind: WindResult)
    requires RateSetting(rate) && rate.decrease == rate.last
    requires wind.usage == WindSet && wind.increase == wind.last
    ensures Setpoint(None, false, pump, rate, wind) == if pump > MaxIndoorTemp then MaxIndoorTemp else pump
  {
  }

  /** A decrease set in one unscheduled hour is undone by the reset of the next: the pump returns
      to the temperature it had before. */
  lemma SetThenResetRestores(pump: int, d: int, cfg: Config)
    requires pump <= MaxIndoorTemp && d >= 1 && d == cfg.decreaseGrades
    ensures var first := Setpoint(None, false, pump, RateResult(RateUsage(RateSet, None), d, 0), WindResult(WindOff, 0, 0));
            first == pump - d
            && Setpoint(None, false, first, RateResult(RateUsage(RateReset, None), d, d), WindResult(WindOff, 0, 0)) == pump
  {
  }

  /** An increase set in one unscheduled hour is undone by the reset of the next. */
  lemma IncreaseThenResetRestores(pump: int, inc: int)
    requires 0 <= inc && pump + inc <= MaxIndoorTemp
    ensures var first := Setpoint(None, false, pump, RateDefault, WindResult(WindSet, inc, 0));
            first == pump + inc
            && Setpoint(None, false, first, RateDefault, WindResult(WindReset, inc, inc)) == pump
  {
  }

  /** The word for a rate decision's tag. */
  function RateTagText(t: RateTag): (s: string)
    ensures ' ' !in s && '=' !in s
  {
    match t
    case RateOff => "off"
    case RateSet => "set_hour"
    case RateReset => "reset_hour"
    case RatePaus => "hour_rate_paus"
    case RateResetPaus => "reset_hour:hour_rate_paus"
  }

  /** `hr_rate_usage`: the tag, and after `:rate_too_low=` the price per kWh that was too low,
      written as `str(round(price / 100, 2))`. */
  function RateUsageText(u: RateUsage): (s: string)
    ensures ' ' !in s
    ensures '=' in s <==> u.tooLow.Some?
  {
    var tag := RateTagText(u.tag);
    if u.tooLow.Some? then
      var price := HundredthsText(u.tooLow.value);
      assert (tag + ":rate_too_low=" + price)[|tag| + 13] == '=';
      tag + ":rate_too_low=" + price
    else
      tag
  }

  /** The price after `=` reads back with `float` as the rounded price that was too low. */
  lemma TooLowPriceReadBack(u: RateUsage)
    requires u.tooLow.Some? && 0.0 <= u.tooLow.value
    requires (u.tooLow.value * 100.0).Floor as real == u.tooLow.value * 100.0
    ensures var parts := Split(RateUsageText(u), '=');
            |parts| == 2 && ParseFloat(parts[1]) == Some(Finite(u.tooLow.value))
  {
    var head, price := RateTagText(u.tag) + ":rate_too_low", HundredthsText(u.tooLow.value);
    assert RateUsageText(u) == head + "=" + price;
    assert '=' !in price;
    Text.SplitTwo(head, price, '=');
    HundredthsRoundTrip(u.tooLow.value);
  }

  function WindUsageText(w: WindTag): (s: string)
    ensures ' ' !in s
  {
    match w
    case WindOff => "off"
    case WindSet => "set_hour"
    case WindReset => "reset_hour"
  }

  /** Five words joined by single spaces. */
  function Sentence(w1: string, w2: string, w3: string, w4: string, w5: string): string {
    w1 + " " + (w2 + " " + (w3 + " " + (w4 + " " + w5)))
  }

  /** The note of the write-ahead record: the usages and amounts of both adjusters, and the
      setpoint to retry should this run fail. */
  function UpdateNote(rateUsage: string, decrease: int, windUsage: string, increase: int, newTemp: int): string
  {
    Sentence("hr_rate_usage:" + rateUsage, "hr_rate_temp_decr/incr:" + IntToString(decrease),
             "windchill_temp_usage:" + windUsage, "windchill_temp_incr/decr:" + IntToString(increase),
             "if_new_failure_this_temp:" + IntToString(newTemp))
  }

  lemma SentenceWords(w1: string, w2: string, w3: string, w4: string, w5: string)
    requires ' ' !in w1 && ' ' !in w2 && ' ' !in w3 && ' ' !in w4 && ' ' !in w5
    ensures Split(Sentence(w1, w2, w3, w4, w5), ' ') == [w1, w2, w3, w4, w5]
  {
    SplitNoSep(w5, ' ');
    SplitWords(w4, w5);
    SplitWords(w3, w4 + " " + w5);
    SplitWords(w2, w3 + " " + (w4 + " " + w5));
    SplitWords(w1, w2 + " " + (w3 + " " + (w4 + " " + w5)));
  }

  /** A label followed by a value is one word when neither holds a space. */
  lemma LabelledWord(tag: string, v: string)
    requires ' ' !in tag && ' ' !in v
    ensures ' ' !in tag + v
  {
  }

  lemma NoteLabels()
    ensures ' ' !in "hr_rate_usage:" && ' ' !in "hr_rate_temp_decr/incr:" && ' ' !in "windchill_temp_usage:"
    ensures ' ' !in "windchill_temp_incr/decr:" && ' ' !in "if_new_failure_this_temp:"
  {
  }

  lemma UpdateNoteWords(rateUsage: string, decrease: int, windUsage: string, increase: int, newTemp: int)
    requires ' ' !in rateUsage && ' ' !in windUsage
    ensures |Split(UpdateNote(rateUsage, decrease, windUsage, increase, newTemp), ' ')| == 5
  {
    NoteLabels();
    var d, i, t := IntToString(decrease), IntToString(increase), IntToString(newTemp);
    IntToStringChars(decrease);
    IntToStringChars(increase);
    IntToStringChars(newTemp);
    LabelledWord("hr_rate_usage:", rateUsage);
    LabelledWord("hr_rate_temp_decr/incr:", d);
    LabelledWord("windchill_temp_usage:", windUsage);
    LabelledWord("windchill_temp_incr/decr:", i);
    LabelledWord("if_new_failure_this_temp:", t);
    SentenceWords("hr_rate_usage:" + rateUsage, "hr_rate_temp_decr/incr:" + d,
                  "windchill_temp_usage:" + windUsage, "windchill_temp_incr/decr:" + i,
                  "if_new_failure_this_temp:" + t);
  }

  /** The store after a completed update: no write-ahead record, and `indoor_temp` holds the
      setpoint of this hour. */
  predicate UpdateCompleted(settings: map<string, string>, today: string, hour: int, newTemp: int) {
    StartUpdate !in settings && LastIndoorTemp(settings) == Some(LastRecord(today, hour, newTemp))
  }

  /** The write-ahead record, saved before the pump is touched. */
  method WriteAhead(store: SettingsStore, note: string, hour: int, today: string, newTemp: int)
    requires store.Valid() && IsDate(today) && |Split(note, ' ')| <= 6
    modifies store
    ensures store.Valid()
    ensures store.settings == old(store.settings)[StartUpdate := today + " " + StartUpdateText(hour, newTemp, note)]
    ensures LastStartUpdate(store.settings) == Some(LastRecord(today, hour, newTemp))
  {
    ghost var s0 := store.settings;
    store.SaveStartUpdate(note, hour, newTemp, today);
    SaveStartUpdatePreservesValid(s0, today, hour, newTemp, note);
    StartUpdateRoundTrip(s0, today, hour, newTemp, note);
  }

  lemma CompletedRecords(settings: map<string, string>, today: string, hour: int, newTemp: int)
    requires IsDate(today)
    ensures UpdateCompleted(settings[IndoorTemp := today + " " + HourTempText(hour, newTemp)] - {StartUpdate}, today, hour, newTemp)
  {
    var s1 := settings[IndoorTemp := today + " " + HourTempText(hour, newTemp)];
    RecordKeysDistinct();
    HourTempRoundTrip(settings, IndoorTemp, today, hour, newTemp);
    RemoveOthers(s1, {StartUpdate}, IndoorTemp);
    SameRecord(s1, s1 - {StartUpdate}, IndoorTemp, 2, 2);
  }

  /** The completion of an update: the `indoor_temp` record, then the write-ahead record goes. */
  method CompleteUpdate(store: SettingsStore, hour: int, today: string, newTemp: int)
    requires store.Valid() && IsDate(today)
    modifies store
    ensures store.Valid()
    ensures store.settings == old(store.settings)[IndoorTemp := today + " " + HourTempText(hour, newTemp)] - {StartUpdate}
    ensures UpdateCompleted(store.settings, today, hour, newTemp)
  {
    ghost var s0 := store.settings;
    store.SaveIndoorTempSetting(hour, newTemp, today);
    SaveHourTempPreservesValid(s0, IndoorTemp, today, hour, newTemp);
    ghost var s1 := store.settings;
    store.RemoveStartUpdate();
    RemovePreservesValid(s1, StartUpdate);
    CompletedRecords(s0, today, hour, newTemp);
  }

  /** The end of every run that sets a value: the write-ahead record, the pump write where the
      value differs, then the completion. A failed pump write stops the run with the write-ahead
      record in place. */
  method FinishUpdate(store: SettingsStore, note: string, hour: int, today: string, newTemp: int, current: int, pumpWriteOk: bool)
    returns (outcome: Outcome)
    requires store.Valid() && IsDate(today) && |Split(note, ' ')| <= 6
    modifies store
    ensures store.Valid()
    ensures outcome == if newTemp != current && !pumpWriteOk then PumpWriteFailed(newTemp) else Applied(newTemp, newTemp != current)
    ensures outcome.PumpWriteFailed? ==>
              store.settings == old(store.settings)[StartUpdate := today + " " + StartUpdateText(hour, newTemp, note)]
              && LastStartUpdate(store.settings) == Some(LastRecord(today, hour, newTemp))
    ensures outcome.Applied? ==>
              store.settings == old(store.settings)[StartUpdate := today + " " + StartUpdateText(hour, newTemp, note)]
                                                   [IndoorTemp := today + " " + HourTempText(hour, newTemp)] - {StartUpdate}
              && UpdateCompleted(store.settings, today, hour, newTemp)
  {
    WriteAhead(store, note, hour, today, newTemp);
    if newTemp != current && !pumpWriteOk {
      return PumpWriteFailed(newTemp);
    }
    CompleteUpdate(store, hour, today, newTemp);
    outcome := Applied(newTemp, newTemp != current);
  }

  /** A record absent before an update is absent after it, unless it is `indoor_temp`. */
  lemma AbsentAfterUpdate(settings: map<string, string>, key: string, x: string, y: string)
    requires key !in settings && key != IndoorTemp
    ensures key !in settings[StartUpdate := x][IndoorTemp := y] - {StartUpdate}
  {
  }

  /** Removals of the night run: the three adjustment records and `indoor_temp`. */
  method NightRemovals(store: SettingsStore)
    requires store.Valid()
    modifies store
    ensures store.Valid()
    ensures store.settings == old(store.settings) - ({HourlyRate, TopRate, Windchill} + {IndoorTemp})
    ensures HourlyRate !in store.settings && TopRate !in store.settings && Windchill !in store.settings
  {
    ghost var s0 := store.settings;
    store.RemoveNowObsoleteSettings();
    store.RemoveIndoorTempSetting();
    RemoveTwice(s0, {HourlyRate, TopRate, Windchill}, {IndoorTemp});
    RemoveKeysPreservesValid(s0, {HourlyRate, TopRate, Windchill} + {IndoorTemp});
  }

  /** Removals on a manual override: the three adjustment records and `start_update`. */
  method OverrideRemovals(store: SettingsStore)
    requires store.Valid()
    modifies store
    ensures store.Valid()
    ensures store.settings == old(store.settings) - ({HourlyRate, TopRate, Windchill} + {StartUpdate})
    ensures HourlyRate !in store.settings && TopRate !in store.settings && Windchill !in store.settings
            && StartUpdate !in store.settings
    ensures IndoorTemp in store.settings <==> IndoorTemp in old(store.settings)
    ensures IndoorTemp in store.settings ==> store.settings[IndoorTemp] == old(store.settings)[IndoorTemp]
  {
    ghost var s0 := store.settings;
    store.RemoveNowObsoleteSettings();
    store.RemoveStartUpdate();
    RemoveTwice(s0, {HourlyRate, TopRate, Windchill}, {StartUpdate});
    RemoveKeysPreservesValid(s0, {HourlyRate, TopRate, Windchill} + {StartUpdate});
    OverrideKeepsIndoorTemp(s0);
  }

  lemma OverrideKeepsIndoorTemp(settings: map<string, string>)
    ensures var s := settings - ({HourlyRate, TopRate, Windchill} + {StartUpdate});
            HourlyRate !in s && TopRate !in s && Windchill !in s && StartUpdate !in s
            && (IndoorTemp in s <==> IndoorTemp in settings)
            && (IndoorTemp in s ==> s[IndoorTemp] == settings[IndoorTemp])
  {
    RecordKeysDistinct();
    RemoveOthers(settings, {HourlyRate, TopRate, Windchill} + {StartUpdate}, IndoorTemp);
  }

  /** The records a taken-back adjustment forgets: both rate records for a rate reset, the
      windchill record for a windchill reset. */
  function ResetKeys(rateReset: bool, windReset: bool): set<string> {
    (if rateReset then {HourlyRate} + {TopRate} else {}) + (if windReset then {Windchill} else {})
  }

  method ResetRemovals(store: SettingsStore, rateReset: bool, windReset: bool)
    requires store.Valid()
    modifies store
    ensures store.Valid()
    ensures store.settings == old(store.settings) - ResetKeys(rateReset, windReset)
    ensures store.settings.Keys <= old(store.settings).Keys
  {
    ghost var s0 := store.settings;
    ghost var rateKeys: set<string> := if rateReset then {HourlyRate} + {TopRate} else {};
    ghost var windKeys: set<string> := if windReset then {Windchill} else {};
    if rateReset {
      store.RemoveHourlyRateSetting();
      store.RemoveTopRateSetting();
      RemoveTwice(s0, {HourlyRate}, {TopRate});
    } else {
      RemoveNothing(s0);
    }
    assert store.settings == s0 - rateKeys;
    ghost var s1 := store.settings;
    if windReset {
      store.RemoveWindchillSetting();
    } else {
      RemoveNothing(s1);
    }
    assert store.settings == s1 - windKeys;
    RemoveTwice(s0, rateKeys, windKeys);
    assert store.settings == s0 - (rateKeys + windKeys);
    RemoveKeysPreservesValid(s0, rateKeys + windKeys);
  }

  /** The inputs of one run besides the store. `pump` is the value the pump reports,
      `ratesActive` says whether the hourly rates were loaded, `windchillActive` whether windchill
      compensation is on, and `pumpWriteOk` whether writing the pump succeeds. */
  datatype RunInput = RunInput(
    schedule: map<int, int>, hour: int, today: string, tomorrow: string, cfg: Config,
    rates: seq<(int, real)>, windows: seq<(int, int)>, forecast: Forecast,
    pump: int, ratesActive: bool, windchillActive: bool, pumpWriteOk: bool)

  predicate WellFormed(input: RunInput) {
    ScheduleHours(input.schedule) && 0 <= input.hour < 24 && IsDate(input.today)
    && DistinctKeys(input.rates) && ForecastTexts(input.forecast)
  }

  predicate Active(input: RunInput) {
    input.hour in input.schedule || input.ratesActive || input.windchillActive
  }

  /** The rate usage a run acts on: the night run turns it off. */
  function RateNow(rate: RateResult, night: bool): RateResult {
    if night then RateResult(RateUsage(RateOff, None), 0, rate.last) else rate
  }

  /** The windchill usage a run acts on: the night run turns it off. */
  function WindNow(wind: WindResult, night: bool): WindResult {
    if night then WindResult(WindOff, 0, wind.last) else wind
  }

  /** The schedule's setpoint for the run's hour, if it has one. */
  function ScheduledAt(input: RunInput): Option<int> {
    if input.hour in input.schedule then Some(input.schedule[input.hour]) else None
  }

  /** The decrease the note records: on `set_hour`, how far the new decrease lies from the
      stored one (taken as 0 in a scheduled hour); 0 otherwise. */
  function NoteDecrease(scheduled: Option<int>, night: bool, rate: RateResult): nat {
    var last := if scheduled.Some? then 0 else rate.last;
    if RateSetting(RateNow(rate, night))
    then (if last >= rate.decrease then last - rate.decrease else rate.decrease - last)
    else 0
  }

  /** The note of the write-ahead record of an active run. */
  function RunNote(input: RunInput, rate: RateResult, wind: WindResult, night: bool): string {
    var scheduled := ScheduledAt(input);
    UpdateNote(RateUsageText(RateNow(rate, night).usage), NoteDecrease(scheduled, night, rate),
               WindUsageText(WindNow(wind, night).usage), WindNow(wind, night).increase,
               Setpoint(scheduled, night, input.pump, rate, wind))
  }

  /** The records a run's resets remove, from the usages it acts on. */
  function RunResetKeys(rate: RateResult, wind: WindResult, night: bool): set<string> {
    ResetKeys(RateResetting(RateNow(rate, night)), WindNow(wind, night).usage == WindReset)
  }

  /** The new setpoint of an active run, step by step as `set_new_indoor_temp` computes it,
      together with the decrease recorded in the note. */
  method ComputeSetpoint(scheduled: Option<int>, night: bool, pump: int, rate: RateResult, wind: WindResult)
    returns (newTemp: int, newDecrease: int)
    ensures newTemp == Setpoint(scheduled, night, pump, rate, wind)
    ensures newDecrease >= 0 && newDecrease == NoteDecrease(scheduled, night, rate)
  {
    var rateNow, windNow := rate, wind;
    if night {
      rateNow := RateResult(RateUsage(RateOff, None), 0, rate.last);
      windNow := WindResult(WindOff, 0, wind.last);
    }
    var lastDecrease, lastIncrease := rateNow.last, windNow.last;
    if scheduled.Some? {
      newTemp := scheduled.value;
      lastDecrease, lastIncrease := 0, 0;
    } else {
      newTemp := pump;
      if RateResetting(rateNow) {
        newTemp := newTemp + rateNow.decrease;
      }
      if windNow.usage == WindReset {
        newTemp := newTemp - windNow.increase;
      }
    }
    newDecrease := 0;
    if RateSetting(rateNow) {
      newDecrease := if lastDecrease >= rateNow.decrease then lastDecrease - rateNow.decrease else rateNow.decrease - lastDecrease;
      newTemp := newTemp + lastDecrease - rateNow.decrease;
    }
    if windNow.usage == WindSet {
      newTemp := newTemp + windNow.increase - lastIncrease;
    }
    if newTemp > MaxIndoorTemp {
      newTemp := MaxIndoorTemp;
    }
  }

  /** Two stores hold the same `indoor_temp` record, or neither holds one. */
  predicate KeepsIndoorTemp(s1: map<string, string>, s2: map<string, string>) {
    (IndoorTemp in s1 <==> IndoorTemp in s2) && (IndoorTemp in s1 ==> s1[IndoorTemp] == s2[IndoorTemp])
  }

  /** `get_temp_adj_rates` raises: the top-N strategy asks for more hours than there are
      rates, or a window of the window strategy makes the optimizer raise. */
  predicate RatesRaise(input: RunInput) {
    input.ratesActive
    && ((input.cfg.topHours > 0 && input.cfg.topHours > |input.rates|)
        || (input.cfg.useHourlyRates
            && exists w :: 0 <= w < |input.windows| && !WindowRunnable(input.rates, input.windows[w])))
  }

  /** What the rate adjuster decides from the records `s` it starts with, where `top` is the
      map of the top-N hours and `maps` the optimizer's price map of each window. */
  ghost predicate RateDecided(input: RunInput, s: map<string, string>, r: RateResult, top: map<int, real>,
                              maps: seq<seq<real>>)
    requires WellFormed(input)
  {
    var cfg := input.cfg;
    ValidSettings(s)
    && (!input.ratesActive || (cfg.topHours <= 0 && !cfg.useHourlyRates) ==> r == RateDefault)
    && (input.ratesActive && cfg.topHours > 0 && !cfg.useHourlyRates ==>
          IsTopMap(input.rates, cfg.topHours, top)
          && r == TopRateDecision(top, input.hour, cfg, LastTopRate(s).value.value))
    && (input.ratesActive && cfg.useHourlyRates ==>
          |maps| == |input.windows| && (forall w :: 0 <= w < |input.windows| ==> |maps[w]| == 24)
          && (forall w :: 0 <= w < |input.windows| ==>
                WindowRunnable(input.rates, input.windows[w]) && OptimalPriceMap(maps[w], input.rates, input.windows[w]))
          && r == WindowDecision(MergedPrice(maps, input.hour), cfg, LastHourlyRate(s).value.value))
  }

  /** What the windchill adjuster decides from the records `s` it starts with, where `key` is
      the schedule hour in force and `ev` the evaluation of the forecast. */
  ghost predicate WindDecided(input: RunInput, s: map<string, string>, w: WindResult, ev: Evaluation, key: int)
    requires WellFormed(input)
  {
    ValidSettings(s)
    && (!input.cfg.useWindchill ==> w == WindResult(WindOff, 0, 0))
    && (input.cfg.useWindchill ==>
          IsBaseKey(input.schedule, input.hour, key)
          && ev == Evaluate(input.schedule[key], input.cfg, input.forecast,
                            ForecastKey(input.hour, input.cfg.hoursAhead, input.today, input.tomorrow))
          && w == WindchillDecision(ev, LastWindchill(s).value))
  }

  /** The top-N strategy runs and finds its hours. */
  predicate TopCounted(input: RunInput) {
    input.ratesActive && 0 < input.cfg.topHours <= |input.rates|
  }

  /** The records the adjusters write: the two rate records and the windchill record. */
  function AdjusterRecords(): set<string> { {HourlyRate, TopRate, Windchill} }

  /** The store the adjusters leave from `s`: the rate saves, then, unless the rate adjuster
      raised, the windchill save. */
  function AdjustedStore(input: RunInput, s: map<string, string>, r: Option<RateResult>, w: WindResult,
                         top: map<int, real>, ev: Evaluation): map<string, string>
    requires LastTopRate(s).Some?
  {
    var afterRates := RatesSaved(s, input.rates, input.hour, input.today, input.cfg, input.ratesActive, top, r);
    if r.None? then afterRates else WindSaved(afterRates, input.hour, input.today, input.cfg, ev, w)
  }

  /** The adjusters' store, save by save. */
  lemma AdjustedSteps(input: RunInput, s: map<string, string>, r: Option<RateResult>, w: WindResult,
                      top: map<int, real>, ev: Evaluation)
    requires LastTopRate(s).Some?
    ensures var afterRates := RatesSaved(s, input.rates, input.hour, input.today, input.cfg, input.ratesActive, top, r);
            AdjustedStore(input, s, r, w, top, ev)
            == if r.None? then afterRates else WindSaved(afterRates, input.hour, input.today, input.cfg, ev, w)
  {
  }

  /** The rate adjuster; it writes only the rate records. */
  method RunRates(store: SettingsStore, b: RateSchedule.ScheduleBuilder, input: RunInput)
    returns (r: Option<RateResult>, ghost top: map<int, real>, ghost maps: seq<seq<real>>)
    requires store.Valid() && WellFormed(input)
    modifies store, b
    ensures store.Valid()
    ensures store.settings - RateRecords() == old(store.settings) - RateRecords()
    ensures store.settings == RatesSaved(old(store.settings), input.rates, input.hour, input.today, input.cfg,
                                         input.ratesActive, top, r)
    ensures TopCounted(input) ==> IsTopMap(input.rates, input.cfg.topHours, top)
    ensures KeepsIndoorTemp(old(store.settings), store.settings)
    ensures r.None? <==> RatesRaise(input)
    ensures r.Some? ==> RateDecided(input, old(store.settings), r.value, top, maps)
  {
    r, top, maps := GetTempAdjRates(store, b, input.rates, input.windows, input.hour, input.today, input.cfg, input.ratesActive);
    RatesKeepIndoorTemp(old(store.settings), store.settings);
  }

  lemma RatesKeepIndoorTemp(s1: map<string, string>, s2: map<string, string>)
    requires s1 - RateRecords() == s2 - RateRecords()
    ensures KeepsIndoorTemp(s1, s2)
    ensures LastWindchill(s1) == LastWindchill(s2)
  {
    RecordKeysDistinct();
    AgreeOutside(s1, s2, RateRecords(), IndoorTemp);
    AgreeOutside(s1, s2, RateRecords(), Windchill);
    SameRecord(s1, s2, Windchill, 5, 5);
  }

  /** The windchill adjuster; it writes only the windchill record. */
  method RunWindchill(store: SettingsStore, input: RunInput) returns (w: WindResult, ghost ev: Evaluation, ghost key: int)
    requires store.Valid() && WellFormed(input)
    modifies store
    ensures store.Valid()
    ensures KeepsIndoorTemp(old(store.settings), store.settings)
    ensures WindDecided(input, old(store.settings), w, ev, key)
    ensures store.settings == WindSaved(old(store.settings), input.hour, input.today, input.cfg, ev, w)
  {
    w, ev, key := GetTempAdjWindchillEffect(store, input.schedule, input.hour, input.today, input.tomorrow, input.cfg, input.forecast);
    if store.settings != old(store.settings) {
      RecordKeysDistinct();
      WriteInside(old(store.settings), Windchill, store.settings[Windchill], {Windchill});
      AgreeOutside(old(store.settings), store.settings, {Windchill}, IndoorTemp);
    }
  }

  /** The windchill save changes only the windchill record. */
  lemma WindSavedInside(s: map<string, string>, hour: int, today: string, cfg: Config, ev: Evaluation, w: WindResult)
    ensures WindSaved(s, hour, today, cfg, ev, w) - {Windchill} == s - {Windchill}
  {
  }

  /** A change confined to `x` followed by one confined to `y` is confined to both together. */
  lemma FramesCompose(a: map<string, string>, b: map<string, string>, c: map<string, string>, x: set<string>, y: set<string>)
    requires b - x == a - x && c - y == b - y
    ensures c - (x + y) == a - (x + y)
  {
    forall k | k !in x + y ensures (k in c <==> k in a) && (k in c ==> c[k] == a[k]) {
      AgreeOutside(a, b, x, k);
      AgreeOutside(b, c, y, k);
    }
  }

  /** A change confined to `x` is confined to any larger set. */
  lemma FrameWiden(a: map<string, string>, c: map<string, string>, x: set<string>, z: set<string>)
    requires c - x == a - x && x <= z
    ensures c - z == a - z
  {
    forall k | k !in z ensures (k in c <==> k in a) && (k in c ==> c[k] == a[k]) {
      AgreeOutside(a, c, x, k);
    }
  }

  /** Both adjusters, rates first; when the rate adjuster raises, the windchill adjuster does
      not run. Neither touches `indoor_temp` or `start_update`. */
  method RunAdjusters(store: SettingsStore, b: RateSchedule.ScheduleBuilder, input: RunInput)
    returns (r: Option<RateResult>, w: WindResult,
             ghost top: map<int, real>, ghost maps: seq<seq<real>>, ghost ev: Evaluation, ghost key: int)
    requires store.Valid() && WellFormed(input)
    modifies store, b
    ensures store.Valid()
    ensures LastIndoorTemp(store.settings) == LastIndoorTemp(old(store.settings))
    ensures KeepsIndoorTemp(old(store.settings), store.settings)
    ensures r.None? <==> RatesRaise(input)
    ensures r.None? ==> w == WindResult(WindOff, 0, 0)
    ensures r.Some? ==>
              RateDecided(input, old(store.settings), r.value, top, maps)
              && WindDecided(input, old(store.settings), w, ev, key)
    ensures TopCounted(input) ==> IsTopMap(input.rates, input.cfg.topHours, top)
    ensures store.settings == AdjustedStore(input, old(store.settings), r, w, top, ev)
    ensures store.settings - AdjusterRecords() == old(store.settings) - AdjusterRecords()
  {
    r, top, maps := RunRates(store, b, input);
    ev, key := Evaluation(0, 0, 0.0, 0.0, None), 0;
    if r.None? {
      w := WindResult(WindOff, 0, 0);
      FrameWiden(old(store.settings), store.settings, RateRecords(), AdjusterRecords());
    } else {
      ghost var s1 := store.settings;
      RatesKeepIndoorTemp(old(store.settings), s1);
      w, ev, key := RunWindchill(store, input);
      assert WindDecided(input, s1, w, ev, key);
      WindSavedInside(s1, input.hour, input.today, input.cfg, ev, w);
      FramesCompose(old(store.settings), s1, store.settings, RateRecords(), {Windchill});
      FrameWiden(old(store.settings), store.settings, RateRecords() + {Windchill}, AdjusterRecords());
    }
    AdjustedSteps(input, old(store.settings), r, w, top, ev);
    SameRecord(old(store.settings), store.settings, IndoorTemp, 2, 2);
  }

  /** A run with nothing active retries the update a failed run left in `start_update`, with
      the pump's value taken as unknown (0); without one, nothing happens. */
  method ReplayFailedUpdate(store: SettingsStore, hour: int, today: string, pumpWriteOk: bool) returns (outcome: Outcome)
    requires store.Valid() && IsDate(today)
    modifies store
    ensures store.Valid()
    ensures var failed := LastStartUpdate(old(store.settings)).value;
            if failed.date == "-" then outcome == Idle && store.settings == old(store.settings)
            else var t := if failed.value > MaxIndoorTemp then MaxIndoorTemp else failed.value;
                 outcome == (if t != 0 && !pumpWriteOk then PumpWriteFailed(t) else Applied(t, t != 0))
    ensures outcome.Applied? ==> UpdateCompleted(store.settings, today, hour, outcome.newTemp)
    ensures outcome.PumpWriteFailed? ==> LastStartUpdate(store.settings) == Some(LastRecord(today, hour, outcome.newTemp))
    ensures outcome.Applied? ==>
              store.settings == old(store.settings)[IndoorTemp := today + " " + HourTempText(hour, outcome.newTemp)] - {StartUpdate}
    ensures outcome.PumpWriteFailed? ==>
              store.settings == old(store.settings)[StartUpdate := today + " " + StartUpdateText(hour, outcome.newTemp, ReplayNote(outcome.newTemp))]
  {
    var failed := store.GetLastStartUpdate();
    if failed.value.date == "-" {
      return Idle;
    }
    var newTemp := failed.value.value;
    if newTemp > MaxIndoorTemp {
      newTemp := MaxIndoorTemp;
    }
    outcome := ReplayUpdate(store, hour, today, newTemp, pumpWriteOk);
  }

  /** The replayed update, with no adjuster usage in its note and the pump's value unknown. */
  method ReplayUpdate(store: SettingsStore, hour: int, today: string, newTemp: int, pumpWriteOk: bool) returns (outcome: Outcome)
    requires store.Valid() && IsDate(today)
    modifies store
    ensures store.Valid()
    ensures outcome == if newTemp != 0 && !pumpWriteOk then PumpWriteFailed(newTemp) else Applied(newTemp, newTemp != 0)
    ensures outcome.Applied? ==> UpdateCompleted(store.settings, today, hour, newTemp)
    ensures outcome.PumpWriteFailed? ==> LastStartUpdate(store.settings) == Some(LastRecord(today, hour, newTemp))
    ensures outcome.Applied? ==>
              store.settings == old(store.settings)[IndoorTemp := today + " " + HourTempText(hour, newTemp)] - {StartUpdate}
    ensures outcome.PumpWriteFailed? ==>
              store.settings == old(store.settings)[StartUpdate := today + " " + StartUpdateText(hour, newTemp, ReplayNote(newTemp))]
  {
    var note := ReplayNote(newTemp);
    UpdateNoteWords("-", 0, "-", 0, newTemp);
    outcome := FinishUpdate(store, note, hour, today, newTemp, 0, pumpWriteOk);
    if outcome.Applied? {
      RecordKeysDistinct();
      WriteThenRemove(old(store.settings), StartUpdate, today + " " + StartUpdateText(hour, newTemp, note),
                      IndoorTemp, today + " " + HourTempText(hour, newTemp));
    }
  }

  /** The note of a replayed update: no adjuster usage. */
  function ReplayNote(newTemp: int): string {
    UpdateNote("-", 0, "-", 0, newTemp)
  }

  /** The night run, or a run whose setpoint the pump still holds: resets, the new setpoint and
      the update. */
  method ApplyAdjustments(store: SettingsStore, input: RunInput, rate: RateResult, wind: WindResult, night: bool)
    returns (outcome: Outcome)
    requires store.Valid() && WellFormed(input)
    modifies store
    ensures store.Valid()
    ensures var t := Setpoint(if input.hour in input.schedule then Some(input.schedule[input.hour]) else None,
                              night, input.pump, rate, wind);
            outcome == (if t != input.pump && !input.pumpWriteOk then PumpWriteFailed(t) else Applied(t, t != input.pump))
    ensures outcome.Applied? ==> UpdateCompleted(store.settings, input.today, input.hour, outcome.newTemp)
    ensures outcome.Applied? ==> forall k :: k in {HourlyRate, TopRate, Windchill} && k !in old(store.settings) ==> k !in store.settings
    ensures outcome.PumpWriteFailed? ==>
              LastStartUpdate(store.settings) == Some(LastRecord(input.today, input.hour, outcome.newTemp))
    // The resets' removals, then the update's records.
    ensures outcome.Applied? ==>
              store.settings == (old(store.settings) - RunResetKeys(rate, wind, night))
                                  [IndoorTemp := input.today + " " + HourTempText(input.hour, outcome.newTemp)] - {StartUpdate}
    ensures outcome.PumpWriteFailed? ==>
              store.settings == (old(store.settings) - RunResetKeys(rate, wind, night))
                                  [StartUpdate := input.today + " " + StartUpdateText(input.hour, outcome.newTemp,
                                                                                     RunNote(input, rate, wind, night))]
  {
    var rateNow := RateNow(rate, night);
    var windNow := WindNow(wind, night);
    ResetRemovals(store, RateResetting(rateNow), windNow.usage == WindReset);
    ghost var afterResets := store.settings;
    var scheduled := ScheduledAt(input);
    var newTemp, newDecrease := ComputeSetpoint(scheduled, night, input.pump, rate, wind);
    UpdateNoteWords(RateUsageText(rateNow.usage), newDecrease, WindUsageText(windNow.usage), windNow.increase, newTemp);
    var note := UpdateNote(RateUsageText(rateNow.usage), newDecrease, WindUsageText(windNow.usage), windNow.increase, newTemp);
    assert note == RunNote(input, rate, wind, night);
    outcome := FinishUpdate(store, note, input.hour, input.today, newTemp, input.pump, input.pumpWriteOk);
    if outcome.Applied? {
      RecordKeysDistinct();
      WriteThenRemove(afterResets, StartUpdate, input.today + " " + StartUpdateText(input.hour, newTemp, note),
                      IndoorTemp, input.today + " " + HourTempText(input.hour, newTemp));
      forall k | k in {HourlyRate, TopRate, Windchill} && k !in old(store.settings)
        ensures k !in store.settings
      {
        AbsentAfterUpdate(afterResets, k, input.today + " " + StartUpdateText(input.hour, newTemp, note),
                          input.today + " " + HourTempText(input.hour, newTemp));
      }
    }
  }

  /** The removals on an active run's way to the update, from the records `adjusted` the
      adjusters left: the night run's removal of the adjustment records and `indoor_temp`, then
      the resets' removals. */
  function PathRemovals(adjusted: map<string, string>, rate: RateResult, wind: WindResult, night: bool): map<string, string> {
    var afterNight := if night then adjusted - ({HourlyRate, TopRate, Windchill} + {IndoorTemp}) else adjusted;
    afterNight - RunResetKeys(rate, wind, night)
  }

  /** The records an active run holds when it comes to the update. */
  function PreUpdateStore(input: RunInput, s: map<string, string>, rate: RateResult, wind: WindResult, night: bool,
                          top: map<int, real>, ev: Evaluation): map<string, string>
    requires LastTopRate(s).Some?
  {
    PathRemovals(AdjustedStore(input, s, Some(rate), wind, top, ev), rate, wind, night)
  }

  /** A completed update of `pre`: `indoor_temp` holds the new setpoint and the write-ahead
      record is gone. */
  function Completed(pre: map<string, string>, input: RunInput, newTemp: int): map<string, string> {
    pre[IndoorTemp := input.today + " " + HourTempText(input.hour, newTemp)] - {StartUpdate}
  }

  /** The records an applied active run leaves. */
  function AppliedStore(input: RunInput, s: map<string, string>, rate: RateResult, wind: WindResult, night: bool,
                        top: map<int, real>, ev: Evaluation, newTemp: int): map<string, string>
    requires LastTopRate(s).Some?
  {
    Completed(PreUpdateStore(input, s, rate, wind, night, top, ev), input, newTemp)
  }

  /** `set_new_indoor_temp`. */
  method SetNewIndoorTemp(store: SettingsStore, b: RateSchedule.ScheduleBuilder, input: RunInput)
    returns (outcome: Outcome, ghost rate: RateResult, ghost wind: WindResult, ghost night: bool,
             ghost top: map<int, real>, ghost maps: seq<seq<real>>, ghost ev: Evaluation, ghost key: int)
    requires store.Valid() && WellFormed(input)
    modifies store, b
    ensures store.Valid()
    // Nothing active: replay a failed update if a write-ahead record is left, else do nothing.
    ensures !Active(input) ==>
              var failed := LastStartUpdate(old(store.settings)).value;
              if failed.date == "-" then outcome == Idle && store.settings == old(store.settings)
              else var t := if failed.value > MaxIndoorTemp then MaxIndoorTemp else failed.value;
                   outcome == (if t != 0 && !input.pumpWriteOk then PumpWriteFailed(t) else Applied(t, t != 0))
    // An active run raises exactly where the rate adjuster does.
    ensures outcome.Crashed? <==> Active(input) && RatesRaise(input)
    // Otherwise both adjusters decide from the records the run started with.
    ensures Active(input) && !outcome.Crashed? ==>
              RateDecided(input, old(store.settings), rate, top, maps)
              && WindDecided(input, old(store.settings), wind, ev, key)
    // The night run is the day's last scheduled hour.
    ensures Active(input) && !outcome.Crashed? ==>
              (night <==> input.hour in input.schedule && forall k :: k in input.schedule ==> k <= input.hour)
    // A manual change of the pump since the last run is respected, except in the night run.
    ensures outcome == ManualOverride <==>
              Active(input) && !RatesRaise(input) && !night
              && LastIndoorTemp(old(store.settings)).value.date != "-"
              && LastIndoorTemp(old(store.settings)).value.value != input.pump
    ensures outcome == ManualOverride ==>
              HourlyRate !in store.settings && TopRate !in store.settings && Windchill !in store.settings
              && StartUpdate !in store.settings
              && (IndoorTemp in store.settings <==> IndoorTemp in old(store.settings))
              && (IndoorTemp in store.settings ==> store.settings[IndoorTemp] == old(store.settings)[IndoorTemp])
    // An active run computes the setpoint from the schedule and the adjusters.
    ensures Active(input) && (outcome.Applied? || outcome.PumpWriteFailed?) ==>
              var t := Setpoint(if input.hour in input.schedule then Some(input.schedule[input.hour]) else None,
                                night, input.pump, rate, wind);
              outcome == (if t != input.pump && !input.pumpWriteOk then PumpWriteFailed(t) else Applied(t, t != input.pump))
    ensures outcome.Applied? ==> UpdateCompleted(store.settings, input.today, input.hour, outcome.newTemp)
    ensures outcome.Applied? && Active(input) && night ==>
              HourlyRate !in store.settings && TopRate !in store.settings && Windchill !in store.settings
    ensures outcome.PumpWriteFailed? ==>
              LastStartUpdate(store.settings) == Some(LastRecord(input.today, input.hour, outcome.newTemp))
    // The records the run leaves: a replay writes only the update's records.
    ensures !Active(input) && outcome.Applied? ==>
              store.settings == old(store.settings)[IndoorTemp := input.today + " " + HourTempText(input.hour, outcome.newTemp)]
                                - {StartUpdate}
    ensures !Active(input) && outcome.PumpWriteFailed? ==>
              store.settings == old(store.settings)[StartUpdate := input.today + " " +
                                  StartUpdateText(input.hour, outcome.newTemp, ReplayNote(outcome.newTemp))]
    // An active run: the adjusters' saves, then the removals of its path, then the update's records.
    ensures Active(input) && TopCounted(input) ==> IsTopMap(input.rates, input.cfg.topHours, top)
    ensures outcome.Crashed? ==> store.settings == AdjustedStore(input, old(store.settings), None, wind, top, ev)
    ensures outcome == ManualOverride ==>
              store.settings == AdjustedStore(input, old(store.settings), Some(rate), wind, top, ev)
                                - ({HourlyRate, TopRate, Windchill} + {StartUpdate})
    ensures Active(input) && outcome.Applied? ==>
              store.settings == AppliedStore(input, old(store.settings), rate, wind, night, top, ev, outcome.newTemp)
    ensures Active(input) && outcome.PumpWriteFailed? ==>
              store.settings == PreUpdateStore(input, old(store.settings), rate, wind, night, top, ev)
                                  [StartUpdate := input.today + " " + StartUpdateText(input.hour, outcome.newTemp,
                                                                                     RunNote(input, rate, wind, night))]
  {
    rate, wind, night := RateDefault, WindResult(WindOff, 0, 0), false;
    top, maps, ev, key := map[], [], Evaluation(0, 0, 0.0, 0.0, None), 0;
    if !Active(input) {
      outcome := ReplayFailedUpdate(store, input.hour, input.today, input.pumpWriteOk);
      return;
    }
    var r, w;
    r, w, top, maps, ev, key := RunAdjusters(store, b, input);
    if r.None? {
      return Crashed, rate, wind, night, top, maps, ev, key;
    }
    rate, wind := r.value, w;
    outcome, night := UpdateAfterAdjusters(store, input, r.value, w);
  }

  /** The rest of an active run once both adjusters have decided: the night run's removals, or a
      manual change's removals and stop, then the update. */
  method UpdateAfterAdjusters(store: SettingsStore, input: RunInput, rate: RateResult, wind: WindResult)
    returns (outcome: Outcome, ghost night: bool)
    requires store.Valid() && WellFormed(input)
    modifies store
    ensures store.Valid()
    ensures night <==> input.hour in input.schedule && forall k :: k in input.schedule ==> k <= input.hour
    ensures outcome == ManualOverride <==>
              !night && LastIndoorTemp(old(store.settings)).value.date != "-"
              && LastIndoorTemp(old(store.settings)).value.value != input.pump
    ensures outcome == ManualOverride ==>
              store.settings == old(store.settings) - ({HourlyRate, TopRate, Windchill} + {StartUpdate})
              && (IndoorTemp in store.settings <==> IndoorTemp in old(store.settings))
              && (IndoorTemp in store.settings ==> store.settings[IndoorTemp] == old(store.settings)[IndoorTemp])
    ensures outcome != ManualOverride ==>
              var t := Setpoint(ScheduledAt(input), night, input.pump, rate, wind);
              outcome == (if t != input.pump && !input.pumpWriteOk then PumpWriteFailed(t) else Applied(t, t != input.pump))
    ensures outcome.Applied? ==> UpdateCompleted(store.settings, input.today, input.hour, outcome.newTemp)
    ensures outcome.Applied? && night ==>
              HourlyRate !in store.settings && TopRate !in store.settings && Windchill !in store.settings
    ensures outcome.PumpWriteFailed? ==>
              LastStartUpdate(store.settings) == Some(LastRecord(input.today, input.hour, outcome.newTemp))
    ensures outcome.Applied? ==>
              store.settings == Completed(PathRemovals(old(store.settings), rate, wind, night), input, outcome.newTemp)
    ensures outcome.PumpWriteFailed? ==>
              store.settings == PathRemovals(old(store.settings), rate, wind, night)
                                  [StartUpdate := input.today + " " + StartUpdateText(input.hour, outcome.newTemp,
                                                                                     RunNote(input, rate, wind, night))]
  {
    var lastIndoor := store.GetLastIndoorTempSetting();
    var lastHour := LastScheduledHour(input.schedule);
    var isNight := input.hour == lastHour;
    night := isNight;
    if isNight {
      NightRemovals(store);
    } else if lastIndoor.value.date != "-" && lastIndoor.value.value != input.pump {
      OverrideRemovals(store);
      return ManualOverride, night;
    }
    outcome := ApplyAdjustments(store, input, rate, wind, isNight);
  }

  /** Outside the night run, a taken-back decrease leaves neither rate record and a taken-back
      increase no windchill record, so the next run reads nothing stored. */
  lemma ResetForgets(input: RunInput, s: map<string, string>, rate: RateResult, wind: WindResult,
                     top: map<int, real>, ev: Evaluation, newTemp: int)
    requires ValidSettings(s)
    ensures var after := AppliedStore(input, s, rate, wind, false, top, ev, newTemp);
            (RateResetting(rate) ==>
               LastHourlyRate(after) == Some(LastRecord("-", 0, 0)) && LastTopRate(after) == Some(LastRecord("-", 0, 0)))
            && (wind.usage == WindReset ==> LastWindchill(after) == Some(LastRecord("-", 0, 0)))
  {
    var after := AppliedStore(input, s, rate, wind, false, top, ev, newTemp);
    RecordKeysDistinct();
    if RateResetting(rate) {
      assert HourlyRate !in after && TopRate !in after;
      AbsentRecord(after, HourlyRate, 2, 2);
      AbsentRecord(after, TopRate, 2, 2);
    }
    if wind.usage == WindReset {
      assert Windchill !in after;
      AbsentRecord(after, Windchill, 5, 5);
    }
  }

  /** Outside the night run, an adjuster record the resets do not remove reaches the end of an
      applied run as the adjusters left it. */
  lemma AppliedKeeps(adjusted: map<string, string>, rate: RateResult, wind: WindResult, input: RunInput, newTemp: int,
                     k: string)
    requires k in AdjusterRecords() && k !in RunResetKeys(rate, wind, false)
    ensures var after := Completed(PathRemovals(adjusted, rate, wind, false), input, newTemp);
            (k in after <==> k in adjusted) && (k in after ==> after[k] == adjusted[k])
  {
    RecordKeysDistinct();
  }

  /** Outside the night run, a rate `set_hour` leaves the strategy's record holding this hour and
      the decrease, which the next run reads back as the stored decrease. */
  lemma RateSaveSurvives(input: RunInput, s: map<string, string>, rate: RateResult, wind: WindResult,
                         top: map<int, real>, maps: seq<seq<real>>, ev: Evaluation, newTemp: int)
    requires WellFormed(input) && ValidSettings(s) && RateDecided(input, s, rate, top, maps)
    requires input.ratesActive && !RatesRaise(input) && rate.usage.tag == RateSet
    ensures var after := AppliedStore(input, s, rate, wind, false, top, ev, newTemp);
            (input.cfg.useHourlyRates ==> LastHourlyRate(after) == Some(LastRecord(input.today, input.hour, rate.decrease)))
            && (!input.cfg.useHourlyRates ==> LastTopRate(after) == Some(LastRecord(input.today, input.hour, rate.decrease)))
  {
    var adjusted := AdjustedStore(input, s, Some(rate), wind, top, ev);
    var after := Completed(PathRemovals(adjusted, rate, wind, false), input, newTemp);
    var key := if input.cfg.useHourlyRates then HourlyRate else TopRate;
    if !input.cfg.useHourlyRates {
      TopCaseOf(input, s, rate, top, maps);
    }
    AdjustedRateRecord(input, s, rate, wind, top, ev);
    RateSetNotReset(rate, wind, key);
    AppliedKeeps(adjusted, rate, wind, input, newTemp, key);
    StoredHourTempReads(after, key, input.today, input.hour, rate.decrease);
  }

  /** A rate `set_hour` is no rate reset: the day run keeps both rate records. */
  lemma RateSetNotReset(rate: RateResult, wind: WindResult, key: string)
    requires rate.usage.tag == RateSet && (key == HourlyRate || key == TopRate)
    ensures key in AdjusterRecords() && key !in RunResetKeys(rate, wind, false)
  {
    RecordKeysDistinct();
  }

  /** A store holding an hour-and-temperature text under `key` reads it back. */
  lemma StoredHourTempReads(m: map<string, string>, key: string, today: string, hour: int, temp: int)
    requires IsDate(today) && key in m && m[key] == today + " " + HourTempText(hour, temp)
    ensures LastSetting(m, key, 2, 2) == Some(LastRecord(today, hour, temp))
  {
    var text := today + " " + HourTempText(hour, temp);
    HourTempRoundTrip(map[], key, today, hour, temp);
    SameRecord(map[key := text], m, key, 2, 2);
  }

  /** Without the window strategy, a rate `set_hour` of a run that does not raise is the top-N
      strategy's decision over its hours. */
  lemma TopCaseOf(input: RunInput, s: map<string, string>, rate: RateResult, top: map<int, real>, maps: seq<seq<real>>)
    requires WellFormed(input) && RateDecided(input, s, rate, top, maps)
    requires input.ratesActive && !RatesRaise(input) && rate.usage.tag == RateSet && !input.cfg.useHourlyRates
    ensures 0 < input.cfg.topHours <= |input.rates|
    ensures rate == TopRateDecision(top, input.hour, input.cfg, LastTopRate(s).value.value)
  {
  }

  /** The adjusters' records after a rate `set_hour`: the window strategy's `hourly_rate`, or,
      without it, the top-N strategy's `top_rate`, holds this hour and the decrease. */
  lemma AdjustedRateRecord(input: RunInput, s: map<string, string>, rate: RateResult, wind: WindResult,
                           top: map<int, real>, ev: Evaluation)
    requires LastTopRate(s).Some? && input.ratesActive && rate.usage.tag == RateSet
    requires !input.cfg.useHourlyRates ==>
               0 < input.cfg.topHours <= |input.rates|
               && rate == TopRateDecision(top, input.hour, input.cfg, LastTopRate(s).value.value)
    ensures var key := if input.cfg.useHourlyRates then HourlyRate else TopRate;
            var adjusted := AdjustedStore(input, s, Some(rate), wind, top, ev);
            key in adjusted && adjusted[key] == input.today + " " + HourTempText(input.hour, rate.decrease)
  {
    var key := if input.cfg.useHourlyRates then HourlyRate else TopRate;
    RatesSavedRecord(s, input.rates, input.hour, input.today, input.cfg, input.ratesActive, top, rate);
    RecordKeysDistinct();
    var afterRates := RatesSaved(s, input.rates, input.hour, input.today, input.cfg, input.ratesActive, top, Some(rate));
    WindSavedKeeps(afterRates, input.hour, input.today, input.cfg, ev, wind, key);
  }

  /** The rate saves of a `set_hour`: the window strategy's `hourly_rate`, or, without it, the
      top-N strategy's `top_rate`, holds this hour and the decrease. */
  lemma RatesSavedRecord(s: map<string, string>, rates: seq<(int, real)>, hour: int, today: string, cfg: Config,
                         active: bool, top: map<int, real>, rate: RateResult)
    requires LastTopRate(s).Some? && active && rate.usage.tag == RateSet
    requires !cfg.useHourlyRates ==>
               0 < cfg.topHours <= |rates| && rate == TopRateDecision(top, hour, cfg, LastTopRate(s).value.value)
    ensures var key := if cfg.useHourlyRates then HourlyRate else TopRate;
            var saved := RatesSaved(s, rates, hour, today, cfg, active, top, Some(rate));
            key in saved && saved[key] == today + " " + HourTempText(hour, rate.decrease)
  {
    if cfg.useHourlyRates {
      HourlySavedRecord(s, rates, hour, today, cfg, active, top, rate);
    } else {
      TopSavedRecord(s, rates, hour, today, cfg, active, top, rate);
    }
  }

  /** With the window strategy, a rate `set_hour` writes `hourly_rate` last. */
  lemma HourlySavedRecord(s: map<string, string>, rates: seq<(int, real)>, hour: int, today: string, cfg: Config,
                          active: bool, top: map<int, real>, rate: RateResult)
    requires LastTopRate(s).Some? && active && rate.usage.tag == RateSet && cfg.useHourlyRates
    ensures var saved := RatesSaved(s, rates, hour, today, cfg, active, top, Some(rate));
            HourlyRate in saved && saved[HourlyRate] == today + " " + HourTempText(hour, rate.decrease)
  {
    SaveOnSetRecord(TopSaved(s, rates, hour, today, cfg, active, top), HourlyRate, rate, hour, today);
  }

  /** A `set_hour` decision stores its record under its key. */
  lemma SaveOnSetRecord(m: map<string, string>, key: string, d: RateResult, hour: int, today: string)
    requires d.usage.tag == RateSet
    ensures key in SaveOnSet(m, key, d, hour, today)
    ensures SaveOnSet(m, key, d, hour, today)[key] == today + " " + HourTempText(hour, d.decrease)
  {
  }

  /** Without the window strategy, the top-N strategy's `set_hour` is the `top_rate` record. */
  lemma TopSavedRecord(s: map<string, string>, rates: seq<(int, real)>, hour: int, today: string, cfg: Config,
                       active: bool, top: map<int, real>, rate: RateResult)
    requires LastTopRate(s).Some? && active && rate.usage.tag == RateSet && !cfg.useHourlyRates
    requires 0 < cfg.topHours <= |rates| && rate == TopRateDecision(top, hour, cfg, LastTopRate(s).value.value)
    ensures var saved := RatesSaved(s, rates, hour, today, cfg, active, top, Some(rate));
            TopRate in saved && saved[TopRate] == today + " " + HourTempText(hour, rate.decrease)
  {
    SaveOnSetRecord(s, TopRate, rate, hour, today);
  }

  /** The windchill save leaves every other record as it was. */
  lemma WindSavedKeeps(m: map<string, string>, hour: int, today: string, cfg: Config, ev: Evaluation, w: WindResult, k: string)
    requires k != Windchill
    ensures var saved := WindSaved(m, hour, today, cfg, ev, w);
            (k in saved <==> k in m) && (k in saved ==> saved[k] == m[k])
  {
  }

  /** A windchill `set_hour` is no windchill reset: the day run keeps the windchill record. */
  lemma WindSetNotReset(rate: RateResult, wind: WindResult)
    requires wind.usage == WindSet
    ensures Windchill in AdjusterRecords() && Windchill !in RunResetKeys(rate, wind, false)
  {
    RecordKeysDistinct();
  }

  /** A windchill `set_hour` with a forecast entry writes its record. */
  lemma WindSavedRecord(m: map<string, string>, hour: int, today: string, cfg: Config, ev: Evaluation, w: WindResult)
    requires cfg.useWindchill && w.usage == WindSet && ev.point.Some?
    ensures var saved := WindSaved(m, hour, today, cfg, ev, w);
            Windchill in saved
            && saved[Windchill] == today + " " + WindchillText(hour, ev.code, ev.point.value.windchillText, ev.point.value.diffText, w.increase)
  {
  }

  /** A windchill `set_hour` comes with a forecast entry whose texts are single words. */
  lemma WindSetPoint(input: RunInput, s: map<string, string>, wind: WindResult, ev: Evaluation, key: int)
    requires WellFormed(input) && WindDecided(input, s, wind, ev, key) && wind.usage == WindSet
    ensures input.cfg.useWindchill && ev.point.Some?
    ensures IsWord(ev.point.value.windchillText) && IsWord(ev.point.value.diffText)
  {
    assert input.cfg.useWindchill;
    var fk := ForecastKey(input.hour, input.cfg.hoursAhead, input.today, input.tomorrow);
    SetPointOfForecast(input.schedule[key], input.cfg, input.forecast, fk, LastWindchill(s).value);
  }

  /** An evaluation that the windchill decision sets from holds a forecast entry of single words. */
  lemma SetPointOfForecast(indoorTemp: int, cfg: Config, forecast: Forecast, fk: string, stored: LastRecord)
    requires ForecastTexts(forecast)
    requires WindchillDecision(Evaluate(indoorTemp, cfg, forecast, fk), stored).usage == WindSet
    ensures var ev := Evaluate(indoorTemp, cfg, forecast, fk);
            ev.point.Some? && IsWord(ev.point.value.windchillText) && IsWord(ev.point.value.diffText)
  {
    var ev := Evaluate(indoorTemp, cfg, forecast, fk);
    assert ev.code >= 3;
    assert fk in forecast.points && ev.point.value == forecast.points[fk];
  }

  /** Outside the night run, a windchill `set_hour` leaves the windchill record holding this hour
      and the increase, which the next run reads back as the stored increase. */
  lemma WindSaveSurvives(input: RunInput, s: map<string, string>, rate: RateResult, wind: WindResult,
                         top: map<int, real>, ev: Evaluation, key: int, newTemp: int)
    requires WellFormed(input) && ValidSettings(s) && WindDecided(input, s, wind, ev, key)
    requires wind.usage == WindSet
    ensures LastWindchill(AppliedStore(input, s, rate, wind, false, top, ev, newTemp))
            == Some(LastRecord(input.today, input.hour, wind.increase))
  {
    WindSetPoint(input, s, wind, ev, key);
    var adjusted := AdjustedStore(input, s, Some(rate), wind, top, ev);
    var after := Completed(PathRemovals(adjusted, rate, wind, false), input, newTemp);
    var p := ev.point.value;
    var text := input.today + " " + WindchillText(input.hour, ev.code, p.windchillText, p.diffText, wind.increase);
    var afterRates := RatesSaved(s, input.rates, input.hour, input.today, input.cfg, input.ratesActive, top, Some(rate));
    WindSavedRecord(afterRates, input.hour, input.today, input.cfg, ev, wind);
    WindSetNotReset(rate, wind);
    AppliedKeeps(adjusted, rate, wind, input, newTemp, Windchill);
    WindchillRoundTrip(map[], input.today, input.hour, ev.code, p.windchillText, p.diffText, wind.increase);
    SameRecord(map[Windchill := text], after, Windchill, 5, 5);
  }
}
