/** The adjusters of the hourly run (pgart_control_heating.py): the list parameters that give the
    day's schedule and the price windows, the two electricity-rate strategies (top-N hours and the
    price-window optimizer) and the windchill compensation. Each adjuster yields a usage tag and
    an amount, and keeps its own record in the status store. */
module HeatingAdjust {
  import opened Text
  import opened PyNum
  import opened PyDict
  import opened Settings
  import RateSchedule

  /** The parameters the adjusters read, after `int()`/`float()` conversion. */
  datatype Config = Config(
    useHourlyRates: bool,   // use_hourly_rates == "y"
    topHours: int,          // hourly_rate_decrease_during_top_hours
    rateAbove: real,        // hourly_rate_only_decrease_when_rate_above
    decreaseGrades: int,    // hourly_rate_decrease_nr_grades
    useWindchill: bool,     // use_windchill_compensation != "n"
    useSmhi: bool,          // forecasts from SMHI rather than from an external program
    adjustAbove: int,       // windchill_adjust_only_when_set_indoor_temp_is_above
    minDiff: real,          // windchill_min_apparent_temp_diff
    maxIncrease: int,       // windchill_max_indoor_temp_increase
    hoursAhead: int)        // windchill_use_forecast_this_nr_hours_ahead

  // ---------------------------------------------------------------------------------------
  // List parameters: `set_indoor_temp_hours` (`HH_TT,...`) and `hourly_rate_decrease_hours`
  // (`H-H,...`).
  // ---------------------------------------------------------------------------------------

  /** One `a<sep>b` item read as `(int(a), int(b))`; `None` where Python raises. */
  function ParseItem(item: string, sep: char): Option<(int, int)>
  {
    var buf := Split(item, sep);
    if |buf| < 2 then None
    else
      var a := ParseInt(buf[0]);
      var b := ParseInt(buf[1]);
      if a.Some? && b.Some? then Some((a.value, b.value)) else None
  }

  /** Each item read by `ParseItem`. */
  function ParsedItems(items: seq<string>, sep: char): (r: seq<Option<(int, int)>>)
    ensures |r| == |items| && forall i :: 0 <= i < |items| ==> r[i] == ParseItem(items[i], sep)
  {
    seq(|items|, i requires 0 <= i < |items| => ParseItem(items[i], sep))
  }

  /** The dictionary the parsed items build, in order; `None` from the first item that failed. */
  function BuildPairs(parsed: seq<Option<(int, int)>>): Option<seq<(int, int)>>
  {
    if |parsed| == 0 then Some([])
    else match BuildPairs(parsed[..|parsed| - 1])
      case None => None
      case Some(d) =>
        match parsed[|parsed| - 1]
        case None => None
        case Some(p) => Some(Put(d, p.0, p.1))
  }

  /** The dictionary a list parameter builds; `None` where an item makes Python raise. */
  function ParsePairs(items: seq<string>, sep: char): Option<seq<(int, int)>>
  {
    BuildPairs(ParsedItems(items, sep))
  }

  /** Every item parsed. */
  predicate AllParsed(parsed: seq<Option<(int, int)>>) {
    forall i :: 0 <= i < |parsed| ==> parsed[i].Some?
  }

  /** Building the dictionary succeeds exactly when every item parses. */
  lemma {:induction false} BuildPairsFailure(parsed: seq<Option<(int, int)>>)
    ensures BuildPairs(parsed).Some? <==> AllParsed(parsed)
  {
    if |parsed| > 0 {
      var init := parsed[..|parsed| - 1];
      BuildPairsFailure(init);
      DropLast(parsed);
      if !AllParsed(init) {
        var i :| 0 <= i < |init| && init[i].None?;
        assert parsed[i].None?;
      }
    }
  }

  /** The dictionary's keys are exactly the items' keys, each once. */
  lemma BuildPairsKeys(parsed: seq<Option<(int, int)>>)
    requires BuildPairs(parsed).Some?
    ensures DistinctKeys(BuildPairs(parsed).value)
    ensures forall i :: 0 <= i < |parsed| ==> parsed[i].Some? && parsed[i].value.0 in Keys(BuildPairs(parsed).value)
    ensures forall k :: k in Keys(BuildPairs(parsed).value) ==>
              exists i :: 0 <= i < |parsed| && parsed[i].Some? && parsed[i].value.0 == k
  {
    BuildPairsDistinct(parsed);
    BuildPairsCovers(parsed);
    BuildPairsOnly(parsed);
  }

  lemma {:induction false} BuildPairsDistinct(parsed: seq<Option<(int, int)>>)
    requires BuildPairs(parsed).Some?
    ensures DistinctKeys(BuildPairs(parsed).value)
  {
    if |parsed| > 0 {
      BuildPairsDistinct(parsed[..|parsed| - 1]);
    }
  }

  lemma {:induction false} BuildPairsCovers(parsed: seq<Option<(int, int)>>)
    requires BuildPairs(parsed).Some?
    ensures forall i :: 0 <= i < |parsed| ==> parsed[i].Some? && parsed[i].value.0 in Keys(BuildPairs(parsed).value)
  {
    if |parsed| > 0 {
      var init := parsed[..|parsed| - 1];
      BuildPairsCovers(init);
      DropLast(parsed);
      var d0, d := BuildPairs(init).value, BuildPairs(parsed).value;
      assert Keys(d0) <= Keys(d);
    }
  }

  lemma {:induction false} BuildPairsOnly(parsed: seq<Option<(int, int)>>)
    requires BuildPairs(parsed).Some?
    ensures forall k :: k in Keys(BuildPairs(parsed).value) ==>
              exists i :: 0 <= i < |parsed| && parsed[i].Some? && parsed[i].value.0 == k
  {
    if |parsed| > 0 {
      var init := parsed[..|parsed| - 1];
      BuildPairsOnly(init);
      DropLast(parsed);
      var p := parsed[|parsed| - 1].value;
      var d := BuildPairs(parsed).value;
      forall k | k in Keys(d) ensures exists i :: 0 <= i < |parsed| && parsed[i].Some? && parsed[i].value.0 == k {
        if k != p.0 {
          var i :| 0 <= i < |init| && init[i].Some? && init[i].value.0 == k;
          assert parsed[i].value.0 == k;
        }
      }
    }
  }

  /** Item `i` parsed and no later item names the same key. */
  predicate LastWithKey(parsed: seq<Option<(int, int)>>, i: int)
    requires 0 <= i < |parsed|
  {
    parsed[i].Some? && forall j :: i < j < |parsed| ==> parsed[j].None? || parsed[j].value.0 != parsed[i].value.0
  }

  /** Each key holds the value of the last item naming it. */
  lemma {:induction false} BuildPairsLastWins(parsed: seq<Option<(int, int)>>, i: int)
    requires BuildPairs(parsed).Some? && 0 <= i < |parsed| && LastWithKey(parsed, i)
    ensures Get(BuildPairs(parsed).value, parsed[i].value.0) == Some(parsed[i].value.1)
  {
    var init := parsed[..|parsed| - 1];
    if i < |init| {
      DropLast(parsed);
      assert LastWithKey(init, i);
      BuildPairsLastWins(init, i);
    }
  }

  /** The loop that builds the dictionary, item by item. */
  method ParseHourList(text: string, sep: char) returns (pairs: Option<seq<(int, int)>>)
    ensures pairs == ParsePairs(Split(text, ','), sep)
  {
    var items := Split(text, ',');
    ghost var parsed := ParsedItems(items, sep);
    var d: seq<(int, int)> := [];
    var i := 0;
    while i < |items|
      invariant 0 <= i <= |items| && BuildPairs(parsed[..i]) == Some(d)
    {
      TakeNext(parsed, i);
      var p := ParseItem(items[i], sep);
      if p.None? {
        BuildPairsFails(parsed, i + 1);
        return None;
      }
      d := Put(d, p.value.0, p.value.1);
      i := i + 1;
    }
    assert parsed[..i] == parsed;
    pairs := Some(d);
  }

  /** Once a prefix fails, the whole list fails. */
  lemma {:induction false} BuildPairsFails(parsed: seq<Option<(int, int)>>, n: nat)
    requires n <= |parsed| && BuildPairs(parsed[..n]).None?
    ensures BuildPairs(parsed).None?
    decreases |parsed| - n
  {
    if n < |parsed| {
      TakeNext(parsed, n);
      BuildPairsFails(parsed, n + 1);
    } else {
      assert parsed[..n] == parsed;
    }
  }

  /** `create_hourly_settings_indoor_temp`: the weekday's own list if it has one, else the general
      `set_indoor_temp_hours`, read as a map from hour to temperature. */
  method CreateHourlySettingsIndoorTemp(weekdayHours: map<int, string>, weekday: int, setIndoorTempHours: string)
    returns (weekdayActive: int, schedule: Option<map<int, int>>)
    ensures weekdayActive == if weekday in weekdayHours then 1 else 0
    ensures var text := if weekday in weekdayHours then weekdayHours[weekday] else setIndoorTempHours;
            schedule == match ParsePairs(Split(text, ','), '_') case None => None case Some(d) => Some(ToMap(d))
  {
    var text: string;
    if weekday in weekdayHours {
      weekdayActive := 1;
      text := weekdayHours[weekday];
    } else {
      weekdayActive := 0;
      text := setIndoorTempHours;
    }
    var pairs := ParseHourList(text, '_');
    if pairs.None? {
      return weekdayActive, None;
    }
    schedule := Some(ToMap(pairs.value));
  }

  /** `create_range_hourly_rate_temp_decrease`: the price windows `start-stop` in the order they
      are listed; a repeated start keeps its first position and takes the last stop. */
  method CreateRangeHourlyRateTempDecrease(hourlyRateDecreaseHours: string) returns (windows: Option<seq<(int, int)>>)
    ensures windows == ParsePairs(Split(hourlyRateDecreaseHours, ','), '-')
  {
    windows := ParseHourList(hourlyRateDecreaseHours, '-');
  }

  // ---------------------------------------------------------------------------------------
  // Rate adjusters.
  // ---------------------------------------------------------------------------------------

  datatype RateTag = RateOff | RateSet | RateReset | RatePaus | RateResetPaus

  /** The usage text: `off`, `set_hour`, `reset_hour`, `hour_rate_paus` or
      `reset_hour:hour_rate_paus`, with `:rate_too_low=<rate>` appended when a positive price was
      not high enough. */
  datatype RateUsage = RateUsage(tag: RateTag, tooLow: Option<real>)

  /** What a rate adjuster returns: the usage, the decrease it asks for and the stored decrease. */
  datatype RateResult = RateResult(usage: RateUsage, decrease: int, last: int)

  const RateDefault := RateResult(RateUsage(RateOff, None), 0, 0)

  /** Rate `j` comes before rate `i` in Python's stable sort on the price, highest first. */
  predicate Before(rates: seq<(int, real)>, j: int, i: int)
    requires 0 <= i < |rates| && 0 <= j < |rates|
  {
    rates[j].1 > rates[i].1 || (rates[j].1 == rates[i].1 && j < i)
  }

  /** The number of rates among the first `m` that the sort puts before rate `i`. */
  function CountBefore(rates: seq<(int, real)>, i: int, m: nat): nat
    requires 0 <= i < |rates| && m <= |rates|
  {
    if m == 0 then 0 else CountBefore(rates, i, m - 1) + (if Before(rates, m - 1, i) then 1 else 0)
  }

  /** The position of rate `i` in the sorted list. */
  function Rank(rates: seq<(int, real)>, i: int): nat
    requires 0 <= i < |rates|
  {
    CountBefore(rates, i, |rates|)
  }

  /** Whatever precedes `j` also precedes `i` when `j` precedes `i`; `j` itself precedes `i` but
      not itself, so `j` has the smaller count once it is among the first `m`. */
  lemma {:induction false} CountBeforeMonotone(rates: seq<(int, real)>, j: int, i: int, m: nat)
    requires 0 <= i < |rates| && 0 <= j < |rates| && m <= |rates| && Before(rates, j, i)
    ensures CountBefore(rates, j, m) <= CountBefore(rates, i, m)
    ensures m > j ==> CountBefore(rates, j, m) < CountBefore(rates, i, m)
  {
    if m > 0 {
      CountBeforeMonotone(rates, j, i, m - 1);
    }
  }

  /** A rate sorted before another has a smaller rank. */
  lemma RankOrder(rates: seq<(int, real)>, j: int, i: int)
    requires 0 <= i < |rates| && 0 <= j < |rates| && Before(rates, j, i)
    ensures Rank(rates, j) < Rank(rates, i)
  {
    CountBeforeMonotone(rates, j, i, |rates|);
  }

  /** Two rates never share a position in the sorted list. */
  lemma RankDistinct(rates: seq<(int, real)>, i: int, j: int)
    requires 0 <= i < |rates| && 0 <= j < |rates| && i != j
    ensures Rank(rates, i) != Rank(rates, j)
  {
    if Before(rates, j, i) { RankOrder(rates, j, i); } else { RankOrder(rates, i, j); }
  }

  /** `top_hours`: the hours of the first `n` sorted rates, each with its price. */
  ghost predicate IsTopMap(rates: seq<(int, real)>, n: int, top: map<int, real>)
  {
    top.Keys <= Keys(rates)
    && forall i :: 0 <= i < |rates| ==>
         (rates[i].0 in top <==> Rank(rates, i) < n) && (rates[i].0 in top ==> top[rates[i].0] == rates[i].1)
  }

  /** The top hours are the highest priced: every top hour costs at least as much as every other. */
  lemma TopHoursAreHighest(rates: seq<(int, real)>, n: int, top: map<int, real>, i: int, k: int)
    requires IsTopMap(rates, n, top) && 0 <= i < |rates| && 0 <= k < |rates|
    requires rates[i].0 in top && rates[k].0 !in top
    ensures rates[i].1 >= rates[k].1
  {
    if rates[k].1 > rates[i].1 {
      RankOrder(rates, k, i);
    }
  }

  method RankOf(rates: seq<(int, real)>, i: int) returns (r: nat)
    requires 0 <= i < |rates|
    ensures r == Rank(rates, i)
  {
    r := 0;
    var m := 0;
    while m < |rates|
      invariant 0 <= m <= |rates| && r == CountBefore(rates, i, m)
    {
      if rates[m].1 > rates[i].1 || (rates[m].1 == rates[i].1 && m < i) {
        r := r + 1;
      }
      m := m + 1;
    }
  }

  /** The first `n` entries of the rates sorted on price, highest first, as a map; `None` where
      there are fewer than `n` rates and the source raises `IndexError`. */
  method TopHours(rates: seq<(int, real)>, n: int) returns (top: Option<map<int, real>>)
    requires DistinctKeys(rates)
    ensures top.None? <==> n > |rates|
    ensures top.Some? ==> IsTopMap(rates, n, top.value)
  {
    if n > |rates| {
      return None;
    }
    var t: map<int, real> := map[];
    var i := 0;
    while i < |rates|
      invariant 0 <= i <= |rates|
      invariant t.Keys <= Keys(rates)
      invariant forall j :: 0 <= j < i ==>
                  (rates[j].0 in t <==> Rank(rates, j) < n) && (rates[j].0 in t ==> t[rates[j].0] == rates[j].1)
      invariant forall j :: i <= j < |rates| ==> rates[j].0 !in t
    {
      var r := RankOf(rates, i);
      if r < n {
        t := t[rates[i].0 := rates[i].1];
      }
      i := i + 1;
    }
    top := Some(t);
  }

  /** The decision of `get_temp_adj_top_hourly_rate` once the top hours are known. */
  function TopRateDecision(top: map<int, real>, hour: int, cfg: Config, last: int): (r: RateResult)
    ensures r.usage.tooLow == None && r.last == last
    ensures r.usage.tag == RateSet ==> hour in top && r.decrease == cfg.decreaseGrades
    ensures r.usage.tag == RateReset ==> last > 0 && r.decrease == last
    ensures r.usage.tag == RateOff ==> last <= 0 && r.decrease == 0
    ensures r.usage.tag in {RateSet, RateReset, RateOff}
  {
    if hour in top && cfg.rateAbove * 100.0 < top[hour] then RateResult(RateUsage(RateSet, None), cfg.decreaseGrades, last)
    else if last > 0 then RateResult(RateUsage(RateReset, None), last, last)
    else RateResult(RateUsage(RateOff, None), 0, last)
  }

  /** The top-N strategy decreases exactly when the hour is among the `n` most expensive and its
      price, in öre, exceeds the threshold given in kronor. */
  lemma TopRateSetIff(rates: seq<(int, real)>, n: int, top: map<int, real>, hour: int, cfg: Config, last: int)
    requires IsTopMap(rates, n, top) && DistinctKeys(rates)
    ensures TopRateDecision(top, hour, cfg, last).usage.tag == RateSet <==>
            exists i :: 0 <= i < |rates| && rates[i].0 == hour && Rank(rates, i) < n && cfg.rateAbove * 100.0 < rates[i].1
  {
    if hour in top {
      assert hour in Keys(rates);
      var i :| 0 <= i < |rates| && rates[i].0 == hour;
      assert top[hour] == rates[i].1;
      forall i' | 0 <= i' < |rates| && rates[i'].0 == hour ensures i' == i { }
    }
  }

  /** `get_temp_adj_top_hourly_rate`. `None` where Python raises `IndexError` (more top hours
      asked for than rates known); then nothing is saved. */
  method GetTempAdjTopHourlyRate(store: SettingsStore, rates: seq<(int, real)>, hour: int, today: string, cfg: Config)
    returns (r: Option<RateResult>, ghost top: map<int, real>)
    requires store.Valid() && IsDate(today) && DistinctKeys(rates)
    modifies store
    ensures store.Valid()
    ensures r.None? <==> cfg.topHours > |rates|
    ensures r.None? ==> store.settings == old(store.settings)
    ensures r.Some? ==>
      IsTopMap(rates, cfg.topHours, top) && r.value == TopRateDecision(top, hour, cfg, LastTopRate(old(store.settings)).value.value)
    ensures r.Some? ==>
      store.settings == if r.value.usage.tag == RateSet
                        then old(store.settings)[TopRate := today + " " + HourTempText(hour, r.value.decrease)]
                        else old(store.settings)
  {
    var last := store.GetLastTopRateSetting();
    var t := TopHours(rates, cfg.topHours);
    if t.None? {
      return None, map[];
    }
    top := t.value;
    var usage, decrease := TopRateStep(t.value, hour, cfg, last.value.value);
    if usage.tag == RateSet {
      store.SaveTopRateSetting(hour, decrease, today);
      SaveHourTempPreservesValid(old(store.settings), TopRate, today, hour, decrease);
    }
    r := Some(RateResult(usage, decrease, last.value.value));
  }

  /** The branches of `get_temp_adj_top_hourly_rate` after the top hours are known; the top
      rate record is saved where the usage becomes `set_hour`. */
  method TopRateStep(topHours: map<int, real>, hour: int, cfg: Config, last: int) returns (usage: RateUsage, decrease: int)
    ensures RateResult(usage, decrease, last) == TopRateDecision(topHours, hour, cfg, last)
  {
    usage := RateUsage(RateOff, None);
    decrease := 0;
    if hour in topHours {
      var a := cfg.rateAbove * 100.0;
      var b := topHours[hour];
      if a < b {
        decrease := cfg.decreaseGrades;
        usage := RateUsage(RateSet, None);
      }
    }
    if usage.tag == RateOff {
      if last > 0 {
        decrease := last;
        usage := RateUsage(RateReset, None);
      }
    }
  }

  /** The merged price of hour `h`: the last window map with a non-zero entry for it wins. */
  function MergedPrice(maps: seq<seq<real>>, h: int): real
    requires forall w :: 0 <= w < |maps| ==> |maps[w]| == 24
    requires 0 <= h < 24
  {
    if |maps| == 0 then 0.0
    else if maps[|maps| - 1][h] != 0.0 then maps[|maps| - 1][h]
    else MergedPrice(maps[..|maps| - 1], h)
  }

  /** The merged price is zero when every window leaves the hour at zero, and otherwise the entry
      of the last window that prices the hour. */
  lemma {:induction false} MergedPriceIsLastNonZero(maps: seq<seq<real>>, h: int)
    requires forall w :: 0 <= w < |maps| ==> |maps[w]| == 24
    requires 0 <= h < 24
    ensures MergedPrice(maps, h) == 0.0 <==> forall w :: 0 <= w < |maps| ==> maps[w][h] == 0.0
    ensures MergedPrice(maps, h) != 0.0 ==>
              exists w :: 0 <= w < |maps| && maps[w][h] == MergedPrice(maps, h)
                          && forall v :: w < v < |maps| ==> maps[v][h] == 0.0
  {
    if |maps| > 0 {
      var init := maps[..|maps| - 1];
      MergedPriceIsLastNonZero(init, h);
      assert forall w :: 0 <= w < |init| ==> init[w] == maps[w];
      if maps[|maps| - 1][h] == 0.0 && MergedPrice(maps, h) != 0.0 {
        var w :| 0 <= w < |init| && init[w][h] == MergedPrice(init, h) && forall v :: w < v < |init| ==> init[v][h] == 0.0;
        assert forall v :: w < v < |maps| ==> maps[v][h] == 0.0;
      }
    }
  }

  /** The decision of `get_temp_adj_hourly_rate` once the hour's merged price is known. */
  function WindowDecision(price: real, cfg: Config, last: int): (r: RateResult)
    ensures r.last == last
    ensures r.usage.tag == RateSet ==> r.decrease == cfg.decreaseGrades && price > 0.0 && r.usage.tooLow == None
    ensures r.usage.tag in {RateReset, RateResetPaus} ==> last > 0 && r.decrease == last
    ensures r.usage.tag in {RateOff, RatePaus} ==> last <= 0 && r.decrease == 0
    ensures r.usage.tag in {RatePaus, RateResetPaus} <==> price == -1.0
    ensures r.usage.tooLow.Some? <==> 0.0 < price <= cfg.rateAbove * 100.0
  {
    if price > 0.0 && cfg.rateAbove * 100.0 < price then RateResult(RateUsage(RateSet, None), cfg.decreaseGrades, last)
    else
      var paus := price == -1.0;
      var tooLow := if price > 0.0 then Some(Round2(price / 100.0)) else None;
      if last > 0 then RateResult(RateUsage(if paus then RateResetPaus else RateReset, tooLow), last, last)
      else RateResult(RateUsage(if paus then RatePaus else RateOff, tooLow), 0, last)
  }

  /** A window the optimizer can run on; any other makes it raise. */
  predicate WindowRunnable(rates: seq<(int, real)>, w: (int, int)) {
    0 <= w.0 < w.1 <= 24 && RateSchedule.WindowPriced(rates, w.0, w.1)
  }

  /** The price map of window `[start, stop)` for candidate `c`: zero outside the window, the
      hour's price on a decrease hour of the candidate and -1 on a pause hour. */
  ghost predicate PriceMapOf(m: seq<real>, rates: seq<(int, real)>, start: int, stop: int, c: nat)
    requires 0 <= start < stop <= 24 && RateSchedule.WindowPriced(rates, start, stop)
  {
    |m| == 24
    && (forall h :: 0 <= h < 24 && !(start <= h < stop) ==> m[h] == 0.0)
    && forall h :: start <= h < stop ==>
         m[h] == if RateSchedule.Candidate(c, start, stop)[h - start] == 1
                 then RateSchedule.InRange(rates, start, stop)[h - start] else -1.0
  }

  /** The price map of the window's most expensive candidate, the first one where several
      share the greatest total. */
  ghost predicate OptimalPriceMap(m: seq<real>, rates: seq<(int, real)>, w: (int, int))
    requires WindowRunnable(rates, w)
  {
    var prices := RateSchedule.InRange(rates, w.0, w.1);
    exists c :: 0 <= c < RateSchedule.NrCandidates && PriceMapOf(m, rates, w.0, w.1, c)
      && (forall c' :: 0 <= c' < RateSchedule.NrCandidates ==>
           RateSchedule.MaskPrice(RateSchedule.Candidate(c', w.0, w.1), prices)
           <= RateSchedule.MaskPrice(RateSchedule.Candidate(c, w.0, w.1), prices))
      && forall c' :: 0 <= c' < c ==>
           RateSchedule.MaskPrice(RateSchedule.Candidate(c', w.0, w.1), prices)
           < RateSchedule.MaskPrice(RateSchedule.Candidate(c, w.0, w.1), prices)
  }

  /** One merge step: the window map's non-zero entries replace the running prices. */
  method MergeWindow(hourPrice: seq<real>, mapPrice: seq<real>) returns (merged: seq<real>)
    requires |hourPrice| == 24 && |mapPrice| == 24
    ensures |merged| == 24
    ensures forall h :: 0 <= h < 24 ==> merged[h] == if mapPrice[h] != 0.0 then mapPrice[h] else hourPrice[h]
  {
    merged := hourPrice;
    var i := 0;
    while i < 24
      invariant 0 <= i <= 24 && |merged| == 24
      invariant forall h :: 0 <= h < i ==> merged[h] == if mapPrice[h] != 0.0 then mapPrice[h] else hourPrice[h]
      invariant forall h :: i <= h < 24 ==> merged[h] == hourPrice[h]
    {
      if mapPrice[i] != 0.0 {
        merged := merged[i := mapPrice[i]];
      }
      i := i + 1;
    }
  }

  /** One window priced by the optimizer. */
  method PriceWindow(b: RateSchedule.ScheduleBuilder, rates: seq<(int, real)>, w: (int, int)) returns (mapPrice: seq<real>)
    requires WindowRunnable(rates, w)
    modifies b
    ensures |mapPrice| == 24 && OptimalPriceMap(mapPrice, rates, w)
  {
    var topMap, price;
    ghost var chosen;
    topMap, mapPrice, price, chosen := RateSchedule.CreateTopHourAdjMaps(b, rates, w.0, w.1);
    assert PriceMapOf(mapPrice, rates, w.0, w.1, chosen);
  }

  /** Merging one more window map. */
  lemma MergedPriceAppend(maps: seq<seq<real>>, m: seq<real>)
    requires forall w :: 0 <= w < |maps| ==> |maps[w]| == 24
    requires |m| == 24
    ensures forall h :: 0 <= h < 24 ==> MergedPrice(maps + [m], h) == if m[h] != 0.0 then m[h] else MergedPrice(maps, h)
  {
    assert (maps + [m])[..|maps|] == maps;
  }

  /** The hour prices merged over the windows, each window priced by the optimizer. `None` where
      some window makes the optimizer raise; the maps of the windows before it are returned. */
  method MergeWindowPrices(b: RateSchedule.ScheduleBuilder, rates: seq<(int, real)>, windows: seq<(int, int)>)
    returns (hourPrice: Option<seq<real>>, ghost maps: seq<seq<real>>)
    modifies b
    ensures hourPrice.None? <==> exists w :: 0 <= w < |windows| && !WindowRunnable(rates, windows[w])
    ensures hourPrice.Some? ==>
              |maps| == |windows| && |hourPrice.value| == 24 && (forall w :: 0 <= w < |windows| ==> |maps[w]| == 24)
              && (forall w :: 0 <= w < |windows| ==> WindowRunnable(rates, windows[w]) && OptimalPriceMap(maps[w], rates, windows[w]))
              && forall h :: 0 <= h < 24 ==> hourPrice.value[h] == MergedPrice(maps, h)
  {
    var prices: seq<real> := seq(24, _ => 0.0);
    maps := [];
    var w := 0;
    while w < |windows|
      invariant 0 <= w <= |windows| && |maps| == w && |prices| == 24
      invariant forall v :: 0 <= v < w ==> |maps[v]| == 24
      invariant forall v :: 0 <= v < w ==> WindowRunnable(rates, windows[v]) && OptimalPriceMap(maps[v], rates, windows[v])
      invariant forall h :: 0 <= h < 24 ==> prices[h] == MergedPrice(maps, h)
    {
      if !WindowRunnable(rates, windows[w]) {
        return None, maps;
      }
      var mapPrice := PriceWindow(b, rates, windows[w]);
      prices := MergeWindow(prices, mapPrice);
      MergedPriceAppend(maps, mapPrice);
      maps := maps + [mapPrice];
      w := w + 1;
    }
    hourPrice := Some(prices);
  }

  /** `get_temp_adj_hourly_rate`. `None` where a window makes the optimizer raise; then nothing
      is saved. */
  method GetTempAdjHourlyRate(store: SettingsStore, b: RateSchedule.ScheduleBuilder, rates: seq<(int, real)>,
                              windows: seq<(int, int)>, hour: int, today: string, cfg: Config)
    returns (r: Option<RateResult>, ghost maps: seq<seq<real>>)
    requires store.Valid() && IsDate(today) && 0 <= hour < 24
    modifies store, b
    ensures store.Valid()
    ensures r.None? <==> exists w :: 0 <= w < |windows| && !WindowRunnable(rates, windows[w])
    ensures r.None? ==> store.settings == old(store.settings)
    ensures r.Some? ==>
              |maps| == |windows| && (forall w :: 0 <= w < |windows| ==> |maps[w]| == 24)
              && (forall w :: 0 <= w < |windows| ==> WindowRunnable(rates, windows[w]) && OptimalPriceMap(maps[w], rates, windows[w]))
              && r.value == WindowDecision(MergedPrice(maps, hour), cfg, LastHourlyRate(old(store.settings)).value.value)
    ensures r.Some? ==>
      store.settings == if r.value.usage.tag == RateSet
                        then old(store.settings)[HourlyRate := today + " " + HourTempText(hour, r.value.decrease)]
                        else old(store.settings)
  {
    var hourPrice;
    hourPrice, maps := MergeWindowPrices(b, rates, windows);
    if hourPrice.None? {
      return None, maps;
    }
    var price := hourPrice.value[hour];
    var last := store.GetLastHourlyRateSetting();
    var usage, decrease := WindowRateStep(price, cfg, last.value.value);
    if usage.tag == RateSet {
      store.SaveHourlyRateSetting(hour, decrease, today);
      SaveHourTempPreservesValid(old(store.settings), HourlyRate, today, hour, decrease);
    }
    r := Some(RateResult(usage, decrease, last.value.value));
  }

  /** The branches of `get_temp_adj_hourly_rate` after the hour's price is known; the hourly
      rate record is saved where the usage becomes `set_hour`. */
  method WindowRateStep(price: real, cfg: Config, last: int) returns (usage: RateUsage, decrease: int)
    ensures RateResult(usage, decrease, last) == WindowDecision(price, cfg, last)
  {
    usage := RateUsage(RateOff, None);
    decrease := 0;
    var rateTooLow := false;
    if price > 0.0 {
      if cfg.rateAbove * 100.0 < price {
        decrease := cfg.decreaseGrades;
        usage := RateUsage(RateSet, None);
      } else {
        rateTooLow := true;
      }
    }
    if usage.tag == RateOff {
      if price == -1.0 {
        usage := RateUsage(RatePaus, None);
      }
      if last > 0 {
        decrease := last;
        if usage.tag == RatePaus {
          usage := RateUsage(RateResetPaus, None);
        } else {
          usage := RateUsage(RateReset, None);
        }
      }
      if rateTooLow {
        usage := usage.(tooLow := Some(Round2(price / 100.0)));
      }
    }
  }

  /** The two records the rate strategies write. */
  function RateRecords(): set<string> { {TopRate, HourlyRate} }

  /** A rate strategy's save: after a `set_hour` its record holds this hour and the decrease;
      otherwise the store is left as it was. */
  function SaveOnSet(s: map<string, string>, key: string, d: RateResult, hour: int, today: string): map<string, string> {
    if d.usage.tag == RateSet then s[key := today + " " + HourTempText(hour, d.decrease)] else s
  }

  /** The store after the top-N strategy of `get_temp_adj_rates`, which runs when the rates are
      loaded and a count is configured, and saves nothing where it raises. */
  function TopSaved(s: map<string, string>, rates: seq<(int, real)>, hour: int, today: string, cfg: Config,
                    active: bool, top: map<int, real>): map<string, string>
    requires LastTopRate(s).Some?
  {
    if active && 0 < cfg.topHours <= |rates|
    then SaveOnSet(s, TopRate, TopRateDecision(top, hour, cfg, LastTopRate(s).value.value), hour, today)
    else s
  }

  /** The store `get_temp_adj_rates` leaves: the top-N save, then the window strategy's save of
      `hourly_rate` where that strategy is on and does not raise. */
  function RatesSaved(s: map<string, string>, rates: seq<(int, real)>, hour: int, today: string, cfg: Config,
                      active: bool, top: map<int, real>, r: Option<RateResult>): map<string, string>
    requires LastTopRate(s).Some?
  {
    var afterTop := TopSaved(s, rates, hour, today, cfg, active, top);
    if r.Some? && active && cfg.useHourlyRates then SaveOnSet(afterTop, HourlyRate, r.value, hour, today) else afterTop
  }

  /** `get_temp_adj_rates`: nothing unless the rates were loaded (`active`); the top-N strategy
      when it is configured, then the window strategy when `use_hourly_rates` is `y`, whose
      result replaces the first. Only the two rate records can change. */
  method GetTempAdjRates(store: SettingsStore, b: RateSchedule.ScheduleBuilder, rates: seq<(int, real)>,
                         windows: seq<(int, int)>, hour: int, today: string, cfg: Config, active: bool)
    returns (r: Option<RateResult>, ghost top: map<int, real>, ghost maps: seq<seq<real>>)
    requires store.Valid() && IsDate(today) && 0 <= hour < 24 && DistinctKeys(rates)
    modifies store, b
    ensures store.Valid()
    ensures store.settings - RateRecords() == old(store.settings) - RateRecords()
    ensures store.settings == RatesSaved(old(store.settings), rates, hour, today, cfg, active, top, r)
    ensures active && 0 < cfg.topHours <= |rates| ==> IsTopMap(rates, cfg.topHours, top)
    ensures r.None? <==>
      active && ((cfg.topHours > 0 && cfg.topHours > |rates|)
                 || (cfg.useHourlyRates && exists w :: 0 <= w < |windows| && !WindowRunnable(rates, windows[w])))
    ensures !active || (cfg.topHours <= 0 && !cfg.useHourlyRates) ==> r == Some(RateDefault) && store.settings == old(store.settings)
    ensures active && cfg.topHours > 0 && !cfg.useHourlyRates && r.Some? ==>
              IsTopMap(rates, cfg.topHours, top)
              && r.value == TopRateDecision(top, hour, cfg, LastTopRate(old(store.settings)).value.value)
    ensures active && cfg.useHourlyRates && r.Some? ==>
              |maps| == |windows| && (forall w :: 0 <= w < |windows| ==> |maps[w]| == 24)
              && (forall w :: 0 <= w < |windows| ==> WindowRunnable(rates, windows[w]) && OptimalPriceMap(maps[w], rates, windows[w]))
              && r.value == WindowDecision(MergedPrice(maps, hour), cfg, LastHourlyRate(old(store.settings)).value.value)
  {
    r := Some(RateDefault);
    top, maps := map[], [];
    if !active {
      return;
    }
    ghost var s0 := store.settings;
    if cfg.topHours > 0 {
      r, top := GetTempAdjTopHourlyRate(store, rates, hour, today, cfg);
      if r.None? {
        return;
      }
      if r.value.usage.tag == RateSet {
        WriteInside(s0, TopRate, today + " " + HourTempText(hour, r.value.decrease), RateRecords());
      }
    }
    ghost var s1 := store.settings;
    assert s1 - RateRecords() == s0 - RateRecords();
    if cfg.useHourlyRates {
      ghost var lastTop := r;
      if cfg.topHours > 0 && lastTop.value.usage.tag == RateSet {
        RecordKeysDistinct();
        UpdateKeepsRecord(s0, TopRate, today + " " + HourTempText(hour, lastTop.value.decrease), HourlyRate, 2, 2);
      }
      assert LastHourlyRate(s1) == LastHourlyRate(s0);
      r, maps := GetTempAdjHourlyRate(store, b, rates, windows, hour, today, cfg);
      if r.Some? && r.value.usage.tag == RateSet {
        WriteInside(s1, HourlyRate, today + " " + HourTempText(hour, r.value.decrease), RateRecords());
      }
    }
  }

  // ---------------------------------------------------------------------------------------
  // Windchill compensation.
  // ---------------------------------------------------------------------------------------

  /** The schedule as the configuration check leaves it: at least one entry, hours 0-23. */
  predicate ScheduleHours(schedule: map<int, int>) {
    (exists k :: k in schedule) && forall k :: k in schedule ==> 0 <= k < 24
  }

  /** `k` is the schedule hour whose temperature holds at `hour`: the latest scheduled hour not
      after it, or, before the first one, the day's last (it holds over midnight). */
  ghost predicate IsBaseKey(schedule: map<int, int>, hour: int, k: int) {
    k in schedule
    && if exists j :: j in schedule && j <= hour
       then k <= hour && forall j :: j in schedule && j <= hour ==> j <= k
       else forall j :: j in schedule ==> j <= k
  }

  /** There is only one such hour. */
  lemma BaseKeyUnique(schedule: map<int, int>, hour: int, k1: int, k2: int)
    requires IsBaseKey(schedule, hour, k1) && IsBaseKey(schedule, hour, k2)
    ensures k1 == k2
  {
  }

  /** `sorted(keys).pop()`: the day's last scheduled hour. */
  method LastScheduledHour(schedule: map<int, int>) returns (k: int)
    requires ScheduleHours(schedule)
    ensures k in schedule && forall j :: j in schedule ==> j <= k
  {
    var some :| some in schedule;
    k := 23;
    while k !in schedule
      invariant some <= k <= 23 && forall j :: j in schedule ==> j <= k
      decreases k
    {
      k := k - 1;
    }
  }

  /** The base setpoint of the windchill evaluation: the scheduled temperature that holds at the
      current hour, found by scanning the schedule from the latest hour down. */
  method BaseSetpoint(schedule: map<int, int>, hour: int) returns (temp: int, ghost key: int)
    requires ScheduleHours(schedule)
    ensures IsBaseKey(schedule, hour, key) && temp == schedule[key]
  {
    var lastHour := LastScheduledHour(schedule);
    key := lastHour;
    temp := schedule[lastHour];
    var k := 23;
    while k >= 0
      invariant -1 <= k <= 23
      invariant forall j :: j in schedule && k < j ==> j > hour
    {
      if k in schedule && hour >= k {
        temp := schedule[k];
        key := k;
        return;
      }
      k := k - 1;
    }
  }

  /** `"{:02d}".format(n)`. */
  function TwoDigits(n: int): string {
    if 0 <= n < 10 then "0" + IntToString(n) else IntToString(n)
  }

  /** The forecast entry to use: `date_HH` of the hour `hoursAhead` on, in tomorrow's date when
      that passes midnight. */
  function ForecastKey(hour: int, hoursAhead: int, today: string, tomorrow: string): string {
    var h := hour + hoursAhead;
    if h >= 24 then tomorrow + "_" + TwoDigits(h - 24) else today + "_" + TwoDigits(h)
  }

  /** One forecast entry: temperature, wind, apparent temperature and its difference from the
      temperature, with the texts `str()` gives for the latter two. */
  datatype ForecastPoint = ForecastPoint(temp: real, wind: real, windchill: real, diff: real,
                                         windchillText: string, diffText: string)

  /** What the forecast program left: it failed, or it wrote these entries. */
  datatype Forecast = ForecastFailed | Forecasts(points: map<string, ForecastPoint>)

  predicate ForecastTexts(forecast: Forecast) {
    forecast.Forecasts? ==>
      forall k :: k in forecast.points ==> IsWord(forecast.points[k].windchillText) && IsWord(forecast.points[k].diffText)
  }

  /** The result of `get_windchill_temp_adjustment`: the evaluation code, the base setpoint, the
      wanted and the final increase, and the forecast entry used. */
  datatype Evaluation = Evaluation(code: int, indoorTemp: int, wanted: real, final: real, point: Option<ForecastPoint>)

  function Abs(x: real): real { if x < 0.0 then -x else x }

  /** `get_windchill_temp_adjustment` from the base setpoint on. Code 1: the setpoint is below the
      threshold; -2/-3: the forecast program failed; -1: no forecast; -4: no entry for the hour;
      2: the apparent temperature is too close to the real one; 3: the wanted increase
      `|diff|/2.5`; 4: capped to keep `25 - |T|/2.5`; 5: capped at the configured maximum. */
  function Evaluate(indoorTemp: int, cfg: Config, forecast: Forecast, key: string): (ev: Evaluation)
    ensures ev.indoorTemp == indoorTemp
    ensures ev.code in {-4, -3, -2, -1, 1, 2, 3, 4, 5}
    ensures ev.code <= 2 ==> ev.final == 0.0
    ensures ev.code == 1 <==> indoorTemp < cfg.adjustAbove
    ensures ev.code >= 2 ==> ev.point.Some? && forecast.Forecasts? && key in forecast.points
                             && ev.point.value == forecast.points[key]
    ensures ev.code >= 3 ==> ev.final <= ev.wanted && ev.final <= cfg.maxIncrease as real
                             && ev.wanted == Abs(ev.point.value.diff) / 2.5
                             && Abs(cfg.minDiff) <= Abs(ev.point.value.diff)
    ensures ev.code == 3 ==> ev.final == ev.wanted
    ensures ev.code == 4 ==> ev.final == 25.0 - Abs(ev.point.value.temp) / 2.5 < ev.wanted
    ensures ev.code == 5 ==> ev.final == cfg.maxIncrease as real
  {
    if indoorTemp < cfg.adjustAbove then Evaluation(1, indoorTemp, 0.0, 0.0, None)
    else match forecast
      case ForecastFailed => Evaluation(if cfg.useSmhi then -2 else -3, indoorTemp, 0.0, 0.0, None)
      case Forecasts(points) =>
        if |points| == 0 then Evaluation(-1, indoorTemp, 0.0, 0.0, None)
        else if key !in points then Evaluation(-4, indoorTemp, 0.0, 0.0, None)
        else
          var p := points[key];
          if Abs(p.diff) < Abs(cfg.minDiff) then Evaluation(2, indoorTemp, 0.0, 0.0, Some(p))
          else
            var maxAllowed := 25.0 - Abs(p.temp) / 2.5;
            var wanted := Abs(p.diff) / 2.5;
            var capped := wanted > maxAllowed;
            var f := if capped then maxAllowed else wanted;
            if f > cfg.maxIncrease as real then Evaluation(5, indoorTemp, wanted, cfg.maxIncrease as real, Some(p))
            else Evaluation(if capped then 4 else 3, indoorTemp, wanted, f, Some(p))
  }

  /** `get_windchill_temp_adjustment`, with the forecast program's outcome as an input. */
  method GetWindchillTempAdjustment(schedule: map<int, int>, hour: int, today: string, tomorrow: string,
                                    cfg: Config, forecast: Forecast)
    returns (ev: Evaluation, ghost key: int)
    requires ScheduleHours(schedule)
    ensures IsBaseKey(schedule, hour, key)
    ensures ev == Evaluate(schedule[key], cfg, forecast, ForecastKey(hour, cfg.hoursAhead, today, tomorrow))
  {
    var indoorTemp;
    indoorTemp, key := BaseSetpoint(schedule, hour);
    ev := Evaluate(indoorTemp, cfg, forecast, ForecastKey(hour, cfg.hoursAhead, today, tomorrow));
  }

  datatype WindTag = WindOff | WindSet | WindReset

  /** What `get_temp_adj_windchill_effect` returns: usage, increase and the stored increase. */
  datatype WindResult = WindResult(usage: WindTag, increase: int, last: int)

  /** The decision of `get_temp_adj_windchill_effect`: codes 3-5 set the rounded final increase;
      any other code takes back a stored increase if there is one. */
  function WindchillDecision(ev: Evaluation, stored: LastRecord): (r: WindResult)
    ensures r.last == stored.value
    ensures r.usage == WindSet <==> ev.code !in {-4, -3, -2, -1, 1, 2}
    ensures r.usage == WindSet ==> r.increase as real - 1.0 / 2.0 <= ev.final + 1.0 / 1000.0 <= r.increase as real + 1.0 / 2.0
    ensures r.usage == WindReset ==> stored.date != "-" && r.increase == stored.value
    ensures r.usage == WindOff ==> stored.date == "-" && r.increase == 0
  {
    if ev.code in {-4, -3, -2, -1, 1, 2} then
      if stored.date != "-" then WindResult(WindReset, stored.value, stored.value)
      else WindResult(WindOff, 0, stored.value)
    else WindResult(WindSet, RoundHalfEven(ev.final + 1.0 / 1000.0), stored.value)
  }

  /** A set increase never exceeds the configured maximum. */
  lemma WindchillIncreaseBounded(ev: Evaluation, stored: LastRecord, indoorTemp: int, cfg: Config, forecast: Forecast, key: string)
    requires ev == Evaluate(indoorTemp, cfg, forecast, key)
    ensures WindchillDecision(ev, stored).usage == WindSet ==> WindchillDecision(ev, stored).increase <= cfg.maxIncrease
  {
  }

  /** The store `get_temp_adj_windchill_effect` leaves: after a `set_hour` the windchill record
      holds this hour, the evaluation and the increase; otherwise the store is left as it was. */
  function WindSaved(s: map<string, string>, hour: int, today: string, cfg: Config, ev: Evaluation, w: WindResult)
    : map<string, string>
  {
    if cfg.useWindchill && w.usage == WindSet && ev.point.Some?
    then s[Windchill := today + " " + WindchillText(hour, ev.code, ev.point.value.windchillText, ev.point.value.diffText, w.increase)]
    else s
  }

  /** `get_temp_adj_windchill_effect`. A set increase is saved and reads back on the next run. */
  method GetTempAdjWindchillEffect(store: SettingsStore, schedule: map<int, int>, hour: int, today: string,
                                   tomorrow: string, cfg: Config, forecast: Forecast)
    returns (r: WindResult, ghost ev: Evaluation, ghost key: int)
    requires store.Valid() && IsDate(today) && ScheduleHours(schedule) && ForecastTexts(forecast)
    modifies store
    ensures store.Valid()
    ensures !cfg.useWindchill ==> r == WindResult(WindOff, 0, 0) && store.settings == old(store.settings)
    ensures cfg.useWindchill ==>
              IsBaseKey(schedule, hour, key)
              && ev == Evaluate(schedule[key], cfg, forecast, ForecastKey(hour, cfg.hoursAhead, today, tomorrow))
              && r == WindchillDecision(ev, LastWindchill(old(store.settings)).value)
    ensures cfg.useWindchill && r.usage == WindSet ==>
              store.settings == old(store.settings)[Windchill := today + " " +
                WindchillText(hour, ev.code, ev.point.value.windchillText, ev.point.value.diffText, r.increase)]
              && LastWindchill(store.settings) == Some(LastRecord(today, hour, r.increase))
    ensures r.usage != WindSet ==> store.settings == old(store.settings)
    ensures store.settings == WindSaved(old(store.settings), hour, today, cfg, ev, r)
  {
    if !cfg.useWindchill {
      return WindResult(WindOff, 0, 0), Evaluation(0, 0, 0.0, 0.0, None), 0;
    }
    var e;
    e, key := GetWindchillTempAdjustment(schedule, hour, today, tomorrow, cfg, forecast);
    ev := e;
    var last := store.GetLastWindchillSetting();
    var usage, increase := WindchillStep(e, last.value);
    if usage == WindSet {
      var p := e.point.value;
      store.SaveWindchillSetting(hour, e.code, p.windchillText, p.diffText, increase, today);
      SaveWindchillPreservesValid(old(store.settings), today, hour, e.code, p.windchillText, p.diffText, increase);
      WindchillRoundTrip(old(store.settings), today, hour, e.code, p.windchillText, p.diffText, increase);
    }
    r := WindResult(usage, increase, last.value.value);
  }

  /** The branches of `get_temp_adj_windchill_effect` after the evaluation; the windchill record
      is saved where the usage becomes `set_hour`. */
  method WindchillStep(e: Evaluation, stored: LastRecord) returns (usage: WindTag, increase: int)
    ensures WindResult(usage, increase, stored.value) == WindchillDecision(e, stored)
  {
    usage := WindOff;
    increase := 0;
    if e.code in {-4, -3, -2, -1, 1, 2} {
      if stored.date != "-" {
        usage := WindReset;
        increase := stored.value;
      }
    } else {
      increase := RoundHalfEven(e.final + 1.0 / 1000.0);
      usage := WindSet;
    }
  }
}
