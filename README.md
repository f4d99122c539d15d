# pgart heat-pump controller: a verified model of its decision core

pgart sets the indoor-temperature setpoint (the "comfort wheel") of a Thermia Atlas heat pump once an
hour. It starts from a weekday schedule of setpoints, lowers it during expensive electricity hours,
and raises it when a forecast wind makes the apparent outdoor temperature much lower than the real
one. It also detects when someone has changed the pump by hand, and it recovers a pump update that
an earlier run did not finish. This project models that core in Dafny and proves properties of it.

The model follows the program's modules:

| file | module | models |
|---|---|---|
| `rate_schedule.dfy` | `RateSchedule` | The price-schedule optimizer (`pgart_calc_hourly_rate_adj_func.py`). For a window of hours, it enumerates the 4096 masks built from `[1,1,0]` and `[1,0]` blocks, removes duplicates by their text key, and picks the key of greatest price. The list of masks is the class `ScheduleBuilder`. |
| `settings_store.dfy` | `Settings` | The settings file of "last applied" records (`get_setting`, `update_setting`, `remove_setting` and their wrappers), as the class `SettingsStore` over a map. |
| `heating_adjust.dfy` | `HeatingAdjust` | The schedule lists, the top-N and windowed rate adjusters, and the windchill evaluation and adjuster. |
| `heating_control.dfy` | `HeatingControl` | `set_new_indoor_temp`: night run, manual override, setpoint arithmetic, write-ahead `start_update` record and replay of a failed update. |
| `control_params.dfy` | `ControlParams` | The validators of the control-parameter file (`is_hr_temp_valid`, `is_hr_hr_valid`, `is_par_valid`) and the line loop of `get_parameters`. |
| `modbus.dfy` | `Modbus` | The Modbus/TCP frames: the MBAP header, read and write requests, the register decode and the exception check. |
| `misc_func.dfy` | `MiscFunc` | The validators of the rate, forecast and sensor files, `get_hourly_rates` and `get_exec_str`. |
| `eon_conv.dfy` | `EonConv` | The converter of E.ON consumption downloads into the generic hourly format. |
| `text.dfy`, `pynum.dfy`, `pydict.dfy`, `strptime.dfy` | `Text`, `PyNum`, `PyDict`, `Strptime` | The parts of Python the code relies on: `str` methods, `int`, `float`, `str`, `round`, insertion-ordered `dict`, and `strptime`/`strftime` for the two formats used. |

**Form of the model**
- Code that changes state step by step is written as methods with loops. Each method is proved
  against a function that states its result. Examples:
  - the optimizer's nested loops and its de-duplication;
  - the in-place marking of `hours_set` in `is_hr_hr_valid`, on an `array`;
  - the settings store;
  - the validators' line loops.
- Code that only computes a value is written as functions, with lemmas about them.
- Files, the clock, the weekday, the pump's current value, the result of a pump write and the forecast
  entries are parameters.
- A Python exception is a value of the result type (`None`, `Crashed`, `Raises`, `LineRaises`).
  Inputs that make the source raise are modelled, not excluded.
- The two defects listed under Findings are modelled as written. The table of `is_hr_hr_valid` is a
  parameter `slots`: the program's 24 slots are `ControlParams.SourceSlots`, and
  `ControlParams.DaySlots` (25) is the corrected table. The reading of a download's date is a
  parameter `reading`: the program's `split("_")[1]` is `EonConv.AsWritten`, and
  `EonConv.Corrected` is the corrected reading. The members that model a source function take
  these parameters, so they cover the program itself. The lemmas about the corrected versions
  name `DaySlots` or `Corrected` explicitly.

**Behaviour of the code worth knowing**
- **Night run.** The last scheduled hour of the day sets the scheduled value capped at 25, whatever
  the adjusters decided (`HeatingControl.NightRunUsesSchedule`).
- **Windchill increase.** The increase is `|diff|/2.5` limited by `25 - |T|/2.5` and by the
  configured maximum, then rounded as `int(round(x + 0.001))` (`HeatingAdjust.Evaluate`,
  `HeatingAdjust.WindchillDecision`).
- **`get_exec_str`.** It drops leading commas (`"a"` for `",a"`) and turns every other comma into a
  space (`MiscFunc.ExecStrIsReplace`).
- **Hourly-rate validator.** It counts lines, not distinct hours (`MiscFunc.DuplicateHoursAccepted`).
  It also removes inner whitespace that `get_hourly_rates` does not remove. So a line like `1 2:3.0`
  passes the validator and then makes the reader raise (`MiscFunc.InnerSpaceUnread`).
- **`is_monthly_rates_proper`.** It raises, rather than refusing the line, when the dash comes after
  the colon (`MiscFunc.MonthlyRaisesIff`).
- **Empty sensor file.** `get_ext_temp_reading` raises on an empty file (`MiscFunc.ExtTempReading`).
- **`txt` rules.** The length bounds of a `txt` rule, such as `login_id`, are never checked
  (`ControlParams.TxtLengthUnchecked`).
- **`weekday` parameter.** It has a default but no rule, so any line setting it stops `get_parameters`
  (`ControlParams.WeekdayHasNoRule`, `ControlParams.NoRuleRefused`).
- **`strptime`.** It also accepts unpadded month and day fields, and a day written as a space and a
  digit (`Strptime.ShortFieldsAccepted`, `Strptime.SpacedDayAccepted`).

## Model

| member | source | states |
|---|---|---|
| RateSchedule.CandidateLengths | pgart/bin/pgart_calc_hourly_rate_adj_func.py:53-65 | the block lengths of the `c`-th pass of the twelve nested loops are twelve values, each 2 or 3 |
| RateSchedule.Candidate | pgart/bin/pgart_calc_hourly_rate_adj_func.py:26-48 | the mask the `c`-th call adds is exactly `stop - start` hours long |
| RateSchedule.AppendBlockShape | pgart/bin/pgart_calc_hourly_rate_adj_func.py:37-45 | appending a `[1,1,0]` or `[1,0]` block to a well-shaped mask that ends in 0 keeps it well-shaped and ending in 0 |
| RateSchedule.PrefixBlocksShape | pgart/bin/pgart_calc_hourly_rate_adj_func.py:33-45 | any sequence of blocks after an optional leading 0 has no three decrease hours and no two pause hours in a row |
| RateSchedule.BlocksLength | pgart/bin/pgart_calc_hourly_rate_adj_func.py:28-31 | the blocks cover the sum of their lengths, at least two hours per block, so twelve blocks always cover 24 hours |
| RateSchedule.CandidateShape | pgart/bin/pgart_calc_hourly_rate_adj_func.py:28-47 | every candidate mask is well-shaped and exactly as long as the window: no candidate is rejected for too few hours |
| RateSchedule.SplitEncodeMask | pgart/bin/pgart_calc_hourly_rate_adj_func.py:79-88 | splitting a mask's key on `.` gives the text of each hour back |
| RateSchedule.DecodeEncodeMask | pgart/bin/pgart_calc_hourly_rate_adj_func.py:103-109 | a key splits into one piece per hour, and a piece is switched on (`int(switch) > 0`) exactly at the mask's 1s |
| RateSchedule.EncodeMaskInjective | pgart/bin/pgart_calc_hourly_rate_adj_func.py:79-91 | two 0/1 masks with the same key are equal, so the key table de-duplicates masks, not texts |
| RateSchedule.DedupProperties | pgart/bin/pgart_calc_hourly_rate_adj_func.py:72-93 | the table holds each distinct key once, every mask's key and no other, and the first mask with a key sets its count of 1s |
| RateSchedule.DedupDistinct | pgart/bin/pgart_calc_hourly_rate_adj_func.py:90-91 | no key is stored twice |
| RateSchedule.DedupCovers | pgart/bin/pgart_calc_hourly_rate_adj_func.py:75-91 | every mask's key is in the table |
| RateSchedule.DedupOnlyFrom | pgart/bin/pgart_calc_hourly_rate_adj_func.py:75-91 | every key in the table comes from some mask |
| RateSchedule.DedupFirstWins | pgart/bin/pgart_calc_hourly_rate_adj_func.py:90-91 | the count stored under a key is that of the first mask with that key |
| RateSchedule.DedupCountsOnes | pgart/bin/pgart_calc_hourly_rate_adj_func.py:77-91 | for 0/1 masks the stored count is the number of 1s of any mask with that key |
| RateSchedule.RawPriceOfPieces | pgart/bin/pgart_calc_hourly_rate_adj_func.py:103-109 | summing prices over the switched-on pieces equals summing them over the mask's decrease hours |
| RateSchedule.KeyPriceOfMask | pgart/bin/pgart_calc_hourly_rate_adj_func.py:102-111 | the price given to a mask's key is the mask's total rounded to two decimals |
| RateSchedule.InRangeOfFullDay | pgart/bin/pgart_calc_hourly_rate_adj_func.py:16-23 | with a rate table listing hours 0-23 in order, position `i` of the window's prices is the price of hour `start + i` |
| RateSchedule.SumLengths | pgart/bin/pgart_calc_hourly_rate_adj_func.py:29 | the loop adds up the block lengths |
| RateSchedule.BuildPattern | pgart/bin/pgart_calc_hourly_rate_adj_func.py:33-45 | the pattern built step by step is the optional leading 0 followed by the blocks |
| RateSchedule.CandidatesAt | pgart/bin/pgart_calc_hourly_rate_adj_func.py:51-69 | the `t`-th candidate of the list is the mask of the `t`-th call |
| RateSchedule.ScheduleBuilder.constructor | pgart/bin/pgart_calc_hourly_rate_adj_func.py:14 | the schedule list starts empty |
| RateSchedule.ScheduleBuilder.AddSchedule | pgart/bin/pgart_calc_hourly_rate_adj_func.py:26-48 | appends the truncated pattern, or leaves the list as it was when the blocks cover fewer hours than the window |
| RateSchedule.ScheduleBuilder.AddCandidate | pgart/bin/pgart_calc_hourly_rate_adj_func.py:65 | one pass of the loop body appends exactly the `c`-th candidate |
| RateSchedule.ScheduleBuilder.CreateHourSchedules | pgart/bin/pgart_calc_hourly_rate_adj_func.py:51-69 | appends 4096 masks, the `c`-th being candidate `c`, and keeps what was there before |
| RateSchedule.ScheduleBuilder.CreateNoDupHourMaps | pgart/bin/pgart_calc_hourly_rate_adj_func.py:72-93 | the table built is the de-duplication of the schedule list: keys in first-insertion order, counts of 1s |
| RateSchedule.EncodeStep | pgart/bin/pgart_calc_hourly_rate_adj_func.py:83-88 | one hour of the inner loop extends the key by `.` and the hour (no `.` before the first) and the count by the hour's 1 |
| RateSchedule.EncodeSchedule | pgart/bin/pgart_calc_hourly_rate_adj_func.py:77-88 | the inner loop computes a mask's key and its count of 1s |
| RateSchedule.DedupKeysCounts | pgart/bin/pgart_calc_hourly_rate_adj_func.py:90-91 | the ordered keys and the table's keys are the same |
| RateSchedule.GetTopHourMap | pgart/bin/pgart_calc_hourly_rate_adj_func.py:96-136 | the chosen key's price is the greatest, no earlier key has it (stable sort), and the 24-hour maps are 0 outside the window, 1 inside, the hour's price on a decrease hour and -1 on a pause hour |
| RateSchedule.KeyPriceAt | pgart/bin/pgart_calc_hourly_rate_adj_func.py:102-112 | the `t`-th computed price is the price of the `t`-th key |
| RateSchedule.PriceKeys | pgart/bin/pgart_calc_hourly_rate_adj_func.py:102-112 | the loop prices every key |
| RateSchedule.PriceKey | pgart/bin/pgart_calc_hourly_rate_adj_func.py:103-111 | one key's price is the rounded sum over its switched-on hours |
| RateSchedule.FirstMaximum | pgart/bin/pgart_calc_hourly_rate_adj_func.py:114-119 | the position chosen holds a greatest price and every earlier position a smaller one |
| RateSchedule.SpreadKey | pgart/bin/pgart_calc_hourly_rate_adj_func.py:120-133 | the maps are 0 outside the key's hours, 1 inside, the price on a switched-on hour and -1 on the others |
| RateSchedule.GetPricePerHourRange | pgart/bin/pgart_calc_hourly_rate_adj_func.py:16-23 | keeps exactly the rates whose hour lies in `[start, stop)`, in input order |
| RateSchedule.CreateTopHourAdjMaps | pgart/bin/pgart_calc_hourly_rate_adj_func.py:139-147 | the chosen candidate's total is at least that of every one of the 4096 candidates and greater than that of every earlier candidate, so a tie goes to the first candidate as the stable sort leaves it; the maps project that candidate onto the day |
| RateSchedule.CandidatesFitWindow | pgart/bin/pgart_calc_hourly_rate_adj_func.py:47-48 | every stored candidate is a 0/1 mask of the window's length |
| RateSchedule.MaskKeys | pgart/bin/pgart_calc_hourly_rate_adj_func.py:72-93 | every de-duplicated key splits into one piece per hour of the window |
| RateSchedule.ChooseMask | pgart/bin/pgart_calc_hourly_rate_adj_func.py:102-119 | the first mask with the key of greatest price has a total at least that of every mask and greater than that of every earlier mask (the keys stand in first-insertion order), and the key's pieces mark that mask's decrease hours |
| RateSchedule.EarlierMasksCheaper | pgart/bin/pgart_calc_hourly_rate_adj_func.py:114-119 | every mask before the first one with the head key of the stable descending sort has a strictly lower total |
| RateSchedule.KeyOrderFollowsMasks | pgart/bin/pgart_calc_hourly_rate_adj_func.py:72-93 | the de-duplicated keys stand in first-insertion order: a key listed earlier occurs before every mask carrying a later key |
| Settings.DefaultFields | pgart/bin/pgart_control_heating.py:56-59 | `get_setting` starts from `nr_fields + 1` fields: `"-"` then `"0"`s |
| Settings.StoredFields | pgart/bin/pgart_control_heating.py:61-67 | a stored text that splits into `parts` reads back as `parts` overlaid on the defaults |
| Settings.StoredRecord | pgart/bin/pgart_control_heating.py:54-96 | a record whose fields are the date, the hour and the value reads back as exactly those |
| Settings.HourTempRoundTrip | pgart/bin/pgart_control_heating.py:104-112 | a record saved as `date hour temp` reads back as `(date, hour, temp)` |
| Settings.WindchillRoundTrip | pgart/bin/pgart_control_heating.py:136-148 | a windchill record reads back as its date, hour and final increase (the sixth field) |
| Settings.StartUpdateRoundTrip | pgart/bin/pgart_control_heating.py:88-96 | a `start_update` record whose note has at most six words reads back as its date, hour and temperature |
| Settings.AbsentRecord | pgart/bin/pgart_control_heating.py:56-112 | an absent record reads as `("-", 0, 0)` |
| Settings.SettingsStore.constructor | pgart/bin/pgart_control_heating.py:44-51 | the store holds the map it was loaded with |
| Settings.SettingsStore.GetSetting | pgart/bin/pgart_control_heating.py:54-69 | returns the default fields overlaid by the stored parts, or the `IndexError` outcome when the text has more parts than fields |
| Settings.SettingsStore.UpdateSetting | pgart/bin/pgart_control_heating.py:72-77 | only `key` changes, to the date, a space and the value |
| Settings.SettingsStore.RemoveSetting | pgart/bin/pgart_control_heating.py:80-85 | only `key` goes; an absent key leaves the store unchanged |
| Settings.SettingsStore.GetLast | pgart/bin/pgart_control_heating.py:94-112 | reads a record as date, `int(hour)` and `int` of the value field |
| Settings.SettingsStore.SaveStartUpdate | pgart/bin/pgart_control_heating.py:88-91 | stores `date hour temp note` under `start_update` and nothing else |
| Settings.SettingsStore.GetLastStartUpdate | pgart/bin/pgart_control_heating.py:94-96 | reads `start_update` with eight fields |
| Settings.SettingsStore.RemoveStartUpdate | pgart/bin/pgart_control_heating.py:99-101 | removes only `start_update` |
| Settings.SettingsStore.SaveHourlyRateSetting | pgart/bin/pgart_control_heating.py:104-107 | stores `date hour temp` under `hourly_rate` and nothing else |
| Settings.SettingsStore.GetLastHourlyRateSetting | pgart/bin/pgart_control_heating.py:110-112 | reads `hourly_rate` with two fields |
| Settings.SettingsStore.RemoveHourlyRateSetting | pgart/bin/pgart_control_heating.py:115-117 | removes only `hourly_rate` |
| Settings.SettingsStore.SaveTopRateSetting | pgart/bin/pgart_control_heating.py:120-123 | stores `date hour temp` under `top_rate` and nothing else |
| Settings.SettingsStore.GetLastTopRateSetting | pgart/bin/pgart_control_heating.py:126-128 | reads `top_rate` with two fields |
| Settings.SettingsStore.RemoveTopRateSetting | pgart/bin/pgart_control_heating.py:131-133 | removes only `top_rate` |
| Settings.SettingsStore.SaveWindchillSetting | pgart/bin/pgart_control_heating.py:136-143 | stores `date hour code windchill diff increase` under `windchill` and nothing else |
| Settings.SettingsStore.GetLastWindchillSetting | pgart/bin/pgart_control_heating.py:146-148 | reads `windchill` with five fields, the value being the final increase |
| Settings.SettingsStore.RemoveWindchillSetting | pgart/bin/pgart_control_heating.py:151-153 | removes only `windchill` |
| Settings.SettingsStore.SaveIndoorTempSetting | pgart/bin/pgart_control_heating.py:156-190 | stores `date hour temp` under `indoor_temp` and nothing else |
| Settings.SettingsStore.GetLastIndoorTempSetting | pgart/bin/pgart_control_heating.py:193-195 | reads `indoor_temp` with two fields |
| Settings.SettingsStore.RemoveIndoorTempSetting | pgart/bin/pgart_control_heating.py:198-200 | removes only `indoor_temp` |
| Settings.SettingsStore.RemoveObsoleteIndoorTempSetting | pgart/bin/pgart_control_heating.py:203-211 | raises exactly when the stored `indoor_temp` date is not `-` and `strptime` refuses it; removes the record exactly when its date parses and lies before today; leaves the store as it was otherwise |
| Settings.SettingsStore.RemoveNowObsoleteSettings | pgart/bin/pgart_control_heating.py:214-218 | removes exactly `hourly_rate`, `top_rate` and `windchill` |
| Settings.SameRecord | pgart/bin/pgart_control_heating.py:54-69 | a record reads the same from two stores that agree on its key |
| Settings.RemovePreservesValid | pgart/bin/pgart_control_heating.py:80-85 | removing a record keeps every record readable |
| Settings.RecordAfterRemoval | pgart/bin/pgart_control_heating.py:80-85 | a readable record stays readable when other records are removed |
| Settings.RemoveKeysPreservesValid | pgart/bin/pgart_control_heating.py:214-218 | removing any set of records keeps the store readable |
| Settings.UpdateKeepsRecord | pgart/bin/pgart_control_heating.py:72-77 | writing one record leaves every other record reading as before |
| Settings.SaveHourTempPreservesValid | pgart/bin/pgart_control_heating.py:104-195 | saving an hour-and-temperature record keeps the store readable |
| Settings.SaveWindchillPreservesValid | pgart/bin/pgart_control_heating.py:136-148 | saving a windchill record keeps the store readable |
| Settings.SaveStartUpdatePreservesValid | pgart/bin/pgart_control_heating.py:88-96 | saving a `start_update` record with a note of at most six words keeps the store readable |
| HeatingAdjust.ParsedItems | pgart/bin/pgart_control_heating.py:270-274 | each comma-separated item is read as `(int(a), int(b))`, or fails where Python raises |
| HeatingAdjust.BuildPairsFailure | pgart/bin/pgart_control_heating.py:272-274 | the dictionary (`BuildPairs`) is built exactly when every item parses |
| HeatingAdjust.BuildPairsKeys | pgart/bin/pgart_control_heating.py:272-274 | the dictionary's keys are exactly the items' keys, each once |
| HeatingAdjust.BuildPairsLastWins | pgart/bin/pgart_control_heating.py:274 | each key holds the value of the last item naming it (`dict.update`) |
| HeatingAdjust.ParseHourList | pgart/bin/pgart_control_heating.py:270-274 | the loop builds the dictionary of the split list, item by item |
| HeatingAdjust.BuildPairsFails | pgart/bin/pgart_control_heating.py:272-274 | once an item fails, the whole list fails |
| HeatingAdjust.CreateHourlySettingsIndoorTemp | pgart/bin/pgart_control_heating.py:261-276 | the weekday's own list is used (flag 1) when it has one, else the general list (flag 0), read as an hour-to-temperature map |
| HeatingAdjust.CreateRangeHourlyRateTempDecrease | pgart/bin/pgart_control_heating.py:279-288 | the `start-stop` windows are read as a map in listing order, a repeated start taking the last stop |
| HeatingAdjust.CountBeforeMonotone | pgart/bin/pgart_control_heating.py:703 | a rate sorted before another has fewer rates before it |
| HeatingAdjust.RankOrder | pgart/bin/pgart_control_heating.py:703 | a rate the stable descending sort puts first has the smaller position |
| HeatingAdjust.RankDistinct | pgart/bin/pgart_control_heating.py:703 | two rates never share a position in the sorted list |
| HeatingAdjust.TopHoursAreHighest | pgart/bin/pgart_control_heating.py:703-707 | every top hour costs at least as much as every hour outside the top |
| HeatingAdjust.RankOf | pgart/bin/pgart_control_heating.py:703 | computes a rate's position in the stable descending sort |
| HeatingAdjust.TopHours | pgart/bin/pgart_control_heating.py:703-707 | the map holds the first `n` sorted rates with their prices, or fails (`IndexError`) exactly when fewer than `n` rates exist |
| HeatingAdjust.TopRateDecision | pgart/bin/pgart_control_heating.py:712-725 | `set_hour` with the configured grades only for a top hour, else `reset_hour` with the stored decrease if it is positive, else `off` with 0 |
| HeatingAdjust.TopRateSetIff | pgart/bin/pgart_control_heating.py:703-718 | `set_hour` exactly when the hour is among the `n` most expensive and `100 * threshold < price` |
| HeatingAdjust.GetTempAdjTopHourlyRate | pgart/bin/pgart_control_heating.py:697-725 | the decision for the current hour; the top rate record is saved exactly on `set_hour`; nothing changes when the source raises |
| HeatingAdjust.TopRateStep | pgart/bin/pgart_control_heating.py:712-725 | the branches compute the top-N decision |
| HeatingAdjust.MergedPriceIsLastNonZero | pgart/bin/pgart_control_heating.py:733-741 | an hour's merged price (`MergedPrice`) is 0 when every window leaves it at 0, else the entry of the last window that prices it |
| HeatingAdjust.WindowDecision | pgart/bin/pgart_control_heating.py:747-770 | `set_hour` with the grades only for a positive price, `reset_hour` with the stored decrease, a pause tag exactly for price -1, and `rate_too_low` exactly for a positive price at or below the threshold |
| HeatingAdjust.MergeWindow | pgart/bin/pgart_control_heating.py:739-741 | a window map's non-zero entries replace the running prices |
| HeatingAdjust.PriceWindow | pgart/bin/pgart_control_heating.py:738 | the window's price map is that of its most expensive candidate, the first one among equal totals |
| HeatingAdjust.MergedPriceAppend | pgart/bin/pgart_control_heating.py:737-741 | merging one more window map updates each hour by that map's non-zero entry |
| HeatingAdjust.MergeWindowPrices | pgart/bin/pgart_control_heating.py:731-741 | the hour prices are the merged optimal maps (first candidate of greatest total) of the windows, or fail where a window makes the optimizer raise |
| HeatingAdjust.GetTempAdjHourlyRate | pgart/bin/pgart_control_heating.py:728-770 | the windowed decision for the merged price of the current hour, each window priced by its first candidate of greatest total; the hourly rate record is saved exactly on `set_hour` |
| HeatingAdjust.WindowRateStep | pgart/bin/pgart_control_heating.py:747-770 | the branches compute the windowed decision |
| HeatingAdjust.GetTempAdjRates | pgart/bin/pgart_control_heating.py:773-784 | `off` when the rates are not loaded or no strategy is on; raises exactly when the top-N count exceeds the rates or a window makes the optimizer raise; the windowed result replaces the top-N one; the new store is `RatesSaved`: the top-N `set_hour` saves `top_rate`, then the window strategy's `set_hour` saves `hourly_rate`, and nothing else changes |
| HeatingAdjust.BaseKeyUnique | pgart/bin/pgart_control_heating.py:542-547 | only one schedule hour holds at a given hour |
| HeatingAdjust.LastScheduledHour | pgart/bin/pgart_control_heating.py:542 | `sorted(keys).pop()` is the day's last scheduled hour |
| HeatingAdjust.BaseSetpoint | pgart/bin/pgart_control_heating.py:542-547 | the base is the temperature at the latest scheduled hour not after now, else at the day's last one |
| HeatingAdjust.Evaluate | pgart/bin/pgart_control_heating.py:550-646 | code 1 exactly when the base is below the threshold, 2 for a small difference, 3-5 with `final <= wanted = |diff|/2.5` and `final <= max`, 4 capped at `25 - |T|/2.5`, 5 at the maximum, negative codes for a missing forecast |
| HeatingAdjust.GetWindchillTempAdjustment | pgart/bin/pgart_control_heating.py:531-646 | evaluates from the base setpoint at the current hour and the forecast entry `hours_ahead` on, crossing midnight into tomorrow's date |
| HeatingAdjust.WindchillDecision | pgart/bin/pgart_control_heating.py:676-686 | `set_hour` exactly for codes 3-5, with `int(round(final + 0.001))`; other codes take back a stored increase, else `off` |
| HeatingAdjust.WindchillIncreaseBounded | pgart/bin/pgart_control_heating.py:642-684 | a set increase never exceeds the configured maximum |
| HeatingAdjust.GetTempAdjWindchillEffect | pgart/bin/pgart_control_heating.py:666-694 | `off` when compensation is off; otherwise the decision; the new store is `WindSaved`: the windchill record written exactly on `set_hour`, nothing else changed |
| HeatingAdjust.WindchillStep | pgart/bin/pgart_control_heating.py:676-686 | the branches compute the windchill decision |
| HeatingControl.Setpoint | pgart/bin/pgart_control_heating.py:401-508 | the setpoint never exceeds 25 |
| HeatingControl.NightRunUsesSchedule | pgart/bin/pgart_control_heating.py:372-508 | the night run sets the scheduled temperature, capped at 25, whatever the adjusters said |
| HeatingControl.UnchangedAdjustmentIsNoOp | pgart/bin/pgart_control_heating.py:446-480 | an unscheduled hour whose decrease and increase equal the stored ones keeps the pump's value (up to the cap) |
| HeatingControl.SetThenResetRestores | pgart/bin/pgart_control_heating.py:419-463 | a decrease set in one unscheduled hour is undone by the `reset_hour` of the next |
| HeatingControl.IncreaseThenResetRestores | pgart/bin/pgart_control_heating.py:428-480 | an increase set in one unscheduled hour is undone by the `reset_hour` of the next |
| HeatingControl.RateUsageText | pgart/bin/pgart_control_heating.py:755-768 | a rate usage is one word; it holds `=` exactly when the price was too low, followed by `str(round(price / 100, 2))` |
| HeatingControl.TooLowPriceReadBack | pgart/bin/pgart_control_heating.py:438-440 | the text after `=` reads back with `float` as the price that was too low |
| PyNum.HundredthsRoundTrip | pgart/bin/pgart_control_heating.py:768 | `float(str(x)) == x` for a price `x >= 0` that is a whole number of hundredths, as `round(_, 2)` gives |
| PyNum.HundredthsText | pgart/bin/pgart_control_heating.py:768 | `str(x)` of such a price holds only digits, `.` and `-` |
| PyNum.Round2Hundredths | pgart/bin/pgart_control_heating.py:768 | `round(x, 2)` is a whole number of hundredths |
| HeatingControl.WindUsageText | pgart/bin/pgart_control_heating.py:511 | a windchill usage is written as one word |
| HeatingControl.UpdateNoteWords | pgart/bin/pgart_control_heating.py:510-512 | the write-ahead note has five words, so the `start_update` record reads back |
| HeatingControl.WriteAhead | pgart/bin/pgart_control_heating.py:514 | the `start_update` record is saved before the pump is touched and reads back as `(today, hour, new)` |
| HeatingControl.CompletedRecords | pgart/bin/pgart_control_heating.py:521-528 | after the completion `start_update` is gone and `indoor_temp` holds this hour's setpoint |
| HeatingControl.CompleteUpdate | pgart/bin/pgart_control_heating.py:521-528 | saves `indoor_temp`, then removes `start_update` |
| HeatingControl.FinishUpdate | pgart/bin/pgart_control_heating.py:510-528 | write-ahead record first; the pump is written only when the value differs; a failed write leaves the record for the retry; a successful run completes the update |
| HeatingControl.AbsentAfterUpdate | pgart/bin/pgart_control_heating.py:514-528 | an update creates no record other than `indoor_temp` |
| HeatingControl.NightRemovals | pgart/bin/pgart_control_heating.py:374-375 | the night run removes `hourly_rate`, `top_rate`, `windchill` and `indoor_temp`, and nothing else |
| HeatingControl.OverrideRemovals | pgart/bin/pgart_control_heating.py:387-388 | a manual override removes the three adjustment records and `start_update` and keeps `indoor_temp` |
| HeatingControl.OverrideKeepsIndoorTemp | pgart/bin/pgart_control_heating.py:387-388 | those removals leave `indoor_temp` as it was |
| HeatingControl.ResetRemovals | pgart/bin/pgart_control_heating.py:407-432 | a rate reset removes both rate records, a windchill reset the windchill record, and nothing else goes |
| HeatingControl.ComputeSetpoint | pgart/bin/pgart_control_heating.py:401-508 | the step-by-step computation gives the setpoint and a non-negative recorded decrease |
| HeatingControl.RunRates | pgart/bin/pgart_control_heating.py:361 | the rate adjuster raises exactly when `get_temp_adj_rates` does (`RatesRaise`); otherwise its decision is the one `RateDecided` gives from the records the run started with, a window's map being its first candidate of greatest total; the new store is exactly `RatesSaved` of the old one, so only the rate records change |
| HeatingControl.RatesKeepIndoorTemp | pgart/bin/pgart_control_heating.py:773-784 | changes confined to the rate records keep `indoor_temp` |
| HeatingControl.RunWindchill | pgart/bin/pgart_control_heating.py:364 | the windchill decision is the one `WindDecided` gives from the records before the run: `off` when compensation is off, else the decision on the evaluation at the schedule hour in force; the new store is exactly `WindSaved` of the old one |
| HeatingControl.RunAdjusters | pgart/bin/pgart_control_heating.py:360-369 | rates first: a raise stops the run before the windchill adjuster; otherwise both decisions are those `RateDecided` and `WindDecided` give from the records before the run; the new store is `AdjustedStore` (the rate saves, then the windchill save unless the rates raised), and every record other than `hourly_rate`, `top_rate` and `windchill`, `start_update` included, is left as it was |
| HeatingControl.ReplayFailedUpdate | pgart/bin/pgart_control_heating.py:482-503 | with nothing active, a left `start_update` value is replayed (capped at 25, pump value unknown as 0); without one nothing changes |
| HeatingControl.ReplayUpdate | pgart/bin/pgart_control_heating.py:484-528 | the replayed value goes through the write-ahead update |
| HeatingControl.ApplyAdjustments | pgart/bin/pgart_control_heating.py:401-528 | the outcome is the setpoint from the schedule and the adjusters; the new store is the old one less the records a rate or windchill `reset_hour` removes (`RunResetKeys`), then with `indoor_temp` written and `start_update` removed when applied, or with the write-ahead `start_update` when the pump write fails |
| HeatingControl.SetNewIndoorTemp | pgart/bin/pgart_control_heating.py:348-528 | an active run raises exactly when the rate adjuster does; otherwise the adjusters decide from the records before the run; night run exactly at the day's last scheduled hour; a manual override exactly when not the night run and the stored `indoor_temp` differs from the pump; an active run applies `Setpoint`; an idle run replays a failed update or does nothing; in every case the new store is stated: `AdjustedStore` after a raise, `AdjustedStore` less the override's records, `AppliedStore` (adjusters' saves, night or reset removals, update records) or its write-ahead form, and for a replay the update's records only |
| HeatingControl.UpdateAfterAdjusters | pgart/bin/pgart_control_heating.py:371-400 | after the adjusters: the night run exactly at the last scheduled hour removes the adjustment and `indoor_temp` records; otherwise a manual change removes the adjustment records and `start_update` and stops; else the update, whose store is `Completed(PathRemovals(…))` or its write-ahead form |
| HeatingControl.ResetForgets | pgart/bin/pgart_control_heating.py:407-413 | outside the night run, after a rate `reset_hour` both rate records read back as nothing stored, and after a windchill `reset_hour` so does the windchill record |
| HeatingControl.RateSaveSurvives | pgart/bin/pgart_control_heating.py:717-751 | outside the night run, a rate `set_hour` leaves the strategy's record (`hourly_rate` with the window strategy, else `top_rate`) reading back as this date, hour and decrease after the update |
| HeatingControl.WindSaveSurvives | pgart/bin/pgart_control_heating.py:685 | outside the night run, a windchill `set_hour` leaves the windchill record reading back as this date, hour and increase after the update |
| HeatingControl.AppliedKeeps | pgart/bin/pgart_control_heating.py:401-432 | an adjuster record that no reset of the day run removes goes through the update unchanged |
| HeatingControl.AdjustedRateRecord | pgart/bin/pgart_control_heating.py:717-751 | after a rate `set_hour`, the adjusters' store holds this hour and decrease under the strategy's record |
| ControlParams.HourTempItem | pgart/bin/pgart_read_control_params_func.py:34-54 | an accepted item names an hour 0-23 and a setpoint 5-25 |
| ControlParams.HourTempItemText | pgart/bin/pgart_read_control_params_func.py:35-54 | an item is accepted exactly when it is two digits, `_`, two digits with hour 0-23 and setpoint 5-25; the hour is the first two digits |
| ControlParams.HourTempSplit | pgart/bin/pgart_read_control_params_func.py:44 | once the shape checks pass, `split('_')` gives the two halves |
| ControlParams.TempsFromNext | pgart/bin/pgart_read_control_params_func.py:33-58 | the first bad item, or the first hour already named, decides the verdict |
| ControlParams.IsHrTempValid | pgart/bin/pgart_read_control_params_func.py:26-60 | computes the verdict of the whole list |
| ControlParams.CheckHourTemps | pgart/bin/pgart_read_control_params_func.py:28-58 | the loop over the 24-slot table gives the verdict of the item list |
| ControlParams.TempsStep | pgart/bin/pgart_read_control_params_func.py:56-58 | a list after a good first item is fine exactly when the rest avoids that hour too |
| ControlParams.TempsFromOk | pgart/bin/pgart_read_control_params_func.py:33-60 | a list is accepted exactly when every item is good and no hour repeats or was taken |
| ControlParams.HourTempsAccepted | pgart/bin/pgart_read_control_params_func.py:26-60 | `is_hr_temp_valid` (`HourTempsCheck`) accepts exactly the lists of good items naming distinct hours |
| ControlParams.HourSpanItem | pgart/bin/pgart_read_control_params_func.py:71-91 | an accepted item is a range `first <= last <= 24` |
| ControlParams.IsHrHrValid | pgart/bin/pgart_read_control_params_func.py:63-98 | computes the verdict of the whole list |
| ControlParams.CheckHourSpans | pgart/bin/pgart_read_control_params_func.py:65-96 | the loop over the table gives the verdict of the item list |
| ControlParams.SpansFromNext | pgart/bin/pgart_read_control_params_func.py:70-96 | the first bad item, clash or run past the table decides the verdict |
| ControlParams.MarkSpan | pgart/bin/pgart_read_control_params_func.py:93-96 | the inner loop marks `first..last` in the array, stops at a marked hour and runs past the table's end where the source raises |
| ControlParams.MarkHoursNext | pgart/bin/pgart_read_control_params_func.py:93-96 | marking a free hour moves on to the next |
| ControlParams.MarkHoursResult | pgart/bin/pgart_read_control_params_func.py:93-96 | marking succeeds exactly when the hours fit and none is marked, and then adds exactly those hours |
| ControlParams.SpanItemsOrdered | pgart/bin/pgart_read_control_params_func.py:90-91 | every accepted range starts no later than it ends |
| ControlParams.AvoidsMore | pgart/bin/pgart_read_control_params_func.py:93-96 | a range avoids the marked hours plus another range exactly when it avoids both |
| ControlParams.SpansStep | pgart/bin/pgart_read_control_params_func.py:93-96 | a list after a good first range is fine exactly when the rest lies apart from it |
| ControlParams.SpansFromOk | pgart/bin/pgart_read_control_params_func.py:70-98 | a list is accepted exactly when its ranges fit the table, are pairwise apart and avoid the marked hours |
| ControlParams.HourSpansAccepted | pgart/bin/pgart_read_control_params_func.py:63-98 | `is_hr_hr_valid` (`HourSpansCheck`) accepts exactly the lists of closed ranges sharing no hour and fitting the table, so `a-b,b-c` is refused |
| ControlParams.Span2024 | pgart/bin/pgart_read_control_params_func.py:71-91 | `20-24` passes every item check |
| ControlParams.Marks2024 | pgart/bin/pgart_read_control_params_func.py:65-96 | marking 20..24 in the 24-slot table runs past its end |
| ControlParams.EndHour24Crashes | pgart/bin/pgart_read_control_params_func.py:83-96 | as written, `20-24` raises `IndexError` |
| ControlParams.DaySlotsNeverCrash | pgart/bin/pgart_read_control_params_func.py:83-96 | with a slot for hour 24, no list of accepted ranges makes the loop raise |
| ControlParams.HourSpansNeverCrash | pgart/bin/pgart_read_control_params_func.py:63-98 | with a slot for hour 24, `is_hr_hr_valid` never raises |
| ControlParams.TxtSingleCheck | pgart/bin/pgart_read_control_params_func.py:134-142 | accepted or refused, never raising |
| ControlParams.IntRangeCheck | pgart/bin/pgart_read_control_params_func.py:144-155 | accepted or refused, never raising |
| ControlParams.IntSingleCheck | pgart/bin/pgart_read_control_params_func.py:157-165 | accepted or refused, never raising |
| ControlParams.NegIntCheck | pgart/bin/pgart_read_control_params_func.py:167-178 | raises exactly for an empty value (`val[0]`) |
| ControlParams.FloatCheck | pgart/bin/pgart_read_control_params_func.py:180-189 | accepted or refused, never raising |
| ControlParams.RuleCheck | pgart/bin/pgart_read_control_params_func.py:133-195 | a rule raises only on an empty value and refuses only as not allowed or a bad address |
| ControlParams.ParValidIn | pgart/bin/pgart_read_control_params_func.py:128-131 | a parameter is refused as unknown exactly when it has no rule; a check raises only on an empty value (`IsParValid` is this over `ValidConfigParameters`) |
| ControlParams.IntSingleAccepts | pgart/bin/pgart_read_control_params_func.py:157-165 | an `int_single` value is accepted exactly when it is digits whose value lies within the bounds |
| ControlParams.IntSingleTexts | pgart/bin/pgart_read_control_params_func.py:157-165 | `str(n)` is accepted for every `n` within the bounds |
| ControlParams.NegIntSingleAccepts | pgart/bin/pgart_read_control_params_func.py:167-178 | a `-int_single` value is accepted exactly when it is `-` and digits with its value between the two bounds |
| ControlParams.NegIntSingleTexts | pgart/bin/pgart_read_control_params_func.py:167-178 | `str(n)` is accepted for every negative `n` between the bounds |
| ControlParams.IntRangeAccepts | pgart/bin/pgart_read_control_params_func.py:144-155 | an `int_range` value is accepted exactly when every comma piece is digits within the bounds |
| ControlParams.IntRangeTexts | pgart/bin/pgart_read_control_params_func.py:144-155 | numbers within the bounds joined with commas are accepted |
| ControlParams.FloatSingleAccepts | pgart/bin/pgart_read_control_params_func.py:180-189 | a `float_single` value is accepted exactly when `float()` (`ParseFloat`; `IsFloat` is its success) gives a finite number within the bounds |
| ControlParams.ElAreaAcceptsAll | pgart/bin/pgart_env_func.py:219 | the `el_area` rule lists `*`, so every value is accepted |
| ControlParams.YesNoSwitch | pgart/bin/pgart_env_func.py:224 | `use_hourly_rates` accepts exactly `y` and `n` |
| ControlParams.TxtLengthUnchecked | pgart/bin/pgart_read_control_params_func.py:191-195 | a `txt` rule's length bounds are not checked: any login is accepted |
| ControlParams.LowerLimitAccepts | pgart/bin/pgart_env_func.py:206 | the lower windchill limit accepts exactly `-20` to `-26` written as `-` and digits |
| ControlParams.LineSyntax | pgart/bin/pgart_read_control_params_func.py:209-240 | a line is skipped exactly when blank, `^M` or a comment; a setting has an `=`, a non-empty value, its name and value are the line without whitespace split at the first `=`, and the value has no `,,` and no comma at either end |
| ControlParams.RecordSyntax | pgart/bin/pgart_read_control_params_func.py:216-240 | the same for a stripped line that is not blank |
| ControlParams.SettingSyntax | pgart/bin/pgart_read_control_params_func.py:229-240 | the same for a line with an `=` and something after it |
| ControlParams.CutAtEquals | pgart/bin/pgart_read_control_params_func.py:230-233 | with whitespace removed, the first `=` splits the line into a name and a non-empty value |
| ControlParams.ValueSyntax | pgart/bin/pgart_read_control_params_func.py:234-240 | a value passes the comma checks exactly when it has no `,,` and no comma at either end |
| ControlParams.ParseLines | pgart/bin/pgart_read_control_params_func.py:208-240 | one syntax result per line |
| ControlParams.ExecPathValid | pgart/bin/pgart_read_control_params_func.py:100-117 | raises exactly when the line has no `=`; otherwise the stored value is the text after the first `=` |
| ControlParams.ApplySetting | pgart/bin/pgart_read_control_params_func.py:242-244 | a setting goes on only for a parameter of the defaults |
| ControlParams.Admit | pgart/bin/pgart_read_control_params_func.py:246-287 | the loop goes on exactly when the parameter is new, its check accepted and a weekday name ends in a number; it then stores the value |
| ControlParams.Record | pgart/bin/pgart_read_control_params_func.py:254-287 | a duplicate parameter stops the loop; otherwise the value is stored and the parameter marked used |
| ControlParams.GetParameters | pgart/bin/pgart_read_control_params_func.py:198-290 | computes the status and the dictionaries `ReadParameters` gives for the defaults and the file, over a table of `slots` hours (the program's is `SourceSlots`) |
| ControlParams.ReadLines | pgart/bin/pgart_read_control_params_func.py:208-287 | the loop over the lines gives the status and the dictionaries `RunLines` gives |
| ControlParams.RunLinesNext | pgart/bin/pgart_read_control_params_func.py:208-287 | one line either stops the loop with its status or moves on |
| ControlParams.SettingStep | pgart/bin/pgart_read_control_params_func.py:242-287 | the body of the loop for a setting line is `ApplySetting` with the checks of `Validate` |
| ControlParams.RunKeepsKeys | pgart/bin/pgart_read_control_params_func.py:242-287 | the loop (`RunLines`) never adds a parameter the defaults lack |
| ControlParams.RunKeepsUnnamed | pgart/bin/pgart_read_control_params_func.py:199-287 | a parameter no line names keeps its default |
| ControlParams.RunStopsAtFirst | pgart/bin/pgart_read_control_params_func.py:222-284 | the first bad line decides: later lines are never read |
| ControlParams.RunOkDistinct | pgart/bin/pgart_read_control_params_func.py:282-284 | a run that reads every line sets each parameter at most once |
| ControlParams.RunStoresAccepted | pgart/bin/pgart_read_control_params_func.py:275-287 | a run that reads every line stores, for each setting, the value its check accepted |
| ControlParams.StoresFirst | pgart/bin/pgart_read_control_params_func.py:286-287 | the first setting line keeps the value it stored |
| ControlParams.ParseLinesWellFormed | pgart/bin/pgart_read_control_params_func.py:221-233 | every setting line has an `=` and a value |
| ControlParams.CheckNeverCrashes | pgart/bin/pgart_read_control_params_func.py:246-275 | `Validate` never raises on a well-formed line, unless it sets `hourly_rate_decrease_hours` to a range reaching past the table |
| ControlParams.RunNeverRaises | pgart/bin/pgart_read_control_params_func.py:208-287 | with checks that never raise and weekday names ending in numbers, the loop never raises |
| ControlParams.ReadParametersNeverRaise | pgart/bin/pgart_read_control_params_func.py:198-290 | `get_parameters` (`ReadParameters`) never raises when the defaults' weekday names end in numbers and no line sets a range reaching past the table |
| ControlParams.DaySlotsReadNeverRaises | pgart/bin/pgart_read_control_params_func.py:198-290 | with the corrected 25-slot table, `get_parameters` never raises once the weekday names end in numbers |
| ControlParams.ReadParametersRaiseOnSpan | pgart/bin/pgart_read_control_params_func.py:246-287 | a file of one `hourly_rate_decrease_hours` line whose value makes `is_hr_hr_valid` raise makes `get_parameters` raise |
| ControlParams.ReadParametersRaiseOn2024 | pgart/bin/pgart_read_control_params_func.py:63-98 | as written, the file `hourly_rate_decrease_hours=20-24` makes `get_parameters` raise |
| ControlParams.HourSpansCrashPastTable | pgart/bin/pgart_read_control_params_func.py:83-96 | `is_hr_hr_valid` raises only when some accepted range reaches past the table |
| ControlParams.HourSpansWithinDay | pgart/bin/pgart_read_control_params_func.py:83-91 | no accepted range reaches past a 25-slot table |
| ControlParams.NoRuleRefused | pgart/bin/pgart_read_control_params_func.py:274-279 | a parameter with a default but no rule stops the run however it is set |
| ControlParams.WeekdayHasNoRule | pgart/bin/pgart_env_func.py:145-236 | `weekday` has a default (`DefaultConfigParameters`) but no rule (`ValidConfigParameters`) |
| ControlParams.TempsFrom | pgart/bin/pgart_read_control_params_func.py:33-58 | the hour-temperature loop never raises |
| ControlParams.OneItem | pgart/bin/pgart_read_control_params_func.py:33-34 | a value without a comma or outer whitespace is a list of itself |
| Modbus.Slice | pgart/bin/pgart_thermia_modbus_func.py:74 | a Python byte slice is never longer than `j - i` |
| Modbus.PackU16 | pgart/bin/pgart_thermia_modbus_func.py:61-69 | `struct.pack(">H", x)` gives two bytes that `int.from_bytes` reads back as `x` |
| Modbus.PackFromBytes | pgart/bin/pgart_thermia_modbus_func.py:61-69 | two bytes are the packing of the number they hold |
| Modbus.MbapHeader | pgart/bin/pgart_thermia_modbus_func.py:56-62 | the header is the seven bytes `00 01 00 00 00 06 05` |
| Modbus.MbapHeaderFields | pgart/bin/pgart_thermia_modbus_func.py:57-61 | the header reads back as transaction 1, protocol 0, length 6, unit 5 |
| Modbus.Request | pgart/bin/pgart_thermia_modbus_func.py:69 | the request exists exactly when every field fits its width; it is 12 bytes, starts with the header, and the header's length field counts the bytes after it |
| Modbus.RequestRoundTrip | pgart/bin/pgart_thermia_modbus_func.py:69 | a request carries back its function code, address and data |
| Modbus.ParseRequestInverse | pgart/bin/pgart_thermia_modbus_func.py:69 | every frame that parses is the request of its fields |
| Modbus.ReadRequest | pgart/bin/pgart_thermia_modbus_func.py:65-69 | a read request asks for one register at the given address |
| Modbus.ReadRequestsFit | pgart/bin/pgart_thermia_modbus_func.py:81-105 | the indoor, outdoor and room-sensor requests are built without raising and are 12 bytes |
| Modbus.WriteRequest | pgart/bin/pgart_thermia_modbus_func.py:108-113 | the write request exists exactly for settings 0-655 and carries function 6, register 5 and the setting times 100 |
| Modbus.SignBitHigh | pgart/bin/pgart_thermia_modbus_func.py:75 | `t & 0x8000 == 0x8000` holds exactly on the upper half of the 16-bit range |
| Modbus.DecodeRegister | pgart/bin/pgart_thermia_modbus_func.py:74-76 | the decoded register is a signed 16-bit value |
| Modbus.EncodeRegister | pgart/bin/pgart_thermia_modbus_func.py:74-76 | a signed 16-bit value is two bytes |
| Modbus.DecodeEncode | pgart/bin/pgart_thermia_modbus_func.py:74-76 | a value written at bytes 9 and 10 decodes to itself |
| Modbus.EncodeDecode | pgart/bin/pgart_thermia_modbus_func.py:74-76 | the decoded value determines bytes 9 and 10 |
| Modbus.ScaledTemperature | pgart/bin/pgart_thermia_modbus_func.py:77 | `round(t/scale)` lies within one half of the quotient |
| Modbus.ExceptionHighBit | pgart/bin/pgart_thermia_modbus_func.py:48-49 | a response is an exception (`IsException`) exactly when byte 7 exists and is 128 or more |
| Modbus.EchoAccepted | pgart/bin/pgart_thermia_modbus_func.py:39-53 | an echoed function code is accepted and one with 0x80 added is an exception |
| Modbus.ReadTemperature | pgart/bin/pgart_thermia_modbus_func.py:65-78 | a temperature is returned exactly when the response is no exception, and it is the rounded scaled register |
| Modbus.SetIndoorTemperature | pgart/bin/pgart_thermia_modbus_func.py:108-119 | the setting is returned exactly when it fits the packing and the response is no exception |
| Modbus.WriteThenRead | pgart/bin/pgart_thermia_modbus_func.py:74-112 | a setting 0-327 written in hundredths reads back as the same degrees |
| MiscFunc.Clean | pgart/bin/pgart_misc_func.py:171-172 | the cleaned line holds no whitespace |
| MiscFunc.OneSepTwoPieces | pgart/bin/pgart_misc_func.py:173-178 | once the line holds one `:`, `split(":")` has the two pieces the validator indexes |
| MiscFunc.HourlyRateLine | pgart/bin/pgart_misc_func.py:173-193 | the hourly-rate line check never raises |
| MiscFunc.ForecastLine | pgart/bin/pgart_misc_func.py:456-507 | the forecast line check never raises |
| MiscFunc.ReadingLine | pgart/bin/pgart_misc_func.py:526-543 | the sensor line check never raises, and accepts only one comma with a valid stamp before it and a float after it |
| MiscFunc.ScanFrom | pgart/bin/pgart_misc_func.py:169-193 | all lines pass exactly when every verdict is ok; otherwise the scan names the first line not accepted and its fault or exception |
| MiscFunc.CheckLines | pgart/bin/pgart_misc_func.py:168-194 | the loop gives the scan's verdict, and `nr_rec` counts the lines read up to and including the first one not accepted |
| MiscFunc.HourlyRatesProper | pgart/bin/pgart_misc_func.py:162-201 | missing exactly when there is no file; never raises; proper exactly when there are 24 lines and every line passes |
| MiscFunc.MonthlyRatesProper | pgart/bin/pgart_misc_func.py:204-248 | missing exactly when there is no file; raises exactly when the scan meets a line whose unpacking raises; proper exactly when there is a line and every line passes |
| MiscFunc.ForecastProper | pgart/bin/pgart_misc_func.py:446-510 | missing exactly when there is no file; never raises; proper exactly when every line passes, so an empty file is proper |
| MiscFunc.IsHourlyRatesProper | pgart/bin/pgart_misc_func.py:162-201 | the loop computes the verdict `HourlyRatesProper` states |
| MiscFunc.IsMonthlyRatesProper | pgart/bin/pgart_misc_func.py:204-248 | the loop computes the verdict `MonthlyRatesProper` states |
| MiscFunc.IsForecastProper | pgart/bin/pgart_misc_func.py:446-510 | the loop computes the verdict `ForecastProper` states |
| MiscFunc.CleanUnchanged | pgart/bin/pgart_misc_func.py:171-172 | a line without whitespace is left as it is |
| MiscFunc.CountJoined | pgart/bin/pgart_misc_func.py:173 | the separators counted in a joined line are those of the parts plus the joint |
| MiscFunc.HourlyLineWritten | pgart/bin/pgart_misc_func.py:173-193 | `str(h) + ":" + rate` with `h < 24` and a float rate passes the check |
| MiscFunc.HourlyLineAccepts | pgart/bin/pgart_misc_func.py:173-193 | digits below 24, a colon and a float pass the check |
| MiscFunc.MonthlyRaisesIff | pgart/bin/pgart_misc_func.py:215-226 | a monthly line (`MonthlyRateLine`) raises exactly when it holds one `:` and one `-` and the dash is after the colon |
| MiscFunc.ForecastLineWritten | pgart/bin/pgart_misc_func.py:456-507 | a line `date_hh:a,b` of a well-formed key and two floats is accepted exactly when the date is valid |
| MiscFunc.ForecastJoined | pgart/bin/pgart_misc_func.py:456-507 | a line whose key and values pass the shape checks is judged on its date alone |
| MiscFunc.ForecastKeyWritten | pgart/bin/pgart_misc_func.py:466-479 | the key `date + "_" + hh` has length 13, `_` at 10, no `:` or `,`, and splits into the date and the hour |
| MiscFunc.ForecastValuesWritten | pgart/bin/pgart_misc_func.py:461-499 | the values `a + "," + b` hold one comma and split into `a` and `b` |
| MiscFunc.ForecastEntryWritten | pgart/bin/pgart_misc_func.py:456-507 | a line formatted from a date, an hour and two floats is accepted exactly when the date is a day of the calendar |
| MiscFunc.ExtTempReading | pgart/bin/pgart_misc_func.py:518-548 | no file gives "No file"; an empty file raises; a reading is got exactly when every line passes, and it is the last line's stamp and value |
| MiscFunc.ReadingWritten | pgart/bin/pgart_misc_func.py:518-548 | a file of one line `stamp,value` gives that reading when the stamp is valid and is rejected for the stamp otherwise |
| MiscFunc.ReadingWrittenParsed | pgart/bin/pgart_misc_func.py:526-548 | a line written with `strftime("%Y-%m-%d_%H:%M:%S")` and a float reads back exactly when its date is a day of the calendar |
| MiscFunc.ReadingLineWritten | pgart/bin/pgart_misc_func.py:526-543 | `stamp + "," + value` holds one comma, splits into its parts and is judged on its stamp |
| MiscFunc.NoSpaceJoined | pgart/bin/pgart_misc_func.py:523-524 | texts without whitespace joined by a non-space separator hold no whitespace |
| MiscFunc.OneLineReading | pgart/bin/pgart_misc_func.py:518-548 | a one-line file gives that line's reading or its fault |
| MiscFunc.GetExtTempReading | pgart/bin/pgart_misc_func.py:518-548 | the loop computes the reading `ExtTempReading` states |
| MiscFunc.ReadingStops | pgart/bin/pgart_misc_func.py:526-543 | the first rejected line decides the fault |
| MiscFunc.ReadingPasses | pgart/bin/pgart_misc_func.py:531-548 | when all lines pass, the last line gives the stamp and the value |
| MiscFunc.EntryParsed | pgart/bin/pgart_misc_func.py:400 | two pieces `int` and `float` accept make the entry `{int(s[0]): float(s[1])}` |
| MiscFunc.RatesOf | pgart/bin/pgart_misc_func.py:397-400 | the dictionary built names each hour once |
| MiscFunc.RatesReadIff | pgart/bin/pgart_misc_func.py:397-400 | the file is read exactly when every line is |
| MiscFunc.RatesReadStep | pgart/bin/pgart_misc_func.py:397-400 | one more line is read exactly when the lines before it are and it is |
| MiscFunc.AllReadStep | pgart/bin/pgart_misc_func.py:397-400 | every line is read exactly when every line but the last is and the last is |
| MiscFunc.LastWins | pgart/bin/pgart_misc_func.py:400 | `update` keeps, for each hour, the rate of the last line naming it |
| MiscFunc.GetHourlyRates | pgart/bin/pgart_misc_func.py:391-403 | the loop builds the dictionary `HourlyRates` gives, holding the last rate given for each hour |
| MiscFunc.ReadRates | pgart/bin/pgart_misc_func.py:397-400 | the loop over the lines builds the dictionary, holding the last rate given for each hour |
| MiscFunc.RateLineRead | pgart/bin/pgart_misc_func.py:398-400 | a line `str(h) + ":" + rate` reads (`RateEntry`) as hour `h` with `float(rate)` |
| MiscFunc.RateTextSplit | pgart/bin/pgart_misc_func.py:398-399 | such a line strips to itself and splits into the hour and the rate |
| MiscFunc.ProperLineRead | pgart/bin/pgart_misc_func.py:398-400 | a line the validator accepts, without whitespace, reads as an hour 0-23 |
| MiscFunc.ProperFileRead | pgart/bin/pgart_misc_func.py:391-403 | a file the validator accepts, without whitespace, reads into a dictionary of hours 0-23 |
| MiscFunc.RatesKeysWithin | pgart/bin/pgart_misc_func.py:397-400 | lines all read with keys in a range give a dictionary with keys in that range |
| MiscFunc.DuplicateHoursAccepted | pgart/bin/pgart_misc_func.py:162-201 | 24 copies of one good line pass the validator and read into a dictionary of one hour |
| MiscFunc.RatesOfRepeated | pgart/bin/pgart_misc_func.py:397-400 | lines repeating one readable line give a dictionary of that line's key alone |
| MiscFunc.InnerSpaceUnread | pgart/bin/pgart_misc_func.py:398-400 | `1 2:3.0` passes the validator, which removes inner whitespace, while the reader raises on it |
| MiscFunc.RemoveSpacesAppend | pgart/bin/pgart_misc_func.py:172 | removing whitespace distributes over concatenation |
| Text.RemoveSpacesNone | pgart/bin/pgart_misc_func.py:172 | removing whitespace from a text without any leaves it unchanged |
| MiscFunc.InnerSpaceCleaned | pgart/bin/pgart_misc_func.py:171-172 | cleaning `a b:rate` gives `ab:rate` |
| MiscFunc.InnerSpaceRemoved | pgart/bin/pgart_misc_func.py:172 | removing whitespace from `a b` and a tail joins `a` and `b` |
| MiscFunc.DigitsJoined | pgart/bin/pgart_misc_func.py:180 | two digit strings joined are numeric |
| MiscFunc.InnerSpaceRaises | pgart/bin/pgart_misc_func.py:398-400 | the reader raises on `a b:rate` |
| MiscFunc.SpacedNotInt | pgart/bin/pgart_misc_func.py:400 | `int` refuses digits, a space and digits |
| MiscFunc.CommasToSpaces | pgart/bin/pgart_misc_func.py:329-335 | the result has the same length and no comma |
| MiscFunc.DropLeadingCommas | pgart/bin/pgart_misc_func.py:332-333 | the result does not start with a comma |
| MiscFunc.GetExecStr | pgart/bin/pgart_misc_func.py:326-337 | the command is the arguments without whitespace, leading commas dropped, every other comma a space, and holds no comma |
| MiscFunc.ExecStrJoins | pgart/bin/pgart_misc_func.py:330-335 | from a non-empty start the loop joins the pieces with single spaces |
| MiscFunc.JoinSplitReplaces | pgart/bin/pgart_misc_func.py:329-335 | joining the comma pieces with spaces turns each comma into a space |
| MiscFunc.ExecStrIsReplace | pgart/bin/pgart_misc_func.py:329-335 | the loop's result is the text with its leading commas dropped and every other comma a space |
| EonConv.EonRow | pgart/bin/pgart_experimental_conv_eon_files_to_generic_func.py:35-70 | a row written out carries a numeric hour below 24 without quotes |
| EonConv.DataRow | pgart/bin/pgart_experimental_conv_eon_files_to_generic_func.py:46-70 | a row that is not passed over is never skipped, and one written out has a numeric hour below 24 without quotes |
| EonConv.Emitted | pgart/bin/pgart_experimental_conv_eon_files_to_generic_func.py:34-70 | no more records than rows |
| EonConv.ConvertRows | pgart/bin/pgart_experimental_conv_eon_files_to_generic_func.py:34-70 | the file is done exactly when no row fails, and then holds the record of every emitted row; otherwise it stops at the first failing row with its fault and the records before it |
| EonConv.ConvertEonFile | pgart/bin/pgart_experimental_conv_eon_files_to_generic_func.py:29-74 | computes the conversion `EonFile` gives; a missing input is no error |
| EonConv.ConvertEach | pgart/bin/pgart_experimental_conv_eon_files_to_generic_func.py:34-70 | the loop computes the conversion `ConvertRows` states |
| EonConv.RowsStop | pgart/bin/pgart_experimental_conv_eon_files_to_generic_func.py:46-67 | the first failing row decides the conversion |
| EonConv.NoSubstring | pgart/bin/pgart_experimental_conv_eon_files_to_generic_func.py:38-43 | `find` does not find a word whose first letter is absent |
| EonConv.RemoveCharNone | pgart/bin/pgart_experimental_conv_eon_files_to_generic_func.py:53 | `replace('"', '')` leaves a text without quotes as it is |
| EonConv.RowTextJoin | pgart/bin/pgart_experimental_conv_eon_files_to_generic_func.py:45 | digits and row punctuation joined stay such text |
| EonConv.HourRowRead | pgart/bin/pgart_experimental_conv_eon_files_to_generic_func.py:35-70 | the row `"HH:00";v` E.ON writes for an hour is written out as that hour with `float(v)` |
| EonConv.RowRead | pgart/bin/pgart_experimental_conv_eon_files_to_generic_func.py:46-70 | a row with one colon and one semicolon and good fields is written out as its hour and value |
| EonConv.KeyMarks | pgart/bin/pgart_experimental_conv_eon_files_to_generic_func.py:51-53 | the first field of a written row has one colon and splits into the quoted hour and `00"` |
| EonConv.RowMarks | pgart/bin/pgart_experimental_conv_eon_files_to_generic_func.py:35-46 | a written row has one colon and one semicolon, nothing to strip and no letter of the skipped words |
| EonConv.RowNotIgnored | pgart/bin/pgart_experimental_conv_eon_files_to_generic_func.py:36-43 | a written row is not passed over |
| EonConv.AllEmitted | pgart/bin/pgart_experimental_conv_eon_files_to_generic_func.py:34-70 | rows that are all hour rows give one record each, in order |
| EonConv.SkipFirst | pgart/bin/pgart_experimental_conv_eon_files_to_generic_func.py:36-43 | a passed-over row in front changes nothing |
| EonConv.TableRead | pgart/bin/pgart_experimental_conv_eon_files_to_generic_func.py:34-70 | a table framed by two passed-over rows converts to the records of its rows |
| EonConv.EonTableRead | pgart/bin/pgart_experimental_conv_eon_files_to_generic_func.py:29-74 | E.ON's file, header, hour rows and total, converts to one record per hour row in order |
| EonConv.UnderscoreDirMisread | pgart/bin/pgart_experimental_conv_eon_files_to_generic_func.py:79-84 | as written (`NameDateAsWritten`), a directory containing `_` makes `split("_")[1]` give a date that is not the download's |
| EonConv.NameDateRead | pgart/bin/pgart_experimental_conv_eon_files_to_generic_func.py:81-82 | the corrected reading gives back the date of every download path |
| EonConv.DateOf | pgart/bin/pgart_experimental_conv_eon_files_to_generic_func.py:81-82 | the corrected reading takes the text after `dir + "/eon_"` up to the first `.` |
| EonConv.CorrectedFindsDownloads | pgart/bin/pgart_experimental_conv_eon_files_to_generic_func.py:77-87 | with the corrected reading, every download in the period is selected |
| EonConv.UnderscoreDirDropsDownload | pgart/bin/pgart_experimental_conv_eon_files_to_generic_func.py:79-87 | as written, a directory containing `_` loses a download in the period, which the corrected reading keeps |
| EonConv.Selected | pgart/bin/pgart_experimental_conv_eon_files_to_generic_func.py:79-87 | every date kept has its download and lies in the period, and every listed file whose date, as the given reading takes it, is kept is selected |
| EonConv.Insert | pgart/bin/pgart_experimental_conv_eon_files_to_generic_func.py:89 | placing a date into a sorted list keeps it sorted and adds just that date |
| EonConv.InsertFront | pgart/bin/pgart_experimental_conv_eon_files_to_generic_func.py:89 | a date no later than the head of a sorted list goes in front |
| EonConv.InsertBehind | pgart/bin/pgart_experimental_conv_eon_files_to_generic_func.py:89 | the head stays in front of a later insertion |
| EonConv.SortDates | pgart/bin/pgart_experimental_conv_eon_files_to_generic_func.py:89 | `sort()` gives the same dates in ascending string order |
| EonConv.FindEonFiles | pgart/bin/pgart_experimental_conv_eon_files_to_generic_func.py:77-90 | the loop collects the kept dates under the given reading (the program's is `AsWritten`), then sorts them |
| EonConv.FoundDates | pgart/bin/pgart_experimental_conv_eon_files_to_generic_func.py:77-90 | the dates found are sorted, all kept, a permutation of the kept dates (each as often as listed) and include every listed file's date that is kept under the given reading |
| EonConv.BatchFrom | pgart/bin/pgart_experimental_conv_eon_files_to_generic_func.py:98-105 | the batch (`Batch`) converts exactly when every file does, and then reports how many dates there were |
| EonConv.BatchStops | pgart/bin/pgart_experimental_conv_eon_files_to_generic_func.py:98-103 | a stopped batch names the first file that failed, and every file before it converted |
| EonConv.ConvertDownloaded | pgart/bin/pgart_experimental_conv_eon_files_to_generic_func.py:93-105 | the batch (`Batch`) over the dates found, sorted, converted one after another |
| Strptime.DaysInMonth | pgart/bin/pgart_misc_func.py:481 | a month has 28 to 31 days, and 29 exactly for February of a leap year |
| Strptime.DayField | pgart/bin/pgart_misc_func.py:481 | a `%d` field `strptime` accepts denotes a day 1-31 |
| Strptime.ParseDate | pgart/bin/pgart_misc_func.py:480-485 | a date `strptime(d, "%Y-%m-%d")` accepts is a day of the calendar |
| Strptime.ParseStamp | pgart/bin/pgart_misc_func.py:533-538 | a stamp `strptime(s, "%Y-%m-%d_%H:%M:%S")` accepts has a calendar date and a time of day |
| Strptime.DigitsBound | pgart/bin/pgart_misc_func.py:481 | `k` digits denote less than `10^k` |
| Strptime.Pad2 | pgart/bin/pgart_control_heating.py:860 | `%02d` gives two digits worth the number |
| Strptime.Pad4 | pgart/bin/pgart_control_heating.py:73 | `%04d` gives four digits worth the number |
| Strptime.ParseFormatDate | pgart/bin/pgart_control_heating.py:208-209 | a date written by `strftime` reads back as itself exactly when the day exists in its month |
| Strptime.ParseFormatStamp | pgart/bin/pgart_misc_func.py:533-538 | a written stamp reads back as itself exactly when its date is valid |
| Strptime.StampFields | pgart/bin/pgart_misc_func.py:534 | a stamp parses exactly when its date part does and its time fields are in range |
| Strptime.DateUnmarked | pgart/bin/pgart_misc_func.py:466-479 | a written date has length 10, dashes at 4 and 7, and no `_`, `:` or `,` |
| Strptime.StampTextJoin | pgart/bin/pgart_misc_func.py:525 | stamp text joined stays stamp text |
| Strptime.StampUnmarked | pgart/bin/pgart_misc_func.py:524-531 | a written stamp holds no `,` and no whitespace |
| Strptime.TimeFields | pgart/bin/pgart_misc_func.py:534 | `h:m:s` splits into its three fields |
| Strptime.ShortFieldsAccepted | pgart/bin/pgart_misc_func.py:480-485 | `strptime` also accepts unpadded month and day |
| Strptime.SpacedDayAccepted | pgart/bin/pgart_misc_func.py:480-485 | `strptime` also accepts a day written as a space and a digit |
| PyNum.NatToString | pgart/bin/pgart_experimental_conv_eon_files_to_generic_func.py:70 | `str(n)` is non-empty digits |
| PyNum.NatToStringValue | pgart/bin/pgart_control_heating.py:274 | the digits of `str(n)` are worth `n` |
| PyNum.IntToStringChars | pgart/bin/pgart_read_control_params_func.py:157-178 | `str(n)` holds no space, dot or comma and nothing to strip |
| PyNum.ParseDigits | pgart/bin/pgart_read_control_params_func.py:161-162 | `int(d)` (`ParseInt`) of decimal digits is their value |
| PyNum.ParseNegDigits | pgart/bin/pgart_read_control_params_func.py:171-175 | `int("-" + d)` is minus the value of the digits |
| PyNum.SignedText | pgart/bin/pgart_read_control_params_func.py:171-172 | `"-" + d` is a sign, the digits and nothing to strip |
| PyNum.ParseSignedNeg | pgart/bin/pgart_read_control_params_func.py:171-175 | a stripped `-digits` parses to minus their value |
| PyNum.ParseIntToString | pgart/bin/pgart_control_heating.py:274 | `int(str(n)) == n` |
| PyNum.StripUnchanged | pgart/bin/pgart_misc_func.py:398 | a text with nothing to strip at its ends is left as it is |
| PyNum.ExponentAt | pgart/bin/pgart_misc_func.py:35 | the exponent marker found is an `e` or `E` inside the text |
| PyNum.RoundHalfEven | pgart/bin/pgart_control_heating.py:684 | `round(x)` is within one half of `x`, and even on a tie |
| PyNum.Round2 | pgart/bin/pgart_calc_hourly_rate_adj_func.py:111 | `round(x, 2)` is within 1/200 of `x` |
| PyDict.Put | pgart/bin/pgart_control_heating.py:274 | `update` stores the value, leaves every other key, adds the key and keeps keys distinct; the length grows exactly for a new key |
| PyDict.PutKeepsOrder | pgart/bin/pgart_control_heating.py:274 | `update` on a key keeps every present key at its position |
| PyDict.PutNewLast | pgart/bin/pgart_control_heating.py:274 | `update` with a new key appends it after the present entries |
| PyDict.DistinctCons | pgart/bin/pgart_control_heating.py:274 | a first entry adds its key, and keys stay distinct exactly when the rest's are and the key is new |
| PyDict.KeysCons | pgart/bin/pgart_control_heating.py:274 | the keys are the first key and the rest's |
| PyDict.GetKeys | pgart/bin/pgart_control_heating.py:274 | a key has a value exactly when it was written |
| PyDict.GetAllKeys | pgart/bin/pgart_control_heating.py:274 | the same for all keys at once |
| PyDict.ToMap | pgart/bin/pgart_control_heating.py:274 | the map has the dictionary's keys and values |

## Left out

- Network and hardware I/O are not modelled. This covers the price scrapers, the vendor REST API, the forecast download, the Raspberry Pi sensor read and the socket exchange of `tcp_modbus_transaction`. Their outputs are inputs of the model: the rate table, the forecast entries, the sensor lines and the Modbus response bytes.
- The windchill formula (`calc_windchill_temp`, with `pow(wind, 0.16)`) is not modelled. It lives in the forecast module and uses floating-point numerics, so each forecast entry's temperature, wind, apparent temperature and difference are inputs.
- Floating point is modelled as exact reals. `float()` parsing, `round()` half-to-even and `round(x, 2)` are modelled on exact values, so binary rounding error is not captured. `str(float)` is modelled only for the rounded prices of the rate note (`PyNum.HundredthsText`): a written E.ON record carries the value, not its text.
- Python's string methods are modelled for ASCII only. `isnumeric`, `split()`, `strip()` and case folding ignore Unicode digits and whitespace, and `float()` and `int()` do not accept `_` digit separators.
- Log lines, user-interface messages, `print`, `exit` and mail sending are not modelled. An exit on a Modbus exception response is the `None` result.
- `save_run_summary`, `log_windchill_statistics`, `get_pump_info`, `set_pump_info`, `get_indoor_external_sensor_temp`, `create_hourly_rates`, `create_monthly_rates` and the module-level main are not modelled. The pump value and the success of a pump write are inputs. `is_last_day_this_month` always returns True (pgart/bin/pgart_control_heating.py:790) and is not modelled.
- The JSON encoding of the settings file and the reading of configuration and language files are not modelled. The settings are an in-memory map, and the configuration defaults and validation rules are parameters.
- `get_mail_params` and the final check of the mail parameter file in `get_parameters` are not part of this model.
- File existence and directory listings are inputs. A file is a function from a path to its lines (`None` when missing), and the glob result is a list of names.
- The output files of the E.ON converter are not written. The records each file would receive stand for them.
- EonConv.SortDates: `list.sort()` is modelled as a functional insertion sort on a `seq`, proved sorted and a permutation. The in-place sort is not modelled.
- ControlParams.ReadParametersNeverRaise: takes as preconditions that every weekday name of the defaults ends in a day number, rather than proving it of the 46-entry default table, and that no `hourly_rate_decrease_hours` line reaches past the table; `ControlParams.ReadParametersRaiseOnSpan` shows the program raises on such a line.
- PyNum.ParseInt: does not accept the `_` digit separators of Python's `int()` (`int("1_0") == 10`), so such text reads as `None`.
- MiscFunc.GetHourlyRates: an hour written with `_` separators, such as `1_0:0.5`, reads as hour 10 in the program but fails in the model, because `PyNum.ParseInt` refuses it.
- PyNum.HundredthsRoundTrip: stated for prices that are not negative, the only ones the rate note writes (it is written only for a positive price); `str(x)` switches to an exponent from `10^16` on, which `PyNum.HundredthsText` does not model.
- Settings.SettingsStore.RemoveObsoleteIndoorTempSetting: takes a `today` that `strptime` accepts, as `strftime` always gives one.
- RateSchedule.CreateTopHourAdjMaps: takes a window with `start < stop` and every hour priced. A window for which the source raises is handled one level up, in `HeatingAdjust.MergeWindowPrices`, which returns `None` exactly then.
- MiscFunc.ExtTempReading: takes the time-stamp test as a parameter. `MiscFunc.ReadingWrittenParsed` instantiates it with `strptime("%Y-%m-%d_%H:%M:%S")`.

## Findings

| source | as written | input that shows it | evidently intended | confidence | as-written member | corrected member |
|---|---|---|---|---|---|---|
| pgart/bin/pgart_read_control_params_func.py:65-67,93-96 | `is_hr_hr_valid` accepts end hour 24 but marks hours in a table of 24 slots (0-23), so marking hour 24 indexes past the end | `hourly_rate_decrease_hours=20-24` | a table with a slot for hour 24, so the range is accepted or refused without an exception | not executed | ControlParams.ReadParametersRaiseOn2024 | ControlParams.DaySlotsReadNeverRaises |
| pgart/bin/pgart_experimental_conv_eon_files_to_generic_func.py:81-84 | the date is read as `fi.split("_")[1]` from the full path. When the local directory (`$HOME/pgart/var/local`) contains `_`, the piece is part of the directory, the rebuilt path names no file, and the download is dropped | directory `/home/a_b/pgart/var/local`, file `eon_2023-01-05.csv` | the date is the text after `dir + "/eon_"` up to the first `.` | not executed | EonConv.UnderscoreDirDropsDownload | EonConv.CorrectedFindsDownloads |
