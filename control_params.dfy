/** The reader of the controller's configuration file (pgart_read_control_params_func.py): the
    validators of `HH_TT` setpoint lists and `H-H` hour-range lists, the type-tagged parameter
    rules, and the loop that reads `parameter = value` lines over the defaults. */
module ControlParams {
  import opened Text
  import opened PyNum

  /** Why a value is refused; the user-facing text of each reason is not modelled. */
  datatype Reason =
    | Shape                  // an `HH_TT` item of the wrong form
    | NotDigits              // hour or temperature not made of digits
    | HourRange(hour: int)   // an hour outside the allowed range
    | TempRange(temp: int)   // a temperature outside 5-25
    | HourTwice(hour: int)   // an hour named twice in one list
    | RangeShape             // an `H-H` item of the wrong form
    | RangeNotDigits         // a range bound not made of digits
    | StartAfterEnd          // a range that ends before it starts
    | Overlap                // two ranges that share an hour
    | UnknownParameter       // a parameter without a validation rule
    | NotAllowed             // a value outside the rule
    | BadIp                  // not an IP address
    | NoProgram              // the named program is not in the program directory

  /** What a validator returns: accepted, refused with the offending text, or an exception. */
  datatype Verdict = Accepted | Rejected(reason: Reason, item: string) | Crashed

  // ---------------------------------------------------------------------------------------
  // is_hr_temp_valid: `HH_TT` items, each naming an hour and a setpoint

  datatype HourTemp = HourTemp(hour: nat, temp: nat) | BadTemp(reason: Reason)

  /** One stripped item of an `HH_TT` list, checked in the order the source checks it. */
  function HourTempItem(x: string): (r: HourTemp)
    ensures r.HourTemp? ==> r.hour < 24 && 5 <= r.temp <= 25
  {
    if |x| != 5 || Count(x, '_') != 1 || x[2] != '_' then BadTemp(Shape)
    else if !(IsNumeric(x[..2]) && IsNumeric(x[3..])) then BadTemp(NotDigits)
    else if DigitsValue(x[..2]) >= 24 then BadTemp(HourRange(DigitsValue(x[..2])))
    else if !(5 <= DigitsValue(x[3..]) <= 25) then BadTemp(TempRange(DigitsValue(x[3..])))
    else HourTemp(DigitsValue(x[..2]), DigitsValue(x[3..]))
  }

  /** The form of a good item stated directly: two digits, `_`, two digits, hour 0-23 and
      setpoint 5-25. */
  predicate HourTempText(x: string)
  {
    |x| == 5 && x[2] == '_' && IsNumeric(x[..2]) && IsNumeric(x[3..])
    && DigitsValue(x[..2]) < 24 && 5 <= DigitsValue(x[3..]) <= 25
  }

  /** The separate check that the item holds a single `_` never decides anything: an item of
      the right form has exactly one, at index 2. */
  lemma HourTempItemText(x: string)
    ensures HourTempItem(x).HourTemp? <==> HourTempText(x)
    ensures HourTempItem(x).HourTemp? ==> HourTempItem(x).hour == DigitsValue(x[..2])
  {
    if HourTempText(x) {
      assert x == x[..2] + "_" + x[3..];
      CountAppend(x[..2] + "_", x[3..], '_');
      CountAppend(x[..2], "_", '_');
      assert '_' !in x[..2] && '_' !in x[3..] by {
        assert forall i :: 0 <= i < |x[..2]| ==> IsDigit(x[..2][i]);
        assert forall i :: 0 <= i < |x[3..]| ==> IsDigit(x[3..][i]);
      }
    }
  }

  /** Once the shape checks pass, `x.split('_')` is the two halves the model reads. */
  lemma HourTempSplit(x: string)
    requires |x| == 5 && Count(x, '_') == 1 && x[2] == '_'
    ensures Split(x, '_') == [x[..2], x[3..]]
  {
    assert x == x[..2] + "_" + x[3..];
    CountAppend(x[..2] + "_", x[3..], '_');
    CountAppend(x[..2], "_", '_');
    SplitTwo(x[..2], x[3..], '_');
  }

  /** Every comma-separated piece with its surrounding whitespace removed. */
  function StripAll(items: seq<string>): (xs: seq<string>)
    ensures |xs| == |items|
  {
    seq(|items|, i requires 0 <= i < |items| => Strip(items[i]))
  }

  /** The checked form of every (stripped) item of a list. */
  function TempItems(xs: seq<string>): (rs: seq<HourTemp>)
    ensures |rs| == |xs|
  {
    seq(|xs|, i requires 0 <= i < |xs| => HourTempItem(xs[i]))
  }

  /** The items from the first onwards, with the hours in `seen` already taken. */
  function TempsFrom(rs: seq<HourTemp>, xs: seq<string>, seen: set<int>): (v: Verdict)
    requires |rs| == |xs|
    ensures v != Crashed
  {
    if |rs| == 0 then Accepted
    else
      match rs[0]
      case BadTemp(r) => Rejected(r, xs[0])
      case HourTemp(h, _) =>
        if h in seen then Rejected(HourTwice(h), xs[0]) else TempsFrom(rs[1..], xs[1..], seen + {h})
  }

  /** What `is_hr_temp_valid` decides for a whole list. */
  function HourTempsCheck(hrTemp: string): Verdict
  {
    var xs := StripAll(Split(hrTemp, ','));
    TempsFrom(TempItems(xs), xs, {})
  }

  /** One step of `TempsFrom`, for the item at index `k`. */
  lemma TempsFromNext(rs: seq<HourTemp>, xs: seq<string>, k: nat, seen: set<int>)
    requires |rs| == |xs| && k < |rs|
    ensures rs[k].BadTemp? ==> TempsFrom(rs[k..], xs[k..], seen) == Rejected(rs[k].reason, xs[k])
    ensures rs[k].HourTemp? && rs[k].hour in seen ==>
      TempsFrom(rs[k..], xs[k..], seen) == Rejected(HourTwice(rs[k].hour), xs[k])
    ensures rs[k].HourTemp? && rs[k].hour !in seen ==>
      TempsFrom(rs[k..], xs[k..], seen) == TempsFrom(rs[k + 1..], xs[k + 1..], seen + {rs[k].hour})
  {
    assert rs[k..][0] == rs[k] && rs[k..][1..] == rs[k + 1..];
    assert xs[k..][0] == xs[k] && xs[k..][1..] == xs[k + 1..];
  }

  /** `is_hr_temp_valid`: the comma-separated items are stripped and checked in order against
      a 24-slot table of the hours already named. */
  method IsHrTempValid(hrTemp: string) returns (v: Verdict)
    ensures v == HourTempsCheck(hrTemp)
  {
    v := CheckHourTemps(StripAll(Split(hrTemp, ',')));
  }

  /** The loop of `is_hr_temp_valid` over the stripped items. Checking one item is pure, so it
      is done for all items before the walk over the table. */
  method CheckHourTemps(xs: seq<string>) returns (v: Verdict)
    ensures v == TempsFrom(TempItems(xs), xs, {})
  {
    var hoursSet := new int[24];
    forall h | 0 <= h < 24 {
      hoursSet[h] := 0;
    }
    var rs := TempItems(xs);
    ghost var seen: set<int> := {};
    var k := 0;
    while k < |xs|
      invariant 0 <= k <= |xs|
      invariant forall h :: 0 <= h < 24 ==> (hoursSet[h] == 1 <==> h in seen)
      invariant forall h :: h in seen ==> 0 <= h < 24
      invariant TempsFrom(rs, xs, {}) == TempsFrom(rs[k..], xs[k..], seen)
    {
      var x := xs[k];
      var item := rs[k];
      TempsFromNext(rs, xs, k, seen);
      match item
      case BadTemp(r) =>
        return Rejected(r, x);
      case HourTemp(hour, _) =>
        if hoursSet[hour] == 1 {
          return Rejected(HourTwice(hour), x);
        }
        hoursSet[hour] := 1;
        seen := seen + {hour};
      k := k + 1;
    }
    return Accepted;
  }

  /** Every item is good and no hour is named twice. */
  predicate TempsOk(rs: seq<HourTemp>)
  {
    (forall i :: 0 <= i < |rs| ==> rs[i].HourTemp?)
    && forall i, j :: 0 <= i < j < |rs| ==> rs[i].HourTemp? && rs[j].HourTemp? && rs[i].hour != rs[j].hour
  }

  predicate TempsAvoid(rs: seq<HourTemp>, seen: set<int>)
  {
    forall i :: 0 <= i < |rs| ==> rs[i].HourTemp? && rs[i].hour !in seen
  }

  /** Peeling the first item off the list conditions. */
  lemma TempsStep(rs: seq<HourTemp>, seen: set<int>)
    requires |rs| > 0 && rs[0].HourTemp?
    ensures TempsOk(rs) && TempsAvoid(rs, seen) <==>
      rs[0].hour !in seen && TempsOk(rs[1..]) && TempsAvoid(rs[1..], seen + {rs[0].hour})
  {
    var rest := rs[1..];
    if TempsOk(rs) && TempsAvoid(rs, seen) {
      forall i | 0 <= i < |rest| ensures rest[i].HourTemp? && rest[i].hour !in seen + {rs[0].hour} {
        assert rs[i + 1] == rest[i];
      }
      forall i, j | 0 <= i < j < |rest| ensures rest[i].HourTemp? && rest[j].HourTemp? && rest[i].hour != rest[j].hour {
        assert rs[i + 1] == rest[i] && rs[j + 1] == rest[j];
      }
    }
    if rs[0].hour !in seen && TempsOk(rest) && TempsAvoid(rest, seen + {rs[0].hour}) {
      forall i, j | 0 <= i < j < |rs| ensures rs[i].HourTemp? && rs[j].HourTemp? && rs[i].hour != rs[j].hour {
        assert rs[j] == rest[j - 1];
        if i > 0 { assert rs[i] == rest[i - 1]; }
      }
      forall i | 0 <= i < |rs| ensures rs[i].HourTemp? && rs[i].hour !in seen {
        if i > 0 { assert rs[i] == rest[i - 1]; }
      }
    }
  }

  /** A list is accepted exactly when every item is good and no hour repeats or was taken. */
  lemma {:induction false} TempsFromOk(rs: seq<HourTemp>, xs: seq<string>, seen: set<int>)
    requires |rs| == |xs|
    ensures TempsFrom(rs, xs, seen) == Accepted <==> TempsOk(rs) && TempsAvoid(rs, seen)
  {
    if |rs| > 0 && rs[0].HourTemp? {
      TempsFromOk(rs[1..], xs[1..], seen + {rs[0].hour});
      TempsStep(rs, seen);
    }
  }

  /** `is_hr_temp_valid` accepts exactly the lists whose items are all good (`HourTempText`)
      and name distinct hours. */
  lemma HourTempsAccepted(hrTemp: string)
    ensures HourTempsCheck(hrTemp) == Accepted <==> TempsOk(TempItems(StripAll(Split(hrTemp, ','))))
  {
    var xs := StripAll(Split(hrTemp, ','));
    TempsFromOk(TempItems(xs), xs, {});
  }

  // ---------------------------------------------------------------------------------------
  // is_hr_hr_valid: closed `H-H` hour ranges that must not overlap

  datatype HourSpan = Span(first: nat, last: nat) | BadSpan(reason: Reason)

  /** One stripped item of an `H-H` list, checked in the order the source checks it. */
  function HourSpanItem(x: string): (r: HourSpan)
    ensures r.Span? ==> r.first <= r.last <= 24
  {
    if Count(x, '-') != 1 || x[0] == '-' || x[|x| - 1] == '-' then BadSpan(RangeShape)
    else
      var p := IndexOf(x, '-');
      var a, b := x[..p], x[p + 1..];
      if !(IsNumeric(a) && IsNumeric(b)) then BadSpan(RangeNotDigits)
      else if DigitsValue(a) > 24 then BadSpan(HourRange(DigitsValue(a)))
      else if DigitsValue(b) > 24 then BadSpan(HourRange(DigitsValue(b)))
      else if DigitsValue(a) > DigitsValue(b) then BadSpan(StartAfterEnd)
      else Span(DigitsValue(a), DigitsValue(b))
  }

  datatype Marking = Marked(seen: set<int>) | Clash | PastEnd

  /** The inner loop: hours `i..last` are marked one by one in a table of `slots` hours; an
      hour already marked stops it, and an hour past the table raises IndexError. */
  function MarkHours(i: nat, last: nat, seen: set<int>, slots: nat): Marking
    decreases last + 1 - i
  {
    if i > last then Marked(seen)
    else if i >= slots then PastEnd
    else if i in seen then Clash
    else MarkHours(i + 1, last, seen + {i}, slots)
  }

  /** The checked form of every (stripped) item of a list. */
  function SpanItems(xs: seq<string>): (rs: seq<HourSpan>)
    ensures |rs| == |xs|
  {
    seq(|xs|, i requires 0 <= i < |xs| => HourSpanItem(xs[i]))
  }

  /** The items from the first onwards, with the hours in `seen` already marked. */
  function SpansFrom(rs: seq<HourSpan>, xs: seq<string>, seen: set<int>, slots: nat): Verdict
    requires |rs| == |xs|
  {
    if |rs| == 0 then Accepted
    else
      match rs[0]
      case BadSpan(r) => Rejected(r, xs[0])
      case Span(first, last) =>
        match MarkHours(first, last, seen, slots)
        case PastEnd => Crashed
        case Clash => Rejected(Overlap, xs[0])
        case Marked(s) => SpansFrom(rs[1..], xs[1..], s, slots)
  }

  /** What `is_hr_hr_valid` decides for a whole list, over a table of `slots` hours. */
  function HourSpansCheck(hrHr: string, slots: nat): Verdict
  {
    var xs := StripAll(Split(hrHr, ','));
    SpansFrom(SpanItems(xs), xs, {}, slots)
  }

  /** The table of `is_hr_hr_valid` has 24 slots, although an end hour of 24 is allowed. */
  const SourceSlots: nat := 24

  /** A table with a slot for hour 24 as well, which the accepted bounds call for. */
  const DaySlots: nat := 25

  /** `is_hr_hr_valid` over a table of `slots` hours (the source uses `SourceSlots`). */
  method IsHrHrValid(hrHr: string, slots: nat) returns (v: Verdict)
    ensures v == HourSpansCheck(hrHr, slots)
  {
    v := CheckHourSpans(StripAll(Split(hrHr, ',')), slots);
  }

  /** The loop of `is_hr_hr_valid` over the stripped items, as in `CheckHourTemps`. */
  method CheckHourSpans(xs: seq<string>, slots: nat) returns (v: Verdict)
    ensures v == SpansFrom(SpanItems(xs), xs, {}, slots)
  {
    var hoursSet := new int[slots];
    forall h | 0 <= h < slots {
      hoursSet[h] := 0;
    }
    var rs := SpanItems(xs);
    ghost var seen: set<int> := {};
    var k := 0;
    while k < |xs|
      invariant 0 <= k <= |xs|
      invariant forall h :: 0 <= h < slots ==> (hoursSet[h] == 1 <==> h in seen)
      invariant forall h :: h in seen ==> 0 <= h < slots
      invariant SpansFrom(rs, xs, {}, slots) == SpansFrom(rs[k..], xs[k..], seen, slots)
    {
      var x := xs[k];
      var item := rs[k];
      SpansFromNext(rs, xs, k, seen, slots);
      match item
      case BadSpan(r) =>
        return Rejected(r, x);
      case Span(first, last) =>
        ghost var after;
        var status;
        status, after := MarkSpan(hoursSet, first, last, seen);
        if status == PastTable {
          return Crashed;
        }
        if status == HitsMarked {
          return Rejected(Overlap, x);
        }
        seen := after;
      k := k + 1;
    }
    return Accepted;
  }

  /** One step of `SpansFrom`, for the item at index `k`. */
  lemma SpansFromNext(rs: seq<HourSpan>, xs: seq<string>, k: nat, seen: set<int>, slots: nat)
    requires |rs| == |xs| && k < |rs|
    ensures rs[k].BadSpan? ==> SpansFrom(rs[k..], xs[k..], seen, slots) == Rejected(rs[k].reason, xs[k])
    ensures rs[k].Span? && MarkHours(rs[k].first, rs[k].last, seen, slots) == PastEnd ==>
      SpansFrom(rs[k..], xs[k..], seen, slots) == Crashed
    ensures rs[k].Span? && MarkHours(rs[k].first, rs[k].last, seen, slots) == Clash ==>
      SpansFrom(rs[k..], xs[k..], seen, slots) == Rejected(Overlap, xs[k])
    ensures rs[k].Span? && MarkHours(rs[k].first, rs[k].last, seen, slots).Marked? ==>
      SpansFrom(rs[k..], xs[k..], seen, slots) ==
      SpansFrom(rs[k + 1..], xs[k + 1..], MarkHours(rs[k].first, rs[k].last, seen, slots).seen, slots)
  {
    assert rs[k..][0] == rs[k] && rs[k..][1..] == rs[k + 1..];
    assert xs[k..][0] == xs[k] && xs[k..][1..] == xs[k + 1..];
  }

  datatype SpanStatus = Fits | HitsMarked | PastTable

  /** The inner loop of `is_hr_hr_valid`: marks hours `first..last` in the table one by one. */
  method MarkSpan(hoursSet: array<int>, first: nat, last: nat, ghost seen: set<int>)
    returns (status: SpanStatus, ghost after: set<int>)
    requires forall h :: 0 <= h < hoursSet.Length ==> (hoursSet[h] == 1 <==> h in seen)
    requires forall h :: h in seen ==> 0 <= h < hoursSet.Length
    modifies hoursSet
    ensures status == Fits <==> MarkHours(first, last, seen, hoursSet.Length) == Marked(after)
    ensures status == HitsMarked <==> MarkHours(first, last, seen, hoursSet.Length) == Clash
    ensures status == PastTable <==> MarkHours(first, last, seen, hoursSet.Length) == PastEnd
    ensures forall h :: 0 <= h < hoursSet.Length ==> (hoursSet[h] == 1 <==> h in after)
    ensures forall h :: h in after ==> 0 <= h < hoursSet.Length
  {
    after := seen;
    var i := first;
    while i <= last
      invariant first <= i <= last + 1 || (i == first && first > last)
      invariant forall h :: 0 <= h < hoursSet.Length ==> (hoursSet[h] == 1 <==> h in after)
      invariant forall h :: h in after ==> 0 <= h < hoursSet.Length
      invariant MarkHours(first, last, seen, hoursSet.Length) == MarkHours(i, last, after, hoursSet.Length)
    {
      if i >= hoursSet.Length {
        return PastTable, after;
      }
      if hoursSet[i] == 1 {
        return HitsMarked, after;
      }
      MarkHoursNext(i, last, after, hoursSet.Length);
      hoursSet[i] := 1;
      after := after + {i};
      i := i + 1;
    }
    return Fits, after;
  }

  lemma MarkHoursNext(i: nat, last: nat, seen: set<int>, slots: nat)
    requires i <= last && i < slots && i !in seen
    ensures MarkHours(i, last, seen, slots) == MarkHours(i + 1, last, seen + {i}, slots)
  {
  }

  /** Marking succeeds exactly when the hours fit the table and none is marked yet; it then
      adds exactly those hours. Running past the table needs an hour beyond it. */
  lemma {:induction false} MarkHoursResult(i: nat, last: nat, seen: set<int>, slots: nat)
    requires forall h :: h in seen ==> 0 <= h < slots
    ensures MarkHours(i, last, seen, slots).Marked? <==>
      (i > last || last < slots) && forall h :: i <= h <= last ==> h !in seen
    ensures MarkHours(i, last, seen, slots).Marked? ==>
      forall h :: h in MarkHours(i, last, seen, slots).seen <==> h in seen || i <= h <= last
    ensures MarkHours(i, last, seen, slots) == PastEnd ==> last >= slots
    decreases last + 1 - i
  {
    if i <= last && i < slots && i !in seen {
      MarkHoursResult(i + 1, last, seen + {i}, slots);
    }
  }

  /** Two closed ranges share no hour. */
  predicate Apart(a: HourSpan, b: HourSpan)
  {
    a.Span? && b.Span? && (a.last < b.first || b.last < a.first)
  }

  /** Every range of a list starts no later than it ends. */
  lemma SpanItemsOrdered(xs: seq<string>)
    ensures forall i :: 0 <= i < |xs| && SpanItems(xs)[i].Span? ==> SpanItems(xs)[i].first <= SpanItems(xs)[i].last
  {
    forall i | 0 <= i < |xs| && SpanItems(xs)[i].Span?
      ensures SpanItems(xs)[i].first <= SpanItems(xs)[i].last
    {
      var r := HourSpanItem(xs[i]);
    }
  }

  /** Every item is a range that fits a table of `slots` hours, and no two ranges share an hour. */
  predicate SpansOk(rs: seq<HourSpan>, slots: nat)
  {
    (forall i :: 0 <= i < |rs| ==> rs[i].Span? && rs[i].last < slots)
    && forall i, j :: 0 <= i < j < |rs| ==> Apart(rs[i], rs[j])
  }

  predicate SpanAvoids(r: HourSpan, seen: set<int>)
  {
    r.Span? && forall h :: r.first <= h <= r.last ==> h !in seen
  }

  predicate SpansAvoid(rs: seq<HourSpan>, seen: set<int>)
  {
    forall i :: 0 <= i < |rs| ==> SpanAvoids(rs[i], seen)
  }

  /** A range avoids the hours of another range as well as `seen` exactly when it avoids
      `seen` and lies apart from that range. */
  lemma AvoidsMore(r: HourSpan, s: HourSpan, seen: set<int>, seen': set<int>)
    requires r.Span? && s.Span? && r.first <= r.last && s.first <= s.last
    requires forall h :: h in seen' <==> h in seen || s.first <= h <= s.last
    ensures SpanAvoids(r, seen') <==> SpanAvoids(r, seen) && Apart(r, s)
  {
    var h := if r.first <= s.first then s.first else r.first;
    assert h in seen' <==> h in seen || s.first <= h <= s.last;
  }

  /** Peeling the first range off the list conditions. */
  lemma SpansStep(rs: seq<HourSpan>, seen: set<int>, seen': set<int>, slots: nat)
    requires |rs| > 0 && rs[0].Span?
    requires forall i :: 0 <= i < |rs| && rs[i].Span? ==> rs[i].first <= rs[i].last
    requires forall h :: h in seen' <==> h in seen || rs[0].first <= h <= rs[0].last
    ensures SpansOk(rs, slots) && SpansAvoid(rs, seen) <==>
      rs[0].last < slots && SpanAvoids(rs[0], seen) && SpansOk(rs[1..], slots) && SpansAvoid(rs[1..], seen')
  {
    var rest := rs[1..];
    if SpansOk(rs, slots) && SpansAvoid(rs, seen) {
      forall i, j | 0 <= i < j < |rest| ensures Apart(rest[i], rest[j]) {
        assert rs[i + 1] == rest[i] && rs[j + 1] == rest[j];
      }
      forall i | 0 <= i < |rest| ensures SpanAvoids(rest[i], seen') {
        assert rs[i + 1] == rest[i];
        assert Apart(rs[0], rs[i + 1]);
        AvoidsMore(rest[i], rs[0], seen, seen');
      }
    }
    if rs[0].last < slots && SpanAvoids(rs[0], seen) && SpansOk(rest, slots) && SpansAvoid(rest, seen') {
      forall i, j | 0 <= i < j < |rs| ensures Apart(rs[i], rs[j]) {
        assert rs[j] == rest[j - 1];
        AvoidsMore(rs[j], rs[0], seen, seen');
        if i > 0 { assert rs[i] == rest[i - 1]; }
      }
      forall i | 0 <= i < |rs| ensures rs[i].Span? && rs[i].last < slots && SpanAvoids(rs[i], seen) {
        if i > 0 {
          assert rs[i] == rest[i - 1];
          AvoidsMore(rs[i], rs[0], seen, seen');
        }
      }
    }
  }

  /** A list is accepted exactly when its ranges fit, are pairwise apart and avoid `seen`. */
  lemma {:induction false} SpansFromOk(rs: seq<HourSpan>, xs: seq<string>, seen: set<int>, slots: nat)
    requires |rs| == |xs|
    requires forall h :: h in seen ==> 0 <= h < slots
    requires forall i :: 0 <= i < |rs| && rs[i].Span? ==> rs[i].first <= rs[i].last
    ensures SpansFrom(rs, xs, seen, slots) == Accepted <==> SpansOk(rs, slots) && SpansAvoid(rs, seen)
  {
    if |rs| > 0 && rs[0].Span? {
      var r := rs[0];
      MarkHoursResult(r.first, r.last, seen, slots);
      if MarkHours(r.first, r.last, seen, slots).Marked? {
        var seen' := MarkHours(r.first, r.last, seen, slots).seen;
        SpansFromOk(rs[1..], xs[1..], seen', slots);
        SpansStep(rs, seen, seen', slots);
      }
    }
  }

  /** `is_hr_hr_valid` accepts exactly the lists of ranges that fit the table and share no
      hour; ranges are closed, so `a-b,b-c` is refused. */
  lemma HourSpansAccepted(hrHr: string, slots: nat)
    ensures HourSpansCheck(hrHr, slots) == Accepted <==> SpansOk(SpanItems(StripAll(Split(hrHr, ','))), slots)
  {
    var xs := StripAll(Split(hrHr, ','));
    SpanItemsOrdered(xs);
    SpansFromOk(SpanItems(xs), xs, {}, slots);
  }

  lemma Span2024()
    ensures HourSpanItem("20-24") == Span(20, 24)
  {
    var x := "20-24";
    assert Count(x, '-') == 1;
    var p := IndexOf(x, '-');
    assert p == 2;
    assert x[..p] == "20" && x[p + 1..] == "24";
    assert DigitsValue("20") == 20 && DigitsValue("24") == 24;
  }

  /** A list with one item and no surrounding whitespace is that item. */
  lemma OneItem(x: string)
    requires ',' !in x && |x| >= 1 && !IsSpace(x[0]) && !IsSpace(x[|x| - 1])
    ensures StripAll(Split(x, ',')) == [x]
  {
    SplitNoSep(x, ',');
    StripUnchanged(x);
  }

  lemma Marks2024()
    ensures MarkHours(20, 24, {}, SourceSlots) == PastEnd
  {
    var s0: set<int> := {};
    var s1 := s0 + {20};
    var s2 := s1 + {21};
    var s3 := s2 + {22};
    MarkHoursNext(20, 24, s0, 24);
    MarkHoursNext(21, 24, s1, 24);
    MarkHoursNext(22, 24, s2, 24);
    MarkHoursNext(23, 24, s3, 24);
  }

  /** As written, a range ending at hour 24 that reaches the table's end raises IndexError. */
  lemma EndHour24Crashes()
    ensures HourSpansCheck("20-24", SourceSlots) == Crashed
  {
    OneItem("20-24");
    Span2024();
    Marks2024();
    var xs: seq<string> := ["20-24"];
    assert SpanItems(xs) == [Span(20, 24)];
  }

  /** With a slot for hour 24 the check never raises: every bound it accepts fits. */
  lemma {:induction false} DaySlotsNeverCrash(rs: seq<HourSpan>, xs: seq<string>, seen: set<int>)
    requires |rs| == |xs|
    requires forall h :: h in seen ==> 0 <= h < DaySlots
    requires forall i :: 0 <= i < |rs| && rs[i].Span? ==> rs[i].last <= 24
    ensures SpansFrom(rs, xs, seen, DaySlots) != Crashed
  {
    if |rs| > 0 && rs[0].Span? {
      var r := rs[0];
      MarkHoursResult(r.first, r.last, seen, DaySlots);
      if MarkHours(r.first, r.last, seen, DaySlots).Marked? {
        DaySlotsNeverCrash(rs[1..], xs[1..], MarkHours(r.first, r.last, seen, DaySlots).seen);
      }
    }
  }

  /** `is_hr_hr_valid` with a slot for hour 24 never raises. */
  lemma HourSpansNeverCrash(hrHr: string)
    ensures HourSpansCheck(hrHr, DaySlots) != Crashed
  {
    var xs := StripAll(Split(hrHr, ','));
    var rs := SpanItems(xs);
    forall i | 0 <= i < |rs| && rs[i].Span? ensures rs[i].last <= 24 {
      var r := HourSpanItem(xs[i]);
    }
    DaySlotsNeverCrash(rs, xs, {});
  }

  /** One of the ranges of a list ends past a table of `slots` hours. */
  predicate ReachesPast(hrHr: string, slots: nat)
  {
    var rs := SpanItems(StripAll(Split(hrHr, ',')));
    exists i :: 0 <= i < |rs| && rs[i].Span? && rs[i].last >= slots
  }

  /** The loop raises only on a range that ends past the table. */
  lemma {:induction false} SpansCrashPastTable(rs: seq<HourSpan>, xs: seq<string>, seen: set<int>, slots: nat)
    requires |rs| == |xs|
    requires forall h :: h in seen ==> 0 <= h < slots
    ensures SpansFrom(rs, xs, seen, slots) == Crashed ==>
      exists i :: 0 <= i < |rs| && rs[i].Span? && rs[i].last >= slots
  {
    if |rs| > 0 && rs[0].Span? {
      var r := rs[0];
      MarkHoursResult(r.first, r.last, seen, slots);
      if MarkHours(r.first, r.last, seen, slots).Marked? {
        var rest := rs[1..];
        SpansCrashPastTable(rest, xs[1..], MarkHours(r.first, r.last, seen, slots).seen, slots);
        if SpansFrom(rs, xs, seen, slots) == Crashed {
          var i :| 0 <= i < |rest| && rest[i].Span? && rest[i].last >= slots;
          assert rs[i + 1] == rest[i];
        }
      }
    }
  }

  /** `is_hr_hr_valid` raises only on a list with a range that ends past its table. */
  lemma HourSpansCrashPastTable(hrHr: string, slots: nat)
    ensures HourSpansCheck(hrHr, slots) == Crashed ==> ReachesPast(hrHr, slots)
  {
    var xs := StripAll(Split(hrHr, ','));
    SpansCrashPastTable(SpanItems(xs), xs, {}, slots);
  }

  /** No range ends past hour 24, so none runs past a table with a slot for it. */
  lemma HourSpansWithinDay(hrHr: string)
    ensures !ReachesPast(hrHr, DaySlots)
  {
    var xs := StripAll(Split(hrHr, ','));
    var rs := SpanItems(xs);
    forall i | 0 <= i < |rs| && rs[i].Span? ensures rs[i].last < DaySlots {
      var r := HourSpanItem(xs[i]);
    }
  }

  // ---------------------------------------------------------------------------------------
  // is_par_valid: the type-tagged rules of `valid_config_parameters`

  /** A rule of `valid_config_parameters` (pgart_env_func.py), read from its `tag:text` form. */
  datatype Rule =
    | TxtSingle(values: seq<string>)       // `txt_single:v1,v2,...`; a `*` among them admits anything
    | IntRange(lo: nat, hi: nat)           // `int_range:lo-hi`: a comma list of whole numbers
    | IntSingle(lo: nat, hi: nat)          // `int_single:lo-hi`: one whole number
    | NegIntSingle(upper: int, lower: int) // `-int_single:upper>-<lower`: one negative number
    | FloatSingle(least: real, most: real) // `float_single:least-most`
    | Ip                                   // `ip:...`
    | Unchecked(tag: string)               // a tag `is_par_valid` has no branch for

  /** The rule table, one entry per parameter that `is_par_valid` knows. */
  function ValidConfigParameters(): map<string, Rule>
  {
    map[
      "pump_access_method" := TxtSingle(["a", "m"]),
      "pump_ip_address" := Ip,
      "login_id" := Unchecked("txt:1-30"),
      "password" := Unchecked("txt:1-30"),
      "set_indoor_temp_months" := IntRange(1, 12),
      "use_windchill_compensation" := TxtSingle(["y", "n"]),
      "windchill_min_apparent_temp_diff" := IntSingle(1, 6),
      "windchill_lower_limit_apparent_temp" := NegIntSingle(-20, -26),
      "windchill_max_indoor_temp_increase" := IntSingle(1, 4),
      "windchill_use_forecast_this_nr_hours_ahead" := IntSingle(0, 2),
      "windchill_adjust_only_when_set_indoor_temp_is_above" := IntSingle(15, 22),
      "windchill_wind_force_factor" := FloatSingle(0.5, 1.5),
      "my_lat" := FloatSingle(50.0, 72.0),
      "my_lon" := FloatSingle(5.0, 31.0),
      "external_pgm_create_forecasts" := Unchecked("exec_path"),
      "external_pgm_create_hourly_rates" := Unchecked("exec_path"),
      "external_pgm_create_monthly_rates" := Unchecked("exec_path"),
      "create_monthly_rates_when" := TxtSingle(["d", "e"]),
      "external_pgm_read_indoor_sensor" := Unchecked("exec_path"),
      "pgm_create_hourly_rates" := Unchecked("txt:4-40"),
      "el_area" := TxtSingle(["SE1", "SE2", "SE3", "SE4", "ost", "sor", "vest", "midt", "nord", "finland", "*"]),
      "rotate_log_files_this_weekday_nr" := IntSingle(1, 7),
      "keep_nr_rotated_log_files" := IntSingle(2, 10),
      "verbose_logging" := IntRange(0, 6),
      "max_log_len" := IntRange(1, 10000000),
      "use_hourly_rates" := TxtSingle(["y", "n"]),
      "create_hourly_rates" := TxtSingle(["y", "n"]),
      "read_external_indoor_sensor" := TxtSingle(["y", "n"]),
      "hourly_rate_only_decrease_when_rate_above" := FloatSingle(0.0, 100.0),
      "hourly_rate_only_decrease_for_this_nr_consecutive_hours" := IntSingle(1, 2),
      "hourly_rate_min_halt_after_decrease" := IntSingle(1, 3),
      "hourly_rate_decrease_nr_grades" := IntSingle(1, 5),
      "hourly_rate_decrease_during_top_hours" := IntSingle(0, 24),
      "mail_user" := Unchecked("mailaddress"),
      "gmail_app_pwd" := Unchecked("txt:16-16"),
      "mail_subject" := Unchecked("txt:1-30")
    ]
  }

  /** `txt_single`: the value must be listed, unless `*` is. */
  function TxtSingleCheck(values: seq<string>, val: string): (v: Verdict)
    ensures v == Accepted || v == Rejected(NotAllowed, val)
  {
    if "*" in values || val in values then Accepted else Rejected(NotAllowed, val)
  }

  /** Every comma-separated piece is a whole number within `lo..hi`. */
  predicate AllInRange(pieces: seq<string>, lo: nat, hi: nat)
  {
    forall i :: 0 <= i < |pieces| ==> IsNumeric(pieces[i]) && lo <= DigitsValue(pieces[i]) <= hi
  }

  /** `int_range`: the loop over the comma-separated pieces refuses at the first piece that is
      not digits or out of bounds; both refusals read the same, so only whether one exists
      matters. */
  function IntRangeCheck(lo: nat, hi: nat, val: string): (v: Verdict)
    ensures v == Accepted || v == Rejected(NotAllowed, val)
  {
    if AllInRange(Split(val, ','), lo, hi) then Accepted else Rejected(NotAllowed, val)
  }

  /** `int_single`: one whole number within `lo..hi`. */
  function IntSingleCheck(lo: nat, hi: nat, val: string): (v: Verdict)
    ensures v == Accepted || v == Rejected(NotAllowed, val)
  {
    if IsNumeric(val) && lo <= DigitsValue(val) <= hi then Accepted else Rejected(NotAllowed, val)
  }

  /** `-int_single`: `-` then digits, with the value between `lower` and `upper`; `val[0]` of an
      empty value raises IndexError. */
  function NegIntCheck(upper: int, lower: int, val: string): (v: Verdict)
    ensures v == Crashed <==> |val| == 0
    ensures v == Accepted || v == Crashed || v == Rejected(NotAllowed, val)
  {
    if |val| == 0 then Crashed
    else if val[0] != '-' || !IsNumeric(val[1..]) then Rejected(NotAllowed, val)
    else if !(lower <= 0 - DigitsValue(val[1..]) <= upper) then Rejected(NotAllowed, val)
    else Accepted
  }

  /** `float_single`: `float()` must succeed and the number lie within the bounds; the
      comparisons are false for `nan` and fail one bound for an infinity. */
  function FloatCheck(least: real, most: real, val: string): (v: Verdict)
    ensures v == Accepted || v == Rejected(NotAllowed, val)
  {
    var f := ParseFloat(val);
    if f.Some? && f.value.Finite? && least <= f.value.value <= most then Accepted else Rejected(NotAllowed, val)
  }

  /** One rule applied to a value; `ipValid` stands for `ipaddress.ip_address` not raising. */
  function RuleCheck(rule: Rule, val: string, ipValid: string -> bool): (v: Verdict)
    ensures v == Crashed ==> |val| == 0
    ensures v.Rejected? ==> v.reason == NotAllowed || v.reason == BadIp
  {
    match rule
    case TxtSingle(values) => TxtSingleCheck(values, val)
    case IntRange(lo, hi) => IntRangeCheck(lo, hi, val)
    case IntSingle(lo, hi) => IntSingleCheck(lo, hi, val)
    case NegIntSingle(upper, lower) => NegIntCheck(upper, lower, val)
    case FloatSingle(least, most) => FloatCheck(least, most, val)
    case Ip => if ipValid(val) then Accepted else Rejected(BadIp, val)
    case Unchecked(_) => Accepted
  }

  /** `is_par_valid(par, val)` over a rule table: a parameter without a rule is refused. */
  function ParValidIn(rules: map<string, Rule>, par: string, val: string, ipValid: string -> bool): (v: Verdict)
    ensures v == Crashed ==> |val| == 0
    ensures v == Rejected(UnknownParameter, par) <==> par !in rules
  {
    if par !in rules then Rejected(UnknownParameter, par) else RuleCheck(rules[par], val, ipValid)
  }

  /** `is_par_valid(par, val)` with the table of `valid_config_parameters`. */
  function IsParValid(par: string, val: string, ipValid: string -> bool): Verdict
  {
    ParValidIn(ValidConfigParameters(), par, val, ipValid)
  }

  /** An `int_single` value is accepted exactly when it is a plain digit string whose `int()`
      lies within the bounds. */
  lemma IntSingleAccepts(lo: nat, hi: nat, val: string)
    ensures IntSingleCheck(lo, hi, val) == Accepted <==>
      IsNumeric(val) && ParseInt(val).Some? && lo <= ParseInt(val).value <= hi
  {
    if IsNumeric(val) {
      ParseDigits(val, DigitsValue(val));
    }
  }

  /** `str(n)` is accepted by `int_single` for every `n` within the bounds. */
  lemma IntSingleTexts(lo: nat, hi: nat, n: nat)
    requires lo <= n <= hi
    ensures IntSingleCheck(lo, hi, NatToString(n)) == Accepted
  {
    NatToStringValue(n);
  }

  /** A `-int_single` value is accepted exactly when it is `-` and digits and its `int()` lies
      between the two bounds. */
  lemma NegIntSingleAccepts(upper: int, lower: int, val: string)
    ensures NegIntCheck(upper, lower, val) == Accepted <==>
      |val| > 1 && val[0] == '-' && IsNumeric(val[1..]) && ParseInt(val).Some? && lower <= ParseInt(val).value <= upper
  {
    if |val| > 1 && val[0] == '-' && IsNumeric(val[1..]) {
      assert val == "-" + val[1..];
      ParseNegDigits(val[1..], DigitsValue(val[1..]));
    }
  }

  /** `str(n)` is accepted by `-int_single` for every negative `n` between the bounds. */
  lemma NegIntSingleTexts(upper: int, lower: int, n: int)
    requires lower <= n <= upper && n < 0
    ensures NegIntCheck(upper, lower, IntToString(n)) == Accepted
  {
    NatToStringValue(-n);
    var t := IntToString(n);
    assert t[1..] == NatToString(-n);
  }

  /** Every piece passes `isnumeric()` and its `int()` lies within `lo..hi`. */
  predicate PiecesParse(pieces: seq<string>, lo: nat, hi: nat)
  {
    forall i :: 0 <= i < |pieces| ==>
      IsNumeric(pieces[i]) && ParseInt(pieces[i]).Some? && lo <= ParseInt(pieces[i]).value <= hi
  }

  /** An `int_range` value is accepted exactly when every comma-separated piece is a plain digit
      string whose `int()` lies within the bounds. */
  lemma IntRangeAccepts(lo: nat, hi: nat, val: string)
    ensures IntRangeCheck(lo, hi, val) == Accepted <==> PiecesParse(Split(val, ','), lo, hi)
  {
    var pieces := Split(val, ',');
    if AllInRange(pieces, lo, hi) {
      forall i | 0 <= i < |pieces|
        ensures IsNumeric(pieces[i]) && ParseInt(pieces[i]).Some? && lo <= ParseInt(pieces[i]).value <= hi
      {
        ParseDigits(pieces[i], DigitsValue(pieces[i]));
      }
    } else {
      var i :| 0 <= i < |pieces| && !(IsNumeric(pieces[i]) && lo <= DigitsValue(pieces[i]) <= hi);
      if IsNumeric(pieces[i]) {
        ParseDigits(pieces[i], DigitsValue(pieces[i]));
      }
    }
  }

  /** The texts of whole numbers within the bounds, joined with commas, are accepted by
      `int_range`. */
  lemma IntRangeTexts(lo: nat, hi: nat, ns: seq<nat>)
    requires |ns| >= 1
    requires forall i :: 0 <= i < |ns| ==> lo <= ns[i] <= hi
    ensures IntRangeCheck(lo, hi, Join(seq(|ns|, i requires 0 <= i < |ns| => NatToString(ns[i])), ',')) == Accepted
  {
    var parts := seq(|ns|, i requires 0 <= i < |ns| => NatToString(ns[i]));
    forall i | 0 <= i < |parts| ensures ',' !in parts[i] && IsNumeric(parts[i]) && DigitsValue(parts[i]) == ns[i] {
      NatToStringValue(ns[i]);
      assert forall j :: 0 <= j < |parts[i]| ==> IsDigit(parts[i][j]);
    }
    SplitJoin(parts, ',');
  }

  /** A `float_single` value is accepted exactly when `float()` gives a finite number within the
      bounds: `nan`, `inf` and text `float()` refuses are all refused. */
  lemma FloatSingleAccepts(least: real, most: real, val: string)
    ensures FloatCheck(least, most, val) == Accepted <==>
      exists x :: ParseFloat(val) == Some(Finite(x)) && least <= x <= most
  {
    if FloatCheck(least, most, val) == Accepted {
      var x := ParseFloat(val).value.value;
      assert ParseFloat(val) == Some(Finite(x));
    }
  }

  /** The `el_area` rule lists `*`, so every value is accepted. */
  lemma ElAreaAcceptsAll(val: string, ipValid: string -> bool)
    ensures IsParValid("el_area", val, ipValid) == Accepted
  {
    var rules := ValidConfigParameters();
    assert "el_area" in rules && "*" in rules["el_area"].values;
  }

  /** A yes/no switch such as `use_hourly_rates` accepts exactly `y` and `n`. */
  lemma YesNoSwitch(val: string, ipValid: string -> bool)
    ensures IsParValid("use_hourly_rates", val, ipValid) == Accepted <==> val == "y" || val == "n"
  {
    var rules := ValidConfigParameters();
    assert "use_hourly_rates" in rules && rules["use_hourly_rates"] == TxtSingle(["y", "n"]);
  }

  /** `txt` rules carry length bounds, but `is_par_valid` has no branch for them: any login is
      accepted, whatever its length. */
  lemma TxtLengthUnchecked(val: string, ipValid: string -> bool)
    ensures IsParValid("login_id", val, ipValid) == Accepted
  {
    var rules := ValidConfigParameters();
    assert "login_id" in rules && rules["login_id"] == Unchecked("txt:1-30");
  }

  /** The lower windchill limit accepts exactly `-20` to `-26`, written `-` and digits. */
  lemma LowerLimitAccepts(val: string, ipValid: string -> bool)
    ensures IsParValid("windchill_lower_limit_apparent_temp", val, ipValid) == Accepted <==>
      |val| > 1 && val[0] == '-' && IsNumeric(val[1..]) && ParseInt(val).Some? && -26 <= ParseInt(val).value <= -20
  {
    var rules := ValidConfigParameters();
    assert "windchill_lower_limit_apparent_temp" in rules;
    assert rules["windchill_lower_limit_apparent_temp"] == NegIntSingle(-20, -26);
    NegIntSingleAccepts(-20, -26, val);
  }

  // ---------------------------------------------------------------------------------------
  // get_parameters: `parameter = value` lines over the defaults

  /** The defaults of `default_config_parameters` (pgart_env_func.py), which the file overrides. */
  function DefaultConfigParameters(): map<string, string>
  {
    map[
      "pump_access_method" := "a",
      "pump_ip_address" := "0.0.0.0",
      "login_id" := "x",
      "password" := "y",
      "set_indoor_temp_months" := "01,02,03,04,05,09,10,11,12",
      "set_indoor_temp_hours" := "20_15, 05_18, 06_20",
      "set_indoor_temp_weekday_1" := "1 20_15, 05_18, 06_20",
      "set_indoor_temp_weekday_2" := "1 20_15, 05_18, 06_20",
      "set_indoor_temp_weekday_3" := "1 20_15, 05_18, 06_20",
      "set_indoor_temp_weekday_4" := "1 20_15, 05_18, 06_20",
      "set_indoor_temp_weekday_5" := "1 20_15, 05_18, 06_20",
      "set_indoor_temp_weekday_6" := "1 20_15, 05_18, 06_20",
      "set_indoor_temp_weekday_7" := "1 20_15, 05_18, 06_20",
      "weekday" := "0",
      "use_windchill_compensation" := "y",
      "windchill_min_apparent_temp_diff" := "3",
      "windchill_lower_limit_apparent_temp" := "-25",
      "windchill_max_indoor_temp_increase" := "4",
      "windchill_use_forecast_this_nr_hours_ahead" := "1",
      "windchill_adjust_only_when_set_indoor_temp_is_above" := "18",
      "windchill_wind_force_factor" := "1.0",
      "my_lat" := "56.789",
      "my_lon" := "12.34",
      "external_pgm_create_forecasts" := ",",
      "external_pgm_create_hourly_rates" := ",",
      "external_pgm_create_monthly_rates" := ",",
      "create_monthly_rates_when" := "e",
      "pgm_create_hourly_rates" := ",",
      "external_pgm_read_indoor_sensor" := ",",
      "el_area" := "SE4",
      "rotate_log_files_this_weekday_nr" := "1",
      "keep_nr_rotated_log_files" := "10",
      "verbose_logging" := "0",
      "max_log_len" := "10000",
      "use_hourly_rates" := "n",
      "create_hourly_rates" := "n",
      "read_external_indoor_sensor" := "n",
      "hourly_rate_decrease_hours" := "07_20",
      "hourly_rate_only_decrease_when_rate_above" := "2.00",
      "hourly_rate_only_decrease_for_this_nr_consecutive_hours" := "2",
      "hourly_rate_min_halt_after_decrease" := "1",
      "hourly_rate_decrease_nr_grades" := "2",
      "hourly_rate_decrease_during_top_hours" := "0",
      "mail_user" := "none",
      "gmail_app_pwd" := "x",
      "mail_subject" := "pgart_t"
    ]
  }

  datatype LineError =
    | NoEquals     // no `=` at all
    | NoValue      // nothing after the last `=`
    | DoubleComma  // `,,` in the value
    | EdgeComma    // the value starts or ends with `,`

  /** One line of the file after the syntax checks: skipped, refused, or a setting with its
      name and value (all whitespace removed) and the line as it was before that removal. */
  datatype Line = Blank | Malformed(error: LineError, rec: string) | Setting(par: string, val: string, recOrig: string)

  /** The syntax checks of one line, in the order the loop makes them: blank lines and comment
      lines are skipped, and a trailing comment is cut off. */
  function LineSyntax(raw: string): (l: Line)
    ensures l == Blank <==> Strip(raw) == "" || Strip(raw) == "^M" || Strip(raw)[0] == '#'
    ensures l.Setting? ==> '=' in l.recOrig && |l.val| > 0 && '=' !in l.par
    ensures l.Setting? ==> l.par + "=" + l.val == RemoveSpaces(l.recOrig)
    ensures l.Setting? ==> !HasSubstring(l.val, ",,") && l.val[0] != ',' && l.val[|l.val| - 1] != ','
  {
    var rec := Strip(raw);
    if rec == "" || rec == "^M" || rec[0] == '#' then Blank
    else RecordSyntax(Strip(if '#' in rec then Split(rec, '#')[0] else rec))
  }

  /** The checks on a line that is neither blank nor a comment, once stripped. */
  function RecordSyntax(rec: string): (l: Line)
    requires |rec| > 0 ==> !IsSpace(rec[|rec| - 1])
    ensures l != Blank
    ensures l.Setting? ==> '=' in l.recOrig && |l.val| > 0 && '=' !in l.par
    ensures l.Setting? ==> l.par + "=" + l.val == RemoveSpaces(l.recOrig)
    ensures l.Setting? ==> !HasSubstring(l.val, ",,") && l.val[0] != ',' && l.val[|l.val| - 1] != ','
  {
    if '=' !in rec then Malformed(NoEquals, rec)
    else if rec[|rec| - 1] == '=' then Malformed(NoValue, rec)
    else SettingSyntax(rec)
  }

  /** A line with an `=` and something after it: the name is the text before the first `=`, the
      value the text after it, both with all whitespace removed. */
  function SettingSyntax(rec: string): (l: Line)
    requires '=' in rec && !IsSpace(rec[|rec| - 1]) && rec[|rec| - 1] != '='
    ensures l != Blank
    ensures l.Setting? ==> '=' in l.recOrig && |l.val| > 0 && '=' !in l.par
    ensures l.Setting? ==> l.par + "=" + l.val == RemoveSpaces(l.recOrig)
    ensures l.Setting? ==> !HasSubstring(l.val, ",,") && l.val[0] != ',' && l.val[|l.val| - 1] != ','
  {
    CutAtEquals(rec);
    var t := RemoveSpaces(rec);
    var p := IndexOf(t, '=');
    ValueSyntax(t[..p], t[p + 1..], rec)
  }

  /** With the whitespace gone, the first `=` splits the line into a name and a non-empty value. */
  lemma CutAtEquals(rec: string)
    requires '=' in rec && !IsSpace(rec[|rec| - 1]) && rec[|rec| - 1] != '='
    ensures '=' in RemoveSpaces(rec) && IndexOf(RemoveSpaces(rec), '=') + 1 < |RemoveSpaces(rec)|
    ensures RemoveSpaces(rec) == RemoveSpaces(rec)[..IndexOf(RemoveSpaces(rec), '=')] + "=" + RemoveSpaces(rec)[IndexOf(RemoveSpaces(rec), '=') + 1..]
  {
    var t := RemoveSpaces(rec);
    RemoveSpacesKeeps(rec, '=');
    RemoveSpacesLast(rec);
    var p := IndexOf(t, '=');
    CutAt(t, p);
  }

  /** The comma checks on the value of a setting. */
  function ValueSyntax(par: string, val: string, rec: string): (l: Line)
    requires |val| > 0
    ensures l != Blank
    ensures l.Setting? ==> l == Setting(par, val, rec)
    ensures l.Setting? ==> !HasSubstring(l.val, ",,") && l.val[0] != ',' && l.val[|l.val| - 1] != ','
  {
    if HasSubstring(val, ",,") then Malformed(DoubleComma, rec)
    else if val[0] == ',' || val[|val| - 1] == ',' then Malformed(EdgeComma, rec)
    else Setting(par, val, rec)
  }

  /** Every line of a file through the syntax checks. */
  function ParseLines(raws: seq<string>): (ls: seq<Line>)
    ensures |ls| == |raws|
  {
    seq(|raws|, i requires 0 <= i < |raws| => LineSyntax(raws[i]))
  }

  /** `is_exec_path_valid(rec_orig)`: the value is the text after the first `=` of the line with
      its inner spaces kept; `,` names no program, otherwise the program is the text before the
      first comma and must be a file in the program directory (`programExists`). The second
      component is the value stored. A line without `=` makes the unpacking raise. */
  function ExecPathValid(recOrig: string, programExists: string -> bool): (r: (Verdict, string))
    ensures r.0 == Crashed <==> '=' !in recOrig
    ensures r.0 != Crashed ==> r.1 == recOrig[IndexOf(recOrig, '=') + 1..]
  {
    if '=' !in recOrig then (Crashed, "")
    else
      var val := recOrig[IndexOf(recOrig, '=') + 1..];
      if val == "," then (Accepted, val)
      else
        var pgm := if ',' !in val then val else Split(val, ',')[0];
        if programExists(pgm) then (Accepted, val) else (Rejected(NoProgram, pgm), val)
  }

  const WeekdayPrefix: string := "set_indoor_temp_weekday_"

  /** The parameter whose value `is_hr_hr_valid` checks. */
  const HourSpansParameter: string := "hourly_rate_decrease_hours"

  predicate IsWeekdayParameter(par: string) { StartsWith(par, WeekdayPrefix) }

  predicate IsExecParameter(par: string)
  {
    par == "external_pgm_create_hourly_rates" || par == "external_pgm_create_forecasts"
  }

  /** The check a known parameter's value goes through, and the value stored when it passes. */
  function Validate(rules: map<string, Rule>, slots: nat, par: string, val: string, recOrig: string,
                    programExists: string -> bool, ipValid: string -> bool): (Verdict, string)
  {
    if IsWeekdayParameter(par) || par == "set_indoor_temp_hours" then (HourTempsCheck(val), val)
    else if par == HourSpansParameter then (HourSpansCheck(val, slots), val)
    else if IsExecParameter(par) then ExecPathValid(recOrig, programExists)
    else (ParValidIn(rules, par, val, ipValid), val)
  }

  /** The check of one parameter, as the loop sees it: name, value and original line to the
      verdict and the value to store. */
  type Check = (string, string, string) -> (Verdict, string)

  /** The checks the program makes, with the rules table, the size of the hour table of
      `is_hr_hr_valid` and the two probes of the system. */
  function CheckOf(rules: map<string, Rule>, slots: nat, programExists: string -> bool, ipValid: string -> bool): Check
  {
    (par, val, recOrig) => Validate(rules, slots, par, val, recOrig, programExists, ipValid)
  }

  datatype ParamError = BadLine(error: LineError) | NotAParameter | Invalid(reason: Reason) | Duplicate

  /** The run's status: all lines read, the first bad line, no file, or an exception. */
  datatype Status = Ok | Failed(error: ParamError, text: string) | MissingFile | Raised

  /** The three dictionaries of the loop: the parameters (defaults overridden), the parameters
      set by the file, and the setpoint lists by weekday number. */
  datatype Config = Config(pars: map<string, string>, used: set<string>, weekdays: map<int, string>)

  datatype Step = Going(cfg: Config) | Stopped(status: Status, cfg: Config)

  /** One `parameter = value` line: the parameter must exist and its value must pass its check. */
  function ApplySetting(check: Check, par: string, val: string, recOrig: string, cfg: Config): (r: Step)
    ensures r.Going? ==> par in cfg.pars
  {
    if par !in cfg.pars then Stopped(Failed(NotAParameter, par), cfg)
    else Admit(par, val, check(par, val, recOrig), cfg)
  }

  /** A known parameter whose check gave `checked` (the verdict and the value to store): a
      refusal or an exception stops the loop. */
  function Admit(par: string, val: string, checked: (Verdict, string), cfg: Config): (r: Step)
    requires par in cfg.pars
    ensures r.Going? <==>
      (par !in cfg.used && checked.0 == Accepted && (IsWeekdayParameter(par) ==> ParseInt(par[|WeekdayPrefix|..]).Some?))
    ensures r.Going? ==> r.cfg.pars == cfg.pars[par := checked.1] && r.cfg.used == cfg.used + {par}
    ensures r.Stopped? ==> r.cfg.pars == cfg.pars && r.cfg.used == cfg.used
  {
    if checked.0 == Crashed then Stopped(Raised, cfg)
    else if checked.0.Rejected? then Stopped(Failed(Invalid(checked.0.reason), par), cfg)
    else Record(par, val, checked.1, cfg)
  }

  /** An accepted setting: a weekday list is recorded under its day number (an exception when
      the name does not end in a number), and only then is a second setting of the same
      parameter refused. */
  function Record(par: string, val: string, stored: string, cfg: Config): (r: Step)
    requires par in cfg.pars
    ensures r.Going? <==> par !in cfg.used && (IsWeekdayParameter(par) ==> ParseInt(par[|WeekdayPrefix|..]).Some?)
    ensures r.Going? ==> r.cfg.pars == cfg.pars[par := stored] && r.cfg.used == cfg.used + {par}
    ensures r.Stopped? ==> r.cfg.pars == cfg.pars && r.cfg.used == cfg.used
  {
    if IsWeekdayParameter(par) && ParseInt(par[|WeekdayPrefix|..]).None? then Stopped(Raised, cfg)
    else
      var days := if IsWeekdayParameter(par) then cfg.weekdays[ParseInt(par[|WeekdayPrefix|..]).value := val] else cfg.weekdays;
      if par in cfg.used then Stopped(Failed(Duplicate, par), cfg.(weekdays := days))
      else Going(Config(cfg.pars[par := stored], cfg.used + {par}, days))
  }

  function ApplyLine(check: Check, l: Line, cfg: Config): Step
  {
    match l
    case Blank => Going(cfg)
    case Malformed(e, rec) => Stopped(Failed(BadLine(e), rec), cfg)
    case Setting(par, val, recOrig) => ApplySetting(check, par, val, recOrig, cfg)
  }

  /** The loop over the lines from `cfg` on: the first line that stops it decides the status. */
  function RunLines(check: Check, ls: seq<Line>, cfg: Config): (Status, Config)
  {
    if |ls| == 0 then (Ok, cfg)
    else
      match ApplyLine(check, ls[0], cfg)
      case Stopped(st, c) => (st, c)
      case Going(c) => RunLines(check, ls[1..], c)
  }

  /** `get_parameters` on the lines of the file, or `None` when there is no file, starting from
      the table of defaults and checking values against the table of rules. The program runs it
      on `DefaultConfigParameters()` and `ValidConfigParameters()`, with `SourceSlots` hours in
      the table of `is_hr_hr_valid`. */
  function ReadParameters(defaults: map<string, string>, rules: map<string, Rule>, slots: nat, file: Option<seq<string>>,
                          programExists: string -> bool, ipValid: string -> bool)
    : (Status, map<string, string>, map<int, string>)
  {
    var start := Config(defaults, {}, map[]);
    if file.None? then (MissingFile, start.pars, start.weekdays)
    else
      var (st, c) := RunLines(CheckOf(rules, slots, programExists, ipValid), ParseLines(file.value), start);
      (st, c.pars, c.weekdays)
  }

  /** `get_parameters`: the defaults, overridden line by line by the file when there is one. The
      final check of the mail parameter file is not part of this model. */
  method GetParameters(defaults: map<string, string>, rules: map<string, Rule>, slots: nat, file: Option<seq<string>>,
                       programExists: string -> bool, ipValid: string -> bool)
    returns (status: Status, pars: map<string, string>, weekdays: map<int, string>)
    ensures (status, pars, weekdays) == ReadParameters(defaults, rules, slots, file, programExists, ipValid)
  {
    var start := Config(defaults, {}, map[]);
    if file.None? {
      return MissingFile, start.pars, start.weekdays;
    }
    var cfg;
    status, cfg := ReadLines(rules, slots, ParseLines(file.value), start, programExists, ipValid);
    return status, cfg.pars, cfg.weekdays;
  }

  /** The loop of `get_parameters` over the lines, updating the three dictionaries. */
  method ReadLines(rules: map<string, Rule>, slots: nat, ls: seq<Line>, start: Config, programExists: string -> bool, ipValid: string -> bool)
    returns (status: Status, cfg: Config)
    ensures (status, cfg) == RunLines(CheckOf(rules, slots, programExists, ipValid), ls, start)
  {
    var pars, used, weekdays := start.pars, start.used, start.weekdays;
    var k := 0;
    while k < |ls|
      invariant 0 <= k <= |ls|
      invariant RunLines(CheckOf(rules, slots, programExists, ipValid), ls, start) ==
        RunLines(CheckOf(rules, slots, programExists, ipValid), ls[k..], Config(pars, used, weekdays))
      decreases |ls| - k
    {
      RunLinesNext(CheckOf(rules, slots, programExists, ipValid), ls, k, Config(pars, used, weekdays));
      match ls[k] {
        case Blank =>
        case Malformed(e, rec) =>
          return Failed(BadLine(e), rec), Config(pars, used, weekdays);
        case Setting(par, val, recOrig) =>
          var step := SettingStep(rules, slots, par, val, recOrig, Config(pars, used, weekdays), programExists, ipValid);
          if step.Stopped? {
            return step.status, step.cfg;
          }
          pars, used, weekdays := step.cfg.pars, step.cfg.used, step.cfg.weekdays;
      }
      k := k + 1;
    }
    return Ok, Config(pars, used, weekdays);
  }

  /** One step of `RunLines`, for the line at index `k`. */
  lemma RunLinesNext(check: Check, ls: seq<Line>, k: nat, cfg: Config)
    requires k < |ls|
    ensures ApplyLine(check, ls[k], cfg).Stopped? ==>
      RunLines(check, ls[k..], cfg) ==
      (ApplyLine(check, ls[k], cfg).status, ApplyLine(check, ls[k], cfg).cfg)
    ensures ApplyLine(check, ls[k], cfg).Going? ==>
      RunLines(check, ls[k..], cfg) ==
      RunLines(check, ls[k + 1..], ApplyLine(check, ls[k], cfg).cfg)
  {
    assert ls[k..][0] == ls[k] && ls[k..][1..] == ls[k + 1..];
  }

  /** The body of the loop for a `parameter = value` line. */
  method SettingStep(rules: map<string, Rule>, slots: nat, par: string, val: string, recOrig: string, cfg: Config,
                     programExists: string -> bool, ipValid: string -> bool) returns (step: Step)
    ensures step == ApplySetting(CheckOf(rules, slots, programExists, ipValid), par, val, recOrig, cfg)
  {
    if par !in cfg.pars {
      return Stopped(Failed(NotAParameter, par), cfg);
    }
    var verdict, stored := Accepted, val;
    if IsWeekdayParameter(par) || par == "set_indoor_temp_hours" {
      verdict := IsHrTempValid(val);
    } else if par == HourSpansParameter {
      verdict := IsHrHrValid(val, slots);
    } else if IsExecParameter(par) {
      var r := ExecPathValid(recOrig, programExists);
      verdict, stored := r.0, r.1;
    } else {
      verdict := ParValidIn(rules, par, val, ipValid);
    }
    assert (verdict, stored) == Validate(rules, slots, par, val, recOrig, programExists, ipValid);
    if verdict == Crashed {
      return Stopped(Raised, cfg);
    }
    if verdict.Rejected? {
      return Stopped(Failed(Invalid(verdict.reason), par), cfg);
    }
    var weekdays := cfg.weekdays;
    if IsWeekdayParameter(par) {
      var day := ParseInt(par[|WeekdayPrefix|..]);
      if day.None? {
        return Stopped(Raised, cfg);
      }
      weekdays := weekdays[day.value := val];
    }
    if par in cfg.used {
      return Stopped(Failed(Duplicate, par), cfg.(weekdays := weekdays));
    }
    return Going(Config(cfg.pars[par := stored], cfg.used + {par}, weekdays));
  }

  // ---------------------------------------------------------------------------------------
  // What the loop of get_parameters guarantees

  /** Line `i` sets parameter `p`. */
  predicate SetsAt(ls: seq<Line>, i: int, p: string)
  {
    0 <= i < |ls| && ls[i].Setting? && ls[i].par == p
  }

  /** The file sets no parameter that is not in the defaults table: the keys never change. */
  lemma {:induction false} RunKeepsKeys(check: Check, ls: seq<Line>, cfg: Config)
    ensures RunLines(check, ls, cfg).1.pars.Keys == cfg.pars.Keys
  {
    if |ls| > 0 {
      var step := ApplyLine(check, ls[0], cfg);
      if step.Going? {
        RunKeepsKeys(check, ls[1..], step.cfg);
      }
    }
  }

  /** A parameter no line names keeps the value it started with. */
  lemma {:induction false} RunKeepsUnnamed(check: Check, ls: seq<Line>, cfg: Config, p: string)
    requires p in cfg.pars && forall i :: !SetsAt(ls, i, p)
    ensures p in RunLines(check, ls, cfg).1.pars
    ensures RunLines(check, ls, cfg).1.pars[p] == cfg.pars[p]
  {
    if |ls| > 0 {
      var step := ApplyLine(check, ls[0], cfg);
      assert !SetsAt(ls, 0, p);
      if step.Going? {
        forall i ensures !SetsAt(ls[1..], i, p) {
          assert SetsAt(ls[1..], i, p) ==> SetsAt(ls, i + 1, p);
        }
        RunKeepsUnnamed(check, ls[1..], step.cfg, p);
      }
    }
  }

  /** The first line that stops the loop decides: what follows it is never read. */
  lemma {:induction false} RunStopsAtFirst(check: Check, ls: seq<Line>, more: seq<Line>, cfg: Config)
    requires RunLines(check, ls, cfg).0 != Ok
    ensures RunLines(check, ls + more, cfg) == RunLines(check, ls, cfg)
  {
    assert (ls + more)[0] == ls[0] && (ls + more)[1..] == ls[1..] + more;
    var step := ApplyLine(check, ls[0], cfg);
    if step.Going? {
      RunStopsAtFirst(check, ls[1..], more, step.cfg);
    }
  }

  /** A run that reads every line sets each parameter at most once, and none it had set before. */
  lemma {:induction false} RunOkDistinct(check: Check, ls: seq<Line>, cfg: Config)
    requires RunLines(check, ls, cfg).0 == Ok
    ensures forall i :: 0 <= i < |ls| && ls[i].Setting? ==> ls[i].par !in cfg.used
    ensures forall i, j :: 0 <= i < j < |ls| && ls[i].Setting? ==> !SetsAt(ls, j, ls[i].par)
  {
    if |ls| > 0 {
      var step := ApplyLine(check, ls[0], cfg);
      var rest := ls[1..];
      RunOkDistinct(check, rest, step.cfg);
      forall i | 0 <= i < |ls| && ls[i].Setting? ensures ls[i].par !in cfg.used {
        if i > 0 { assert ls[i] == rest[i - 1]; }
      }
      forall i, j | 0 <= i < j < |ls| && ls[i].Setting? ensures !SetsAt(ls, j, ls[i].par) {
        assert ls[j] == rest[j - 1];
        if i > 0 {
          assert ls[i] == rest[i - 1];
          assert !SetsAt(rest, j - 1, rest[i - 1].par);
        }
      }
    }
  }

  /** Line `l`, when it is a setting, passed its check and `pars` holds the value it gave. */
  predicate StoredAs(check: Check, l: Line, pars: map<string, string>)
  {
    l.Setting? ==>
      check(l.par, l.val, l.recOrig).0 == Accepted
      && l.par in pars && pars[l.par] == check(l.par, l.val, l.recOrig).1
  }

  /** A run that reads every line stores, for each setting, the value its check accepted. */
  lemma {:induction false} RunStoresAccepted(check: Check, ls: seq<Line>, cfg: Config)
    requires RunLines(check, ls, cfg).0 == Ok
    ensures forall i :: 0 <= i < |ls| ==>
      StoredAs(check, ls[i], RunLines(check, ls, cfg).1.pars)
  {
    if |ls| > 0 {
      var step := ApplyLine(check, ls[0], cfg);
      var rest := ls[1..];
      RunStoresAccepted(check, rest, step.cfg);
      StoresFirst(check, ls, cfg);
      var res := RunLines(check, ls, cfg).1.pars;
      var res1 := RunLines(check, rest, step.cfg).1.pars;
      assert res == res1;
      forall i | 0 < i < |ls| ensures StoredAs(check, ls[i], res) {
        assert ls[i] == rest[i - 1];
        assert StoredAs(check, rest[i - 1], res1);
      }
    }
  }

  /** The first line of a run that reads every line keeps the value it stored. */
  lemma StoresFirst(check: Check, ls: seq<Line>, cfg: Config)
    requires |ls| > 0 && RunLines(check, ls, cfg).0 == Ok
    ensures StoredAs(check, ls[0], RunLines(check, ls, cfg).1.pars)
  {
    if ls[0].Setting? {
      var step := ApplyLine(check, ls[0], cfg);
      var rest := ls[1..];
      RunOkDistinct(check, ls, cfg);
      forall i ensures !SetsAt(rest, i, ls[0].par) {
        if SetsAt(rest, i, ls[0].par) { assert SetsAt(ls, i + 1, ls[0].par); }
      }
      RunKeepsUnnamed(check, rest, step.cfg, ls[0].par);
    }
  }

  /** Every setting line has an `=` and a value, as the syntax checks guarantee. */
  predicate WellFormed(ls: seq<Line>)
  {
    forall i :: 0 <= i < |ls| && ls[i].Setting? ==> '=' in ls[i].recOrig && |ls[i].val| > 0
  }

  lemma ParseLinesWellFormed(raws: seq<string>)
    ensures WellFormed(ParseLines(raws))
  {
    var ls := ParseLines(raws);
    forall i | 0 <= i < |ls| && ls[i].Setting? ensures '=' in ls[i].recOrig && |ls[i].val| > 0 {
      assert ls[i] == LineSyntax(raws[i]);
    }
  }

  /** None of the checks raises on a line that passed the syntax checks, unless it is a list of
      hour ranges one of which ends past the hour table: the program path has its `=`, and an
      integer check gets a non-empty value. */
  lemma CheckNeverCrashes(rules: map<string, Rule>, slots: nat, par: string, val: string, recOrig: string,
                          programExists: string -> bool, ipValid: string -> bool)
    requires '=' in recOrig && |val| > 0
    requires par == HourSpansParameter ==> !ReachesPast(val, slots)
    ensures Validate(rules, slots, par, val, recOrig, programExists, ipValid).0 != Crashed
  {
    if IsWeekdayParameter(par) || par == "set_indoor_temp_hours" {
    } else if par == HourSpansParameter {
      HourSpansCrashPastTable(val, slots);
    }
  }

  /** Every weekday parameter of a table of defaults ends in a number. */
  predicate DayKeysParse(keys: set<string>)
  {
    forall k :: k in keys && IsWeekdayParameter(k) ==> ParseInt(k[|WeekdayPrefix|..]).Some?
  }

  /** With checks that never raise and weekday names that end in numbers, the loop never
      raises. */
  lemma {:induction false} RunNeverRaises(check: Check, ls: seq<Line>, cfg: Config)
    requires forall i :: 0 <= i < |ls| && ls[i].Setting? ==> check(ls[i].par, ls[i].val, ls[i].recOrig).0 != Crashed
    requires DayKeysParse(cfg.pars.Keys)
    ensures RunLines(check, ls, cfg).0 != Raised
  {
    if |ls| > 0 {
      var step := ApplyLine(check, ls[0], cfg);
      if step.Going? {
        forall i | 0 <= i < |ls[1..]| && ls[1..][i].Setting?
          ensures check(ls[1..][i].par, ls[1..][i].val, ls[1..][i].recOrig).0 != Crashed
        {
          assert ls[1..][i] == ls[i + 1];
        }
        RunNeverRaises(check, ls[1..], step.cfg);
      }
    }
  }

  /** Line `i` sets `hourly_rate_decrease_hours` to a list with a range past the hour table. */
  predicate SpansPastAt(ls: seq<Line>, i: int, slots: nat)
  {
    SetsAt(ls, i, HourSpansParameter) && ReachesPast(ls[i].val, slots)
  }

  /** `get_parameters` raises only on a list of hour ranges that runs past the hour table, once
      every weekday parameter of the defaults ends in a number. */
  lemma ReadParametersNeverRaise(defaults: map<string, string>, rules: map<string, Rule>, slots: nat,
                                 file: Option<seq<string>>, programExists: string -> bool, ipValid: string -> bool)
    requires DayKeysParse(defaults.Keys)
    requires file.Some? ==> forall i :: !SpansPastAt(ParseLines(file.value), i, slots)
    ensures ReadParameters(defaults, rules, slots, file, programExists, ipValid).0 != Raised
  {
    if file.Some? {
      var ls := ParseLines(file.value);
      ParseLinesWellFormed(file.value);
      forall i | 0 <= i < |ls| && ls[i].Setting?
        ensures CheckOf(rules, slots, programExists, ipValid)(ls[i].par, ls[i].val, ls[i].recOrig).0 != Crashed
      {
        assert !SpansPastAt(ls, i, slots);
        CheckNeverCrashes(rules, slots, ls[i].par, ls[i].val, ls[i].recOrig, programExists, ipValid);
      }
      RunNeverRaises(CheckOf(rules, slots, programExists, ipValid), ls, Config(defaults, {}, map[]));
    }
  }

  /** With a slot for hour 24, `get_parameters` never raises on any file once every weekday
      parameter of the defaults ends in a number. */
  lemma DaySlotsReadNeverRaises(defaults: map<string, string>, rules: map<string, Rule>, file: Option<seq<string>>,
                                programExists: string -> bool, ipValid: string -> bool)
    requires DayKeysParse(defaults.Keys)
    ensures ReadParameters(defaults, rules, DaySlots, file, programExists, ipValid).0 != Raised
  {
    if file.Some? {
      var ls := ParseLines(file.value);
      forall i ensures !SpansPastAt(ls, i, DaySlots) {
        if SetsAt(ls, i, HourSpansParameter) {
          HourSpansWithinDay(ls[i].val);
        }
      }
    }
    ReadParametersNeverRaise(defaults, rules, DaySlots, file, programExists, ipValid);
  }

  /** Characters that the syntax checks of a line leave alone. */
  predicate Plain(s: string)
  {
    forall i :: 0 <= i < |s| ==> !IsSpace(s[i]) && s[i] != '#' && s[i] != '=' && s[i] != ','
  }

  /** A line `name=value` of plain characters sets `name` to `value`. */
  lemma PlainSetting(name: string, val: string)
    requires |name| > 0 && |val| > 0 && Plain(name) && Plain(val)
    ensures LineSyntax(name + "=" + val) == Setting(name, val, name + "=" + val)
  {
    var rec := name + "=" + val;
    PlainRecord(name, val);
    StripUnchanged(rec);
    assert LineSyntax(rec) == RecordSyntax(rec);
    PlainValue(name, val);
  }

  /** The line `name=value` of plain characters has no whitespace and no `#`. */
  lemma PlainRecord(name: string, val: string)
    requires |name| > 0 && |val| > 0 && Plain(name) && Plain(val)
    ensures forall i :: 0 <= i < |name + "=" + val| ==> !IsSpace((name + "=" + val)[i]) && (name + "=" + val)[i] != '#'
    ensures |name + "=" + val| >= 3 && '#' !in name + "=" + val
  {
    var rec := name + "=" + val;
    forall i | 0 <= i < |rec| ensures !IsSpace(rec[i]) && rec[i] != '#' {
      if i < |name| { assert rec[i] == name[i]; }
      else if i > |name| { assert rec[i] == val[i - |name| - 1]; }
      else { assert rec[i] == '='; }
    }
  }

  /** The checks after the first `=` of such a line leave its name and value as they are. */
  lemma PlainValue(name: string, val: string)
    requires |name| > 0 && |val| > 0 && Plain(name) && Plain(val)
    requires forall i :: 0 <= i < |name + "=" + val| ==> !IsSpace((name + "=" + val)[i])
    ensures RecordSyntax(name + "=" + val) == Setting(name, val, name + "=" + val)
  {
    var rec := name + "=" + val;
    assert rec[|rec| - 1] == val[|val| - 1];
    Text.RemoveSpacesNone(rec);
    IndexOfAfter(name, val, '=');
    assert rec[..|name|] == name && rec[|name| + 1..] == val;
    NoCommaNoPair(val);
  }

  /** A text without a comma has no `,,` in it. */
  lemma {:induction false} NoCommaNoPair(s: string)
    requires forall i :: 0 <= i < |s| ==> s[i] != ','
    ensures !HasSubstring(s, ",,")
    decreases |s|
  {
    if |s| >= 2 {
      assert s[0] != ',';
      NoCommaNoPair(s[1..]);
    }
  }

  /** A file whose one line sets `hourly_rate_decrease_hours` to a single range that makes
      `is_hr_hr_valid` raise makes `get_parameters` raise, whatever the other tables hold. */
  lemma ReadParametersRaiseOnSpan(defaults: map<string, string>, rules: map<string, Rule>, slots: nat, val: string,
                                  programExists: string -> bool, ipValid: string -> bool)
    requires HourSpansParameter in defaults
    requires |val| > 0 && Plain(val) && HourSpansCheck(val, slots) == Crashed
    ensures ReadParameters(defaults, rules, slots, Some([HourSpansParameter + "=" + val]),
                           programExists, ipValid).0 == Raised
  {
    HourSpansLine(val);
    HourSpansLineRaises(defaults, rules, slots, val, programExists, ipValid);
  }

  /** The line that sets the hour-range parameter to a plain value is read as that setting. */
  lemma HourSpansLine(val: string)
    requires |val| > 0 && Plain(val)
    ensures ParseLines([HourSpansParameter + "=" + val])
      == [Setting(HourSpansParameter, val, HourSpansParameter + "=" + val)]
  {
    HourSpansParameterPlain();
    PlainSetting(HourSpansParameter, val);
    OneLine(HourSpansParameter + "=" + val);
  }

  /** That setting, alone in a file, raises when its check does. */
  lemma HourSpansLineRaises(defaults: map<string, string>, rules: map<string, Rule>, slots: nat, val: string,
                            programExists: string -> bool, ipValid: string -> bool)
    requires HourSpansParameter in defaults && HourSpansCheck(val, slots) == Crashed
    ensures RunLines(CheckOf(rules, slots, programExists, ipValid),
                     [Setting(HourSpansParameter, val, HourSpansParameter + "=" + val)], Config(defaults, {}, map[])).0 == Raised
  {
    var rec := HourSpansParameter + "=" + val;
    assert CheckOf(rules, slots, programExists, ipValid)(HourSpansParameter, val, rec).0 == Crashed by {
      HourSpansParameterPlain();
      assert Validate(rules, slots, HourSpansParameter, val, rec, programExists, ipValid).0 == HourSpansCheck(val, slots);
    }
    CrashingLineRaises(CheckOf(rules, slots, programExists, ipValid),
                       Setting(HourSpansParameter, val, rec), Config(defaults, {}, map[]));
  }

  lemma OneLine(raw: string)
    ensures ParseLines([raw]) == [LineSyntax(raw)]
  {
  }

  /** A single setting line of a known parameter whose check raises makes the loop raise. */
  lemma CrashingLineRaises(check: Check, l: Line, cfg: Config)
    requires l.Setting? && l.par in cfg.pars && check(l.par, l.val, l.recOrig).0 == Crashed
    ensures RunLines(check, [l], cfg).0 == Raised
  {
  }

  /** The name of the hour-range parameter is plain, and no other check applies to it. */
  lemma HourSpansParameterPlain()
    ensures Plain(HourSpansParameter) && !IsWeekdayParameter(HourSpansParameter)
    ensures !IsExecParameter(HourSpansParameter) && HourSpansParameter != "set_indoor_temp_hours"
  {
    assert HourSpansParameter[0] != WeekdayPrefix[0];
  }

  lemma Plain2024()
    ensures Plain("20-24")
  {
    var s := "20-24";
    forall i | 0 <= i < |s| ensures !IsSpace(s[i]) && s[i] != '#' && s[i] != '=' && s[i] != ',' {
      assert s[i] == '2' || s[i] == '0' || s[i] == '-' || s[i] == '4';
    }
  }

  /** As written, the line `hourly_rate_decrease_hours=20-24` makes `get_parameters` raise. */
  lemma ReadParametersRaiseOn2024(defaults: map<string, string>, rules: map<string, Rule>,
                                  programExists: string -> bool, ipValid: string -> bool)
    requires HourSpansParameter in defaults
    ensures ReadParameters(defaults, rules, SourceSlots, Some([HourSpansParameter + "=" + "20-24"]),
                           programExists, ipValid).0 == Raised
  {
    EndHour24Crashes();
    Plain2024();
    ReadParametersRaiseOnSpan(defaults, rules, SourceSlots, "20-24", programExists, ipValid);
  }

  /** A parameter that has a default but no rule (and no check of its own) stops the run
      however it is set. */
  lemma NoRuleRefused(rules: map<string, Rule>, slots: nat, par: string, val: string, recOrig: string, cfg: Config,
                      programExists: string -> bool, ipValid: string -> bool)
    requires par in cfg.pars && par !in rules
    requires !IsWeekdayParameter(par) && !IsExecParameter(par)
    requires par != "set_indoor_temp_hours" && par != HourSpansParameter
    ensures ApplySetting(CheckOf(rules, slots, programExists, ipValid), par, val, recOrig, cfg)
      == Stopped(Failed(Invalid(UnknownParameter), par), cfg)
  {
  }

  /** `weekday` is such a parameter: it is in the defaults table but not in the rules table. */
  lemma WeekdayHasNoRule()
    ensures "weekday" in DefaultConfigParameters() && "weekday" !in ValidConfigParameters()
  {
  }
}
