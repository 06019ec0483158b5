/** The weekly summary page: the Monday-to-Sunday window selected by a week
    offset, the earnings inside it, their 7-day breakdown and total, and the
    deductions and net income computed from the settings. */
module WeeklySummary {
  import opened Records

  // ---------------------------------------------------------------------------
  // Calendar

  /** Day of the week of `d`, Monday = 0 ... Sunday = 6 (1970-01-01 was a Thursday). */
  function Weekday(d: Date): (w: int)
    ensures 0 <= w < 7
  {
    (d + 3) % 7
  }

  /** `startOfWeek(d, { weekStartsOn: 1 })`: the Monday of the week holding `d`. */
  function StartOfWeek(d: Date): (monday: Date)
    ensures Weekday(monday) == 0
    ensures monday <= d < monday + 7
  {
    d - Weekday(d)
  }

  /** A week has exactly one Monday: any Monday at most six days before `d` is `StartOfWeek(d)`. */
  lemma StartOfWeekUnique(d: Date, monday: Date)
    requires Weekday(monday) == 0 && monday <= d < monday + 7
    ensures monday == StartOfWeek(d)
  {
    var s := StartOfWeek(d);
    var k := (monday + 3) / 7;
    var j := (s + 3) / 7;
    assert monday + 3 == 7 * k;
    assert s + 3 == 7 * j;
    assert -7 < 7 * (k - j) < 7;
  }

  /** The first day of the window selected by `weekOffset`: the Monday of the
      week that holds the day `7 * weekOffset` days before `today`. */
  function WeekStart(today: Date, weekOffset: int): (monday: Date)
    ensures Weekday(monday) == 0
    ensures monday <= today - 7 * weekOffset < monday + 7
  {
    StartOfWeek(today - 7 * weekOffset)
  }

  /** Moving the offset by one moves the window by exactly seven days. */
  lemma WeekStartShift(today: Date, weekOffset: int)
    ensures WeekStart(today, weekOffset) == StartOfWeek(today) - 7 * weekOffset
  {
    var m := StartOfWeek(today) - 7 * weekOffset;
    assert Weekday(m) == 0 by {
      var k := (StartOfWeek(today) + 3) / 7;
      assert StartOfWeek(today) + 3 == 7 * k;
      assert m + 3 == 7 * (k - weekOffset);
    }
    StartOfWeekUnique(today - 7 * weekOffset, m);
  }

  /** `endOfWeek(d, { weekStartsOn: 1 })`: the Sunday closing the week holding `d`. */
  function EndOfWeek(d: Date): (sunday: Date)
    ensures Weekday(sunday) == 6
    ensures sunday - 6 <= d <= sunday
  {
    var monday := StartOfWeek(d);
    assert (monday + 3) % 7 == 0;
    assert (monday + 9) % 7 == 6 by {
      var k := (monday + 3) / 7;
      assert monday + 9 == 7 * k + 6;
    }
    monday + 6
  }

  /** The week of a Monday ends six days later. */
  lemma EndOfWeekOfMonday(monday: Date)
    requires Weekday(monday) == 0
    ensures EndOfWeek(monday) == monday + 6
  {
    StartOfWeekUnique(monday, monday);
  }

  /** `isWithinInterval(date, { start: weekStart, end: endOfWeek(weekStart) })`, written
      for the Monday `weekStart` that the page always passes: a date is inside exactly
      when it lies in the week that `weekStart` begins. */
  predicate InWindow(date: Date, weekStart: Date)
    ensures Weekday(weekStart) == 0 ==>
      (InWindow(date, weekStart) <==> weekStart <= date <= EndOfWeek(weekStart))
      && (InWindow(date, weekStart) <==> StartOfWeek(date) == weekStart)
  {
    if Weekday(weekStart) == 0 then
      EndOfWeekOfMonday(weekStart);
      if weekStart <= date <= weekStart + 6 then
        StartOfWeekUnique(date, weekStart);
        true
      else false
    else weekStart <= date <= weekStart + 6
  }

  // ---------------------------------------------------------------------------
  // Earnings of the week and their total

  /** `earnings.filter(...)`: the earnings dated inside the window, in their order. */
  function WeekEarnings(earnings: seq<Earning>, weekStart: Date): (week: seq<Earning>)
    ensures |week| <= |earnings|
    ensures forall e :: e in week <==> e in earnings && InWindow(e.date, weekStart)
  {
    if earnings == [] then []
    else if InWindow(earnings[0].date, weekStart) then [earnings[0]] + WeekEarnings(earnings[1..], weekStart)
    else WeekEarnings(earnings[1..], weekStart)
  }

  /** `reduce((sum, e) => sum + e.total_amount, 0)`, where a null total adds 0. */
  function Total(earnings: seq<Earning>): (sum: real)
    ensures (forall e :: e in earnings ==> OrZero(e.total_amount) >= 0.0) ==> sum >= 0.0
  {
    if earnings == [] then 0.0 else OrZero(earnings[0].total_amount) + Total(earnings[1..])
  }

  lemma {:induction false} TotalAppend(a: seq<Earning>, b: seq<Earning>)
    ensures Total(a + b) == Total(a) + Total(b)
  {
    if a == [] {
      assert a + b == b;
    } else {
      assert (a + b)[1..] == a[1..] + b;
      TotalAppend(a[1..], b);
    }
  }

  lemma {:induction false} WeekEarningsAppend(a: seq<Earning>, b: seq<Earning>, weekStart: Date)
    ensures WeekEarnings(a + b, weekStart) == WeekEarnings(a, weekStart) + WeekEarnings(b, weekStart)
  {
    if a == [] {
      assert a + b == b;
    } else {
      assert (a + b)[1..] == a[1..] + b;
      WeekEarningsAppend(a[1..], b, weekStart);
    }
  }

  /** The week's income: the total of the earnings inside the window. */
  function TotalIncome(earnings: seq<Earning>, weekStart: Date): (income: real)
    ensures (forall e :: e in earnings && InWindow(e.date, weekStart) ==> OrZero(e.total_amount) >= 0.0) ==> income >= 0.0
    ensures (forall e :: e in earnings ==> !InWindow(e.date, weekStart)) ==> income == 0.0
  {
    Total(WeekEarnings(earnings, weekStart))
  }

  /** Income is additive over the list of earnings... */
  lemma TotalIncomeAppend(a: seq<Earning>, b: seq<Earning>, weekStart: Date)
    ensures TotalIncome(a + b, weekStart) == TotalIncome(a, weekStart) + TotalIncome(b, weekStart)
  {
    WeekEarningsAppend(a, b, weekStart);
    TotalAppend(WeekEarnings(a, weekStart), WeekEarnings(b, weekStart));
  }

  /** ...and one earning contributes its total exactly when its date is in the window.
      Together with TotalIncomeAppend this fixes the income of every list. */
  lemma TotalIncomeSingle(e: Earning, weekStart: Date)
    ensures TotalIncome([e], weekStart) == if InWindow(e.date, weekStart) then OrZero(e.total_amount) else 0.0
  {
    assert [e][1..] == [];
    assert WeekEarnings([e], weekStart) == if InWindow(e.date, weekStart) then [e] else [];
    assert Total([e]) == OrZero(e.total_amount) + Total([]);
  }

  /** With no earning dated inside the window the income is 0. */
  lemma {:induction false} TotalIncomeEmptyWeek(earnings: seq<Earning>, weekStart: Date)
    requires forall e :: e in earnings ==> !InWindow(e.date, weekStart)
    ensures TotalIncome(earnings, weekStart) == 0.0
  {
    if earnings != [] {
      TotalIncomeEmptyWeek(earnings[1..], weekStart);
    }
  }

  // ---------------------------------------------------------------------------
  // Daily breakdown

  /** One line of the breakdown; the `displayDate` label is not modelled. */
  datatype DayEntry = DayEntry(date: Date, daily_amount: real, cash_amount: real, total_amount: real)

  /** `earnings.find(e => e.date === date)`: the first earning with that date. */
  function FirstOnDate(earnings: seq<Earning>, date: Date): (found: Option<Earning>)
    ensures found.None? <==> forall e :: e in earnings ==> e.date != date
    ensures found.Some? ==> found.value in earnings && found.value.date == date
  {
    if earnings == [] then None
    else if earnings[0].date == date then Some(earnings[0])
    else FirstOnDate(earnings[1..], date)
  }

  /** `find` returns the earliest match: the entry at `i` when none before it has the date. */
  lemma {:induction false} FirstOnDateIsEarliest(earnings: seq<Earning>, date: Date, i: nat)
    requires i < |earnings| && earnings[i].date == date
    requires forall j :: 0 <= j < i ==> earnings[j].date != date
    ensures FirstOnDate(earnings, date) == Some(earnings[i])
  {
    if i > 0 {
      FirstOnDateIsEarliest(earnings[1..], date, i - 1);
    }
  }

  /** Filtering by the window does not change which earning is found for a day of the window. */
  lemma {:induction false} FirstOnDateInWeek(earnings: seq<Earning>, weekStart: Date, date: Date)
    requires InWindow(date, weekStart)
    ensures FirstOnDate(WeekEarnings(earnings, weekStart), date) == FirstOnDate(earnings, date)
  {
    if earnings != [] {
      FirstOnDateInWeek(earnings[1..], weekStart, date);
    }
  }

  /** The breakdown line for one day: the amounts of the earning found, or zeros. */
  function DayEntryFor(weekEarnings: seq<Earning>, date: Date): (entry: DayEntry)
    ensures entry.date == date
  {
    match FirstOnDate(weekEarnings, date)
    case None => DayEntry(date, 0.0, 0.0, 0.0)
    case Some(e) => DayEntry(date, e.daily_amount, e.cash_amount, OrZero(e.total_amount))
  }

  /** `eachDayOfInterval({ start: weekStart, end: weekEnd }).map(...)`. */
  function DailyBreakdown(weekEarnings: seq<Earning>, weekStart: Date): (days: seq<DayEntry>)
    ensures |days| == 7
    ensures forall i :: 0 <= i < |days| ==> days[i].date == weekStart + i
  {
    var days := seq(7, i => DayEntryFor(weekEarnings, weekStart + i));
    assert forall i :: 0 <= i < 7 ==> days[i] == DayEntryFor(weekEarnings, weekStart + i);
    days
  }

  /** At most one earning per date, as the store's unique key on `date` ensures. */
  predicate UniqueDates(earnings: seq<Earning>)
  {
    earnings == []
    || ((forall e :: e in earnings[1..] ==> e.date != earnings[0].date) && UniqueDates(earnings[1..]))
  }

  lemma {:induction false} WeekEarningsUniqueDates(earnings: seq<Earning>, weekStart: Date)
    requires UniqueDates(earnings)
    ensures UniqueDates(WeekEarnings(earnings, weekStart))
  {
    if earnings != [] {
      WeekEarningsUniqueDates(earnings[1..], weekStart);
    }
  }

  /** Sum of the `total_amount` column of a breakdown. */
  function BreakdownTotal(days: seq<DayEntry>): (sum: real)
    ensures days == [] ==> sum == 0.0
  {
    if days == [] then 0.0 else days[0].total_amount + BreakdownTotal(days[1..])
  }

  /** Sum of the breakdown totals of the `n` days from `from` on. */
  function DaysTotal(weekEarnings: seq<Earning>, from: Date, n: nat): (sum: real)
    ensures weekEarnings == [] ==> sum == 0.0
    decreases n
  {
    if n == 0 then 0.0 else DayEntryFor(weekEarnings, from).total_amount + DaysTotal(weekEarnings, from + 1, n - 1)
  }

  lemma {:induction false} BreakdownTotalIsDaysTotal(days: seq<DayEntry>, weekEarnings: seq<Earning>, from: Date)
    requires forall i :: 0 <= i < |days| ==> days[i] == DayEntryFor(weekEarnings, from + i)
    ensures BreakdownTotal(days) == DaysTotal(weekEarnings, from, |days|)
  {
    if days != [] {
      BreakdownTotalIsDaysTotal(days[1..], weekEarnings, from + 1);
    }
  }

  /** An earning whose date no other earning has adds its total to the days that hold it. */
  lemma {:induction false} DaysTotalCons(e: Earning, rest: seq<Earning>, from: Date, n: nat)
    requires forall x :: x in rest ==> x.date != e.date
    ensures DaysTotal([e] + rest, from, n)
            == DaysTotal(rest, from, n) + if from <= e.date < from + n then OrZero(e.total_amount) else 0.0
    decreases n
  {
    if n > 0 {
      assert ([e] + rest)[1..] == rest;
      DaysTotalCons(e, rest, from + 1, n - 1);
    }
  }

  lemma {:induction false} DaysTotalIsTotal(weekEarnings: seq<Earning>, weekStart: Date)
    requires forall e :: e in weekEarnings ==> InWindow(e.date, weekStart)
    requires UniqueDates(weekEarnings)
    ensures DaysTotal(weekEarnings, weekStart, 7) == Total(weekEarnings)
  {
    if weekEarnings != [] {
      var e, rest := weekEarnings[0], weekEarnings[1..];
      assert weekEarnings == [e] + rest;
      DaysTotalIsTotal(rest, weekStart);
      DaysTotalCons(e, rest, weekStart, 7);
    }
  }

  // ---------------------------------------------------------------------------
  // Deductions and the page's result

  /** The deductions of a week: monthly settings apportioned over four weeks,
      and the platform fee in percent of the week's income. */
  datatype Calculations = Calculations(
    rentDeduction: real,
    motorcycleDeduction: real,
    taxDeduction: real,
    woltFee: real,
    netIncome: real)

  function Deductions(totalIncome: real, settings: Settings): (c: Calculations)
    ensures 4.0 * c.rentDeduction == settings.rent
    ensures 4.0 * c.motorcycleDeduction == settings.motorcycle
    ensures 4.0 * c.taxDeduction == settings.tax
    ensures 100.0 * c.woltFee == totalIncome * settings.wolt_rate
    ensures c.netIncome + c.rentDeduction + c.motorcycleDeduction + c.taxDeduction + c.woltFee == totalIncome
  {
    var rent := settings.rent / 4.0;
    var motorcycle := settings.motorcycle / 4.0;
    var tax := settings.tax / 4.0;
    var fee := totalIncome * (settings.wolt_rate / 100.0);
    Calculations(rent, motorcycle, tax, fee, totalIncome - rent - motorcycle - tax - fee)
  }

  /** The net income in closed form: what the fee leaves of the income, less a quarter
      of the monthly costs. */
  lemma DeductionsNet(income: real, s: Settings)
    ensures Deductions(income, s).netIncome
            == income * (1.0 - s.wolt_rate / 100.0) - (s.rent + s.motorcycle + s.tax) / 4.0
  {
    var c := Deductions(income, s);
    assert c.woltFee == income * (s.wolt_rate / 100.0);
    assert income * (1.0 - s.wolt_rate / 100.0) == income - income * (s.wolt_rate / 100.0);
  }

  datatype WeekData = WeekData(
    weekStart: Date,
    weekEnd: Date,
    totalIncome: real,
    dailyEarnings: seq<DayEntry>,
    calculations: Option<Calculations>)

  /** `getWeekData(weekOffset)`, with the clock's date passed in as `today`. */
  function GetWeekData(earnings: seq<Earning>, settings: Option<Settings>, today: Date, weekOffset: int): (w: WeekData)
    ensures Weekday(w.weekStart) == 0 && w.weekStart <= today - 7 * weekOffset <= w.weekEnd
    ensures Weekday(w.weekEnd) == 6 && w.weekEnd == w.weekStart + 6
    ensures |w.dailyEarnings| == 7
    ensures w.calculations.Some? <==> settings.Some?
  {
    var weekStart := WeekStart(today, weekOffset);
    EndOfWeekOfMonday(weekStart);
    var week := WeekEarnings(earnings, weekStart);
    var income := Total(week);
    var days := DailyBreakdown(week, weekStart);
    if settings.None? then WeekData(weekStart, EndOfWeek(weekStart), income, days, None)
    else WeekData(weekStart, EndOfWeek(weekStart), income, days, Some(Deductions(income, settings.value)))
  }

  /** The window is the Monday-to-Sunday week `weekOffset` weeks before the current one. */
  lemma WeekDataWindow(earnings: seq<Earning>, settings: Option<Settings>, today: Date, weekOffset: int)
    ensures var w := GetWeekData(earnings, settings, today, weekOffset);
      w.weekStart == StartOfWeek(today) - 7 * weekOffset && w.weekEnd == w.weekStart + 6
      && (weekOffset == 0 ==> w.weekStart <= today <= w.weekEnd)
  {
    WeekStartShift(today, weekOffset);
  }

  /** The income is the total of exactly the earnings dated in the window. */
  lemma WeekDataIncome(earnings: seq<Earning>, settings: Option<Settings>, today: Date, weekOffset: int)
    ensures var w := GetWeekData(earnings, settings, today, weekOffset);
      w.totalIncome == TotalIncome(earnings, w.weekStart)
      && ((forall e :: e in earnings ==> !InWindow(e.date, w.weekStart)) ==> w.totalIncome == 0.0)
  {
    var w := GetWeekData(earnings, settings, today, weekOffset);
    if forall e :: e in earnings ==> !InWindow(e.date, w.weekStart) {
      TotalIncomeEmptyWeek(earnings, w.weekStart);
    }
  }

  /** Line `i` of the breakdown is day `weekStart + i`, carrying the amounts of the first
      earning of the whole list with that date, or zeros when there is none. */
  lemma WeekDataBreakdown(earnings: seq<Earning>, settings: Option<Settings>, today: Date, weekOffset: int, i: int)
    requires 0 <= i < 7
    ensures var w := GetWeekData(earnings, settings, today, weekOffset);
      var day := w.dailyEarnings[i];
      day.date == w.weekStart + i
      && ((forall e :: e in earnings ==> e.date != day.date) ==> day == DayEntry(day.date, 0.0, 0.0, 0.0))
      && (forall k :: 0 <= k < |earnings| && earnings[k].date == day.date
                      && (forall j :: 0 <= j < k ==> earnings[j].date != day.date)
                      ==> day == DayEntry(day.date, earnings[k].daily_amount, earnings[k].cash_amount,
                                          OrZero(earnings[k].total_amount)))
  {
    var w := GetWeekData(earnings, settings, today, weekOffset);
    var date := w.weekStart + i;
    var week := WeekEarnings(earnings, w.weekStart);
    assert w.dailyEarnings == DailyBreakdown(week, w.weekStart);
    assert w.dailyEarnings[i] == DayEntryFor(week, date);
    FirstOnDateInWeek(earnings, w.weekStart, date);
    forall k | 0 <= k < |earnings| && earnings[k].date == date
               && (forall j :: 0 <= j < k ==> earnings[j].date != date)
      ensures FirstOnDate(earnings, date) == Some(earnings[k])
    {
      FirstOnDateIsEarliest(earnings, date, k);
    }
  }

  /** With at most one earning per date, the seven breakdown totals add up to the week's income. */
  lemma BreakdownSumsToIncome(earnings: seq<Earning>, settings: Option<Settings>, today: Date, weekOffset: int)
    requires UniqueDates(earnings)
    ensures var w := GetWeekData(earnings, settings, today, weekOffset);
      BreakdownTotal(w.dailyEarnings) == w.totalIncome
  {
    var w := GetWeekData(earnings, settings, today, weekOffset);
    var week := WeekEarnings(earnings, w.weekStart);
    assert w.dailyEarnings == DailyBreakdown(week, w.weekStart);
    BreakdownTotalIsDaysTotal(w.dailyEarnings, week, w.weekStart);
    WeekEarningsUniqueDates(earnings, w.weekStart);
    DaysTotalIsTotal(week, w.weekStart);
  }

  /** Without settings there are no deductions, but the income and the breakdown are
      the same as with any settings. */
  lemma WeekDataWithoutSettings(earnings: seq<Earning>, s: Settings, today: Date, weekOffset: int)
    ensures var bare := GetWeekData(earnings, None, today, weekOffset);
      var full := GetWeekData(earnings, Some(s), today, weekOffset);
      bare.calculations == None
      && bare.totalIncome == full.totalIncome && bare.dailyEarnings == full.dailyEarnings
      && bare.weekStart == full.weekStart && bare.weekEnd == full.weekEnd
  {
  }

  /** Rent, motorcycle and tax are a quarter of the monthly settings, whatever the earnings. */
  lemma FixedDeductions(earnings: seq<Earning>, s: Settings, today: Date, weekOffset: int)
    ensures var c := GetWeekData(earnings, Some(s), today, weekOffset).calculations;
      c.Some? && 4.0 * c.value.rentDeduction == s.rent
      && 4.0 * c.value.motorcycleDeduction == s.motorcycle
      && 4.0 * c.value.taxDeduction == s.tax
  {
  }

  /** With settings, the figures are the deductions of the week's income. */
  lemma WeekDataDeductions(earnings: seq<Earning>, s: Settings, today: Date, weekOffset: int)
    ensures var w := GetWeekData(earnings, Some(s), today, weekOffset);
      w.calculations == Some(Deductions(w.totalIncome, s))
  {
  }

  /** The closed form of the net income, for any week data carrying the deductions of its income. */
  lemma CalculationsNet(w: WeekData, s: Settings)
    requires w.calculations == Some(Deductions(w.totalIncome, s))
    ensures 100.0 * w.calculations.value.woltFee == w.totalIncome * s.wolt_rate
    ensures w.calculations.value.netIncome
            == w.totalIncome * (1.0 - s.wolt_rate / 100.0) - (s.rent + s.motorcycle + s.tax) / 4.0
  {
    DeductionsNet(w.totalIncome, s);
  }

  /** The fee is `wolt_rate` percent of the income, and the net income is what remains
      of the income after the fee and the three fixed deductions; it is not clamped. */
  lemma NetIncomeBalance(earnings: seq<Earning>, s: Settings, today: Date, weekOffset: int)
    ensures var w := GetWeekData(earnings, Some(s), today, weekOffset);
      var c := w.calculations.value;
      100.0 * c.woltFee == w.totalIncome * s.wolt_rate
      && c.netIncome == w.totalIncome * (1.0 - s.wolt_rate / 100.0) - (s.rent + s.motorcycle + s.tax) / 4.0
  {
    WeekDataDeductions(earnings, s, today, weekOffset);
    CalculationsNet(GetWeekData(earnings, Some(s), today, weekOffset), s);
  }

  /** A week without earnings ends at minus the fixed deductions: a loss whenever they are positive. */
  lemma EmptyWeekNetIncome(earnings: seq<Earning>, s: Settings, today: Date, weekOffset: int)
    requires forall e :: e in earnings ==> !InWindow(e.date, WeekStart(today, weekOffset))
    ensures var w := GetWeekData(earnings, Some(s), today, weekOffset);
      w.totalIncome == 0.0
      && w.calculations.value.netIncome == -(s.rent + s.motorcycle + s.tax) / 4.0
      && (s.rent + s.motorcycle + s.tax > 0.0 ==> w.calculations.value.netIncome < 0.0)
  {
    TotalIncomeEmptyWeek(earnings, WeekStart(today, weekOffset));
  }

  // ---------------------------------------------------------------------------
  // Save to history

  /** The `historical_summaries` row built by the save action; `period_label`
      (a formatted text) is not modelled. */
  datatype HistoryRecord = HistoryRecord(
    period_type: string,
    start_date: Date,
    end_date: Date,
    total_income: real,
    rent_deduction: real,
    motorcycle_deduction: real,
    tax_deduction: real,
    wolt_fee: real,
    net_income: real)

  /** `handleSaveToHistory`: nothing to save while the deductions are unknown;
      otherwise a `'week'` record of the window and the figures shown. */
  function SaveToHistory(w: WeekData): (r: Option<HistoryRecord>)
    ensures r.None? <==> w.calculations.None?
    ensures r.Some? ==>
      r.value.period_type == "week"
      && r.value.start_date == w.weekStart && r.value.end_date == w.weekEnd
      && r.value.total_income == w.totalIncome
      && r.value.rent_deduction == w.calculations.value.rentDeduction
      && r.value.motorcycle_deduction == w.calculations.value.motorcycleDeduction
      && r.value.tax_deduction == w.calculations.value.taxDeduction
      && r.value.wolt_fee == w.calculations.value.woltFee
      && r.value.net_income == w.calculations.value.netIncome
  {
    match w.calculations
    case None => None
    case Some(c) =>
      Some(HistoryRecord("week", w.weekStart, w.weekEnd, w.totalIncome,
                         c.rentDeduction, c.motorcycleDeduction, c.taxDeduction, c.woltFee, c.netIncome))
  }

  /** The record saved from week data carrying the deductions of its income balances. */
  lemma RecordBalances(w: WeekData, s: Settings)
    requires w.calculations == Some(Deductions(w.totalIncome, s))
    ensures var r := SaveToHistory(w);
      r.Some?
      && 4.0 * r.value.rent_deduction == s.rent
      && 4.0 * r.value.motorcycle_deduction == s.motorcycle
      && 4.0 * r.value.tax_deduction == s.tax
      && 100.0 * r.value.wolt_fee == r.value.total_income * s.wolt_rate
      && r.value.net_income == r.value.total_income - r.value.rent_deduction
           - r.value.motorcycle_deduction - r.value.tax_deduction - r.value.wolt_fee
  {
  }

  /** The record saved from week data with a given window, income and deductions. */
  lemma RecordOf(w: WeekData, earnings: seq<Earning>, settings: Option<Settings>, weekStart: Date)
    requires w.weekStart == weekStart && w.weekEnd == weekStart + 6
    requires w.totalIncome == TotalIncome(earnings, weekStart)
    requires w.calculations == if settings.Some? then Some(Deductions(w.totalIncome, settings.value)) else None
    ensures SaveToHistory(w).Some? <==> settings.Some?
    ensures settings.Some? ==>
      var r := SaveToHistory(w).value;
      r.start_date == weekStart && r.end_date == r.start_date + 6
      && r.total_income == TotalIncome(earnings, r.start_date)
    ensures settings.Some? ==>
      var r := SaveToHistory(w).value;
      4.0 * r.rent_deduction == settings.value.rent
      && 4.0 * r.motorcycle_deduction == settings.value.motorcycle
      && 4.0 * r.tax_deduction == settings.value.tax
      && 100.0 * r.wolt_fee == r.total_income * settings.value.wolt_rate
      && r.net_income == r.total_income - r.rent_deduction - r.motorcycle_deduction - r.tax_deduction - r.wolt_fee
  {
    if settings.Some? {
      RecordBalances(w, settings.value);
    }
  }

  /** The saved record covers the selected week and balances: its net income is its
      income less its four deductions, each as the page computed it. */
  lemma SavedRecordBalances(earnings: seq<Earning>, settings: Option<Settings>, today: Date, weekOffset: int)
    ensures SaveToHistory(GetWeekData(earnings, settings, today, weekOffset)).Some? <==> settings.Some?
    ensures settings.Some? ==>
      var r := SaveToHistory(GetWeekData(earnings, settings, today, weekOffset)).value;
      r.start_date == StartOfWeek(today) - 7 * weekOffset
      && r.end_date == r.start_date + 6
      && r.total_income == TotalIncome(earnings, r.start_date)
    ensures settings.Some? ==>
      var r := SaveToHistory(GetWeekData(earnings, settings, today, weekOffset)).value;
      4.0 * r.rent_deduction == settings.value.rent
      && 4.0 * r.motorcycle_deduction == settings.value.motorcycle
      && 4.0 * r.tax_deduction == settings.value.tax
      && 100.0 * r.wolt_fee == r.total_income * settings.value.wolt_rate
      && r.net_income == r.total_income - r.rent_deduction - r.motorcycle_deduction - r.tax_deduction - r.wolt_fee
  {
    var w := GetWeekData(earnings, settings, today, weekOffset);
    WeekDataWindow(earnings, settings, today, weekOffset);
    WeekDataIncome(earnings, settings, today, weekOffset);
    if settings.Some? {
      WeekDataDeductions(earnings, settings.value, today, weekOffset);
    }
    RecordOf(w, earnings, settings, StartOfWeek(today) - 7 * weekOffset);
  }
}
