/**
 * The report screen's computations over the signed-in user's wellness
 * entries: the period a label selects, the entries inside it in date order,
 * the last (at most seven) days charted, the mood distribution in whole
 * percent, and the custom range's Apply button. Instants are milliseconds
 * since the epoch; a calendar day is `DayMs` long and days are counted from
 * the epoch.
 */
module Report {
  import opened Wrappers
  import opened Models
  import opened Sequences

  /** `1000 * 60 * 60 * 24`, which fits in a 32-bit `Int`. */
  const DayMs := 86_400_000

  const ThisWeek := "This Week"
  const LastWeek := "Last Week"
  const LastTwoWeeks := "Last 2 Weeks"
  const LastMonth := "Last Month"
  const CustomRange := "Custom Range"

  /** `Calendar.add(DAY_OF_MONTH, days)`. */
  function AddDays(t: int, days: int): int {
    t + days * DayMs
  }

  /** The calendar day an instant falls on. */
  function DayOf(t: int): int {
    t / DayMs
  }

  /** The (start, end) instants the period label selects when the clock reads `now`. */
  function Bounds(period: string, now: int, customStart: int, customEnd: int): (int, int) {
    if period == ThisWeek then (AddDays(now, -6), now)
    else if period == LastWeek then (AddDays(now, -13), AddDays(now, -7))
    else if period == LastTwoWeeks then (AddDays(now, -13), now)
    else if period == LastMonth then (AddDays(now, -30), now)
    else if period == CustomRange then (customStart, customEnd)
    else (AddDays(now, -6), now)
  }

  /**
   * The period block: one calendar, set to now and moved back day by day.
   */
  method PeriodBounds(period: string, now: int, customStart: int, customEnd: int) returns (start: int, end: int)
    ensures (start, end) == Bounds(period, now, customStart, customEnd)
  {
    var calendar := now;
    if period == ThisWeek {
      end := calendar;
      calendar := AddDays(calendar, -6);
      start := calendar;
    } else if period == LastWeek {
      calendar := AddDays(calendar, -7);
      end := calendar;
      calendar := AddDays(calendar, -6);
      start := calendar;
    } else if period == LastTwoWeeks {
      end := calendar;
      calendar := AddDays(calendar, -13);
      start := calendar;
    } else if period == LastMonth {
      end := calendar;
      calendar := AddDays(calendar, -30);
      start := calendar;
    } else if period == CustomRange {
      start, end := customStart, customEnd;
    } else {
      end := calendar;
      calendar := AddDays(calendar, -6);
      start := calendar;
    }
  }

  /**
   * In days relative to today: This Week is [t-6, t], Last Week [t-13, t-7],
   * Last 2 Weeks [t-13, t], Last Month [t-30, t], each at the current time
   * of day; any label other than the five is This Week.
   */
  lemma PeriodsInDays(now: int, customStart: int, customEnd: int, other: string)
    requires other !in {ThisWeek, LastWeek, LastTwoWeeks, LastMonth, CustomRange}
    ensures var t := DayOf(now);
      && DayOf(Bounds(ThisWeek, now, customStart, customEnd).0) == t - 6
      && DayOf(Bounds(LastWeek, now, customStart, customEnd).0) == t - 13
      && DayOf(Bounds(LastWeek, now, customStart, customEnd).1) == t - 7
      && DayOf(Bounds(LastTwoWeeks, now, customStart, customEnd).0) == t - 13
      && DayOf(Bounds(LastMonth, now, customStart, customEnd).0) == t - 30
      && Bounds(CustomRange, now, customStart, customEnd) == (customStart, customEnd)
      && Bounds(other, now, customStart, customEnd) == Bounds(ThisWeek, now, customStart, customEnd)
  {
    DayOfShift(now, -6);
    DayOfShift(now, -13);
    DayOfShift(now, -7);
    DayOfShift(now, -30);
  }

  lemma DayOfShift(t: int, days: int)
    ensures DayOf(AddDays(t, days)) == DayOf(t) + days
  {
    assert AddDays(t, days) == (t / DayMs + days) * DayMs + t % DayMs;
  }

  /** Last Week ends the day before This Week starts, and Last 2 Weeks spans both. */
  lemma WeeksTile(now: int, customStart: int, customEnd: int)
    ensures Bounds(ThisWeek, now, customStart, customEnd).0 - Bounds(LastWeek, now, customStart, customEnd).1 == DayMs
    ensures Bounds(LastTwoWeeks, now, customStart, customEnd)
         == (Bounds(LastWeek, now, customStart, customEnd).0, Bounds(ThisWeek, now, customStart, customEnd).1)
  {
  }

  function DateKey(e: WellnessEntry): int {
    e.date.time
  }

  /** `!date.before(start) && !date.after(end)`: inside the period, both ends included. */
  function Within(start: int, end: int): WellnessEntry -> bool {
    (e: WellnessEntry) => start <= e.date.time <= end
  }

  lemma FilterCounts<T>(s: seq<T>, p: T -> bool)
    ensures forall x :: multiset(Filter(s, p))[x] == if p(x) then multiset(s)[x] else 0
  {
    forall x {
      FilterCount(s, p, x);
    }
  }

  /**
   * `filteredEntries`: the entries inside the period, in ascending date
   * order, each as often as in the input.
   */
  function FilteredEntries(entries: seq<WellnessEntry>, start: int, end: int): (r: seq<WellnessEntry>)
    ensures SortedBy(r, DateKey)
    ensures forall x :: multiset(r)[x] == if start <= x.date.time <= end then multiset(entries)[x] else 0
  {
    FilterCounts(entries, Within(start, end));
    SortBy(Filter(entries, Within(start, end)), DateKey)
  }

  /** The period filter, then the entries dated `t`: all of them when `t` is inside the period, none otherwise. */
  lemma {:induction false} WithinThenDated(entries: seq<WellnessEntry>, start: int, end: int, t: int)
    ensures Filter(Filter(entries, Within(start, end)), KeyIs(DateKey, t))
         == if start <= t <= end then Filter(entries, KeyIs(DateKey, t)) else []
  {
    if |entries| != 0 {
      WithinThenDated(entries[1..], start, end, t);
      var inside, dated := Within(start, end), KeyIs(DateKey, t);
      var f, rest := Filter(entries, inside), Filter(entries[1..], inside);
      assert inside(entries[0]) == (start <= entries[0].date.time <= end);
      assert dated(entries[0]) == (entries[0].date.time == t);
      if inside(entries[0]) {
        assert f[0] == entries[0] && f[1..] == rest;
        assert Filter(f, dated) == (if dated(entries[0]) then [entries[0]] else []) + Filter(rest, dated);
      } else {
        assert f == rest;
      }
      assert Filter(entries, dated) == (if dated(entries[0]) then [entries[0]] else []) + Filter(entries[1..], dated);
      if start <= t <= end {
        assert Filter(f, dated) == Filter(entries, dated);
      } else {
        assert Filter(f, dated) == [];
      }
    }
  }

  /**
   * `sortedBy` is stable, so entries sharing a date are shown in the order
   * the repository gave them.
   */
  lemma FilteredEntriesStable(entries: seq<WellnessEntry>, start: int, end: int, t: int)
    ensures Filter(FilteredEntries(entries, start, end), KeyIs(DateKey, t))
         == if start <= t <= end then Filter(entries, KeyIs(DateKey, t)) else []
  {
    SortByStable(Filter(entries, Within(start, end)), DateKey, t);
    WithinThenDated(entries, start, end, t);
  }

  lemma FilteredEntriesMembers(entries: seq<WellnessEntry>, start: int, end: int)
    ensures forall x :: x in FilteredEntries(entries, start, end) <==> x in entries && start <= x.date.time <= end
  {
    var r := FilteredEntries(entries, start, end);
    forall x ensures x in r <==> x in entries && start <= x.date.time <= end {
      assert x in r <==> multiset(r)[x] > 0;
      assert x in entries <==> multiset(entries)[x] > 0;
    }
  }

  /**
   * The period's filter compares instants, so on the oldest charted day it
   * keeps only entries logged at or after the current time of day. An entry
   * made earlier on that day is dropped, and the chart shows that day empty.
   */
  lemma FirstDayEntryDropped()
    ensures var now := 10 * DayMs + 1000;
      var (start, end) := Bounds(ThisWeek, now, 0, 0);
      var e := WellnessEntry("a", "u", Date(4 * DayMs), Happy, Zero, Light, "");
      && SameDay(e.date.time, AddDays(end, -6))
      && FindOnDay([e], AddDays(end, -6)) == Some(e)
      && FindOnDay(FilteredEntries([e], start, end), AddDays(end, -6)) == None
  {
    var now := 10 * DayMs + 1000;
    var (start, end) := Bounds(ThisWeek, now, 0, 0);
    var e := WellnessEntry("a", "u", Date(4 * DayMs), Happy, Zero, Light, "");
    FilteredEntriesMembers([e], start, end);
    assert e !in FilteredEntries([e], start, end);
  }

  /** The period taken in whole calendar days: every entry on its first through its last day. */
  function OnDays(start: int, end: int): WellnessEntry -> bool {
    (e: WellnessEntry) => DayOf(start) <= DayOf(e.date.time) <= DayOf(end)
  }

  function FilteredEntriesByDay(entries: seq<WellnessEntry>, start: int, end: int): (r: seq<WellnessEntry>)
    ensures SortedBy(r, DateKey)
    ensures forall x :: multiset(r)[x] == if DayOf(start) <= DayOf(x.date.time) <= DayOf(end) then multiset(entries)[x] else 0
  {
    FilterCounts(entries, OnDays(start, end));
    SortBy(Filter(entries, OnDays(start, end)), DateKey)
  }

  lemma ByDayMembers(entries: seq<WellnessEntry>, start: int, end: int)
    ensures forall x :: (x in FilteredEntriesByDay(entries, start, end)
      <==> x in entries && DayOf(start) <= DayOf(x.date.time) <= DayOf(end))
  {
    var r := FilteredEntriesByDay(entries, start, end);
    forall x ensures x in r <==> x in entries && DayOf(start) <= DayOf(x.date.time) <= DayOf(end) {
      assert x in r <==> multiset(r)[x] > 0;
      assert x in entries <==> multiset(entries)[x] > 0;
    }
  }

  lemma FindOnDayNone(r: seq<WellnessEntry>, day: int)
    ensures FindOnDay(r, day).None? <==> forall x :: x in r ==> !SameDay(x.date.time, day)
  {
    if FindOnDay(r, day).Some? {
      var i :| 0 <= i < |r| && SameDay(r[i].date.time, day);
      assert r[i] in r;
    }
  }

  /** With the day-granular filter, a day of the period is charted empty exactly when no entry falls on it. */
  lemma ByDayFindsEveryDay(entries: seq<WellnessEntry>, start: int, end: int, day: int)
    requires DayOf(start) <= DayOf(day) <= DayOf(end)
    ensures FindOnDay(FilteredEntriesByDay(entries, start, end), day).None?
        <==> forall x :: x in entries ==> !SameDay(x.date.time, day)
  {
    ByDayMembers(entries, start, end);
    FindOnDayNone(FilteredEntriesByDay(entries, start, end), day);
  }

  /** Every day a fixed period charts lies within its whole days. */
  lemma FixedPeriodChartsItsDays(period: string, now: int, customStart: int, customEnd: int, k: int)
    requires period != CustomRange && 0 <= k < 7
    ensures var (start, end) := Bounds(period, now, customStart, customEnd);
      DayOf(start) <= DayOf(AddDays(end, -k)) <= DayOf(end)
  {
    var (start, end) := Bounds(period, now, customStart, customEnd);
    DayOfShift(now, -6);
    DayOfShift(now, -13);
    DayOfShift(now, -30);
    DayOfShift(now, -7);
    DayOfShift(end, -k);
  }

  /** Kotlin's `/` on integers: the quotient truncated toward zero. */
  function TruncDiv(a: int, b: int): (q: int)
    requires b > 0
    ensures a >= 0 ==> q == a / b
    ensures a < 0 ==> q == -((-a) / b)
  {
    if a >= 0 then a / b else -((-a) / b)
  }

  /** `Long.toInt()` and 32-bit `Int` arithmetic: keep the low 32 bits as a signed value. */
  function ToInt32(x: int): (r: int)
    ensures -0x8000_0000 <= r < 0x8000_0000
    ensures (r - x) % 0x1_0000_0000 == 0
    ensures -0x8000_0000 <= x < 0x8000_0000 ==> r == x
  {
    var m := x % 0x1_0000_0000;
    if m >= 0x8000_0000 then m - 0x1_0000_0000 else m
  }

  /** `daysInRange`: `((end - start) / DAY).toInt() + 1`, in 32-bit arithmetic. */
  function DaysInRange(start: int, end: int): int {
    ToInt32(ToInt32(TruncDiv(end - start, DayMs)) + 1)
  }

  /** How many days the chart shows: `repeat(minOf(daysInRange, 7))`, none when negative. */
  function ChartLength(start: int, end: int): (n: int)
    ensures 0 <= n <= 7
  {
    var displayCount := if DaysInRange(start, end) < 7 then DaysInRange(start, end) else 7;
    if displayCount < 0 then 0 else displayCount
  }

  /** An ordinary range (`start <= end`, under about five million years) charts its whole days, up to 7. */
  lemma ChartLengthOfRange(start: int, end: int)
    requires start <= end && (end - start) / DayMs < 0x7FFF_FFFF
    ensures ChartLength(start, end) == if (end - start) / DayMs + 1 < 7 then (end - start) / DayMs + 1 else 7
    ensures 1 <= ChartLength(start, end)
  {
  }

  /** Every fixed period charts seven days. */
  lemma FixedPeriodsChartAWeek(period: string, now: int, customStart: int, customEnd: int)
    requires period != CustomRange
    ensures var (start, end) := Bounds(period, now, customStart, customEnd); ChartLength(start, end) == 7
  {
    var (start, end) := Bounds(period, now, customStart, customEnd);
    ChartLengthOfRange(start, end);
  }

  /** `YEAR` and `DAY_OF_YEAR` both agree. */
  predicate SameDay(a: int, b: int) {
    DayOf(a) == DayOf(b)
  }

  /** `find`: the first entry on the same calendar day as `day`. */
  function FindOnDay(entries: seq<WellnessEntry>, day: int): (r: Option<WellnessEntry>)
    ensures r.Some? ==> exists i :: (0 <= i < |entries| && entries[i] == r.value
      && SameDay(entries[i].date.time, day) && forall j :: 0 <= j < i ==> !SameDay(entries[j].date.time, day))
    ensures r.None? <==> forall i :: 0 <= i < |entries| ==> !SameDay(entries[i].date.time, day)
  {
    if |entries| == 0 then None
    else if SameDay(entries[0].date.time, day) then Some(entries[0])
    else
      var r := FindOnDay(entries[1..], day);
      assert r.Some? ==> exists i :: (1 <= i < |entries| && entries[i] == r.value
        && SameDay(entries[i].date.time, day) && forall j :: 0 <= j < i ==> !SameDay(entries[j].date.time, day)) by {
        if r.Some? {
          var i :| 0 <= i < |entries[1..]| && entries[1..][i] == r.value
            && SameDay(entries[1..][i].date.time, day) && forall j :: 0 <= j < i ==> !SameDay(entries[1..][j].date.time, day);
          assert forall j :: 1 <= j < i + 1 ==> entries[j] == entries[1..][j - 1];
        }
      }
      r
  }

  /** A mood on the chart's 0..1 scale, in quarters. */
  function MoodQuarters(m: Mood): (q: int)
    ensures 0 <= q <= 4
    ensures q == 0 <==> m == VerySad
    ensures m == VeryHappy <==> q == 4
  {
    match m
    case VeryHappy => 4
    case Happy => 3
    case Neutral => 2
    case Sad => 1
    case VerySad => 0
  }

  /** The charted mood of a day: its entry's quarters, or 0 when the day has no entry. */
  function MoodScore(entry: Option<WellnessEntry>): (q: int)
    ensures 0 <= q <= 4
    ensures q == 0 <==> entry.None? || entry.value.mood == VerySad
  {
    if entry.Some? then MoodQuarters(entry.value.mood) else 0
  }

  /** The charted sleep of a day: its entry's hours, or 0. */
  function SleepValue(entry: Option<WellnessEntry>): (f: Float32)
    ensures entry.None? ==> f == Zero
  {
    if entry.Some? then entry.value.sleepHours else Zero
  }

  /** Moods rank the same way on the chart as in the enum. */
  lemma MoodQuartersMonotone(a: Mood, b: Mood)
    ensures MoodQuarters(a) < MoodQuarters(b) <==> MoodRank(a) < MoodRank(b)
  {
  }

  function MoodRank(m: Mood): int {
    match m
    case VerySad => 0
    case Sad => 1
    case Neutral => 2
    case Happy => 3
    case VeryHappy => 4
  }

  /**
   * The chart block: for each of the last `ChartLength` days of the period,
   * oldest first, the day and the mood and sleep of its first entry.
   */
  method ChartData(filtered: seq<WellnessEntry>, start: int, end: int)
    returns (days: seq<int>, moods: seq<int>, sleeps: seq<Float32>)
    ensures |days| == |moods| == |sleeps| == ChartLength(start, end)
    ensures forall i :: 0 <= i < |days| ==> days[i] == AddDays(end, -(|days| - 1 - i))
    ensures forall i :: 0 <= i < |days| ==>
      moods[i] == MoodScore(FindOnDay(filtered, days[i])) && sleeps[i] == SleepValue(FindOnDay(filtered, days[i]))
  {
    var daysInRange := DaysInRange(start, end);
    var displayCount := if daysInRange < 7 then daysInRange else 7;
    days, moods, sleeps := [], [], [];
    var index := 0;
    while index < displayCount
      invariant 0 <= index <= (if displayCount < 0 then 0 else displayCount)
      invariant |days| == |moods| == |sleeps| == index
      invariant forall i :: 0 <= i < index ==> days[i] == AddDays(end, -(displayCount - 1 - i))
      invariant forall i :: 0 <= i < index ==>
        moods[i] == MoodScore(FindOnDay(filtered, days[i])) && sleeps[i] == SleepValue(FindOnDay(filtered, days[i]))
    {
      var currentDate := AddDays(end, -(displayCount - 1 - index));
      days := days + [currentDate];
      var entry := FindOnDay(filtered, currentDate);
      moods := moods + [MoodScore(entry)];
      sleeps := sleeps + [SleepValue(entry)];
      index := index + 1;
    }
    assert index == ChartLength(start, end);
  }

  /** The five mood percentages, keyed by mood. */
  datatype MoodPercentages = MoodPercentages(veryHappy: int, happy: int, neutral: int, sad: int, verySad: int)
  {
    function Sum(): int {
      veryHappy + happy + neutral + sad + verySad
    }
  }

  /** The entries with mood `m`. */
  function HasMood(m: Mood): WellnessEntry -> bool {
    (e: WellnessEntry) => e.mood == m
  }

  /** `count { it.mood == m }`: the number of entries `filter { it.mood == m }` keeps. */
  function CountMood(entries: seq<WellnessEntry>, m: Mood): (c: nat)
    ensures c == |Filter(entries, HasMood(m))|
    ensures c <= |entries|
  {
    if |entries| == 0 then 0
    else (if entries[0].mood == m then 1 else 0) + CountMood(entries[1..], m)
  }

  /** Every entry has one of the five moods, so the five counts add up to the total. */
  lemma {:induction false} CountsCoverAll(entries: seq<WellnessEntry>)
    ensures CountMood(entries, VeryHappy) + CountMood(entries, Happy) + CountMood(entries, Neutral)
          + CountMood(entries, Sad) + CountMood(entries, VerySad) == |entries|
  {
    if |entries| != 0 {
      CountsCoverAll(entries[1..]);
    }
  }

  /** `count * 100 / total` in integers. */
  function Percent(count: nat, total: int): (p: int)
    requires 0 < total && count <= total
    ensures 0 <= p <= 100
    ensures p * total <= count * 100 < (p + 1) * total
  {
    var p := count * 100 / total;
    assert count * 100 == p * total + count * 100 % total;
    assert p * total <= count * 100 <= 100 * total;
    PercentBounds(p, total);
    p
  }

  lemma PercentBounds(p: int, total: int)
    requires 0 < total && p * total <= 100 * total
    ensures p <= 100
  {
  }

  /** `p` is `count` out of `total` in whole percent, rounded down. */
  ghost predicate Share(p: int, count: int, total: int) {
    p * total <= count * 100 < (p + 1) * total
  }

  /** `moodDistribution`: all zero with no entries, else each mood's share in whole percent. */
  function MoodDistribution(entries: seq<WellnessEntry>): (d: MoodPercentages)
    ensures |entries| == 0 ==> d == MoodPercentages(0, 0, 0, 0, 0)
    ensures 0 <= d.veryHappy <= 100 && 0 <= d.happy <= 100 && 0 <= d.neutral <= 100
    ensures 0 <= d.sad <= 100 && 0 <= d.verySad <= 100
    ensures |entries| != 0 ==> Share(d.veryHappy, CountMood(entries, VeryHappy), |entries|)
    ensures |entries| != 0 ==> Share(d.happy, CountMood(entries, Happy), |entries|)
    ensures |entries| != 0 ==> Share(d.neutral, CountMood(entries, Neutral), |entries|)
    ensures |entries| != 0 ==> Share(d.sad, CountMood(entries, Sad), |entries|)
    ensures |entries| != 0 ==> Share(d.verySad, CountMood(entries, VerySad), |entries|)
  {
    var total := |entries|;
    if total == 0 then MoodPercentages(0, 0, 0, 0, 0)
    else MoodPercentages(
      Percent(CountMood(entries, VeryHappy), total),
      Percent(CountMood(entries, Happy), total),
      Percent(CountMood(entries, Neutral), total),
      Percent(CountMood(entries, Sad), total),
      Percent(CountMood(entries, VerySad), total))
  }

  /** Rounding each share down loses less than one percent per mood: the total is 96 to 100. */
  lemma DistributionSum(entries: seq<WellnessEntry>)
    requires |entries| != 0
    ensures 96 <= MoodDistribution(entries).Sum() <= 100
  {
    CountsCoverAll(entries);
    var d := MoodDistribution(entries);
    ShareSum(d.veryHappy, d.happy, d.neutral, d.sad, d.verySad,
      CountMood(entries, VeryHappy), CountMood(entries, Happy), CountMood(entries, Neutral),
      CountMood(entries, Sad), CountMood(entries, VerySad), |entries|);
  }

  /** Five shares rounded down from counts that cover the total. */
  lemma ShareSum(p1: int, p2: int, p3: int, p4: int, p5: int, c1: int, c2: int, c3: int, c4: int, c5: int, total: int)
    requires 0 < total && c1 + c2 + c3 + c4 + c5 == total
    requires p1 * total <= c1 * 100 < (p1 + 1) * total
    requires p2 * total <= c2 * 100 < (p2 + 1) * total
    requires p3 * total <= c3 * 100 < (p3 + 1) * total
    requires p4 * total <= c4 * 100 < (p4 + 1) * total
    requires p5 * total <= c5 * 100 < (p5 + 1) * total
    ensures 96 <= p1 + p2 + p3 + p4 + p5 <= 100
  {
    var s := p1 + p2 + p3 + p4 + p5;
    assert s * total == p1 * total + p2 * total + p3 * total + p4 * total + p5 * total;
    assert (s + 5) * total == (p1 + 1) * total + (p2 + 1) * total + (p3 + 1) * total + (p4 + 1) * total + (p5 + 1) * total;
    PercentBounds(s, total);
    SumLowerBound(s, total);
  }

  lemma SumLowerBound(s: int, total: int)
    requires 0 < total && 100 * total < (s + 5) * total
    ensures 96 <= s
  {
  }

  /** The report screen's own state: the selected period and the custom range dialog. */
  class ReportScreenState {
    var selectedTimePeriod: string
    var customStartDate: int
    var customEndDate: int
    var showDateRangeDialog: bool

    constructor (now: int)
      ensures selectedTimePeriod == ThisWeek && customStartDate == now && customEndDate == now
      ensures !showDateRangeDialog
    {
      selectedTimePeriod := ThisWeek;
      customStartDate, customEndDate := now, now;
      showDateRangeDialog := false;
    }

    /** Apply: close the dialog; an end before the start becomes the start. */
    method ApplyCustomRange()
      modifies this
      ensures !showDateRangeDialog
      ensures selectedTimePeriod == old(selectedTimePeriod) && customStartDate == old(customStartDate)
      ensures customEndDate == if old(customEndDate) < old(customStartDate) then old(customStartDate) else old(customEndDate)
      ensures customStartDate <= customEndDate
    {
      showDateRangeDialog := false;
      if customEndDate < customStartDate {
        customEndDate := customStartDate;
      }
    }
  }

  /** After Apply, a custom range of under five million years charts at least its first day. */
  lemma AppliedRangeIsCharted(customStart: int, customEnd: int, now: int)
    requires customStart <= customEnd && (customEnd - customStart) / DayMs < 0x7FFF_FFFF
    ensures var (start, end) := Bounds(CustomRange, now, customStart, customEnd); 1 <= ChartLength(start, end)
  {
    ChartLengthOfRange(customStart, customEnd);
  }
}
