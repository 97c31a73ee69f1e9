/**
 * The in-memory repository used by the UI-only screens: a list of wellness
 * entries changed in place and republished, as a snapshot, to its LiveData
 * after each effective change. It starts with one generated entry per day of
 * the past week.
 */
module MockRepo {
  import opened Models
  import opened Sequences
  import opened Text
  import opened Report

  /**
   * What one round of mock generation draws: the clock reading `Date()`, the
   * random UUID, the two `random()` rolls, the random sleep hours and the
   * coin that decides whether the entry gets a note.
   */
  datatype MockDraw = MockDraw(
    clock: int,
    id: string,
    moodRoll: int,
    levelRoll: int,
    sleepHours: Float32,
    withNote: bool)

  /** The mood a roll of `(0..4).random()` picks; anything else falls to Very Happy. */
  function MoodOfRoll(roll: int): (m: Mood)
    ensures 0 <= roll <= 4 ==> MoodRank(m) == roll
  {
    if roll == 0 then VerySad
    else if roll == 1 then Sad
    else if roll == 2 then Neutral
    else if roll == 3 then Happy
    else VeryHappy
  }

  /** The level a roll of `(0..3).random()` picks; anything else falls to Intense. */
  function LevelOfRoll(roll: int): (l: ExerciseLevel)
    ensures roll == 0 <==> l == NoExercise
    ensures roll == 1 <==> l == Light
    ensures roll == 2 <==> l == Moderate
    ensures roll < 0 || roll >= 3 <==> l == Intense
  {
    if roll == 0 then NoExercise
    else if roll == 1 then Light
    else if roll == 2 then Moderate
    else Intense
  }

  /** The entry generated for `daysAgo` days before the draw's clock reading. */
  function MockEntry(daysAgo: nat, draw: MockDraw): (e: WellnessEntry)
    ensures e.id == draw.id && e.userId == "" && e.sleepHours == draw.sleepHours
    ensures DayOf(e.date.time) == DayOf(draw.clock) - daysAgo
    ensures e.date.time % DayMs == draw.clock % DayMs
    ensures e.notes == "" <==> !draw.withNote
  {
    DayOfShift(draw.clock, -(daysAgo as int));
    WellnessEntry(
      draw.id,
      "",
      Date(AddDays(draw.clock, -(daysAgo as int))),
      MoodOfRoll(draw.moodRoll),
      draw.sleepHours,
      LevelOfRoll(draw.levelRoll),
      if draw.withNote then "Mock note for day " + NatString(daysAgo + 1) else "")
  }

  /** The seven generated entries, oldest first: the k-th is `6 - k` days back. */
  function MockWeek(draws: seq<MockDraw>): (w: seq<WellnessEntry>)
    requires |draws| == 7
    ensures |w| == 7
    ensures forall k :: 0 <= k < 7 ==> w[k] == MockEntry(6 - k, draws[k])
  {
    seq(7, k requires 0 <= k < 7 => MockEntry(6 - k, draws[k]))
  }

  /** Two instants on the same calendar day are less than a day apart. */
  lemma SameDayClose(a: int, b: int)
    requires DayOf(a) == DayOf(b)
    ensures a - b < DayMs
  {
    assert a == DayOf(a) * DayMs + a % DayMs;
    assert b == DayOf(b) * DayMs + b % DayMs;
  }

  /**
   * Each round reads the clock afresh, so the readings only move forward.
   * When they and the report's later reading `now` all fall on one day, the
   * week holds one entry per day from six days back to today, in date order.
   * The six newest fall inside the This Week period of `now`; the oldest is
   * dated six days before its own reading, so it is inside only when that
   * reading is `now` itself.
   */
  lemma MockWeekCoversThisWeek(draws: seq<MockDraw>, now: int)
    requires |draws| == 7
    requires forall j, k :: 0 <= j < k < 7 ==> draws[j].clock <= draws[k].clock
    requires forall k :: 0 <= k < 7 ==> DayOf(draws[k].clock) == DayOf(now)
    requires draws[6].clock <= now
    ensures forall k :: 0 <= k < 7 ==> DayOf(MockWeek(draws)[k].date.time) == DayOf(now) - 6 + k
    ensures forall j, k :: 0 <= j < k < 7 ==> MockWeek(draws)[j].date.time < MockWeek(draws)[k].date.time
    ensures forall k :: 1 <= k < 7 ==>
      Bounds(ThisWeek, now, 0, 0).0 <= MockWeek(draws)[k].date.time <= Bounds(ThisWeek, now, 0, 0).1
    ensures Bounds(ThisWeek, now, 0, 0).0 <= MockWeek(draws)[0].date.time <= Bounds(ThisWeek, now, 0, 0).1
      <==> draws[0].clock >= now
  {
    var w := MockWeek(draws);
    forall k | 0 <= k < 7 ensures w[k].date.time == AddDays(draws[k].clock, -(6 - k)) {
    }
    forall k | 0 <= k < 7 ensures now - draws[k].clock < DayMs && draws[k].clock <= now {
      SameDayClose(now, draws[k].clock);
    }
  }

  /** `indexOfFirst { it.id == id }`: the first position holding that id, or -1. */
  function IndexOfFirst(entries: seq<WellnessEntry>, id: string): (i: int)
    ensures -1 <= i < |entries|
    ensures i == -1 <==> forall j :: 0 <= j < |entries| ==> entries[j].id != id
    ensures i != -1 ==> entries[i].id == id && forall j :: 0 <= j < i ==> entries[j].id != id
  {
    if |entries| == 0 then -1
    else if entries[0].id == id then 0
    else
      var i := IndexOfFirst(entries[1..], id);
      assert forall j :: 1 <= j < |entries| ==> entries[j] == entries[1..][j - 1];
      if i == -1 then -1 else i + 1
  }

  function HasOtherId(id: string): WellnessEntry -> bool {
    (e: WellnessEntry) => e.id != id
  }

  /** `removeIf { it.id == id }`: the entries without that id, in their order. */
  function RemoveId(entries: seq<WellnessEntry>, id: string): (r: seq<WellnessEntry>)
    ensures forall x :: multiset(r)[x] == if x.id == id then 0 else multiset(entries)[x]
    ensures forall x :: x in r <==> x in entries && x.id != id
  {
    forall x ensures multiset(Filter(entries, HasOtherId(id)))[x] == if x.id == id then 0 else multiset(entries)[x] {
      FilterCount(entries, HasOtherId(id), x);
    }
    FilterMembers(entries, HasOtherId(id));
    Filter(entries, HasOtherId(id))
  }

  /** Removing an id twice is removing it once. */
  lemma {:induction false} RemoveIdIdempotent(entries: seq<WellnessEntry>, id: string)
    ensures RemoveId(RemoveId(entries, id), id) == RemoveId(entries, id)
  {
    if |entries| != 0 {
      RemoveIdIdempotent(entries[1..], id);
      assert entries == [entries[0]] + entries[1..];
      FilterAppend([entries[0]], entries[1..], HasOtherId(id));
      if entries[0].id != id {
        FilterAppend([entries[0]], RemoveId(entries[1..], id), HasOtherId(id));
      }
    }
  }

  class MockRepository {
    /** The mutable list of entries. */
    var entries: seq<WellnessEntry>
    /** Every value posted to the LiveData, oldest first; its last one is what observers see. */
    var published: seq<seq<WellnessEntry>>

    /** `init`: generate the mock week, then publish it. */
    constructor (draws: seq<MockDraw>)
      requires |draws| == 7
      ensures entries == MockWeek(draws)
      ensures published == [MockWeek(draws)]
    {
      entries := [];
      published := [];
      new;
      GenerateMockData(draws);
      RefreshLiveData();
    }

    /** Append one generated entry per day, six days back first. */
    method GenerateMockData(draws: seq<MockDraw>)
      requires |draws| == 7
      modifies this
      ensures entries == old(entries) + MockWeek(draws)
      ensures published == old(published)
    {
      var w := MockWeek(draws);
      var i := 6;
      while i >= 0
        invariant -1 <= i <= 6
        invariant entries == old(entries) + w[..6 - i]
        invariant published == old(published)
      {
        var entry := MockEntry(i, draws[6 - i]);
        entries := entries + [entry];
        assert w[..6 - i] + [entry] == w[..6 - (i - 1)];
        i := i - 1;
      }
    }

    /** `postValue(entries.toList())`: publish a snapshot of the current list. */
    method RefreshLiveData()
      modifies this
      ensures entries == old(entries)
      ensures published == old(published) + [entries]
    {
      published := published + [entries];
    }

    method AddEntry(entry: WellnessEntry)
      modifies this
      ensures entries == old(entries) + [entry]
      ensures published == old(published) + [entries]
    {
      entries := entries + [entry];
      RefreshLiveData();
    }

    /** Replace the first entry with the same id and publish; with no such entry, do nothing. */
    method UpdateEntry(entry: WellnessEntry)
      modifies this
      ensures var i := IndexOfFirst(old(entries), entry.id);
        && (i == -1 ==> entries == old(entries) && published == old(published))
        && (i != -1 ==> entries == old(entries)[i := entry] && published == old(published) + [entries])
    {
      var index := IndexOfFirst(entries, entry.id);
      if index != -1 {
        entries := entries[index := entry];
        RefreshLiveData();
      }
    }

    /** Remove every entry with the same id, then publish. */
    method DeleteEntry(entry: WellnessEntry)
      modifies this
      ensures entries == RemoveId(old(entries), entry.id)
      ensures published == old(published) + [entries]
    {
      entries := RemoveId(entries, entry.id);
      RefreshLiveData();
    }

    method ClearEntries()
      modifies this
      ensures entries == []
      ensures published == old(published) + [[]]
    {
      entries := [];
      RefreshLiveData();
    }
  }
}
