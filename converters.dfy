/**
 * The Room type converters for the enum columns: `Mood` and `ExerciseLevel`
 * are stored by constant name, and a name that is not a constant reads back
 * as the fallback (`NEUTRAL`, `NONE`) rather than failing. The date pair of
 * the same converter class is identical to `DateConverter` and is modelled
 * there.
 */
module Converters {
  import opened Wrappers
  import opened Models

  function FromMoodString(value: Option<string>): (m: Option<Mood>)
    ensures m.None? <==> value.None?
    ensures value.Some? && IsMoodName(value.value) ==> m.value.Name() == value.value
    ensures value.Some? && !IsMoodName(value.value) ==> m == Some(Neutral)
  {
    match value
    case None => None
    case Some(s) => Some(MoodOrNeutral(s))
  }

  function MoodToString(mood: Option<Mood>): (s: Option<string>)
    ensures s.None? <==> mood.None?
    ensures s.Some? ==> IsMoodName(s.value) && s.value == mood.value.Name()
  {
    match mood
    case None => None
    case Some(m) => Some(m.Name())
  }

  function FromExerciseLevelString(value: Option<string>): (l: Option<ExerciseLevel>)
    ensures l.None? <==> value.None?
    ensures value.Some? && IsExerciseLevelName(value.value) ==> l.value.Name() == value.value
    ensures value.Some? && !IsExerciseLevelName(value.value) ==> l == Some(NoExercise)
  {
    match value
    case None => None
    case Some(s) => Some(ExerciseLevelOrNone(s))
  }

  function ExerciseLevelToString(level: Option<ExerciseLevel>): (s: Option<string>)
    ensures s.None? <==> level.None?
    ensures s.Some? ==> IsExerciseLevelName(s.value) && s.value == level.value.Name()
  {
    match level
    case None => None
    case Some(l) => Some(l.Name())
  }

  /** Every mood, and null, survives a write and a read of its column. */
  lemma MoodRoundTrip(mood: Option<Mood>)
    ensures FromMoodString(MoodToString(mood)) == mood
  {
    if mood.Some? {
      MoodNameRoundTrip(mood.value);
    }
  }

  /** A non-null column value never reads back as null: unknown names become NEUTRAL. */
  lemma UnknownMoodIsNeutral(s: string)
    requires forall m: Mood :: m.Name() != s
    ensures FromMoodString(Some(s)) == Some(Neutral)
  {
  }

  lemma ExerciseLevelRoundTrip(level: Option<ExerciseLevel>)
    ensures FromExerciseLevelString(ExerciseLevelToString(level)) == level
  {
    if level.Some? {
      ExerciseLevelNameRoundTrip(level.value);
    }
  }

  lemma UnknownExerciseLevelIsNone(s: string)
    requires forall l: ExerciseLevel :: l.Name() != s
    ensures FromExerciseLevelString(Some(s)) == Some(NoExercise)
  {
  }

  /** `valueOf` is case-sensitive: a lower-case spelling is not a name. */
  lemma LowerCaseMoodIsNeutral()
    ensures FromMoodString(Some("happy")) == Some(Neutral)
  {
    assert forall m: Mood :: m.Name() != "happy";
  }
}
