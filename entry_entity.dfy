/**
 * The string-column variant of the wellness entity: mood and exercise level
 * are stored as their constant names and decoded with a fallback, and every
 * column has a default.
 */
module EntryEntity {
  import opened Models
  import EntityExtensions

  datatype WellnessEntryEntity = WellnessEntryEntity(
    id: string,
    userId: string,
    date: Date,
    mood: string,
    sleepHours: Float32,
    exerciseLevel: string,
    notes: string)

  /** The default-constructed entity: a fresh UUID key and the current time. */
  function Default(freshId: string, now: Date): (e: WellnessEntryEntity)
    requires freshId != ""
    ensures e.id == freshId && e.date == now
    ensures e.userId == "" && e.notes == "" && e.sleepHours == Zero
    ensures e.mood == "NEUTRAL" && MoodOrNeutral(e.mood) == Neutral
    ensures e.exerciseLevel == "NONE" && ExerciseLevelOrNone(e.exerciseLevel) == NoExercise
  {
    WellnessEntryEntity(freshId, "", now, Neutral.Name(), Zero, NoExercise.Name(), "")
  }

  function ToDomainModel(e: WellnessEntryEntity): (w: WellnessEntry)
    ensures w.id == e.id && w.userId == e.userId && w.date == e.date
    ensures w.sleepHours == e.sleepHours && w.notes == e.notes
    ensures IsMoodName(e.mood) ==> w.mood.Name() == e.mood
    ensures !IsMoodName(e.mood) ==> w.mood == Neutral
    ensures IsExerciseLevelName(e.exerciseLevel) ==> w.exerciseLevel.Name() == e.exerciseLevel
    ensures !IsExerciseLevelName(e.exerciseLevel) ==> w.exerciseLevel == NoExercise
  {
    WellnessEntry(e.id, e.userId, e.date, MoodOrNeutral(e.mood), e.sleepHours,
                  ExerciseLevelOrNone(e.exerciseLevel), e.notes)
  }

  function FromDomainModel(w: WellnessEntry, freshId: string): (e: WellnessEntryEntity)
    requires freshId != ""
    ensures e.id != ""
    ensures w.id != "" ==> e.id == w.id
    ensures w.id == "" ==> e.id == freshId
    ensures e.mood == w.mood.Name() && IsMoodName(e.mood)
    ensures e.exerciseLevel == w.exerciseLevel.Name() && IsExerciseLevelName(e.exerciseLevel)
    ensures e.userId == w.userId && e.date == w.date && e.sleepHours == w.sleepHours && e.notes == w.notes
  {
    WellnessEntryEntity(EntityExtensions.IdOrFresh(w.id, freshId), w.userId, w.date, w.mood.Name(),
                        w.sleepHours, w.exerciseLevel.Name(), w.notes)
  }

  /** An entry with an id survives storing and reading back. */
  lemma DomainRoundTrip(w: WellnessEntry, freshId: string)
    requires freshId != "" && w.id != ""
    ensures ToDomainModel(FromDomainModel(w, freshId)) == w
  {
    MoodNameRoundTrip(w.mood);
    ExerciseLevelNameRoundTrip(w.exerciseLevel);
  }

  /**
   * Reading a row and writing it back restores it exactly when its enum
   * columns hold constant names; otherwise the fallbacks replace them.
   */
  lemma {:induction false} RowRoundTrip(e: WellnessEntryEntity, freshId: string)
    requires freshId != "" && e.id != ""
    ensures FromDomainModel(ToDomainModel(e), freshId) == e
        <==> IsMoodName(e.mood) && IsExerciseLevelName(e.exerciseLevel)
    ensures FromDomainModel(ToDomainModel(e), freshId)
        == e.(mood := MoodOrNeutral(e.mood).Name(), exerciseLevel := ExerciseLevelOrNone(e.exerciseLevel).Name())
  {
    var back := FromDomainModel(ToDomainModel(e), freshId);
    if back == e {
      assert IsMoodName(back.mood) && IsExerciseLevelName(back.exerciseLevel);
    }
  }

  /** The default entity reads back as a neutral, no-exercise entry with no owner. */
  lemma DefaultDomainModel(freshId: string, now: Date)
    requires freshId != ""
    ensures ToDomainModel(Default(freshId, now))
         == WellnessEntry(freshId, "", now, Neutral, Zero, NoExercise, "")
  {
  }
}
