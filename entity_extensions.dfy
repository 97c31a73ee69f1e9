/**
 * The mappers between the typed Room entity (enum columns stored through
 * `Converters`) and the domain `WellnessEntry`. `toEntity` gives an entry
 * without an id a freshly generated one; the generated UUID is the
 * parameter `freshId`, which, as every UUID string, is never empty.
 */
module EntityExtensions {
  import opened Models

  datatype WellnessEntryEntity = WellnessEntryEntity(
    id: string,
    userId: string,
    date: Date,
    mood: Mood,
    sleepHours: Float32,
    exerciseLevel: ExerciseLevel,
    notes: string)

  function ToWellnessEntry(e: WellnessEntryEntity): (w: WellnessEntry)
    ensures w.id == e.id && w.userId == e.userId && w.date == e.date
    ensures w.mood == e.mood && w.sleepHours == e.sleepHours
    ensures w.exerciseLevel == e.exerciseLevel && w.notes == e.notes
  {
    WellnessEntry(e.id, e.userId, e.date, e.mood, e.sleepHours, e.exerciseLevel, e.notes)
  }

  /** `id.ifEmpty { UUID.randomUUID().toString() }` */
  function IdOrFresh(id: string, freshId: string): (r: string)
    requires freshId != ""
    ensures r != ""
    ensures id != "" ==> r == id
    ensures id == "" ==> r == freshId
  {
    if id == "" then freshId else id
  }

  function ToEntity(w: WellnessEntry, freshId: string): (e: WellnessEntryEntity)
    requires freshId != ""
    ensures e.id != ""
    ensures w.id != "" ==> e.id == w.id
    ensures w.id == "" ==> e.id == freshId
    ensures e.userId == w.userId && e.date == w.date && e.mood == w.mood
    ensures e.sleepHours == w.sleepHours && e.exerciseLevel == w.exerciseLevel && e.notes == w.notes
  {
    WellnessEntryEntity(IdOrFresh(w.id, freshId), w.userId, w.date, w.mood, w.sleepHours, w.exerciseLevel, w.notes)
  }

  /** An entry that already has an id is stored and read back unchanged. */
  lemma EntryRoundTrip(w: WellnessEntry, freshId: string)
    requires freshId != "" && w.id != ""
    ensures ToWellnessEntry(ToEntity(w, freshId)) == w
  {
  }

  /** An entry without an id reads back as itself under its new, non-empty id. */
  lemma FreshIdRoundTrip(w: WellnessEntry, freshId: string)
    requires freshId != "" && w.id == ""
    ensures ToWellnessEntry(ToEntity(w, freshId)) == w.(id := freshId)
  {
  }

  /** Every stored row has a non-empty key, so it maps back to itself. */
  lemma EntityRoundTrip(e: WellnessEntryEntity, freshId: string)
    requires freshId != "" && e.id != ""
    ensures ToEntity(ToWellnessEntry(e), freshId) == e
  {
  }
}
