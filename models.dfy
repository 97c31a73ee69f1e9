/**
 * The app's value types: the `Mood` and `ExerciseLevel` enums, the domain
 * `WellnessEntry` record, and the platform values they carry.
 */
module Models {
  import opened Wrappers

  /** A `java.util.Date`: an instant in milliseconds since the epoch. */
  datatype Date = Date(time: int)

  /** A 32-bit `Float`, carried as an opaque bit pattern; `Zero` is `0f`. */
  datatype Float32 = Float32(bits: bv32)

  const Zero: Float32 := Float32(0)

  datatype Mood = VerySad | Sad | Neutral | Happy | VeryHappy {
    /** The Kotlin constant name, `Mood.name`. */
    function Name(): string {
      match this
      case VerySad => "VERY_SAD"
      case Sad => "SAD"
      case Neutral => "NEUTRAL"
      case Happy => "HAPPY"
      case VeryHappy => "VERY_HAPPY"
    }

    /** The display label, `Mood.label`. */
    function Label(): string {
      match this
      case VerySad => "Very Sad"
      case Sad => "Sad"
      case Neutral => "Neutral"
      case Happy => "Happy"
      case VeryHappy => "Very Happy"
    }
  }

  datatype ExerciseLevel = NoExercise | Light | Moderate | Intense {
    /** The Kotlin constant name, `ExerciseLevel.name`. */
    function Name(): string {
      match this
      case NoExercise => "NONE"
      case Light => "LIGHT"
      case Moderate => "MODERATE"
      case Intense => "INTENSE"
    }
  }

  ghost predicate IsMoodName(s: string) {
    exists m: Mood :: m.Name() == s
  }

  ghost predicate IsExerciseLevelName(s: string) {
    exists l: ExerciseLevel :: l.Name() == s
  }

  /** `Mood.valueOf(s)`: the constant with that exact name, `None` where Kotlin throws. */
  function MoodValueOf(s: string): (r: Option<Mood>)
    ensures r.Some? ==> r.value.Name() == s
    ensures r.None? <==> !IsMoodName(s)
  {
    if s == "VERY_SAD" then Some(VerySad)
    else if s == "SAD" then Some(Sad)
    else if s == "NEUTRAL" then Some(Neutral)
    else if s == "HAPPY" then Some(Happy)
    else if s == "VERY_HAPPY" then Some(VeryHappy)
    else None
  }

  /** `ExerciseLevel.valueOf(s)`, `None` where Kotlin throws. */
  function ExerciseLevelValueOf(s: string): (r: Option<ExerciseLevel>)
    ensures r.Some? ==> r.value.Name() == s
    ensures r.None? <==> !IsExerciseLevelName(s)
  {
    if s == "NONE" then Some(NoExercise)
    else if s == "LIGHT" then Some(Light)
    else if s == "MODERATE" then Some(Moderate)
    else if s == "INTENSE" then Some(Intense)
    else None
  }

  /** `try { Mood.valueOf(s) } catch (...) { Mood.NEUTRAL }` */
  function MoodOrNeutral(s: string): (m: Mood)
    ensures IsMoodName(s) ==> m.Name() == s
    ensures !IsMoodName(s) ==> m == Neutral
  {
    MoodValueOf(s).GetOr(Neutral)
  }

  /** `try { ExerciseLevel.valueOf(s) } catch (...) { ExerciseLevel.NONE }` */
  function ExerciseLevelOrNone(s: string): (l: ExerciseLevel)
    ensures IsExerciseLevelName(s) ==> l.Name() == s
    ensures !IsExerciseLevelName(s) ==> l == NoExercise
  {
    ExerciseLevelValueOf(s).GetOr(NoExercise)
  }

  /** Reading a constant back by its own name gives that constant. */
  lemma MoodNameRoundTrip(m: Mood)
    ensures MoodValueOf(m.Name()) == Some(m)
  {
  }

  lemma ExerciseLevelNameRoundTrip(l: ExerciseLevel)
    ensures ExerciseLevelValueOf(l.Name()) == Some(l)
  {
  }

  /** The domain record of one day's wellness entry. */
  datatype WellnessEntry = WellnessEntry(
    id: string,
    userId: string,
    date: Date,
    mood: Mood,
    sleepHours: Float32,
    exerciseLevel: ExerciseLevel,
    notes: string)
}
