# Wellness tracker core, modelled in Dafny

This project models the data and logic core of an Android wellness-tracking
app. Users log a daily wellness entry and exercise sessions. Entries are kept
in a local Room database and uploaded to Firestore by a background job. A
report screen charts the last days of a chosen period.

The model covers these parts:

- **Sync job** (`SyncWorker`). With a signed-in user, the job uploads every
  unsynced wellness row and then every unsynced exercise row. Each row goes to
  its own collection under its decimal id. A row is marked synced only after
  its upload succeeds. If the database cannot be opened, the job asks
  WorkManager to retry. The remote store is a class whose `SaveData` answers
  from a script of outcomes.
- **DAO tables** (`Dao`). Each table is a map from primary key to row, with
  REPLACE inserts, AUTOINCREMENT ids and the counts that update and delete
  return. The unsynced, per-user and date-range SELECTs are specified by
  functions.
- **Type converters and mappers** (`DateConverter`, `Converters`, `Models`,
  `EntityExtensions`, `EntryEntity`). Enums are stored by constant name, and
  an unknown name falls back to `NEUTRAL` or `NONE`. Empty ids get a fresh
  UUID.
- **Sign-in forms** (`EmailFormat`, `AuthForms`).
  - The e-mail regular expression is written as an automaton and proved equal
    to a declarative description.
  - The password rule is modelled.
  - The register and login validation chains report the first failure.
  - The register and login screens are classes that record their effects.
- **Report screen** (`Report`): period bounds, the filtered and sorted
  entries, the chart days, the mood distribution, and the clamp applied to a
  custom range.
- **Mock repository** (`MockRepo`): an in-memory list changed in place and
  republished after each change, seeded with one generated entry per day of
  the past week.

All paths below are under `app/src/main/java/com/example/a5046a3/`. The
`Converters` class in `data/models/DatabaseModels.kt` (lines 39-84) is the
same code as `data/database/Converters.kt`. Its mappers at lines 148-173 are
the same as `data/database/EntityExtensions.kt`. One Dafny member stands for
each pair, and the table cites one copy. `data/database/dao/ExerciseDao.kt`
has the same lines and the same semantics as `WellnessDao.kt`. The generic
`Dao.Table<P>` stands for both DAOs.

## Model

| member | source | states |
|---|---|---|
| DateConverter.FromTimestamp | app/src/main/java/com/example/a5046a3/data/database/converters/DateConverter.kt:10-13 | null maps to null; otherwise the Date holds exactly that timestamp |
| DateConverter.DateToTimestamp | app/src/main/java/com/example/a5046a3/data/database/converters/DateConverter.kt:15-18 | null maps to null; otherwise the result is the date's time |
| DateConverter.TimestampRoundTrip | app/src/main/java/com/example/a5046a3/data/database/converters/DateConverter.kt:11-18 | reading a timestamp as a date and back gives it unchanged, null included |
| DateConverter.DateRoundTrip | app/src/main/java/com/example/a5046a3/data/database/converters/DateConverter.kt:11-18 | storing a date and reading it back gives the same date, null included |
| Models.MoodValueOf | app/src/main/java/com/example/a5046a3/data/models/Models.kt:8-14 | `Mood.valueOf` gives the constant whose name is the string, and fails exactly when no constant has that name |
| Models.ExerciseLevelValueOf | app/src/main/java/com/example/a5046a3/data/models/Models.kt:19-24 | `ExerciseLevel.valueOf` gives the constant with that name, and fails exactly when there is none |
| Models.MoodOrNeutral | app/src/main/java/com/example/a5046a3/data/database/entity/WellnessEntryEntity.kt:33 | a known name gives its mood; any other string gives NEUTRAL |
| Models.ExerciseLevelOrNone | app/src/main/java/com/example/a5046a3/data/database/entity/WellnessEntryEntity.kt:35 | a known name gives its level; any other string gives NONE |
| Models.MoodNameRoundTrip | app/src/main/java/com/example/a5046a3/data/models/Models.kt:8-14 | every mood reads back from its own name |
| Models.ExerciseLevelNameRoundTrip | app/src/main/java/com/example/a5046a3/data/models/Models.kt:19-24 | every exercise level reads back from its own name |
| Converters.FromMoodString | app/src/main/java/com/example/a5046a3/data/database/Converters.kt:26-34 | null stays null; a constant's name gives that mood; any other string gives NEUTRAL, never null |
| Converters.MoodToString | app/src/main/java/com/example/a5046a3/data/database/Converters.kt:37-39 | null stays null; otherwise the result is the mood's constant name |
| Converters.FromExerciseLevelString | app/src/main/java/com/example/a5046a3/data/database/Converters.kt:43-51 | null stays null; a constant's name gives that level; any other string gives NONE |
| Converters.ExerciseLevelToString | app/src/main/java/com/example/a5046a3/data/database/Converters.kt:54-56 | null stays null; otherwise the result is the level's constant name |
| Converters.MoodRoundTrip | app/src/main/java/com/example/a5046a3/data/database/Converters.kt:26-39 | storing a mood and reading it back gives the same mood, null included |
| Converters.UnknownMoodIsNeutral | app/src/main/java/com/example/a5046a3/data/database/Converters.kt:27-33 | a string that names no mood reads back as NEUTRAL |
| Converters.ExerciseLevelRoundTrip | app/src/main/java/com/example/a5046a3/data/database/Converters.kt:43-56 | storing a level and reading it back gives the same level, null included |
| Converters.UnknownExerciseLevelIsNone | app/src/main/java/com/example/a5046a3/data/database/Converters.kt:46-49 | a string that names no level reads back as NONE |
| Converters.LowerCaseMoodIsNeutral | app/src/main/java/com/example/a5046a3/data/database/Converters.kt:29-31 | names are case-sensitive: "happy" reads back as NEUTRAL |
| EntityExtensions.ToWellnessEntry | app/src/main/java/com/example/a5046a3/data/database/EntityExtensions.kt:13-23 | all seven fields are copied unchanged |
| EntityExtensions.IdOrFresh | app/src/main/java/com/example/a5046a3/data/database/EntityExtensions.kt:30 | a non-empty id is kept; an empty id becomes the fresh UUID; the result is never empty |
| EntityExtensions.ToEntity | app/src/main/java/com/example/a5046a3/data/database/EntityExtensions.kt:28-38 | the id is kept when non-empty and replaced by the fresh one when empty; the six other fields are copied |
| EntityExtensions.EntryRoundTrip | app/src/main/java/com/example/a5046a3/data/database/EntityExtensions.kt:13-37 | an entry with an id survives toEntity then toWellnessEntry unchanged |
| EntityExtensions.FreshIdRoundTrip | app/src/main/java/com/example/a5046a3/data/database/EntityExtensions.kt:13-37 | an entry without an id comes back the same except for the fresh id |
| EntityExtensions.EntityRoundTrip | app/src/main/java/com/example/a5046a3/data/database/EntityExtensions.kt:13-37 | an entity with an id survives toWellnessEntry then toEntity unchanged |
| EntryEntity.Default | app/src/main/java/com/example/a5046a3/data/database/entity/WellnessEntryEntity.kt:15-23 | the defaults are a fresh id, the current date, mood "NEUTRAL", sleep 0, level "NONE", and empty userId and notes |
| EntryEntity.ToDomainModel | app/src/main/java/com/example/a5046a3/data/database/entity/WellnessEntryEntity.kt:28-38 | plain fields are copied; a stored name decodes to its constant, and an unknown one decodes to NEUTRAL or NONE |
| EntryEntity.FromDomainModel | app/src/main/java/com/example/a5046a3/data/database/entity/WellnessEntryEntity.kt:44-54 | enums are stored by constant name; an empty id becomes the fresh UUID; a non-empty id is kept |
| EntryEntity.DomainRoundTrip | app/src/main/java/com/example/a5046a3/data/database/entity/WellnessEntryEntity.kt:28-54 | an entry with an id survives fromDomainModel then toDomainModel unchanged |
| EntryEntity.RowRoundTrip | app/src/main/java/com/example/a5046a3/data/database/entity/WellnessEntryEntity.kt:28-54 | a stored row round-trips exactly when its enum strings are constant names; otherwise they are normalised to NEUTRAL or NONE |
| EntryEntity.DefaultDomainModel | app/src/main/java/com/example/a5046a3/data/database/entity/WellnessEntryEntity.kt:17-35 | a default entity reads as a NEUTRAL, NONE entry with no user, no notes and zero sleep |
| Text.NatString | app/src/main/java/com/example/a5046a3/data/worker/DatabaseSyncWorker.kt:83 | `Long.toString()` of a natural number is one or more decimal digits |
| Text.DecimalString | app/src/main/java/com/example/a5046a3/data/worker/DatabaseSyncWorker.kt:83 | the decimal rendering starts with '-' exactly for negative ids |
| Text.NatStringInjective | app/src/main/java/com/example/a5046a3/data/worker/DatabaseSyncWorker.kt:83 | distinct natural numbers render differently |
| Text.DecimalStringInjective | app/src/main/java/com/example/a5046a3/data/worker/DatabaseSyncWorker.kt:83 | distinct ids give distinct document ids |
| Sequences.Filter | app/src/main/java/com/example/a5046a3/ui/screens/main/ReportScreen.kt:127-129 | a filter never lengthens the list |
| Sequences.FilterCount | app/src/main/java/com/example/a5046a3/ui/screens/main/ReportScreen.kt:127-129 | a filter keeps every copy of a matching element and drops every copy of the rest |
| Sequences.FilterMembers | app/src/main/java/com/example/a5046a3/data/repository/MockRepository.kt:58 | everything a filter keeps matches the predicate and comes from the input |
| Sequences.FilterAppend | app/src/main/java/com/example/a5046a3/data/repository/MockRepository.kt:58 | filtering a concatenation filters each part in order |
| Sequences.FilterSorted | app/src/main/java/com/example/a5046a3/data/database/dao/WellnessDao.kt:61-62 | filtering keeps a sorted list sorted |
| Sequences.FilterStrictlySorted | app/src/main/java/com/example/a5046a3/data/database/dao/WellnessDao.kt:69-70 | filtering keeps a list in strictly ascending key order |
| Sequences.InsertBy | app/src/main/java/com/example/a5046a3/ui/screens/main/ReportScreen.kt:130 | inserting into a sorted list keeps it sorted and adds exactly that element |
| Sequences.InsertAfterHead | app/src/main/java/com/example/a5046a3/ui/screens/main/ReportScreen.kt:130 | keeping the smaller head in front of an insertion into the tail stays sorted and adds exactly that element |
| Sequences.SortBy | app/src/main/java/com/example/a5046a3/ui/screens/main/ReportScreen.kt:130 | `sortedBy` output is sorted by the key and is a permutation of its input; its stability is Sequences.SortByStable |
| Sequences.InsertByStable | app/src/main/java/com/example/a5046a3/ui/screens/main/ReportScreen.kt:130 | the inserted element goes ahead of every element with the same key, and those keep their order |
| Sequences.SortByStable | app/src/main/java/com/example/a5046a3/ui/screens/main/ReportScreen.kt:130 | `sortedBy` is stable: for every key, the elements with that key come out in their input order |
| Dao.LeastExists | app/src/main/java/com/example/a5046a3/data/database/dao/WellnessDao.kt:69-70 | a non-empty set of keys has a least key |
| Dao.Least | app/src/main/java/com/example/a5046a3/data/database/dao/WellnessDao.kt:69-70 | the smallest key is in the set and below every other key |
| Dao.AscendingKeys | app/src/main/java/com/example/a5046a3/data/database/dao/WellnessDao.kt:69-70 | the keys of the table in strictly ascending order, each exactly once |
| Dao.RowsInKeyOrder | app/src/main/java/com/example/a5046a3/data/database/dao/WellnessDao.kt:69-70 | a table scan visits every stored row, only stored rows, in ascending key order |
| Dao.DistinctCount | app/src/main/java/com/example/a5046a3/data/database/dao/WellnessDao.kt:50-51 | a list without repeats holds each element at most once |
| Dao.ScanCount | app/src/main/java/com/example/a5046a3/data/database/dao/WellnessDao.kt:50-51 | a scan returns each stored row exactly once and nothing else |
| Dao.Unsynced | app/src/main/java/com/example/a5046a3/data/database/dao/WellnessDao.kt:69-70 | `getUnsyncedEntries` returns exactly the stored rows with isSynced false, in key order |
| Dao.AscendingUnique | app/src/main/java/com/example/a5046a3/data/database/dao/WellnessDao.kt:69-70 | two id-ascending lists with the same members are equal |
| Dao.UnsyncedUnique | app/src/main/java/com/example/a5046a3/data/database/dao/WellnessDao.kt:69-70 | any key-ordered list of exactly the unsynced rows is the query's result |
| Dao.UnsyncedEmpty | app/src/main/java/com/example/a5046a3/data/database/dao/WellnessDao.kt:69-70 | the unsynced query is empty exactly when every row is synced |
| Dao.SelectNewestFirst | app/src/main/java/com/example/a5046a3/data/database/dao/WellnessDao.kt:50-62 | a WHERE ... ORDER BY date DESC query returns each matching stored row once, by date descending |
| Dao.AllForUser | app/src/main/java/com/example/a5046a3/data/database/dao/WellnessDao.kt:50-51 | only that user's rows, each once, newest first |
| Dao.ForDateRange | app/src/main/java/com/example/a5046a3/data/database/dao/WellnessDao.kt:61-62 | only that user's rows with start ≤ date ≤ end (both ends included), each once, newest first |
| Dao.Table.constructor | app/src/main/java/com/example/a5046a3/data/database/entity/WellnessEntry.kt:11-13 | a new table is empty and its AUTOINCREMENT counter is 0 |
| Dao.Table.Insert | app/src/main/java/com/example/a5046a3/data/database/dao/WellnessDao.kt:25-26 | id 0 takes the next AUTOINCREMENT key; an existing key is replaced (REPLACE); no other row changes; the new row id is returned |
| Dao.Table.Update | app/src/main/java/com/example/a5046a3/data/database/dao/WellnessDao.kt:33-34 | the row with that key is overwritten and 1 is returned; with no such key nothing changes and 0 is returned |
| Dao.Table.Delete | app/src/main/java/com/example/a5046a3/data/database/dao/WellnessDao.kt:41-42 | the row with that primary key is removed and nothing else; returns 1 or 0 |
| Dao.Table.UpdateSyncStatus | app/src/main/java/com/example/a5046a3/data/database/dao/WellnessDao.kt:78-79 | only isSynced of that row changes; returns 1 if the id exists and 0 otherwise |
| SyncWorker.WriteLog | app/src/main/java/com/example/a5046a3/data/worker/DatabaseSyncWorker.kt:68-85 | the pass writes one document per pending row, in fetch order, keyed by collection and decimal id |
| SyncWorker.RemoteStore.constructor | app/src/main/java/com/example/a5046a3/data/repository/FirebaseRepository.kt:133-145 | the store starts with the given documents and outcome script, and no writes |
| SyncWorker.RemoteStore.SaveData | app/src/main/java/com/example/a5046a3/data/repository/FirebaseRepository.kt:133-145 | `set` creates or overwrites that document only when the call succeeds; every attempt is logged |
| SyncWorker.AppDatabase.constructor | app/src/main/java/com/example/a5046a3/data/worker/DatabaseSyncWorker.kt:28 | both tables start empty |
| SyncWorker.AcceptedIdsStep | app/src/main/java/com/example/a5046a3/data/worker/DatabaseSyncWorker.kt:87-90 | one more row marks its id exactly when its upload succeeded |
| SyncWorker.WrittenKeysStep | app/src/main/java/com/example/a5046a3/data/worker/DatabaseSyncWorker.kt:81-90 | one more row adds its document key exactly when its upload succeeded |
| SyncWorker.MarkSyncedStep | app/src/main/java/com/example/a5046a3/data/worker/DatabaseSyncWorker.kt:89 | marking one more id synced is one `updateSyncStatus(id, true)` |
| SyncWorker.DistinctKeys | app/src/main/java/com/example/a5046a3/data/worker/DatabaseSyncWorker.kt:81-85 | distinct rows of a pass write to distinct documents |
| SyncWorker.UploadedStep | app/src/main/java/com/example/a5046a3/data/worker/DatabaseSyncWorker.kt:81-93 | one more row keeps every other document untouched and holds each accepted row's document |
| SyncWorker.WriteLogStep | app/src/main/java/com/example/a5046a3/data/worker/DatabaseSyncWorker.kt:68-85 | the write log of a prefix grows by that row's key |
| SyncWorker.SyncRow | app/src/main/java/com/example/a5046a3/data/worker/DatabaseSyncWorker.kt:69-93 | one loop step: the document carries the signed-in uid and the row's fields; on success the row is marked synced and only then |
| SyncWorker.PassComplete | app/src/main/java/com/example/a5046a3/data/worker/DatabaseSyncWorker.kt:68-94 | after the last pending row, the prefix invariant is the whole pass |
| SyncWorker.SyncStep | app/src/main/java/com/example/a5046a3/data/worker/DatabaseSyncWorker.kt:68-94 | each loop step extends the pass invariant by one row; a failure only skips the row |
| SyncWorker.SyncTable | app/src/main/java/com/example/a5046a3/data/worker/DatabaseSyncWorker.kt:61-99 | unopenable database: rethrows and touches nothing; otherwise one pass over the unsynced rows in fetch order, marking exactly the accepted ones |
| SyncWorker.PassesCompose | app/src/main/java/com/example/a5046a3/data/worker/DatabaseSyncWorker.kt:41-45 | a wellness pass then an exercise pass keep each other's documents and row flags |
| SyncWorker.DropDrop | app/src/main/java/com/example/a5046a3/data/worker/DatabaseSyncWorker.kt:41-45 | the exercise pass consumes the outcomes after the wellness pass's |
| SyncWorker.DropStep | app/src/main/java/com/example/a5046a3/data/worker/DatabaseSyncWorker.kt:81-87 | the i-th call's outcome is the i-th scripted outcome |
| SyncWorker.BothPasses | app/src/main/java/com/example/a5046a3/data/worker/DatabaseSyncWorker.kt:41-45 | two passes give the combined effect of the job: wellness rows first, then exercise rows |
| SyncWorker.PassFlags | app/src/main/java/com/example/a5046a3/data/worker/DatabaseSyncWorker.kt:64-93 | a pass keeps the same keys and changes only isSynced; synced rows are untouched; a pending row ends synced exactly when its upload succeeded |
| SyncWorker.AcceptedIdsExact | app/src/main/java/com/example/a5046a3/data/worker/DatabaseSyncWorker.kt:87-90 | a pending row's id is among the accepted ids exactly when its own upload succeeded |
| SyncWorker.UntouchedStep | app/src/main/java/com/example/a5046a3/data/worker/DatabaseSyncWorker.kt:81-93 | one more write leaves every document outside the written keys as it was |
| SyncWorker.HoldsAcceptedStep | app/src/main/java/com/example/a5046a3/data/worker/DatabaseSyncWorker.kt:81-93 | one more write keeps the earlier accepted documents and adds this row's when accepted |
| SyncWorker.NextPassRetriesRejected | app/src/main/java/com/example/a5046a3/data/worker/DatabaseSyncWorker.kt:87-93 | after a pass, the unsynced rows are exactly the pending rows whose upload failed |
| SyncWorker.FullyAcceptedPassIsFinal | app/src/main/java/com/example/a5046a3/data/worker/DatabaseSyncWorker.kt:87-90 | when every upload succeeds, nothing is left unsynced |
| SyncWorker.NothingPendingNothingWritten | app/src/main/java/com/example/a5046a3/data/worker/DatabaseSyncWorker.kt:64-68 | with every row synced, the pass uploads nothing and changes nothing |
| SyncWorker.AcceptedFirstOfTwo | app/src/main/java/com/example/a5046a3/data/worker/DatabaseSyncWorker.kt:87-93 | with outcomes success then failure, only the first row's id is accepted |
| SyncWorker.PendingOfScenario | app/src/main/java/com/example/a5046a3/data/worker/DatabaseSyncWorker.kt:64 | rows 1 and 2 unsynced and 3 synced: the query returns rows 1 and 2 |
| SyncWorker.MarkedScenario | app/src/main/java/com/example/a5046a3/data/worker/DatabaseSyncWorker.kt:89 | marking id 1 flips only row 1 |
| SyncWorker.ScenarioOneAcceptedOneRejected | app/src/main/java/com/example/a5046a3/data/worker/DatabaseSyncWorker.kt:64-93 | rows 1 and 2 pending, 3 synced, outcomes success then failure: only row 1 becomes synced |
| SyncWorker.DatabaseSyncWorker.constructor | app/src/main/java/com/example/a5046a3/data/worker/DatabaseSyncWorker.kt:28 | the worker holds the given database and remote store |
| SyncWorker.DatabaseSyncWorker.SyncWellnessEntries | app/src/main/java/com/example/a5046a3/data/worker/DatabaseSyncWorker.kt:61-99 | a pass over the wellness table into "wellness_entries", under the signed-in uid |
| SyncWorker.DatabaseSyncWorker.SyncExerciseData | app/src/main/java/com/example/a5046a3/data/worker/DatabaseSyncWorker.kt:104-142 | a pass over the exercise table into "exercise_entries", under the signed-in uid |
| SyncWorker.DatabaseSyncWorker.DoWork | app/src/main/java/com/example/a5046a3/data/worker/DatabaseSyncWorker.kt:30-56 | no user: success, nothing read or written; unopenable database: retry, nothing changed; otherwise success after the wellness pass and then the exercise pass |
| EmailFormat.RunAppend | app/src/main/java/com/example/a5046a3/ui/screens/auth/RegisterScreen.kt:216 | the matcher over a concatenation runs the second part from where the first ended |
| EmailFormat.RunStays | app/src/main/java/com/example/a5046a3/ui/screens/auth/RegisterScreen.kt:216 | a state that loops on a character class stays there over a run of that class |
| EmailFormat.DeadStaysDead | app/src/main/java/com/example/a5046a3/ui/screens/auth/RegisterScreen.kt:216 | once the match has failed it stays failed |
| EmailFormat.FromTld | app/src/main/java/com/example/a5046a3/ui/screens/auth/RegisterScreen.kt:216 | from the final label, acceptance needs only lowercase letters |
| EmailFormat.FromDots | app/src/main/java/com/example/a5046a3/ui/screens/auth/RegisterScreen.kt:216 | from the dots, an accepted rest is more dots then a non-empty lowercase label |
| EmailFormat.FromDomain | app/src/main/java/com/example/a5046a3/ui/screens/auth/RegisterScreen.kt:216 | from the domain, an accepted rest splits into lowercase letters, dots and a lowercase label |
| EmailFormat.FromAfterAt | app/src/main/java/com/example/a5046a3/ui/screens/auth/RegisterScreen.kt:216 | right after the '@', an accepted rest is letters, dots, then letters |
| EmailFormat.FromLocalParts | app/src/main/java/com/example/a5046a3/ui/screens/auth/RegisterScreen.kt:216 | from the local part, an accepted rest splits at the '@' into the four parts |
| EmailFormat.EnterThenStay | app/src/main/java/com/example/a5046a3/ui/screens/auth/RegisterScreen.kt:216 | one entering character then a run of the class lands in that state |
| EmailFormat.AcceptedHasShape | app/src/main/java/com/example/a5046a3/ui/screens/auth/RegisterScreen.kt:216 | every accepted string has the four-part shape |
| EmailFormat.DomainAccepted | app/src/main/java/com/example/a5046a3/ui/screens/auth/RegisterScreen.kt:216 | a lowercase domain, dots and a lowercase label are accepted after the '@' |
| EmailFormat.ShapeIsAccepted | app/src/main/java/com/example/a5046a3/ui/screens/auth/RegisterScreen.kt:216 | every string of the four-part shape is accepted |
| EmailFormat.ValidEmailIffShape | app/src/main/java/com/example/a5046a3/ui/screens/auth/RegisterScreen.kt:215-218 | `isValidEmail` holds exactly for `[A-Za-z0-9._-]+ @ [a-z]+ \.+ [a-z]+` over the whole string |
| EmailFormat.OnlyAtOfShape | app/src/main/java/com/example/a5046a3/ui/screens/auth/RegisterScreen.kt:216 | in a string of that shape, the split point is the only '@' |
| EmailFormat.ValidEmailHasOneAt | app/src/main/java/com/example/a5046a3/ui/screens/auth/RegisterScreen.kt:216 | an accepted e-mail has exactly one '@' |
| EmailFormat.MultiLabelDomainRejected | app/src/main/java/com/example/a5046a3/ui/screens/auth/RegisterScreen.kt:216 | "x@mail.co.uk" is rejected |
| EmailFormat.UpperCaseDomainRejected | app/src/main/java/com/example/a5046a3/ui/screens/auth/RegisterScreen.kt:216 | an uppercase letter after the '@' is rejected |
| EmailFormat.DigitInDomainRejected | app/src/main/java/com/example/a5046a3/ui/screens/auth/RegisterScreen.kt:216 | a digit after the '@' is rejected |
| EmailFormat.RepeatedDotsAccepted | app/src/main/java/com/example/a5046a3/ui/screens/auth/RegisterScreen.kt:216 | "jo@mail..com" is accepted, because `\.+` allows several dots |
| EmailFormat.DotsOnlyLocalPartAccepted | app/src/main/java/com/example/a5046a3/ui/screens/auth/RegisterScreen.kt:216 | a local part of dots only is accepted |
| AuthForms.Any | app/src/main/java/com/example/a5046a3/ui/screens/auth/RegisterScreen.kt:222-223 | `any { }` is true exactly when some character satisfies the predicate |
| AuthForms.Utf16Length | app/src/main/java/com/example/a5046a3/ui/screens/auth/RegisterScreen.kt:157 | `password.length` counts UTF-16 units: between the number of characters and twice it, and equal to it exactly when no character is beyond the Basic Multilingual Plane |
| AuthForms.Utf16LengthAppend | app/src/main/java/com/example/a5046a3/ui/screens/auth/RegisterScreen.kt:157 | the UTF-16 length of a concatenation is the sum of the lengths |
| AuthForms.AstralPasswordIsLongEnough | app/src/main/java/com/example/a5046a3/ui/screens/auth/RegisterScreen.kt:157 | "😀😀a1" has four characters but length 6, so it passes the length check |
| AuthForms.IsPasswordValid | app/src/main/java/com/example/a5046a3/ui/screens/auth/RegisterScreen.kt:221-224 | true exactly when the password holds a letter and a digit |
| AuthForms.RegisterValidation | app/src/main/java/com/example/a5046a3/ui/screens/auth/RegisterScreen.kt:153-159 | reports a failing check, and no earlier check fails; reports nothing only when every check passes |
| AuthForms.ShortPasswordBeforeMismatch | app/src/main/java/com/example/a5046a3/ui/screens/auth/RegisterScreen.kt:157-158 | a valid e-mail with a mismatching password shorter than 6 UTF-16 units gets the length message |
| AuthForms.AcceptedRegistration | app/src/main/java/com/example/a5046a3/ui/screens/auth/RegisterScreen.kt:153-160 | registration proceeds exactly for a valid e-mail and a matching password of at least 6 UTF-16 units with a letter and a digit |
| AuthForms.LoginValidation | app/src/main/java/com/example/a5046a3/ui/screens/auth/LoginScreen.kt:182-185 | empty e-mail: the e-mail message whatever the password; otherwise empty password: the password message; otherwise proceed |
| AuthForms.RegisterScreen.constructor | app/src/main/java/com/example/a5046a3/ui/screens/auth/RegisterScreen.kt:28-34 | empty fields, no error, not loading, no effects |
| AuthForms.RegisterScreen.OnRegisterClick | app/src/main/java/com/example/a5046a3/ui/screens/auth/RegisterScreen.kt:148-164 | clears the error, then shows the first failure's message, or starts registering with isLoading set |
| AuthForms.RegisterScreen.OnRegisterResult | app/src/main/java/com/example/a5046a3/ui/screens/auth/RegisterScreen.kt:165-177 | loading ends; success toasts then navigates Home; failure shows the message or the fallback text |
| AuthForms.LoginScreen.constructor | app/src/main/java/com/example/a5046a3/ui/screens/auth/LoginScreen.kt:36-39 | empty fields, no error, not loading, no effects |
| AuthForms.LoginScreen.OnLoginClick | app/src/main/java/com/example/a5046a3/ui/screens/auth/LoginScreen.kt:177-188 | clears the error, then reports the first empty field, or starts login with isLoading set |
| AuthForms.LoginScreen.OnLoginResult | app/src/main/java/com/example/a5046a3/ui/screens/auth/LoginScreen.kt:189-201 | loading ends; success saves the uid, toasts, then navigates Home; failure shows the message or the fallback |
| AuthForms.ResetToast | app/src/main/java/com/example/a5046a3/ui/screens/auth/LoginScreen.kt:148-154 | the toast says the e-mail was sent exactly when `sendPasswordResetEmail` returns, whether its `Result` is a success or a failure; only a cancelled coroutine gives the failure toast |
| AuthForms.CheckedResetToast | app/src/main/java/com/example/a5046a3/auth/AuthManager.kt:63-71 | corrected toast: it says the e-mail was sent exactly when the returned `Result` is a success |
| AuthForms.RefusedResetReportsSent | app/src/main/java/com/example/a5046a3/ui/screens/auth/LoginScreen.kt:148-151 | for any e-mail and any refusal, the toast as written says the e-mail was sent, and the corrected toast does not |
| AuthForms.LoginScreen.OnForgotPassword | app/src/main/java/com/example/a5046a3/ui/screens/auth/LoginScreen.kt:146-158 | an empty e-mail sets the e-mail error and sends no reset; otherwise one reset request, then the toast ResetToast gives for how the call ended |
| Report.PeriodBounds | app/src/main/java/com/example/a5046a3/ui/screens/main/ReportScreen.kt:86-123 | the instants the label selects, moving one calendar back from now |
| Report.PeriodsInDays | app/src/main/java/com/example/a5046a3/ui/screens/main/ReportScreen.kt:86-123 | in days from today t: This Week [t-6, t], Last Week [t-13, t-7], Last 2 Weeks [t-13, t], Last Month [t-30, t], Custom the chosen pair, any other label This Week |
| Report.DayOfShift | app/src/main/java/com/example/a5046a3/ui/screens/main/ReportScreen.kt:91 | moving by k days moves the calendar day by k |
| Report.WeeksTile | app/src/main/java/com/example/a5046a3/ui/screens/main/ReportScreen.kt:89-106 | Last Week ends one day before This Week starts, and Last 2 Weeks spans both |
| Report.FilterCounts | app/src/main/java/com/example/a5046a3/ui/screens/main/ReportScreen.kt:127-129 | each element is kept as often as in the input when it matches, else not at all |
| Report.FilteredEntries | app/src/main/java/com/example/a5046a3/ui/screens/main/ReportScreen.kt:126-131 | the entries with start ≤ date ≤ end, each as often as in the input, in ascending date order |
| Report.FilteredEntriesStable | app/src/main/java/com/example/a5046a3/ui/screens/main/ReportScreen.kt:126-131 | entries sharing a date are shown in their input order: all of them when the date is inside the period, none otherwise |
| Report.FilteredEntriesMembers | app/src/main/java/com/example/a5046a3/ui/screens/main/ReportScreen.kt:127-129 | an entry is shown exactly when it is in the input and inside both ends |
| Report.FirstDayEntryDropped | app/src/main/java/com/example/a5046a3/ui/screens/main/ReportScreen.kt:127-129 | an entry logged earlier in the day than now, on the oldest charted day of This Week, is filtered out, so that day is charted empty |
| Report.FilteredEntriesByDay | app/src/main/java/com/example/a5046a3/ui/screens/main/ReportScreen.kt:127-131 | corrected filter: every entry whose calendar day is within the period, each as often as in the input, sorted by date |
| Report.ByDayMembers | app/src/main/java/com/example/a5046a3/ui/screens/main/ReportScreen.kt:127-129 | the corrected filter keeps exactly the entries on the period's days |
| Report.FindOnDayNone | app/src/main/java/com/example/a5046a3/ui/screens/main/ReportScreen.kt:152-157 | `find` fails exactly when no entry is on that day |
| Report.ByDayFindsEveryDay | app/src/main/java/com/example/a5046a3/ui/screens/main/ReportScreen.kt:152-157 | with the corrected filter, a day of the period is charted empty exactly when no entry falls on it |
| Report.FixedPeriodChartsItsDays | app/src/main/java/com/example/a5046a3/ui/screens/main/ReportScreen.kt:145-150 | each day a fixed period charts lies within that period's days |
| Report.TruncDiv | app/src/main/java/com/example/a5046a3/ui/screens/main/ReportScreen.kt:141 | Kotlin `/` truncates toward zero |
| Report.ToInt32 | app/src/main/java/com/example/a5046a3/ui/screens/main/ReportScreen.kt:141 | `toInt()` and Int `+` keep the low 32 bits, as a signed value |
| Report.ChartLength | app/src/main/java/com/example/a5046a3/ui/screens/main/ReportScreen.kt:141-145 | the chart shows between 0 and 7 days |
| Report.ChartLengthOfRange | app/src/main/java/com/example/a5046a3/ui/screens/main/ReportScreen.kt:141-145 | an ordinary range charts min(whole days + 1, 7) days, at least one |
| Report.FixedPeriodsChartAWeek | app/src/main/java/com/example/a5046a3/ui/screens/main/ReportScreen.kt:86-145 | every period except Custom charts seven days |
| Report.FindOnDay | app/src/main/java/com/example/a5046a3/ui/screens/main/ReportScreen.kt:152-157 | the first entry on the same year and day, or none exactly when no entry is on that day |
| Report.MoodQuarters | app/src/main/java/com/example/a5046a3/ui/screens/main/ReportScreen.kt:160-167 | scores rise in quarters from VERY_SAD (0) to VERY_HAPPY (4) |
| Report.MoodScore | app/src/main/java/com/example/a5046a3/ui/screens/main/ReportScreen.kt:160-168 | a day scores 0 exactly when it has no entry or a VERY_SAD one |
| Report.SleepValue | app/src/main/java/com/example/a5046a3/ui/screens/main/ReportScreen.kt:170 | a day without an entry charts sleep 0 |
| Report.MoodQuartersMonotone | app/src/main/java/com/example/a5046a3/ui/screens/main/ReportScreen.kt:160-167 | the chart ranks moods in enum order |
| Report.ChartData | app/src/main/java/com/example/a5046a3/ui/screens/main/ReportScreen.kt:134-174 | three lists of ChartLength elements: the last days up to the end, oldest first, with each day's first entry's mood and sleep |
| Report.CountMood | app/src/main/java/com/example/a5046a3/ui/screens/main/ReportScreen.kt:188-192 | a mood's count is the length of `filter { it.mood == m }` over the entries, so at most their number |
| Report.CountsCoverAll | app/src/main/java/com/example/a5046a3/ui/screens/main/ReportScreen.kt:188-192 | the five counts add up to the number of entries |
| Report.Percent | app/src/main/java/com/example/a5046a3/ui/screens/main/ReportScreen.kt:193-199 | `count * 100 / total` is in 0..100 and is the rounded-down share |
| Report.PercentBounds | app/src/main/java/com/example/a5046a3/ui/screens/main/ReportScreen.kt:193-199 | a share of at most the whole is at most 100 |
| Report.MoodDistribution | app/src/main/java/com/example/a5046a3/ui/screens/main/ReportScreen.kt:177-201 | no entries: all five are 0; otherwise each field is its own mood's count out of the total in whole percent, rounded down, in 0..100 |
| Report.DistributionSum | app/src/main/java/com/example/a5046a3/ui/screens/main/ReportScreen.kt:187-200 | with entries, the five percentages sum to 96..100 |
| Report.ShareSum | app/src/main/java/com/example/a5046a3/ui/screens/main/ReportScreen.kt:193-199 | five rounded-down shares of a whole lose less than 5 in total |
| Report.SumLowerBound | app/src/main/java/com/example/a5046a3/ui/screens/main/ReportScreen.kt:193-199 | the total of the shares is at least 96 |
| Report.ReportScreenState.constructor | app/src/main/java/com/example/a5046a3/ui/screens/main/ReportScreen.kt:57-70 | starts on This Week with both custom dates now and the dialog hidden |
| Report.ReportScreenState.ApplyCustomRange | app/src/main/java/com/example/a5046a3/ui/screens/main/ReportScreen.kt:694-698 | hides the dialog; an end before the start becomes the start; afterwards start ≤ end |
| Report.AppliedRangeIsCharted | app/src/main/java/com/example/a5046a3/ui/screens/main/ReportScreen.kt:694-698 | after Apply, a custom range charts at least one day |
| MockRepo.MoodOfRoll | app/src/main/java/com/example/a5046a3/data/repository/MockRepository.kt:92-98 | rolls 0..4 pick the moods in enum order; anything else picks VERY_HAPPY |
| MockRepo.LevelOfRoll | app/src/main/java/com/example/a5046a3/data/repository/MockRepository.kt:100-105 | 0, 1, 2 pick NONE, LIGHT, MODERATE; anything else picks INTENSE |
| MockRepo.MockEntry | app/src/main/java/com/example/a5046a3/data/repository/MockRepository.kt:86-107 | the entry is dated i days before the clock reading, at the same time of day, with no user and the drawn id and sleep; the note is empty exactly when the coin says so |
| MockRepo.MockWeek | app/src/main/java/com/example/a5046a3/data/repository/MockRepository.kt:85-110 | seven entries, the k-th generated for 6 - k days back |
| MockRepo.MockWeekCoversThisWeek | app/src/main/java/com/example/a5046a3/data/repository/MockRepository.kt:85-110 | with forward-moving readings on one day and a later report time `now`, one entry per day from six days back to today, in date order; the six newest are inside This Week, and the oldest only when its reading is `now` |
| MockRepo.IndexOfFirst | app/src/main/java/com/example/a5046a3/data/repository/MockRepository.kt:47 | the first position holding the id, or -1 exactly when none does |
| MockRepo.RemoveId | app/src/main/java/com/example/a5046a3/data/repository/MockRepository.kt:58 | `removeIf` drops every entry with the id and keeps every other entry as often as before |
| MockRepo.RemoveIdIdempotent | app/src/main/java/com/example/a5046a3/data/repository/MockRepository.kt:57-60 | deleting the same id twice is the same as deleting it once |
| MockRepo.MockRepository.constructor | app/src/main/java/com/example/a5046a3/data/repository/MockRepository.kt:22-26 | the list is the mock week, and it is published once |
| MockRepo.MockRepository.GenerateMockData | app/src/main/java/com/example/a5046a3/data/repository/MockRepository.kt:80-111 | appends the seven generated entries, six days back first, and publishes nothing |
| MockRepo.MockRepository.RefreshLiveData | app/src/main/java/com/example/a5046a3/data/repository/MockRepository.kt:73-75 | publishes a snapshot of the current list and changes nothing else |
| MockRepo.MockRepository.AddEntry | app/src/main/java/com/example/a5046a3/data/repository/MockRepository.kt:38-41 | appends the entry, keeps the earlier ones, then publishes |
| MockRepo.MockRepository.UpdateEntry | app/src/main/java/com/example/a5046a3/data/repository/MockRepository.kt:46-52 | replaces only the first entry with that id and publishes; with no such id, changes and publishes nothing |
| MockRepo.MockRepository.DeleteEntry | app/src/main/java/com/example/a5046a3/data/repository/MockRepository.kt:57-60 | removes every entry with that id, keeps the rest in order, and always publishes |
| MockRepo.MockRepository.ClearEntries | app/src/main/java/com/example/a5046a3/data/repository/MockRepository.kt:65-68 | empties the list and publishes the empty list |

## Left out

- Logging, `Toast` rendering, Compose layout, navigation options (`popUpTo`) and coroutine scheduling are not modelled. Asynchronous callbacks become separate methods that run to completion in order.
- Firebase Authentication, Firestore and WorkManager are outside the model. The signed-in user is a parameter. Each `saveData` outcome comes from a script; a call past its end fails. `Result.success` and `Result.retry` are a two-valued result.
- The only local failure the sync job models is a database that cannot be opened. Any other exception that Room might raise mid-pass is not modelled.
- The upload timestamp (`System.currentTimeMillis()`) is an arbitrary value chosen for each document.
- `Float` values (sleep hours) are opaque 32-bit patterns. Where the source uses `0.25f` steps on the chart, the model uses whole quarters.
- `java.util.Date` is an integer of milliseconds. Calendar days are counted from the epoch in UTC; time zones, daylight saving and the `Calendar` year boundaries are not modelled. `Long` values are unbounded except in the `daysInRange` arithmetic, where the 32-bit `Int` conversion is explicit.
- UUIDs, `random()` and `Math.random()` are parameters: a fresh id, a mock draw's rolls, its sleep value and its note coin.
- A SELECT without ORDER BY is taken to return rows in primary-key order. Room does not promise this; SQLite's scan of an INTEGER PRIMARY KEY table gives it.
- Letters and digits in the password rule, and the regular expression's classes, are ASCII only. Kotlin's `isLetter` and `isDigit` also accept other Unicode letters and digits.
- The day-name labels (`SimpleDateFormat("E")`) and the formatted date range are not modelled.
- `getAllEntries` only hands out the LiveData. The published snapshots are the `published` field.
- Dao.SelectNewestFirst: the order of rows that share a date is not stated. SQLite does not define it for ORDER BY date DESC.
- Report.Percent: `count * 100` is an `Int` product in the source and could overflow past about 21 million entries; the model uses unbounded integers.
- Report.ChartLengthOfRange: stated only for ranges under about five million years, where the 32-bit conversion cannot wrap.

## Findings

| source | as written | input that shows it | evidently intended | confidence | as-written member | corrected member |
|---|---|---|---|---|---|---|
| app/src/main/java/com/example/a5046a3/ui/screens/main/ReportScreen.kt:127-129 | the period is filtered by instants, and the start keeps the current time of day | This Week at now = 10 days + 1 s after the epoch, with an entry at midnight of day 4: it is dropped, yet day 4 is the oldest charted day | every entry on a charted day is in the report | medium, not executed | Report.FirstDayEntryDropped | Report.ByDayFindsEveryDay |
| app/src/main/java/com/example/a5046a3/ui/screens/auth/LoginScreen.kt:150-151 | the `Result` of `sendPasswordResetEmail` is discarded, and that call catches every failure itself (auth/AuthManager.kt:63-71) | a reset the service refuses: the toast still says "Password reset email sent to …" | the failure toast when the reset fails | high, not executed | AuthForms.RefusedResetReportsSent | AuthForms.CheckedResetToast |

The screen can only ever show This Week. `selectedTimePeriod` is never
reassigned after its declaration (`ui/screens/main/ReportScreen.kt:66`), and
`showDateRangeDialog` is only ever set to false (lines 655, 695 and 705).
So the period choice and the custom-range dialog, which
Report.ReportScreenState.ApplyCustomRange models, are unreachable. The first
finding therefore affects every report the app shows.
