/**
 * The background job that pushes locally stored, not yet synced rows of both
 * tables to the remote document store and marks each row synced once its
 * write is confirmed.
 *
 * The remote store's answers come from an oracle: `script` lists the outcomes
 * of the writes still to come, one per write; once it is used up every write
 * fails, as against an unreachable store. The clock reading put in each
 * document is arbitrary. A local store that cannot be opened makes the first
 * query of a sync helper throw.
 */
module SyncWorker {
  import opened Wrappers
  import opened Models
  import opened Text
  import opened Dao

  const WellnessCollection := "wellness_entries"
  const ExerciseCollection := "exercise_entries"

  /** The kind-specific fields of a remote document. */
  datatype Body = WellnessBody(wellness: WellnessFields) | ExerciseBody(exercise: ExerciseFields)

  /** A remote document: the signed-in user, the row's date and fields, and the upload time. */
  datatype Document = Document(userId: string, date: Date, body: Body, timestamp: int)

  datatype DocKey = DocKey(collection: string, document: string)

  function WellnessBodyOf(f: WellnessFields): Body { WellnessBody(f) }

  function ExerciseBodyOf(f: ExerciseFields): Body { ExerciseBody(f) }

  /** Where a row is uploaded: its kind's collection, under its id as a decimal string. */
  function KeyOf<P>(collection: string, row: Row<P>): DocKey {
    DocKey(collection, DecimalString(row.id))
  }

  /** `doc` holds `row`'s data, owned by `userId` (whatever its clock reading). */
  ghost predicate Describes<P>(doc: Document, userId: string, row: Row<P>, toBody: P -> Body) {
    doc.userId == userId && doc.date == row.date && doc.body == toBody(row.fields)
  }

  /** Whether the `i`-th write against the scripted outcomes `script` succeeds. */
  predicate Accepts(script: seq<bool>, i: int) {
    0 <= i < |script| && script[i]
  }

  /** The outcomes left after `n` writes. */
  function Drop(script: seq<bool>, n: nat): seq<bool> {
    if n <= |script| then script[n..] else []
  }

  /** Keys of the first `n` pending rows whose write succeeded. */
  ghost function AcceptedIds<P>(pending: seq<Row<P>>, script: seq<bool>, n: int): set<int> {
    set i | 0 <= i < n && i < |pending| && Accepts(script, i) :: pending[i].id
  }

  /** Documents written by the first `n` successful writes. */
  ghost function WrittenKeys<P>(collection: string, pending: seq<Row<P>>, script: seq<bool>, n: int): set<DocKey> {
    set i | 0 <= i < n && i < |pending| && Accepts(script, i) :: KeyOf(collection, pending[i])
  }

  /** The documents a pass over `pending` attempts to write, in order. */
  function WriteLog<P>(collection: string, pending: seq<Row<P>>): (log: seq<DocKey>)
    ensures |log| == |pending|
    ensures forall i :: 0 <= i < |pending| ==> log[i] == KeyOf(collection, pending[i])
  {
    seq(|pending|, i requires 0 <= i < |pending| => KeyOf(collection, pending[i]))
  }

  /** The table after its rows with keys in `ids` are flagged synced. */
  function MarkSynced<P>(rows: Rows<P>, ids: set<int>): Rows<P> {
    map id | id in rows :: if id in ids then rows[id].(isSynced := true) else rows[id]
  }

  /** Outside `keys`, `docs` is `docs0`. */
  ghost predicate Untouched(docs0: map<DocKey, Document>, docs: map<DocKey, Document>, keys: set<DocKey>) {
    forall k :: k !in keys ==> (k in docs <==> k in docs0) && (k in docs ==> docs[k] == docs0[k])
  }

  /** Every one of the first `n` pending rows whose write succeeded has its document in `docs`. */
  ghost predicate HoldsAccepted<P>(docs: map<DocKey, Document>, collection: string, userId: string,
                                   pending: seq<Row<P>>, script: seq<bool>, n: int, toBody: P -> Body) {
    forall i :: 0 <= i < n && i < |pending| && Accepts(script, i) ==>
      KeyOf(collection, pending[i]) in docs && Describes(docs[KeyOf(collection, pending[i])], userId, pending[i], toBody)
  }

  /** The remote store after the first `n` writes of a pass over `pending`. */
  ghost predicate Uploaded<P>(docs0: map<DocKey, Document>, docs: map<DocKey, Document>, collection: string,
                              userId: string, pending: seq<Row<P>>, script: seq<bool>, n: int, toBody: P -> Body) {
    Untouched(docs0, docs, WrittenKeys(collection, pending, script, n))
    && HoldsAccepted(docs, collection, userId, pending, script, n, toBody)
  }

  /** The remote document store, as `FirebaseRepository.saveData` sees it. */
  class RemoteStore {
    var docs: map<DocKey, Document>
    var script: seq<bool>
    ghost var writes: seq<DocKey>

    constructor (docs: map<DocKey, Document>, script: seq<bool>)
      ensures this.docs == docs && this.script == script && writes == []
    {
      this.docs := docs;
      this.script := script;
      writes := [];
    }

    /** `collection(c).document(d).set(data)`: create or overwrite; returns whether it succeeded. */
    method SaveData(collection: string, document: string, data: Document) returns (ok: bool)
      modifies this
      ensures ok == Accepts(old(script), 0)
      ensures script == Drop(old(script), 1)
      ensures docs == if ok then old(docs)[DocKey(collection, document) := data] else old(docs)
      ensures writes == old(writes) + [DocKey(collection, document)]
    {
      ok := Accepts(script, 0);
      script := Drop(script, 1);
      if ok {
        docs := docs[DocKey(collection, document) := data];
      }
      writes := writes + [DocKey(collection, document)];
    }
  }

  /** The app database: both tables, and whether the store can be opened. */
  class AppDatabase {
    const wellness: Table<WellnessFields>
    const exercise: Table<ExerciseFields>
    const available: bool

    ghost predicate Valid()
      reads this, wellness, exercise
    {
      wellness.Valid() && exercise.Valid()
    }

    constructor (available: bool)
      ensures Valid() && fresh(wellness) && fresh(exercise) && this.available == available
      ensures wellness.rows == map[] && exercise.rows == map[]
    {
      wellness := new Table();
      exercise := new Table();
      this.available := available;
    }
  }

  datatype WorkResult = Success | Retry

  /** How a sync helper ends: normally, or by throwing. */
  datatype Completion = Completed | Threw

  lemma AcceptedIdsStep<P>(pending: seq<Row<P>>, script: seq<bool>, i: nat)
    requires i < |pending|
    ensures AcceptedIds(pending, script, i + 1)
         == AcceptedIds(pending, script, i) + if Accepts(script, i) then {pending[i].id} else {}
  {
  }

  lemma WrittenKeysStep<P>(collection: string, pending: seq<Row<P>>, script: seq<bool>, i: nat)
    requires i < |pending|
    ensures WrittenKeys(collection, pending, script, i + 1)
         == WrittenKeys(collection, pending, script, i) + if Accepts(script, i) then {KeyOf(collection, pending[i])} else {}
  {
  }

  lemma MarkSyncedStep<P>(rows: Rows<P>, ids: set<int>, id: int)
    requires id in rows
    ensures id in MarkSynced(rows, ids)
    ensures var m := MarkSynced(rows, ids); m[id := m[id].(isSynced := true)] == MarkSynced(rows, ids + {id})
  {
  }

  /** Rows with different ids are written to different documents. */
  lemma DistinctKeys<P>(collection: string, pending: seq<Row<P>>, i: int, j: int)
    requires 0 <= i < j < |pending|
    requires forall a, b :: 0 <= a < b < |pending| ==> pending[a].id < pending[b].id
    ensures KeyOf(collection, pending[i]) != KeyOf(collection, pending[j])
  {
    if KeyOf(collection, pending[i]) == KeyOf(collection, pending[j]) {
      DecimalStringInjective(pending[i].id, pending[j].id);
    }
  }

  /** One more write leaves every document outside the written keys as it was. */
  lemma UntouchedStep<P>(docs0: map<DocKey, Document>, docs: map<DocKey, Document>, docs': map<DocKey, Document>,
                         collection: string, pending: seq<Row<P>>, script: seq<bool>, i: nat, doc: Document)
    requires i < |pending|
    requires Untouched(docs0, docs, WrittenKeys(collection, pending, script, i))
    requires docs' == if Accepts(script, i) then docs[KeyOf(collection, pending[i]) := doc] else docs
    ensures Untouched(docs0, docs', WrittenKeys(collection, pending, script, i + 1))
  {
    var key := KeyOf(collection, pending[i]);
    WrittenKeysStep(collection, pending, script, i);
    forall k | k !in WrittenKeys(collection, pending, script, i + 1)
      ensures (k in docs' <==> k in docs0) && (k in docs' ==> docs'[k] == docs0[k])
    {
      assert k !in WrittenKeys(collection, pending, script, i);
      assert Accepts(script, i) ==> k != key;
    }
  }

  /** One more write keeps every earlier accepted document and adds this row's when accepted. */
  lemma HoldsAcceptedStep<P>(docs: map<DocKey, Document>, docs': map<DocKey, Document>,
                             collection: string, userId: string, pending: seq<Row<P>>, script: seq<bool>, i: nat,
                             toBody: P -> Body, doc: Document)
    requires i < |pending|
    requires forall a, b :: 0 <= a < b < |pending| ==> pending[a].id < pending[b].id
    requires HoldsAccepted(docs, collection, userId, pending, script, i, toBody)
    requires docs' == if Accepts(script, i) then docs[KeyOf(collection, pending[i]) := doc] else docs
    requires Accepts(script, i) ==> Describes(doc, userId, pending[i], toBody)
    ensures HoldsAccepted(docs', collection, userId, pending, script, i + 1, toBody)
  {
    forall j | 0 <= j < i + 1 && j < |pending| && Accepts(script, j)
      ensures KeyOf(collection, pending[j]) in docs'
      ensures Describes(docs'[KeyOf(collection, pending[j])], userId, pending[j], toBody)
    {
      if j < i {
        DistinctKeys(collection, pending, j, i);
        assert KeyOf(collection, pending[j]) in docs;
      }
    }
  }

  /** One more write of a pass keeps `Uploaded`, one row further on. */
  lemma UploadedStep<P>(docs0: map<DocKey, Document>, docs: map<DocKey, Document>, docs': map<DocKey, Document>,
                        collection: string, userId: string, pending: seq<Row<P>>, script: seq<bool>, i: nat,
                        toBody: P -> Body, doc: Document)
    requires i < |pending|
    requires forall a, b :: 0 <= a < b < |pending| ==> pending[a].id < pending[b].id
    requires Uploaded(docs0, docs, collection, userId, pending, script, i, toBody)
    requires docs' == if Accepts(script, i) then docs[KeyOf(collection, pending[i]) := doc] else docs
    requires Accepts(script, i) ==> Describes(doc, userId, pending[i], toBody)
    ensures Uploaded(docs0, docs', collection, userId, pending, script, i + 1, toBody)
  {
    UntouchedStep(docs0, docs, docs', collection, pending, script, i, doc);
    HoldsAcceptedStep(docs, docs', collection, userId, pending, script, i, toBody, doc);
  }

  lemma WriteLogStep<P>(collection: string, pending: seq<Row<P>>, i: nat)
    requires i < |pending|
    ensures WriteLog(collection, pending[..i + 1]) == WriteLog(collection, pending[..i]) + [KeyOf(collection, pending[i])]
  {
  }

  /** Upload one row's document and, if the write succeeded, flag the row synced. */
  method SyncRow<P(!new)>(table: Table<P>, remote: RemoteStore, collection: string, userId: string,
                          row: Row<P>, toBody: P -> Body)
    returns (ok: bool, doc: Document)
    requires table.Valid() && row.id in table.rows
    modifies table, remote
    ensures table.Valid() && table.lastId == old(table.lastId)
    ensures ok == Accepts(old(remote.script), 0)
    ensures Describes(doc, userId, row, toBody)
    ensures remote.script == Drop(old(remote.script), 1)
    ensures remote.writes == old(remote.writes) + [KeyOf(collection, row)]
    ensures remote.docs == if ok then old(remote.docs)[KeyOf(collection, row) := doc] else old(remote.docs)
    ensures table.rows == if ok then old(table.rows)[row.id := old(table.rows)[row.id].(isSynced := true)] else old(table.rows)
  {
    var clock: int :| true;
    doc := Document(userId, row.date, toBody(row.fields), clock);
    ok := remote.SaveData(collection, DecimalString(row.id), doc);
    if ok {
      var _ := table.UpdateSyncStatus(row.id, true);
    }
  }

  /**
   * A whole pass over the unsynced rows of `rows0`: exactly the rows whose
   * write succeeded are flagged synced, one scripted outcome is used per row,
   * the rows' documents are attempted in key order, and the store gains the
   * accepted documents and nothing else.
   */
  ghost predicate Pass<P>(rows0: Rows<P>, rows: Rows<P>, docs0: map<DocKey, Document>, docs: map<DocKey, Document>,
                          script0: seq<bool>, script: seq<bool>, writes0: seq<DocKey>, writes: seq<DocKey>,
                          collection: string, userId: string, toBody: P -> Body) {
    && WellKeyed(rows0)
    && var pending := Unsynced(rows0);
    && rows == MarkSynced(rows0, AcceptedIds(pending, script0, |pending|))
    && script == Drop(script0, |pending|)
    && writes == writes0 + WriteLog(collection, pending)
    && Uploaded(docs0, docs, collection, userId, pending, script0, |pending|, toBody)
  }

  /** The state after the first `i` rows of a pass over `pending` have been handled. */
  ghost predicate PassedPrefix<P>(rows0: Rows<P>, rows: Rows<P>, docs0: map<DocKey, Document>, docs: map<DocKey, Document>,
                                  script0: seq<bool>, script: seq<bool>, writes0: seq<DocKey>, writes: seq<DocKey>,
                                  collection: string, userId: string, pending: seq<Row<P>>, i: int, toBody: P -> Body) {
    && 0 <= i <= |pending|
    && rows == MarkSynced(rows0, AcceptedIds(pending, script0, i))
    && script == Drop(script0, i)
    && writes == writes0 + WriteLog(collection, pending[..i])
    && Uploaded(docs0, docs, collection, userId, pending, script0, i, toBody)
  }

  /** The rows a pass handles: stored in the table, in ascending key order. */
  ghost predicate PassOver<P>(rows0: Rows<P>, pending: seq<Row<P>>) {
    && (forall i :: 0 <= i < |pending| ==> pending[i].id in rows0)
    && (forall a, b :: 0 <= a < b < |pending| ==> pending[a].id < pending[b].id)
  }

  /** Handling every unsynced row completes a pass. */
  lemma PassComplete<P>(rows0: Rows<P>, rows: Rows<P>, docs0: map<DocKey, Document>, docs: map<DocKey, Document>,
                        script0: seq<bool>, script: seq<bool>, writes0: seq<DocKey>, writes: seq<DocKey>,
                        collection: string, userId: string, toBody: P -> Body)
    requires WellKeyed(rows0)
    requires PassedPrefix(rows0, rows, docs0, docs, script0, script, writes0, writes,
                          collection, userId, Unsynced(rows0), |Unsynced(rows0)|, toBody)
    ensures Pass(rows0, rows, docs0, docs, script0, script, writes0, writes, collection, userId, toBody)
  {
    var pending := Unsynced(rows0);
    assert pending[..|pending|] == pending;
  }

  /** Handle the `i`-th row of a pass. */
  method SyncStep<P(!new)>(table: Table<P>, remote: RemoteStore, collection: string, userId: string,
                           pending: seq<Row<P>>, i: int, toBody: P -> Body,
                           ghost rows0: Rows<P>, ghost docs0: map<DocKey, Document>,
                           ghost script0: seq<bool>, ghost writes0: seq<DocKey>)
    requires table.Valid() && PassOver(rows0, pending) && i < |pending|
    requires PassedPrefix(rows0, table.rows, docs0, remote.docs, script0, remote.script, writes0, remote.writes,
                          collection, userId, pending, i, toBody)
    modifies table, remote
    ensures table.Valid() && table.lastId == old(table.lastId)
    ensures PassedPrefix(rows0, table.rows, docs0, remote.docs, script0, remote.script, writes0, remote.writes,
                         collection, userId, pending, i + 1, toBody)
  {
    var row := pending[i];
    ghost var docs := remote.docs;
    DropStep(script0, i);
    MarkSyncedStep(rows0, AcceptedIds(pending, script0, i), row.id);
    var ok, doc := SyncRow(table, remote, collection, userId, row, toBody);
    AcceptedIdsStep(pending, script0, i);
    UploadedStep(docs0, docs, remote.docs, collection, userId, pending, script0, i, toBody, doc);
    WriteLogStep(collection, pending, i);
  }

  /**
   * `syncWellnessEntries` / `syncExerciseData`: fetch the unsynced rows, and
   * for each in turn upload its document and, once the write is confirmed,
   * flag the row synced. A failed write is skipped.
   */
  method SyncTable<P(!new)>(table: Table<P>, available: bool, remote: RemoteStore,
                            collection: string, userId: string, toBody: P -> Body)
    returns (c: Completion)
    requires table.Valid()
    modifies table, remote
    ensures table.Valid() && table.lastId == old(table.lastId)
    ensures !available ==> c == Threw && unchanged(table, remote)
    ensures available ==> c == Completed
    ensures available ==>
      Pass(old(table.rows), table.rows, old(remote.docs), remote.docs, old(remote.script), remote.script,
           old(remote.writes), remote.writes, collection, userId, toBody)
  {
    if !available {
      return Threw;
    }
    var pending := table.GetUnsynced();
    ghost var rows0, docs0, script0, writes0 := table.rows, remote.docs, remote.script, remote.writes;
    assert PassOver(rows0, pending);
    var i := 0;
    while i < |pending|
      invariant table.Valid() && table.lastId == old(table.lastId)
      invariant PassedPrefix(rows0, table.rows, docs0, remote.docs, script0, remote.script, writes0, remote.writes,
                             collection, userId, pending, i, toBody)
    {
      SyncStep(table, remote, collection, userId, pending, i, toBody, rows0, docs0, script0, writes0);
      i := i + 1;
    }
    PassComplete(rows0, table.rows, docs0, remote.docs, script0, remote.script, writes0, remote.writes,
                 collection, userId, toBody);
    return Completed;
  }

  /**
   * Two passes, over collections whose names differ: the second pass leaves
   * every document of the first in place.
   */
  lemma {:induction false} PassesCompose<P, Q>(
    docs0: map<DocKey, Document>, docs1: map<DocKey, Document>, docs2: map<DocKey, Document>, userId: string,
    c1: string, pending1: seq<Row<P>>, script1: seq<bool>, toBody1: P -> Body,
    c2: string, pending2: seq<Row<Q>>, script2: seq<bool>, toBody2: Q -> Body)
    requires c1 != c2
    requires Uploaded(docs0, docs1, c1, userId, pending1, script1, |pending1|, toBody1)
    requires Uploaded(docs1, docs2, c2, userId, pending2, script2, |pending2|, toBody2)
    ensures Untouched(docs0, docs2, WrittenKeys(c1, pending1, script1, |pending1|) + WrittenKeys(c2, pending2, script2, |pending2|))
    ensures HoldsAccepted(docs2, c1, userId, pending1, script1, |pending1|, toBody1)
    ensures HoldsAccepted(docs2, c2, userId, pending2, script2, |pending2|, toBody2)
  {
    forall i | 0 <= i < |pending1| && Accepts(script1, i)
      ensures KeyOf(c1, pending1[i]) in docs2
      ensures Describes(docs2[KeyOf(c1, pending1[i])], userId, pending1[i], toBody1)
    {
      assert KeyOf(c1, pending1[i]) !in WrittenKeys(c2, pending2, script2, |pending2|);
    }
  }

  lemma DropDrop(script: seq<bool>, a: nat, b: nat)
    ensures Drop(Drop(script, a), b) == Drop(script, a + b)
  {
  }

  /** The next write's outcome is the `i`-th scripted one. */
  lemma DropStep(script: seq<bool>, i: nat)
    ensures Accepts(Drop(script, i), 0) == Accepts(script, i)
    ensures Drop(Drop(script, i), 1) == Drop(script, i + 1)
  {
    DropDrop(script, i, 1);
  }

  /**
   * A successful run of the worker for `uid`: a pass over the wellness table,
   * then one over the exercise table with the outcomes the first left over.
   * Each table has exactly its accepted rows flagged synced; every accepted
   * row's document is in its own collection; no other document changes.
   */
  ghost predicate RanBoth(wellness0: Rows<WellnessFields>, wellness: Rows<WellnessFields>,
                          exercise0: Rows<ExerciseFields>, exercise: Rows<ExerciseFields>,
                          docs0: map<DocKey, Document>, docs: map<DocKey, Document>,
                          script0: seq<bool>, script: seq<bool>, writes0: seq<DocKey>, writes: seq<DocKey>,
                          uid: string) {
    && WellKeyed(wellness0) && WellKeyed(exercise0)
    && var wellnessPending := Unsynced(wellness0);
    var exercisePending := Unsynced(exercise0);
    var exerciseScript := Drop(script0, |wellnessPending|);
    && wellness == MarkSynced(wellness0, AcceptedIds(wellnessPending, script0, |wellnessPending|))
    && exercise == MarkSynced(exercise0, AcceptedIds(exercisePending, exerciseScript, |exercisePending|))
    && script == Drop(script0, |wellnessPending| + |exercisePending|)
    && writes == writes0 + WriteLog(WellnessCollection, wellnessPending) + WriteLog(ExerciseCollection, exercisePending)
    && Untouched(docs0, docs, WrittenKeys(WellnessCollection, wellnessPending, script0, |wellnessPending|)
                              + WrittenKeys(ExerciseCollection, exercisePending, exerciseScript, |exercisePending|))
    && HoldsAccepted(docs, WellnessCollection, uid, wellnessPending, script0, |wellnessPending|, WellnessBodyOf)
    && HoldsAccepted(docs, ExerciseCollection, uid, exercisePending, exerciseScript, |exercisePending|, ExerciseBodyOf)
  }

  /** A wellness pass followed by an exercise pass is a successful run. */
  lemma BothPasses(wellness0: Rows<WellnessFields>, wellness: Rows<WellnessFields>,
                   exercise0: Rows<ExerciseFields>, exercise: Rows<ExerciseFields>,
                   docs0: map<DocKey, Document>, docs1: map<DocKey, Document>, docs: map<DocKey, Document>,
                   script0: seq<bool>, script1: seq<bool>, script: seq<bool>,
                   writes0: seq<DocKey>, writes1: seq<DocKey>, writes: seq<DocKey>, uid: string)
    requires Pass(wellness0, wellness, docs0, docs1, script0, script1, writes0, writes1, WellnessCollection, uid, WellnessBodyOf)
    requires Pass(exercise0, exercise, docs1, docs, script1, script, writes1, writes, ExerciseCollection, uid, ExerciseBodyOf)
    ensures RanBoth(wellness0, wellness, exercise0, exercise, docs0, docs, script0, script, writes0, writes, uid)
  {
    var wellnessPending := Unsynced(wellness0);
    var exercisePending := Unsynced(exercise0);
    PassesCompose(docs0, docs1, docs, uid,
                  WellnessCollection, wellnessPending, script0, WellnessBodyOf,
                  ExerciseCollection, exercisePending, script1, ExerciseBodyOf);
    DropDrop(script0, |wellnessPending|, |exercisePending|);
  }

  /** A table after one pass over its unsynced rows against the outcomes `script`. */
  ghost function AfterPass<P>(rows: Rows<P>, script: seq<bool>): Rows<P>
    requires WellKeyed(rows)
  {
    var pending := Unsynced(rows);
    MarkSynced(rows, AcceptedIds(pending, script, |pending|))
  }

  /**
   * What a pass does to the table: the same keys; only the flag can change;
   * a row already synced is left as it is; and a pending row ends up synced
   * exactly when its write was accepted.
   */
  lemma {:induction false} PassFlags<P>(rows: Rows<P>, script: seq<bool>)
    requires WellKeyed(rows)
    ensures WellKeyed(AfterPass(rows, script)) && AfterPass(rows, script).Keys == rows.Keys
    ensures forall id :: id in rows ==>
      AfterPass(rows, script)[id] == rows[id].(isSynced := AfterPass(rows, script)[id].isSynced)
    ensures forall id :: id in rows && rows[id].isSynced ==> AfterPass(rows, script)[id] == rows[id]
    ensures forall i :: 0 <= i < |Unsynced(rows)| ==>
      (AfterPass(rows, script)[Unsynced(rows)[i].id].isSynced <==> Accepts(script, i))
  {
    var pending := Unsynced(rows);
    var ids := AcceptedIds(pending, script, |pending|);
    var after := AfterPass(rows, script);
    assert after == MarkSynced(rows, ids);
    AcceptedIdsExact(pending, script);
    forall i | 0 <= i < |pending|
      ensures after[pending[i].id].isSynced <==> Accepts(script, i)
    {
      assert Stored(rows, pending[i]) && !pending[i].isSynced;
    }
  }

  /** Ids ascend along `pending`, so a row's id is accepted exactly when its own write was. */
  lemma AcceptedIdsExact<P>(pending: seq<Row<P>>, script: seq<bool>)
    requires forall a, b :: 0 <= a < b < |pending| ==> pending[a].id < pending[b].id
    ensures forall i :: 0 <= i < |pending| ==>
      (pending[i].id in AcceptedIds(pending, script, |pending|) <==> Accepts(script, i))
  {
    var ids := AcceptedIds(pending, script, |pending|);
    forall i | 0 <= i < |pending|
      ensures pending[i].id in ids <==> Accepts(script, i)
    {
      if pending[i].id in ids {
        var j :| 0 <= j < |pending| && Accepts(script, j) && pending[j].id == pending[i].id;
        assert j == i;
      }
    }
  }

  /**
   * The next pass picks up exactly the rows whose write was rejected: an
   * accepted row is never uploaded again, a rejected one is retried.
   */
  lemma {:induction false} NextPassRetriesRejected<P>(rows: Rows<P>, script: seq<bool>)
    requires WellKeyed(rows)
    ensures WellKeyed(AfterPass(rows, script))
    ensures forall r :: r in Unsynced(AfterPass(rows, script)) <==>
      exists i :: 0 <= i < |Unsynced(rows)| && Unsynced(rows)[i] == r && !Accepts(script, i)
  {
    PassFlags(rows, script);
    var pending := Unsynced(rows);
    var after := AfterPass(rows, script);
    forall r | r in Unsynced(after)
      ensures exists i :: 0 <= i < |pending| && pending[i] == r && !Accepts(script, i)
    {
      assert Stored(after, r) && !r.isSynced;
      assert !rows[r.id].isSynced;
      assert rows[r.id] in pending;
      var i :| 0 <= i < |pending| && pending[i] == rows[r.id];
      assert !Accepts(script, i);
    }
    forall r | exists i :: 0 <= i < |pending| && pending[i] == r && !Accepts(script, i)
      ensures r in Unsynced(after)
    {
      var i :| 0 <= i < |pending| && pending[i] == r && !Accepts(script, i);
      assert after[r.id] == r;
    }
  }

  /** A pass whose every write is accepted leaves nothing for the next pass to upload. */
  lemma {:induction false} FullyAcceptedPassIsFinal<P>(rows: Rows<P>, script: seq<bool>)
    requires WellKeyed(rows)
    requires forall i :: 0 <= i < |Unsynced(rows)| ==> Accepts(script, i)
    ensures WellKeyed(AfterPass(rows, script))
    ensures Unsynced(AfterPass(rows, script)) == []
  {
    PassFlags(rows, script);
    var after := AfterPass(rows, script);
    var pending := Unsynced(rows);
    forall id | id in after
      ensures after[id].isSynced
    {
      if !rows[id].isSynced {
        assert rows[id] in pending;
        var i :| 0 <= i < |pending| && pending[i] == rows[id];
        assert after[pending[i].id].isSynced;
      }
    }
    UnsyncedEmpty(after);
  }

  /** With no unsynced row, a pass writes nothing and changes nothing. */
  lemma {:induction false} NothingPendingNothingWritten<P>(rows: Rows<P>, script: seq<bool>)
    requires WellKeyed(rows)
    requires forall id :: id in rows ==> rows[id].isSynced
    ensures Unsynced(rows) == []
    ensures AfterPass(rows, script) == rows
  {
    UnsyncedEmpty(rows);
    assert AcceptedIds(Unsynced(rows), script, 0) == {};
  }

  lemma AcceptedFirstOfTwo<P>(a: Row<P>, b: Row<P>)
    requires a.id == 1 && b.id == 2
    ensures AcceptedIds([a, b], [true, false], 2) == {1}
  {
    var pending := [a, b];
    var script := [true, false];
    forall id ensures id in AcceptedIds(pending, script, 2) <==> id == 1 {
      if id in AcceptedIds(pending, script, 2) {
        var i :| 0 <= i < 2 && i < |pending| && Accepts(script, i) && pending[i].id == id;
        assert i == 0;
      }
      if id == 1 {
        assert Accepts(script, 0) && pending[0].id == id;
      }
    }
  }

  lemma PendingOfScenario<P>(a: Row<P>, b: Row<P>, c: Row<P>)
    requires a.id == 1 && b.id == 2 && c.id == 3
    requires !a.isSynced && !b.isSynced && c.isSynced
    ensures WellKeyed(map[1 := a, 2 := b, 3 := c])
    ensures Unsynced(map[1 := a, 2 := b, 3 := c]) == [a, b]
  {
    var rows := map[1 := a, 2 := b, 3 := c];
    assert forall id :: id in rows <==> id == 1 || id == 2 || id == 3;
    UnsyncedUnique(rows, [a, b]);
  }

  lemma MarkedScenario<P>(a: Row<P>, b: Row<P>, c: Row<P>)
    ensures MarkSynced(map[1 := a, 2 := b, 3 := c], {1}) == map[1 := a.(isSynced := true), 2 := b, 3 := c]
  {
  }

  /**
   * Two unsynced rows (keys 1 and 2) and a synced one (key 3); the store
   * accepts the first write and rejects the second. Afterwards row 1 is
   * synced, row 2 is not, and row 3 is unchanged.
   */
  lemma ScenarioOneAcceptedOneRejected<P>(a: Row<P>, b: Row<P>, c: Row<P>)
    requires a.id == 1 && b.id == 2 && c.id == 3
    requires !a.isSynced && !b.isSynced && c.isSynced
    ensures var rows := map[1 := a, 2 := b, 3 := c];
      && WellKeyed(rows)
      && Unsynced(rows) == [a, b]
      && AfterPass(rows, [true, false]) == map[1 := a.(isSynced := true), 2 := b, 3 := c]
  {
    var rows := map[1 := a, 2 := b, 3 := c];
    PendingOfScenario(a, b, c);
    AcceptedFirstOfTwo(a, b);
    MarkedScenario(a, b, c);
    assert AfterPass(rows, [true, false]) == MarkSynced(rows, {1});
  }

  /** The worker, with the database and the remote repository it was built with. */
  class DatabaseSyncWorker {
    const database: AppDatabase
    const firebaseRepository: RemoteStore

    constructor (database: AppDatabase, firebaseRepository: RemoteStore)
      ensures this.database == database && this.firebaseRepository == firebaseRepository
    {
      this.database := database;
      this.firebaseRepository := firebaseRepository;
    }

    method SyncWellnessEntries(userId: string) returns (c: Completion)
      requires database.Valid()
      modifies database.wellness, firebaseRepository
      ensures database.Valid() && database.wellness.lastId == old(database.wellness.lastId)
      ensures !database.available ==> c == Threw && unchanged(database.wellness, firebaseRepository)
      ensures database.available ==> c == Completed
      ensures database.available ==>
        Pass(old(database.wellness.rows), database.wellness.rows, old(firebaseRepository.docs), firebaseRepository.docs,
             old(firebaseRepository.script), firebaseRepository.script,
             old(firebaseRepository.writes), firebaseRepository.writes, WellnessCollection, userId, WellnessBodyOf)
    {
      c := SyncTable(database.wellness, database.available, firebaseRepository, WellnessCollection, userId, WellnessBodyOf);
    }

    method SyncExerciseData(userId: string) returns (c: Completion)
      requires database.Valid()
      modifies database.exercise, firebaseRepository
      ensures database.Valid() && database.exercise.lastId == old(database.exercise.lastId)
      ensures !database.available ==> c == Threw && unchanged(database.exercise, firebaseRepository)
      ensures database.available ==> c == Completed
      ensures database.available ==>
        Pass(old(database.exercise.rows), database.exercise.rows, old(firebaseRepository.docs), firebaseRepository.docs,
             old(firebaseRepository.script), firebaseRepository.script,
             old(firebaseRepository.writes), firebaseRepository.writes, ExerciseCollection, userId, ExerciseBodyOf)
    {
      c := SyncTable(database.exercise, database.available, firebaseRepository, ExerciseCollection, userId, ExerciseBodyOf);
    }

    /**
     * `doWork`: with nobody signed in, succeed without touching anything;
     * otherwise sync wellness rows, then exercise rows, and succeed, or ask
     * for a retry if a helper throws.
     */
    method DoWork(currentUser: Option<string>) returns (result: WorkResult)
      requires database.Valid()
      modifies database.wellness, database.exercise, firebaseRepository
      ensures database.Valid()
      ensures currentUser.None? ==>
        result == Success && unchanged(database.wellness, database.exercise, firebaseRepository)
      ensures currentUser.Some? && !database.available ==>
        result == Retry && unchanged(database.wellness, database.exercise, firebaseRepository)
      ensures currentUser.Some? && database.available ==>
        result == Success
        && RanBoth(old(database.wellness.rows), database.wellness.rows, old(database.exercise.rows), database.exercise.rows,
                   old(firebaseRepository.docs), firebaseRepository.docs, old(firebaseRepository.script), firebaseRepository.script,
                   old(firebaseRepository.writes), firebaseRepository.writes, currentUser.value)
    {
      if currentUser.None? {
        return Success;
      }
      var uid := currentUser.value;
      ghost var docs0, script0, writes0 := firebaseRepository.docs, firebaseRepository.script, firebaseRepository.writes;
      ghost var wellness0, exercise0 := database.wellness.rows, database.exercise.rows;
      var c := SyncWellnessEntries(uid);
      if c == Threw {
        return Retry;
      }
      ghost var docs1, script1, writes1 := firebaseRepository.docs, firebaseRepository.script, firebaseRepository.writes;
      c := SyncExerciseData(uid);
      if c == Threw {
        return Retry;
      }
      BothPasses(wellness0, database.wellness.rows, exercise0, database.exercise.rows,
                 docs0, docs1, firebaseRepository.docs, script0, script1, firebaseRepository.script,
                 writes0, writes1, firebaseRepository.writes, uid);
      return Success;
    }
  }
}
