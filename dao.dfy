/**
 * The two Room tables behind the sync job, `wellness_entries` and
 * `exercise_entries`, and the DAO operations on them. A table is a map from
 * primary key to row. Both DAOs declare the same operations over their own
 * table, so one generic `Table<P>` stands for both; `P` is the kind's own
 * columns.
 *
 * SELECTs without ORDER BY return rows in primary-key order, the order in
 * which SQLite scans a table keyed by an INTEGER PRIMARY KEY. ORDER BY date
 * DESC is specified up to the order of rows that share a date.
 */
module Dao {
  import opened Models
  import opened Sequences

  /** The kind-specific columns of a `wellness_entries` row. */
  datatype WellnessFields = WellnessFields(mood: int, sleepHours: Float32, stressLevel: int, notes: string)

  /** The kind-specific columns of an `exercise_entries` row. */
  datatype ExerciseFields = ExerciseFields(exerciseType: string, durationMinutes: int, caloriesBurned: int, notes: string)

  /** A row: the key, owner and date columns shared by both tables, the kind's own columns, and the sync flag. */
  datatype Row<P> = Row(id: int, userId: string, date: Date, fields: P, isSynced: bool)

  type Rows<P> = map<int, Row<P>>

  /** Every row is stored under its own primary key. */
  ghost predicate WellKeyed<P>(rows: Rows<P>) {
    forall id :: id in rows ==> rows[id].id == id
  }

  /** `x` is a row of the table, as stored. */
  ghost predicate Stored<P>(rows: Rows<P>, x: Row<P>) {
    x.id in rows && rows[x.id] == x
  }

  function IdOf<P>(r: Row<P>): int { r.id }

  /** Sort key for ORDER BY date DESC. */
  function NewestFirst<P>(r: Row<P>): int { -r.date.time }

  function IsUnsynced<P>(r: Row<P>): bool { !r.isSynced }

  /** WHERE userId = :userId */
  function OwnedBy<P>(userId: string): Row<P> -> bool {
    (r: Row<P>) => r.userId == userId
  }

  /** WHERE userId = :userId AND date BETWEEN :startDate AND :endDate (inclusive at both ends) */
  function OwnedWithin<P>(userId: string, startDate: Date, endDate: Date): Row<P> -> bool {
    (r: Row<P>) => r.userId == userId && startDate.time <= r.date.time <= endDate.time
  }

  ghost predicate InDateRange<P>(x: Row<P>, userId: string, startDate: Date, endDate: Date) {
    x.userId == userId && startDate.time <= x.date.time <= endDate.time
  }

  lemma {:induction false} LeastExists(s: set<int>)
    requires s != {}
    ensures exists m :: m in s && forall x :: x in s ==> m <= x
    decreases |s|
  {
    assert exists y :: y in s by {
      if forall y :: y !in s {
        assert false;
      }
    }
    var y :| y in s;
    var t := s - {y};
    assert forall x :: x in s ==> x == y || x in t;
    if t == {} {
      assert forall x :: x in s ==> y <= x;
    } else {
      LeastExists(t);
      var m :| m in t && forall x :: x in t ==> m <= x;
      var least := if y < m then y else m;
      assert least in s;
      forall x | x in s ensures least <= x {
        if x != y {
          assert x in t;
        }
      }
    }
  }

  function Least(s: set<int>): (m: int)
    requires s != {}
    ensures m in s && forall x :: x in s ==> m <= x
  {
    LeastExists(s);
    var m :| m in s && forall x :: x in s ==> m <= x;
    m
  }

  /** The keys of a table in ascending order. */
  function AscendingKeys(s: set<int>): (r: seq<int>)
    ensures forall x :: x in r <==> x in s
    ensures forall i, j :: 0 <= i < j < |r| ==> r[i] < r[j]
    decreases |s|
  {
    if s == {} then []
    else
      var m := Least(s);
      [m] + AscendingKeys(s - {m})
  }

  /** A full table scan: every row once, in primary-key order. */
  function RowsInKeyOrder<P>(rows: Rows<P>): (r: seq<Row<P>>)
    requires WellKeyed(rows)
    ensures forall i :: 0 <= i < |r| ==> Stored(rows, r[i])
    ensures forall id :: id in rows ==> rows[id] in r
    ensures StrictlySortedBy(r, IdOf)
  {
    var keys := AscendingKeys(rows.Keys);
    var r := seq(|keys|, i requires 0 <= i < |keys| => rows[keys[i]]);
    assert forall id :: id in rows ==> rows[id] in r by {
      forall id | id in rows ensures rows[id] in r {
        var i :| 0 <= i < |keys| && keys[i] == id;
        assert r[i] == rows[id];
      }
    }
    r
  }

  /** A list whose elements are pairwise distinct holds each of them once. */
  lemma {:induction false} DistinctCount<T>(s: seq<T>, x: T)
    requires forall i, j :: 0 <= i < j < |s| ==> s[i] != s[j]
    ensures multiset(s)[x] == if x in s then 1 else 0
  {
    if s != [] {
      assert s == [s[0]] + s[1..];
      DistinctCount(s[1..], x);
      if x == s[0] {
        assert x !in s[1..];
      }
    }
  }

  /** The scan holds every stored row exactly once, and nothing else. */
  lemma ScanCount<P>(rows: Rows<P>, x: Row<P>)
    requires WellKeyed(rows)
    ensures multiset(RowsInKeyOrder(rows))[x] == if Stored(rows, x) then 1 else 0
  {
    var scan := RowsInKeyOrder(rows);
    forall i, j | 0 <= i < j < |scan| ensures scan[i] != scan[j] {
      assert IdOf(scan[i]) < IdOf(scan[j]);
    }
    DistinctCount(scan, x);
  }

  /** `SELECT * FROM <table> WHERE isSynced = 0` */
  function Unsynced<P>(rows: Rows<P>): (r: seq<Row<P>>)
    requires WellKeyed(rows)
    ensures forall i :: 0 <= i < |r| ==> Stored(rows, r[i]) && !r[i].isSynced
    ensures forall id :: id in rows && !rows[id].isSynced ==> rows[id] in r
    ensures forall i, j :: 0 <= i < j < |r| ==> r[i].id < r[j].id
  {
    var scan := RowsInKeyOrder(rows);
    var r := Filter(scan, IsUnsynced);
    FilterMembers(scan, IsUnsynced);
    FilterStrictlySorted(scan, IsUnsynced, IdOf);
    assert forall id :: id in rows && !rows[id].isSynced ==> rows[id] in r by {
      forall id | id in rows && !rows[id].isSynced ensures rows[id] in r {
        FilterCount(scan, IsUnsynced, rows[id]);
        ScanCount(rows, rows[id]);
        assert multiset(r)[rows[id]] == 1;
      }
    }
    assert forall i, j :: 0 <= i < j < |r| ==> IdOf(r[i]) < IdOf(r[j]);
    r
  }

  /** The head of a non-empty list is one of its members. */
  lemma HeadIsMember<T>(s: seq<T>)
    ensures |s| != 0 ==> s[0] in s
  {
  }

  /** Two key-ordered listings of the same rows are the same listing. */
  lemma {:induction false} AscendingUnique<P>(s: seq<Row<P>>, t: seq<Row<P>>)
    requires forall i, j :: 0 <= i < j < |s| ==> s[i].id < s[j].id
    requires forall i, j :: 0 <= i < j < |t| ==> t[i].id < t[j].id
    requires forall x :: x in s <==> x in t
    ensures s == t
    decreases |s|
  {
    HeadIsMember(s);
    HeadIsMember(t);
    if |s| != 0 && |t| != 0 {
      assert s[0] == t[0] by {
        assert s[0] in t && t[0] in s;
        var k :| 0 <= k < |t| && t[k] == s[0];
        var m :| 0 <= m < |s| && s[m] == t[0];
        assert s[0].id <= s[m].id;
        assert t[0].id <= t[k].id;
      }
      forall x
        ensures x in s[1..] <==> x in t[1..]
      {
        if x in s[1..] {
          var i :| 1 <= i < |s| && s[i] == x;
          assert x != s[0] by { assert s[0].id < s[i].id; }
          assert x in t;
          var j :| 0 <= j < |t| && t[j] == x;
          assert j != 0;
          assert t[1..][j - 1] == x;
        }
        if x in t[1..] {
          var j :| 1 <= j < |t| && t[j] == x;
          assert x != t[0] by { assert t[0].id < t[j].id; }
          assert x in s;
          var i :| 0 <= i < |s| && s[i] == x;
          assert i != 0;
          assert s[1..][i - 1] == x;
        }
      }
      AscendingUnique(s[1..], t[1..]);
      assert s == [s[0]] + s[1..] && t == [t[0]] + t[1..];
    }
  }

  /** Any key-ordered listing of exactly the unsynced rows is what `getUnsyncedEntries` returns. */
  lemma UnsyncedUnique<P>(rows: Rows<P>, s: seq<Row<P>>)
    requires WellKeyed(rows)
    requires forall i :: 0 <= i < |s| ==> Stored(rows, s[i]) && !s[i].isSynced
    requires forall id :: id in rows && !rows[id].isSynced ==> rows[id] in s
    requires forall i, j :: 0 <= i < j < |s| ==> s[i].id < s[j].id
    ensures Unsynced(rows) == s
  {
    var r := Unsynced(rows);
    forall x ensures x in r <==> x in s {
      if x in r {
        var i :| 0 <= i < |r| && r[i] == x;
        assert Stored(rows, x);
      }
      if x in s {
        var i :| 0 <= i < |s| && s[i] == x;
        assert Stored(rows, x);
      }
    }
    AscendingUnique(r, s);
  }

  /** `getUnsyncedEntries` is empty exactly when every row is synced. */
  lemma UnsyncedEmpty<P>(rows: Rows<P>)
    requires WellKeyed(rows)
    ensures Unsynced(rows) == [] <==> forall id :: id in rows ==> rows[id].isSynced
  {
    var r := Unsynced(rows);
    HeadIsMember(r);
  }

  /** A WHERE clause followed by ORDER BY date DESC. */
  function SelectNewestFirst<P(!new)>(rows: Rows<P>, where: Row<P> -> bool): (r: seq<Row<P>>)
    requires WellKeyed(rows)
    ensures forall x :: multiset(r)[x] == if Stored(rows, x) && where(x) then 1 else 0
    ensures forall i, j :: 0 <= i < j < |r| ==> r[i].date.time >= r[j].date.time
  {
    var scan := RowsInKeyOrder(rows);
    var r := SortBy(Filter(scan, where), NewestFirst);
    assert forall x :: multiset(r)[x] == if Stored(rows, x) && where(x) then 1 else 0 by {
      forall x ensures multiset(r)[x] == if Stored(rows, x) && where(x) then 1 else 0 {
        FilterCount(scan, where, x);
        ScanCount(rows, x);
      }
    }
    assert forall i, j :: 0 <= i < j < |r| ==> NewestFirst(r[i]) <= NewestFirst(r[j]);
    r
  }

  /** `SELECT * FROM <table> WHERE userId = :userId ORDER BY date DESC` */
  function AllForUser<P(!new)>(rows: Rows<P>, userId: string): (r: seq<Row<P>>)
    requires WellKeyed(rows)
    ensures forall x :: multiset(r)[x] == if Stored(rows, x) && x.userId == userId then 1 else 0
    ensures forall i, j :: 0 <= i < j < |r| ==> r[i].date.time >= r[j].date.time
  {
    SelectNewestFirst(rows, OwnedBy(userId))
  }

  /** `SELECT * FROM <table> WHERE userId = :userId AND date BETWEEN :startDate AND :endDate ORDER BY date DESC` */
  function ForDateRange<P(!new)>(rows: Rows<P>, userId: string, startDate: Date, endDate: Date): (r: seq<Row<P>>)
    requires WellKeyed(rows)
    ensures forall x :: multiset(r)[x] == if InDateRange(x, userId, startDate, endDate) && Stored(rows, x) then 1 else 0
    ensures forall i, j :: 0 <= i < j < |r| ==> r[i].date.time >= r[j].date.time
  {
    SelectNewestFirst(rows, OwnedWithin(userId, startDate, endDate))
  }

  /**
   * One table and its DAO. `lastId` is SQLite's AUTOINCREMENT counter: the
   * largest primary key the table has ever held.
   */
  class Table<P(!new)> {
    var rows: Rows<P>
    var lastId: int

    ghost predicate Valid()
      reads this
    {
      WellKeyed(rows) && 0 <= lastId && forall id :: id in rows ==> id <= lastId
    }

    constructor ()
      ensures Valid() && rows == map[] && lastId == 0
    {
      rows := map[];
      lastId := 0;
    }

    /**
     * `@Insert(onConflict = REPLACE)`. An id of 0 is "not set": the row gets
     * the next key. A row whose key exists replaces the stored one.
     */
    method Insert(entry: Row<P>) returns (rowId: int)
      requires Valid()
      modifies this
      ensures Valid()
      ensures rowId == if entry.id == 0 then old(lastId) + 1 else entry.id
      ensures rows == old(rows)[rowId := entry.(id := rowId)]
      ensures lastId == if rowId > old(lastId) then rowId else old(lastId)
    {
      rowId := if entry.id == 0 then lastId + 1 else entry.id;
      rows := rows[rowId := entry.(id := rowId)];
      if rowId > lastId {
        lastId := rowId;
      }
    }

    /** `@Update`: overwrites the row with the same key; returns the number of rows changed. */
    method Update(entry: Row<P>) returns (count: int)
      requires Valid()
      modifies this
      ensures Valid() && lastId == old(lastId)
      ensures count == if entry.id in old(rows) then 1 else 0
      ensures rows == if entry.id in old(rows) then old(rows)[entry.id := entry] else old(rows)
    {
      if entry.id in rows {
        rows := rows[entry.id := entry];
        count := 1;
      } else {
        count := 0;
      }
    }

    /** `@Delete`: removes the row with the same key; returns the number of rows removed. */
    method Delete(entry: Row<P>) returns (count: int)
      requires Valid()
      modifies this
      ensures Valid() && lastId == old(lastId)
      ensures count == if entry.id in old(rows) then 1 else 0
      ensures rows == old(rows) - {entry.id}
    {
      count := if entry.id in rows then 1 else 0;
      rows := rows - {entry.id};
    }

    /** `UPDATE <table> SET isSynced = :isSynced WHERE id = :id` */
    method UpdateSyncStatus(id: int, isSynced: bool) returns (count: int)
      requires Valid()
      modifies this
      ensures Valid() && lastId == old(lastId)
      ensures count == if id in old(rows) then 1 else 0
      ensures rows == if id in old(rows) then old(rows)[id := old(rows)[id].(isSynced := isSynced)] else old(rows)
    {
      if id in rows {
        rows := rows[id := rows[id].(isSynced := isSynced)];
        count := 1;
      } else {
        count := 0;
      }
    }

    function GetUnsynced(): seq<Row<P>>
      reads this
      requires Valid()
    {
      Unsynced(rows)
    }

    function GetAllForUser(userId: string): seq<Row<P>>
      reads this
      requires Valid()
    {
      AllForUser(rows, userId)
    }

    function GetForDateRange(userId: string, startDate: Date, endDate: Date): seq<Row<P>>
      reads this
      requires Valid()
    {
      ForDateRange(rows, userId, startDate, endDate)
    }
  }
}
