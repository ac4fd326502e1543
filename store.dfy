/**
 The project table, `project(id INTEGER PRIMARY KEY AUTOINCREMENT,
 name TEXT NOT NULL, path TEXT NOT NULL)`, as an abstract store: the rows
 keyed by id and the AUTOINCREMENT sequence value (the largest id ever
 assigned). The four statements the command loop issues (INSERT, SELECT by
 id, SELECT all, DELETE by id) are its methods. A driver failure is an
 input: `fault` carries its message, None meaning the statement ran.
 */
module Store {
  import opened Wrappers

  /** The largest rowid SQLite can assign (a signed 64-bit integer). */
  const MaxRowId: int := 0x7fff_ffff_ffff_ffff

  /** One row of the table; name and path are never null. */
  datatype Project = Project(id: int, name: string, path: string)

  /** Why INSERT, SELECT all or DELETE failed: a driver error with its
      message, or AUTOINCREMENT exhausted (SQLITE_FULL). */
  datatype StoreError = DriverError(message: string) | Full

  /** Why SELECT by id produced no project: no row with that id
      (sql.ErrNoRows), or any other read error. */
  datatype FetchError = NoRows | ReadError(message: string)

  /** The table at one moment: its rows, its sequence value and the ids
      issued so far. */
  datatype Snapshot = Snapshot(rows: map<int, Project>, lastId: int, issued: set<int>)

  /** Some entry of ps is the row with this id. */
  ghost predicate Listed(ps: seq<Project>, id: int)
  {
    exists i :: 0 <= i < |ps| && ps[i].id == id
  }

  /** ps lists every row of the table exactly once, in no promised order. */
  ghost predicate IsListing(ps: seq<Project>, rows: map<int, Project>)
  {
    && (forall i :: 0 <= i < |ps| ==> ps[i].id in rows && rows[ps[i].id] == ps[i])
    && (forall i, j :: 0 <= i < j < |ps| ==> ps[i].id != ps[j].id)
    && (forall id :: id in rows ==> Listed(ps, id))
  }

  /** A set with no members is the empty set. */
  lemma NoMembers(s: set<int>)
    requires forall x :: x !in s
    ensures s == {}
  {
    assert forall x :: x in s <==> x in {};
  }

  /** A non-empty set has a member to pick. */
  lemma NonEmpty(s: set<int>)
    requires s != {}
    ensures exists x :: x in s
  {
    if forall x :: x !in s {
      NoMembers(s);
      assert false;
    }
  }

  class ProjectTable {
    /** The stored rows, keyed by their id. */
    var rows: map<int, Project>
    /** The AUTOINCREMENT sequence: the largest id ever assigned, 0 at first. */
    var lastId: int
    /** Every id ever assigned, including those of deleted rows. */
    ghost var Issued: set<int>

    ghost predicate Valid()
      reads this
    {
      && 0 <= lastId <= MaxRowId
      && (forall id :: id in rows ==> rows[id].id == id)
      && rows.Keys <= Issued
      && (forall id :: id in Issued ==> 1 <= id <= lastId)
    }

    ghost function State(): Snapshot
      reads this
    {
      Snapshot(rows, lastId, Issued)
    }

    /** A freshly created, empty table. */
    constructor ()
      ensures Valid()
      ensures rows == map[] && lastId == 0 && Issued == {}
    {
      rows := map[];
      lastId := 0;
      Issued := {};
    }

    /** INSERT INTO project (name, path) VALUES (?, ?), then LastInsertId.
        The new id is one more than the sequence value, so it exceeds every id
        ever assigned, deleted ones included, and is never reused. */
    method Insert(name: string, path: string, fault: Option<string>) returns (r: Result<int, StoreError>)
      requires Valid()
      modifies this
      ensures Valid()
      ensures fault.Some? ==> r == Failure(DriverError(fault.value))
      ensures fault.None? && old(lastId) == MaxRowId ==> r == Failure(Full)
      ensures fault.None? && old(lastId) < MaxRowId ==> r == Success(old(lastId) + 1)
      ensures r.Failure? ==> rows == old(rows) && lastId == old(lastId) && Issued == old(Issued)
      ensures r.Success? ==>
        && r.value !in old(Issued)
        && (forall id :: id in old(Issued) ==> id < r.value)
        && r.value !in old(rows)
        && rows == old(rows)[r.value := Project(r.value, name, path)]
        && lastId == r.value
        && Issued == old(Issued) + {r.value}
    {
      if fault.Some? {
        return Failure(DriverError(fault.value));
      }
      if lastId == MaxRowId {
        return Failure(Full);
      }
      var id := lastId + 1;
      rows := rows[id := Project(id, name, path)];
      lastId := id;
      Issued := Issued + {id};
      r := Success(id);
    }

    /** SELECT id, name, path FROM project WHERE id = ?, scanned into a
        Project. A missing row is NoRows, distinct from a read error. */
    method Fetch(id: int, fault: Option<string>) returns (r: Result<Project, FetchError>)
      requires Valid()
      ensures fault.Some? ==> r == Failure(ReadError(fault.value))
      ensures fault.None? && id !in rows ==> r == Failure(NoRows)
      ensures fault.None? && id in rows ==> r == Success(rows[id])
      ensures r.Success? ==> r.value.id == id
    {
      if fault.Some? {
        return Failure(ReadError(fault.value));
      }
      if id !in rows {
        return Failure(NoRows);
      }
      r := Success(rows[id]);
    }

    /** SELECT id, name, path FROM project: every row once. Without ORDER BY
        the order is the engine's choice, so each step may take any row not
        yet returned. */
    method SelectAll(fault: Option<string>) returns (r: Result<seq<Project>, StoreError>)
      requires Valid()
      ensures fault.Some? ==> r == Failure(DriverError(fault.value))
      ensures fault.None? ==> r.Success? && IsListing(r.value, rows)
    {
      if fault.Some? {
        return Failure(DriverError(fault.value));
      }
      var remaining := rows.Keys;
      var ps: seq<Project> := [];
      while remaining != {}
        invariant remaining <= rows.Keys
        invariant forall i :: 0 <= i < |ps| ==> ps[i].id in rows && rows[ps[i].id] == ps[i] && ps[i].id !in remaining
        invariant forall i, j :: 0 <= i < j < |ps| ==> ps[i].id != ps[j].id
        invariant forall id :: id in rows && id !in remaining ==> Listed(ps, id)
        decreases remaining
      {
        NonEmpty(remaining);
        var k :| k in remaining;
        ghost var before := ps;
        ps := ps + [rows[k]];
        remaining := remaining - {k};
        assert ps[|ps| - 1].id == k;
        forall id | id in rows && id !in remaining
          ensures Listed(ps, id)
        {
          if id != k {
            var i :| 0 <= i < |before| && before[i].id == id;
            assert ps[i] == before[i];
          }
        }
      }
      r := Success(ps);
    }

    /** DELETE FROM project WHERE id = ?, then RowsAffected: 1 when the row
        existed, 0 when it did not (not an error). Only that row goes; the
        sequence is untouched, so the id is never handed out again. */
    method Delete(id: int, fault: Option<string>) returns (r: Result<int, StoreError>)
      requires Valid()
      modifies this
      ensures Valid()
      ensures fault.Some? ==> r == Failure(DriverError(fault.value)) && rows == old(rows)
      ensures fault.None? ==> r == Success(if id in old(rows) then 1 else 0) && rows == old(rows) - {id}
      ensures lastId == old(lastId) && Issued == old(Issued)
    {
      if fault.Some? {
        return Failure(DriverError(fault.value));
      }
      r := Success(if id in rows then 1 else 0);
      rows := rows - {id};
    }
  }
}
