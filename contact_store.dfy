/** The `contact` table as the screens drive it: created if absent, appended
    to by INSERT with an AUTOINCREMENT id, read by `SELECT *`, pruned by
    `DELETE ... WHERE id = ?`, queried by `SELECT ... WHERE id = ?`. */
module ContactStore {
  import opened Sequences
  import opened ContactModel

  /** What can make a statement fail: the table was never created, or the
      storage layer failed (opening the file, a disk error). */
  datatype StoreError = NoSuchTable | IoFailure

  datatype Result<+T> = Ok(value: T) | Err(error: StoreError)

  /** Ids strictly increase in table order, so no two rows share an id. */
  ghost predicate IdsIncreasing(rows: seq<Contact>)
  {
    forall i, j :: 0 <= i < j < |rows| ==> rows[i].id < rows[j].id
  }

  /** The rows `WHERE id = param` does NOT select, where None is SQL NULL:
      `id = NULL` is never true, so a NULL parameter selects no row. */
  function KeepsRow(param: Option<nat>): Contact -> bool
  {
    (c: Contact) => param != Some(c.id)
  }

  /** The rows a `DELETE FROM contact WHERE id = param` leaves, in table order. */
  function DeleteWhereId(rows: seq<Contact>, param: Option<nat>): seq<Contact>
  {
    Filter(rows, KeepsRow(param))
  }

  /** Deleting id `k` leaves no row with id `k`, keeps every other row, and
      keeps the survivors in their relative order. */
  lemma DeleteByIdRemovesOnly(rows: seq<Contact>, k: nat)
    ensures forall c :: c in DeleteWhereId(rows, Some(k)) ==> c.id != k
    ensures forall c :: c in rows && c.id != k ==> c in DeleteWhereId(rows, Some(k))
    ensures IsSubsequence(DeleteWhereId(rows, Some(k)), rows)
  {
    FilterIsSubsequence(rows, KeepsRow(Some(k)));
  }

  /** Deleting an id that no row carries changes nothing. */
  lemma DeleteAbsentIdIsNoOp(rows: seq<Contact>, k: nat)
    requires forall c :: c in rows ==> c.id != k
    ensures DeleteWhereId(rows, Some(k)) == rows
  {
    FilterKeepsAll(rows, KeepsRow(Some(k)));
  }

  /** With the parameter left unbound (NULL), the statement deletes nothing,
      even when a row carries the id the caller meant. */
  lemma UnboundDeleteKeepsEveryRow(rows: seq<Contact>, k: nat)
    ensures DeleteWhereId(rows, None) == rows
    ensures (exists c :: c in rows && c.id == k) ==>
              exists c :: c in DeleteWhereId(rows, None) && c.id == k
  {
    FilterKeepsAll(rows, KeepsRow(None));
  }

  lemma {:induction false} IncreasingTail(rows: seq<Contact>)
    requires rows != [] && IdsIncreasing(rows)
    ensures IdsIncreasing(rows[1..])
    ensures forall c :: c in rows[1..] ==> rows[0].id < c.id
  {
    forall c | c in rows[1..] ensures rows[0].id < c.id {
      var j :| 0 <= j < |rows[1..]| && rows[1..][j] == c;
      assert rows[j + 1] == c;
    }
  }

  lemma {:induction false} IncreasingCons(a: Contact, t: seq<Contact>)
    requires IdsIncreasing(t)
    requires forall c :: c in t ==> a.id < c.id
    ensures IdsIncreasing([a] + t)
  {
    var s := [a] + t;
    forall i, j | 0 <= i < j < |s| ensures s[i].id < s[j].id {
      assert s[j] == t[j - 1];
      if i > 0 { assert s[i] == t[i - 1]; } else { assert t[j - 1] in t; }
    }
  }

  /** Removing rows never breaks the strict order of ids. */
  lemma {:induction false} FilterKeepsIdsIncreasing(rows: seq<Contact>, p: Contact -> bool)
    requires IdsIncreasing(rows)
    ensures IdsIncreasing(Filter(rows, p))
  {
    if rows != [] {
      IncreasingTail(rows);
      FilterKeepsIdsIncreasing(rows[1..], p);
      var rest := Filter(rows[1..], p);
      if p(rows[0]) {
        IncreasingCons(rows[0], rest);
      } else {
        assert Filter(rows, p) == rest;
      }
    }
  }

  /** `SELECT * FROM contact WHERE id = k`: the first row with that id, if any. */
  function FindById(rows: seq<Contact>, k: nat): (r: Option<Contact>)
    ensures r.Some? ==> r.value in rows && r.value.id == k
    ensures r.None? ==> forall c :: c in rows ==> c.id != k
  {
    if rows == [] then None
    else if rows[0].id == k then Some(rows[0])
    else
      assert forall c :: c in rows ==> c == rows[0] || c in rows[1..];
      FindById(rows[1..], k)
  }

  /** Once id `k` is deleted, looking it up finds nothing. */
  lemma FindAfterDelete(rows: seq<Contact>, k: nat)
    ensures FindById(DeleteWhereId(rows, Some(k)), k) == None
  {
    DeleteByIdRemovesOnly(rows, k);
  }

  class ContactTable {
    /** Whether `CREATE TABLE contact` has run on this database file. */
    var created: bool
    /** The rows, in the order `SELECT *` returns them. */
    var rows: seq<Contact>
    /** The id the next INSERT receives: one more than any id ever issued. */
    var nextId: nat
    /** Every id the table has ever handed out, deleted rows included. */
    ghost var issued: set<nat>

    ghost predicate Valid()
      reads this
    {
      && 1 <= nextId
      && (!created ==> rows == [] && issued == {})
      && (forall k :: k in issued ==> 1 <= k < nextId)
      && (forall c :: c in rows ==> c.id in issued)
      && IdsIncreasing(rows)
    }

    /** A database file in which the table does not exist yet. */
    constructor ()
      ensures Valid()
      ensures !created && rows == [] && nextId == 1 && issued == {}
    {
      created := false;
      rows := [];
      nextId := 1;
      issued := {};
    }

    /** `CREATE TABLE IF NOT EXISTS contact (...)`: creates an empty table when
        there is none and touches no row when there is one. */
    method CreateIfNotExists(fault: bool) returns (r: Result<()>)
      requires Valid()
      modifies this
      ensures Valid()
      ensures r == if fault then Err(IoFailure) else Ok(())
      ensures created == (old(created) || !fault)
      ensures rows == old(rows) && nextId == old(nextId) && issued == old(issued)
    {
      if fault {
        return Err(IoFailure);
      }
      created := true;
      r := Ok(());
    }

    /** `INSERT INTO contact (name, date, option, imageUri) VALUES (?, ?, ?, ?)`:
        appends one row under a fresh id and returns that id. */
    method Insert(name: string, date: int, option: Relationship, imageUri: string, fault: bool)
      returns (r: Result<nat>)
      requires Valid()
      modifies this
      ensures Valid()
      ensures !old(created) ==> r == Err(NoSuchTable)
      ensures old(created) && fault ==> r == Err(IoFailure)
      ensures r.Ok? <==> old(created) && !fault
      ensures r.Err? ==> rows == old(rows) && nextId == old(nextId) && issued == old(issued)
      ensures r.Ok? ==>
        && r.value !in old(issued)
        && (forall k :: k in old(issued) ==> k < r.value)
        && rows == old(rows) + [Contact(r.value, name, Some(date), option, Some(imageUri))]
        && issued == old(issued) + {r.value}
      ensures created == old(created)
    {
      if !created {
        return Err(NoSuchTable);
      }
      if fault {
        return Err(IoFailure);
      }
      var id := nextId;
      var row := Contact(id, name, Some(date), option, Some(imageUri));
      IncreasingSnoc(rows, row);
      rows := rows + [row];
      nextId := nextId + 1;
      issued := issued + {id};
      r := Ok(id);
    }

    /** `SELECT * FROM contact`: every row, in table order. */
    method ListAll(fault: bool) returns (r: Result<seq<Contact>>)
      ensures !created ==> r == Err(NoSuchTable)
      ensures created && fault ==> r == Err(IoFailure)
      ensures created && !fault ==> r == Ok(rows)
    {
      if !created {
        return Err(NoSuchTable);
      }
      if fault {
        return Err(IoFailure);
      }
      r := Ok(rows);
    }

    /** `DELETE FROM contact WHERE id = ?` with `k` bound to the parameter. */
    method DeleteById(k: nat, fault: bool) returns (r: Result<()>)
      requires Valid()
      modifies this
      ensures Valid()
      ensures r == if !old(created) then Err(NoSuchTable)
                   else if fault then Err(IoFailure) else Ok(())
      ensures rows == if r.Ok? then DeleteWhereId(old(rows), Some(k)) else old(rows)
      ensures created == old(created) && nextId == old(nextId) && issued == old(issued)
    {
      if !created {
        return Err(NoSuchTable);
      }
      if fault {
        return Err(IoFailure);
      }
      FilterKeepsIdsIncreasing(rows, KeepsRow(Some(k)));
      rows := DeleteWhereId(rows, Some(k));
      r := Ok(());
    }

    /** The delete as the list screen issues it: the id goes to a call that
        takes no bind parameters, so the `?` stays unbound, that is NULL. */
    method ExecDeleteAsWritten(k: nat, fault: bool) returns (r: Result<()>)
      requires Valid()
      modifies this
      ensures Valid()
      ensures r == if !old(created) then Err(NoSuchTable)
                   else if fault then Err(IoFailure) else Ok(())
      ensures rows == if r.Ok? then DeleteWhereId(old(rows), None) else old(rows)
      ensures created == old(created) && nextId == old(nextId) && issued == old(issued)
    {
      if !created {
        return Err(NoSuchTable);
      }
      if fault {
        return Err(IoFailure);
      }
      FilterKeepsIdsIncreasing(rows, KeepsRow(None));
      rows := DeleteWhereId(rows, None);
      r := Ok(());
    }

    /** `SELECT * FROM contact WHERE id = ?` as the detail screen issues it. */
    method Find(k: nat, fault: bool) returns (r: Result<Option<Contact>>)
      ensures !created ==> r == Err(NoSuchTable)
      ensures created && fault ==> r == Err(IoFailure)
      ensures created && !fault ==> r.Ok? && r.value == FindById(rows, k)
    {
      if !created {
        return Err(NoSuchTable);
      }
      if fault {
        return Err(IoFailure);
      }
      r := Ok(FindById(rows, k));
    }
  }

  lemma IncreasingSnoc(rows: seq<Contact>, row: Contact)
    requires IdsIncreasing(rows)
    requires forall c :: c in rows ==> c.id < row.id
    ensures IdsIncreasing(rows + [row])
  {
    var s := rows + [row];
    forall i, j | 0 <= i < j < |s| ensures s[i].id < s[j].id {
      assert s[i] == rows[i];
      if j == |rows| { assert rows[i] in rows; } else { assert s[j] == rows[j]; }
    }
  }
}
