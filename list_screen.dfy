/** The contact list screen: fetches every row (creating the table first when
    it is absent), refreshes on pull, and deletes a row after confirmation. */
module ListScreen {
  import opened Sequences
  import opened ContactModel
  import opened ContactStore

  /** The two buttons of the confirmation alert; dismissing the alert is
      `Cancel` too. */
  datatype Answer = Cancel | Confirm

  class ContactList {
    var contacts: seq<Contact>
    var isLoading: bool
    var refreshing: bool

    /** The screen before its first fetch: empty and loading. */
    constructor ()
      ensures contacts == [] && isLoading && !refreshing
    {
      contacts := [];
      isLoading := true;
      refreshing := false;
    }

    /** `fetchContacts`: the schema step, then `SELECT *`. On success the
        screen shows exactly the table's rows in table order; when either step
        throws, the list shown stays as it was. The loading flag is lowered
        in both cases. */
    method FetchContacts(table: ContactTable, schemaFault: bool, queryFault: bool)
      returns (ok: bool)
      requires table.Valid()
      modifies this, table
      ensures table.Valid()
      ensures table.rows == old(table.rows) && table.nextId == old(table.nextId)
      ensures table.issued == old(table.issued)
      ensures table.created == (old(table.created) || !schemaFault)
      ensures ok == (!schemaFault && !queryFault)
      ensures contacts == if ok then table.rows else old(contacts)
      ensures !isLoading && refreshing == old(refreshing)
    {
      var schema := table.CreateIfNotExists(schemaFault);
      if schema.Err? {
        isLoading := false;
        return false;
      }
      var result := table.ListAll(queryFault);
      if result.Err? {
        isLoading := false;
        return false;
      }
      contacts := result.value;
      isLoading := false;
      ok := true;
    }

    /** `onRefresh`: raises the refresh flag, fetches, and lowers the flag;
        the fetch catches its own errors, so the flag always comes down. */
    method OnRefresh(table: ContactTable, schemaFault: bool, queryFault: bool)
      requires table.Valid()
      modifies this, table
      ensures table.Valid()
      ensures table.rows == old(table.rows) && table.nextId == old(table.nextId)
      ensures table.issued == old(table.issued)
      ensures table.created == (old(table.created) || !schemaFault)
      ensures contacts == if !schemaFault && !queryFault then table.rows else old(contacts)
      ensures !isLoading && !refreshing
    {
      refreshing := true;
      var _ := FetchContacts(table, schemaFault, queryFault);
      refreshing := false;
    }

    /** `handleDelete`: asks for confirmation; on `Confirm` deletes the rows
        with id `k` and, if that succeeded, fetches again. `Cancel` does
        nothing. */
    method HandleDelete(table: ContactTable, k: nat, answer: Answer,
                        deleteFault: bool, schemaFault: bool, queryFault: bool)
      returns (deleted: bool, refetched: bool)
      requires table.Valid()
      modifies this, table
      ensures table.Valid()
      ensures deleted == (answer == Confirm && old(table.created) && !deleteFault)
      ensures table.rows == if deleted then DeleteWhereId(old(table.rows), Some(k))
                            else old(table.rows)
      ensures table.nextId == old(table.nextId) && table.issued == old(table.issued)
      ensures refetched == (deleted && !schemaFault && !queryFault)
      ensures contacts == if refetched then table.rows else old(contacts)
      ensures refetched ==> forall c :: c in contacts ==> c.id != k
      ensures deleted ==> !isLoading && table.created
      ensures !deleted ==>
                contacts == old(contacts) && isLoading == old(isLoading) && table.created == old(table.created)
      ensures refreshing == old(refreshing)
    {
      deleted, refetched := false, false;
      if answer == Cancel {
        return;
      }
      var r := table.DeleteById(k, deleteFault);
      if r.Err? {
        return;
      }
      deleted := true;
      DeleteByIdRemovesOnly(old(table.rows), k);
      refetched := FetchContacts(table, schemaFault, queryFault);
    }
  }
}
