/** The page's mutable state: the transaction list and the edit-mode flag,
    with the form actions that change them. */
module ExpenseTracker {
  import opened Records
  import opened Repository

  class Tracker {
    /** The in-memory transaction list. */
    var transactions: seq<Transaction>
    /** The identifier of the record being edited; `None` in create mode. */
    var editingId: Option<Id>

    /** Start-up: create mode, with the list that was loaded from storage. */
    constructor (loaded: seq<Transaction>)
      ensures transactions == loaded && editingId == None
    {
      transactions := loaded;
      editingId := None;
    }

    /** `if(editingId)`: edit mode is on when the flag holds a non-empty identifier. */
    predicate Editing()
      reads this
    {
      editingId.Some? && editingId.value != ""
    }

    /** `addTx`: validate the form; in edit mode update the edited record in
        place, otherwise append a new record under `freshId`, the identifier
        `uid()` produced. Returns whether the submission passed validation. */
    method Submit(draft: Draft, freshId: Id) returns (accepted: bool)
      modifies this
      ensures accepted == Acceptable(draft)
      ensures !accepted ==> transactions == old(transactions) && editingId == old(editingId)
      ensures accepted && !old(Editing()) ==>
                transactions == old(transactions) + [Record(freshId, draft)]
                && editingId == old(editingId)
      ensures accepted && old(Editing()) && old(editingId).value !in old(Ids(transactions)) ==>
                transactions == old(transactions) && editingId == old(editingId)
      ensures accepted && old(Editing()) && old(editingId).value in old(Ids(transactions)) ==>
                var i := IndexOfId(old(transactions), old(editingId).value).value;
                transactions == old(transactions)[i := Record(old(transactions)[i].id, draft)]
                && editingId == None
      ensures UniqueIds(old(transactions)) && (old(Editing()) || freshId !in old(Ids(transactions))) ==>
                UniqueIds(transactions)
    {
      if !Acceptable(draft) {
        return false;
      }
      accepted := true;
      if Editing() {
        var idx := IndexOfId(transactions, editingId.value);
        if idx.Some? {
          UpdateThenFind(transactions, editingId.value, draft);
          var i := idx.value;
          transactions := transactions[i := Record(transactions[i].id, draft)];
          editingId := None;
        }
      } else {
        var tx := Record(freshId, draft);
        if freshId !in Ids(transactions) {
          AppendThenFind(transactions, tx);
        }
        transactions := transactions + [tx];
      }
    }

    /** `deleteTx`: remove every record with identifier `id`. The edit-mode
        flag is left as it is, even when it names `id`. */
    method DeleteTx(id: Id)
      modifies this
      ensures transactions == WithoutId(old(transactions), id)
      ensures editingId == old(editingId)
      ensures id !in Ids(transactions) && Ids(transactions) == old(Ids(transactions)) - {id}
      ensures UniqueIds(old(transactions)) ==> UniqueIds(transactions)
    {
      WithoutIdSpec(transactions, id);
      if UniqueIds(transactions) {
        WithoutIdKeepsUnique(transactions, id);
      }
      transactions := WithoutId(transactions, id);
    }

    /** The Delete button: deletes only after the user confirmed. */
    method RequestDelete(id: Id, confirmed: bool)
      modifies this
      ensures transactions == if confirmed then WithoutId(old(transactions), id) else old(transactions)
      ensures editingId == old(editingId)
    {
      if confirmed {
        DeleteTx(id);
      }
    }

    /** `startEdit`: on a known identifier, enter edit mode for it and return
        the first record with that identifier (whose fields fill the form);
        on an unknown identifier change nothing. */
    method StartEdit(id: Id) returns (loaded: Option<Transaction>)
      modifies this
      ensures transactions == old(transactions)
      ensures id in Ids(transactions) ==>
                editingId == Some(id)
                && loaded.Some? && loaded.value == transactions[IndexOfId(transactions, id).value]
      ensures id !in Ids(transactions) ==> editingId == old(editingId) && loaded == None
    {
      var idx := IndexOfId(transactions, id);
      if idx.None? {
        return None;
      }
      loaded := Some(transactions[idx.value]);
      editingId := Some(id);
    }

    /** `cancelEdit`: back to create mode; the list is untouched. */
    method CancelEdit()
      modifies this
      ensures transactions == old(transactions)
      ensures editingId == None && !Editing()
    {
      editingId := None;
    }

    /** `clearAll`: empty the list, only after the user confirmed. */
    method ClearAll(confirmed: bool)
      modifies this
      ensures transactions == if confirmed then [] else old(transactions)
      ensures editingId == old(editingId)
    {
      if confirmed {
        transactions := [];
      }
    }
  }
}
