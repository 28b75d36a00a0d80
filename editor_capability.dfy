/**
 * The `editor` capability: a per-object state machine that opens an edit
 * session (a transaction) and closes it by committing or cancelling.  The
 * editing state is the object's `editing` status flag; whether the object
 * is inside an edit is found by walking up its context (parent) chain.
 *
 * The status capability and the transaction service are collaborators,
 * modelled as the small classes below: a flag, and a queue of pending
 * operations with a log of the calls made to it.
 */
module EditorCapability {

  /** Calls made to the transaction service, in order. */
  datatype TransactionCall = StartCall | CommitCall | CancelCall

  /** An object's status capability, as far as the `editing` flag goes. */
  class Status {
    var editing: bool

    constructor (editing: bool)
      ensures this.editing == editing
    {
      this.editing := editing;
    }
  }

  /**
   * The transaction service: while active, operations are queued (one
   * entry per object id) instead of run; commit runs and clears the
   * queue, cancel drops it.  The queueing itself is done by persistence
   * calls outside this model, so `pending` is only read and cleared here.
   */
  class TransactionService {
    var active: bool
    var pending: seq<string>
    var calls: seq<TransactionCall>

    constructor ()
      ensures !active && pending == [] && calls == []
    {
      active, pending, calls := false, [], [];
    }

    function Size(): nat
      reads this
    {
      |pending|
    }

    method StartTransaction()
      modifies this
      ensures active && pending == old(pending)
      ensures calls == old(calls) + [StartCall]
    {
      active := true;
      calls := calls + [StartCall];
    }

    /** Run every queued operation; `succeeded` is whether all of them did. */
    method CommitAll(succeeded: bool) returns (ok: bool)
      modifies this
      ensures ok == succeeded
      ensures !active && pending == []
      ensures calls == old(calls) + [CommitCall]
    {
      active, pending := false, [];
      calls := calls + [CommitCall];
      ok := succeeded;
    }

    method CancelAll()
      modifies this
      ensures !active && pending == []
      ensures calls == old(calls) + [CancelCall]
    {
      active, pending := false, [];
      calls := calls + [CancelCall];
    }
  }

  /**
   * Some object of `chain` has its `editing` flag set.  The chain starts
   * at an object and follows `getParent()` for as long as there is a
   * context capability.
   */
  function IsEditing(chain: seq<Status>): (r: bool)
    reads set s | s in chain
    ensures r <==> exists i :: 0 <= i < |chain| && chain[i].editing
  {
    if chain == [] then false
    else if chain[0].editing then true
    else
      var rest := IsEditing(chain[1..]);
      assert forall i :: 1 <= i < |chain| ==> chain[i] == chain[1..][i - 1];
      rest
  }

  class Editor {
    const transactions: TransactionService
    const status: Status
    /** The status of the parent, grandparent, ... reached through the context capability. */
    const ancestors: seq<Status>

    constructor (transactions: TransactionService, status: Status, ancestors: seq<Status>)
      ensures this.transactions == transactions && this.status == status && this.ancestors == ancestors
    {
      this.transactions := transactions;
      this.status := status;
      this.ancestors := ancestors;
    }

    /** Start a transaction and set the object's `editing` status. */
    method Edit()
      modifies transactions, status
      ensures status.editing
      ensures transactions.active && transactions.pending == old(transactions.pending)
      ensures transactions.calls == old(transactions.calls) + [StartCall]
    {
      transactions.StartTransaction();
      status.editing := true;
    }

    /** The object itself started the edit: its own `editing` status. */
    function IsEditContextRoot(): (r: bool)
      reads status
      ensures r == status.editing
      ensures r ==> InEditContext()
    {
      status.editing
    }

    /** The object or one of its ancestors is being edited. */
    function InEditContext(): (r: bool)
      reads status, set s | s in ancestors
      ensures r <==> status.editing || exists i :: 0 <= i < |ancestors| && ancestors[i].editing
    {
      var chain := [status] + ancestors;
      assert forall i :: 0 <= i < |ancestors| ==> ancestors[i] == chain[i + 1];
      IsEditing(chain)
    }

    /** Commit the transaction and clear the `editing` status. */
    method Save(succeeded: bool) returns (ok: bool)
      modifies transactions, status
      ensures ok == succeeded
      ensures !status.editing
      ensures !transactions.active && transactions.pending == []
      ensures transactions.calls == old(transactions.calls) + [CommitCall]
    {
      ok := transactions.CommitAll(succeeded);
      status.editing := false;
    }

    /** Cancel the transaction and clear the `editing` status. */
    method Cancel()
      modifies transactions, status
      ensures !status.editing
      ensures !transactions.active && transactions.pending == []
      ensures transactions.calls == old(transactions.calls) + [CancelCall]
    {
      transactions.CancelAll();
      status.editing := false;
    }

    /** Unsaved work exists: the transaction holds queued operations. */
    function Dirty(): (r: bool)
      reads transactions
      ensures r <==> transactions.pending != []
    {
      transactions.Size() > 0
    }
  }
}
