/**
 * The Cancel action: discard the edits of the object being edited and
 * navigate away from the editing view.
 */
module CancelAction {
  import opened Base
  import opened EditorCapability

  /** Applies to an object that has an editor capability and is the edit-context root. */
  function AppliesTo(domainObject: Option<ObjectView>): (r: bool)
    ensures r <==> domainObject.Some? && IsEditRoot(domainObject.value)
  {
    domainObject.Some? && domainObject.value.editor.Some? && domainObject.value.editor.value.isEditContextRoot
  }

  /**
   * Cancel the edit through the editor capability, then choose where to
   * navigate: the original object (the location capability's
   * `getOriginal()`) when the object was persisted before, its parent (the
   * context capability's `getParent()`) when it never was.
   */
  method Perform(editor: Editor, persisted: Option<int>, original: string, parent: string) returns (navigateTo: string)
    modifies editor.transactions, editor.status
    ensures editor.transactions.calls == old(editor.transactions.calls) + [CancelCall]
    ensures !editor.status.editing
    ensures !editor.transactions.active && editor.transactions.pending == []
    ensures navigateTo == if persisted.Some? then original else parent
  {
    editor.Cancel();
    if persisted.Some? {
      navigateTo := original;
    } else {
      navigateTo := parent;
    }
  }
}
