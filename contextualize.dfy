/**
 * The `contextualize` service: wrap a child object so that it carries a
 * `context` capability pointing at a given parent, and warn when the
 * parent's composition does not list the child, unless the child is
 * being edited (its editor reports being in an edit context).
 */
module Contextualize {
  import opened Base

  /** A parent object: its id and its model, whose `composition` lists child ids. */
  datatype ParentObject = ParentObject(id: string, model: Model)

  /** The wrapper: it answers for the child and exposes a context capability. */
  datatype ContextualObject = ContextualObject(child: ObjectView, parent: ParentObject) {
    function GetId(): string {
      child.id
    }

    /** The context capability's `getParent()`. */
    function GetParent(): ParentObject {
      parent
    }
  }

  /** The wrapper and whether a warning was logged. */
  datatype Contextualized = Contextualized(wrapper: ContextualObject, warned: bool)

  /** The parent's composition (an absent one counts as empty) lists `id`. */
  predicate Lists(parent: ParentObject, id: string) {
    id in parent.model.composition.GetOr([])
  }

  function Contextualize(child: ObjectView, parent: ParentObject): (r: Contextualized)
    ensures r.wrapper.GetId() == child.id
    ensures r.wrapper.GetParent() == parent
    ensures r.warned <==> !InEditContext(child) && !Lists(parent, child.id)
  {
    // Validation is skipped while the child is being edited.
    var validate := !(child.editor.Some? && child.editor.value.inEditContext);
    var missing := IndexOf(parent.model.composition.GetOr([]), child.id) == -1;
    Contextualized(ContextualObject(child, parent), validate && missing)
  }
}
