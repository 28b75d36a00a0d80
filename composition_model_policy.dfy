/**
 * The containment policy that lets a type hold other objects only when
 * its initial model has an array-valued `composition` property.
 */
module CompositionModelPolicy {
  import opened Base

  /**
   * `allow(candidate)` for a type whose initial model is `initialModel`
   * (Undefined when the type defines none).  A falsy model is read as
   * `{}`; only an object's own fields are looked at.
   */
  function Allow(initialModel: JsValue): (r: bool)
    ensures r <==> initialModel.Obj? && "composition" in initialModel.fields && initialModel.fields["composition"].Arr?
    ensures !Truthy(initialModel) ==> !r
  {
    var model := if Truthy(initialModel) then initialModel else Obj(map[]);
    model.Obj? && "composition" in model.fields && model.fields["composition"].Arr?
  }

  /** An empty composition is still a composition. */
  lemma EmptyCompositionAllowed(fields: map<string, JsValue>)
    requires "composition" in fields && fields["composition"] == Arr([])
    ensures Allow(Obj(fields))
  {
  }
}
