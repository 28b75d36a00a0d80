/**
 * A domain object: an identity plus a model that changes only through
 * the object's mutation capability.  The mutation capability itself is
 * a collaborator; this module keeps the log of requests made to it and
 * applies its stamping rule (see `Stamped`).
 */
module DomainObjects {
  import opened Base

  /** One call to the mutation capability: the model the transform produced and the timestamp argument. */
  datatype MutationRequest = MutationRequest(result: Model, timestamp: Option<int>)

  /**
   * The model after a mutation: the transform's result, with `modified`
   * set to the timestamp argument, or to the clock's reading `now` when
   * no timestamp is given.
   */
  function Stamped(result: Model, timestamp: Option<int>, now: int): Model {
    result.(modified := Some(timestamp.GetOr(now)))
  }

  class DomainObject {
    const id: string
    var model: Model
    var mutations: seq<MutationRequest>

    constructor (id: string, model: Model)
      ensures this.id == id && this.model == model && mutations == []
    {
      this.id := id;
      this.model := model;
      mutations := [];
    }

    /** `useCapability("mutation", transform, timestamp)`, with `result` the transform's output. */
    method Mutate(result: Model, timestamp: Option<int>, now: int)
      modifies this
      ensures model == Stamped(result, timestamp, now)
      ensures mutations == old(mutations) + [MutationRequest(result, timestamp)]
    {
      model := Stamped(result, timestamp, now);
      mutations := mutations + [MutationRequest(result, timestamp)];
    }
  }
}
