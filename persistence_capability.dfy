/**
 * The `persistence` capability of a domain object: write the object's
 * model to a persistence store (create or update), reload it from the
 * store, and name the (space, key) address it lives at.
 *
 * The store, the identifier service and the notification service are
 * collaborators.  What the store's promise settles to is a parameter;
 * the identifier service's parser is a function value; a notification is
 * returned instead of being shown.
 */
module PersistenceCapability {
  import opened Base
  import opened DomainObjects

  /** A parsed identifier: the store space and the key within it. */
  datatype Identifier = Identifier(space: string, key: string)

  /** The write the capability asks of the store. */
  datatype StoreCall =
    | CreateObject(space: string, key: string, model: Model)
    | UpdateObject(space: string, key: string, model: Model)

  /** An error notification as handed to the notification service. */
  datatype Notification = Notification(title: string, hint: string, dismissable: bool)

  /** How a persist call ends: its promise's outcome and the notification raised, if any. */
  datatype Settlement = Settlement(outcome: Outcome<JsValue>, notification: Option<Notification>)

  const FalsyResultMessage := "Error persisting object"
  const UnknownErrorMessage := "unknown error"

  /** A store result that is falsy becomes a rejection; a truthy one passes through unchanged. */
  function RejectIfFalsey(value: JsValue): (r: Outcome<JsValue>)
    ensures r.Resolved? <==> Truthy(value)
    ensures r.Resolved? ==> r.value == value
    ensures r.Rejected? ==> r.error == Text(FalsyResultMessage)
  {
    if !Truthy(value) then Rejected(Text(FalsyResultMessage)) else Resolved(value)
  }

  /** The error carries a non-empty string `message`. */
  predicate HasMessage(error: ErrorValue) {
    error.Failure? && error.message.Some? && error.message.value != ""
  }

  /** Best-effort text of an error: its message, else the error itself if a non-empty string, else "unknown error". */
  function FormatError(error: ErrorValue): (r: string)
    ensures r != ""
    ensures HasMessage(error) ==> r == error.message.value
    ensures error.Text? && error.s != "" ==> r == error.s
    ensures !HasMessage(error) && !(error.Text? && error.s != "") ==> r == UnknownErrorMessage
  {
    if HasMessage(error) then error.message.value
    else if error.Text? && error.s != "" then error.s
    else UnknownErrorMessage
  }

  /** A model's `name` as string concatenation renders it. */
  function ShownName(name: Option<string>): string {
    name.GetOr("undefined")
  }

  /** The dismissable notification raised when persisting an object named `name` fails with `error`. */
  function NotifyOnError(error: ErrorValue, name: Option<string>): (n: Notification)
    ensures n.dismissable
    ensures n.title == "Error persisting " + ShownName(name)
    ensures ErrorTruthy(error) ==> n.hint == "Unable to persist " + ShownName(name) + ": " + FormatError(error)
    ensures !ErrorTruthy(error) ==> n.hint == "Unable to persist " + ShownName(name)
  {
    var hint := "Unable to persist " + ShownName(name);
    Notification(
      "Error persisting " + ShownName(name),
      if ErrorTruthy(error) then hint + ": " + FormatError(error) else hint,
      true)
  }

  /**
   * The store's reply run through `then(rejectIfFalsey).catch(notifyOnError)`:
   * success exactly for a truthy result, which passes through unchanged;
   * every failure is notified and re-rejected, a store rejection with its
   * own error.
   */
  function Settle(reply: Outcome<JsValue>, name: Option<string>): (s: Settlement)
    ensures s.outcome.Resolved? <==> reply.Resolved? && Truthy(reply.value)
    ensures s.outcome.Resolved? ==> s.outcome == reply
    ensures reply.Rejected? ==> s.outcome == reply
    ensures reply.Resolved? && !Truthy(reply.value) ==> s.outcome == Rejected(Text(FalsyResultMessage))
    ensures s.notification.Some? <==> s.outcome.Rejected?
    ensures s.outcome.Rejected? ==> s.notification == Some(NotifyOnError(s.outcome.error, name))
  {
    match reply
    case Resolved(v) =>
      var r := RejectIfFalsey(v);
      if r.Resolved? then Settlement(r, None) else Settlement(r, Some(NotifyOnError(r.error, name)))
    case Rejected(e) =>
      Settlement(reply, Some(NotifyOnError(e, name)))
  }

  /** The hint names the object and, for a truthy error, ends with that error's text. */
  lemma HintDescribesError(error: ErrorValue, name: Option<string>)
    ensures var n := NotifyOnError(error, name);
      var base := "Unable to persist " + ShownName(name);
      && |n.hint| >= |base| && n.hint[..|base|] == base
      && (ErrorTruthy(error) <==> |n.hint| > |base|)
      && (ErrorTruthy(error) ==> n.hint[|n.hint| - |FormatError(error)|..] == FormatError(error))
  {
    var n := NotifyOnError(error, name);
    var base := "Unable to persist " + ShownName(name);
    if ErrorTruthy(error) {
      assert n.hint == base + (": " + FormatError(error));
    }
  }

  class PersistenceCapability {
    const domainObject: DomainObject
    /** The identifier service's `parse`, as far as space and key go. */
    const parse: string -> Identifier

    constructor (domainObject: DomainObject, parse: string -> Identifier)
      ensures this.domainObject == domainObject && this.parse == parse
    {
      this.domainObject := domainObject;
      this.parse := parse;
    }

    /** The space of the object, from its id alone. */
    function GetSpace(): (r: string)
      ensures r == parse(domainObject.id).space
    {
      parse(domainObject.id).space
    }

    /** The key of the object, from its id alone. */
    function GetKey(): (r: string)
      ensures r == parse(domainObject.id).key
    {
      parse(domainObject.id).key
    }

    /**
     * Stamp `persisted := modified` through the mutation capability
     * (passing the entry-time `modified` as its timestamp), then write the
     * stamped model with `updateObject` if the object had been persisted
     * before and with `createObject` otherwise.  `now` is the mutation
     * capability's clock and `reply` what the store's write settles to.
     */
    method Persist(now: int, reply: Outcome<JsValue>) returns (call: StoreCall, settled: Settlement)
      modifies domainObject
      ensures var m0 := old(domainObject.model);
        && domainObject.mutations == old(domainObject.mutations) + [MutationRequest(m0.(persisted := m0.modified), m0.modified)]
        && domainObject.model == Stamped(m0.(persisted := m0.modified), m0.modified, now)
      ensures domainObject.model.persisted == old(domainObject.model.modified)
      ensures old(domainObject.model.modified).Some? ==> domainObject.model.modified == domainObject.model.persisted
      ensures old(domainObject.model.persisted).Some? ==> call == UpdateObject(GetSpace(), GetKey(), domainObject.model)
      ensures old(domainObject.model.persisted).None? ==> call == CreateObject(GetSpace(), GetKey(), domainObject.model)
      ensures settled == Settle(reply, domainObject.model.name)
    {
      var model := domainObject.model;
      var modified := model.modified;
      var update := model.persisted.Some?;
      domainObject.Mutate(model.(persisted := modified), modified, now);
      if update {
        call := UpdateObject(GetSpace(), GetKey(), domainObject.model);
      } else {
        call := CreateObject(GetSpace(), GetKey(), domainObject.model);
      }
      settled := Settle(reply, domainObject.model.name);
    }

    /**
     * Reload the model from the store.  A never-persisted object succeeds
     * with `true` at once and the store is not read; otherwise the object
     * is read at (space, key) and, when the read succeeds, its whole model
     * is replaced through the mutation capability with the read model's
     * own `modified` as timestamp.  `read` is the address read, if any.
     */
    method Refresh(now: int, reply: Outcome<Model>) returns (read: Option<Identifier>, outcome: Outcome<bool>)
      modifies domainObject
      ensures old(domainObject.model.persisted).None? ==>
        && read == None && outcome == Resolved(true)
        && domainObject.model == old(domainObject.model)
        && domainObject.mutations == old(domainObject.mutations)
      ensures old(domainObject.model.persisted).Some? ==> read == Some(Identifier(GetSpace(), GetKey()))
      ensures old(domainObject.model.persisted).Some? && reply.Resolved? ==>
        && outcome == Resolved(true)
        && domainObject.model == Stamped(reply.value, reply.value.modified, now)
        && domainObject.mutations == old(domainObject.mutations) + [MutationRequest(reply.value, reply.value.modified)]
      ensures old(domainObject.model.persisted).Some? && reply.Rejected? ==>
        && outcome == Rejected(reply.error)
        && domainObject.model == old(domainObject.model)
        && domainObject.mutations == old(domainObject.mutations)
    {
      if domainObject.model.persisted.None? {
        return None, Resolved(true);
      }
      read := Some(Identifier(GetSpace(), GetKey()));
      match reply
      case Resolved(m) =>
        domainObject.Mutate(m, m.modified, now);
        outcome := Resolved(true);
      case Rejected(e) =>
        outcome := Rejected(e);
    }
  }

  /** A refresh that succeeds replaces the model by the stored one exactly when that one carries a `modified` stamp. */
  lemma RefreshReplacesModel(stored: Model, now: int)
    requires stored.modified.Some?
    ensures Stamped(stored, stored.modified, now) == stored
  {
  }

  /** Two capabilities over objects with the same id and the same parser address the same (space, key). */
  lemma AddressDependsOnlyOnId(a: PersistenceCapability, b: PersistenceCapability)
    requires a.parse == b.parse && a.domainObject.id == b.domainObject.id
    ensures a.GetSpace() == b.GetSpace() && a.GetKey() == b.GetKey()
  {
  }
}
