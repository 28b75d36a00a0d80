/**
 * Values shared by every part of the model: optional values, settled
 * promises, the JavaScript values that flow through them, and the
 * persisted model of a domain object.
 */
module Base {

  datatype Option<T> = None | Some(value: T) {
    function GetOr(default: T): T {
      match this
      case Some(v) => v
      case None => default
    }
  }

  /**
   * A JavaScript value as far as this model inspects it.  Numbers are
   * integers here (no NaN, no fractions).
   */
  datatype JsValue =
    | Undefined
    | Null
    | Bool(b: bool)
    | Num(n: int)
    | Str(s: string)
    | Arr(items: seq<JsValue>)
    | Obj(fields: map<string, JsValue>)

  /** JavaScript truthiness. Every array and every object is truthy. */
  predicate Truthy(v: JsValue) {
    match v
    case Undefined => false
    case Null => false
    case Bool(b) => b
    case Num(n) => n != 0
    case Str(s) => s != ""
    case Arr(_) => true
    case Obj(_) => true
  }

  /**
   * The value a promise is rejected with.  `Failure` is any truthy value
   * that is not a string (an Error object, say); `message` is its string
   * `message` property, when it has one.
   */
  datatype ErrorValue =
    | Falsy
    | Text(s: string)
    | Failure(message: Option<string>)

  predicate ErrorTruthy(e: ErrorValue) {
    match e
    case Falsy => false
    case Text(s) => s != ""
    case Failure(_) => true
  }

  /** A settled promise: resolved with a value or rejected with an error. */
  datatype Outcome<T> = Resolved(value: T) | Rejected(error: ErrorValue)

  /**
   * The fields of a domain object's model that the edit and persistence
   * engine reads.  `persisted` is None for an object never written to a
   * store; `modified` is None for an object never mutated.
   */
  datatype Model = Model(
    name: Option<string>,
    modified: Option<int>,
    persisted: Option<int>,
    location: Option<string>,
    composition: Option<seq<string>>
  )

  /**
   * What an action or policy sees of a domain object: its id, its editor
   * capability (None when the object has none) and its `persisted` stamp.
   */
  datatype ObjectView = ObjectView(id: string, editor: Option<EditorView>, persisted: Option<int>)

  /** The answers of an editor capability's two queries. */
  datatype EditorView = EditorView(isEditContextRoot: bool, inEditContext: bool)

  /** The object has an editor capability and it reports being the edit root. */
  predicate IsEditRoot(o: ObjectView) {
    o.editor.Some? && o.editor.value.isEditContextRoot
  }

  /** The object has an editor capability and it reports being in an edit context. */
  predicate InEditContext(o: ObjectView) {
    o.editor.Some? && o.editor.value.inEditContext
  }

  /**
   * `Array.prototype.indexOf`: the first position of `x` in `s`, or -1
   * when `x` does not occur.
   */
  function IndexOf<T(==)>(s: seq<T>, x: T): (r: int)
    ensures -1 <= r < |s|
    ensures r == -1 <==> x !in s
    ensures r >= 0 ==> s[r] == x && x !in s[..r]
  {
    if s == [] then -1
    else if s[0] == x then 0
    else
      var k := IndexOf(s[1..], x);
      if k == -1 then -1
      else
        assert s[..k + 1] == [s[0]] + s[1..][..k];
        k + 1
  }
}
