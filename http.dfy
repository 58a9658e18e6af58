/** Responses the route handlers produce, and the required-field validation
    that runs before each handler body (express-validator's `not().isEmpty()`). */
module Http {
  import opened Options

  /** A user id, compared as a string (`ObjectId.toString()` against the token's id). */
  type UserId = string

  /** Every way a handler ends without doing its job. */
  datatype Error =
    | Invalid(messages: seq<string>)   // 400 carrying the validator's error list, in check order
    | Reply(status: nat, msg: string)  // res.status(status).json({ msg })
    | ServerError(text: string)        // 500 sent from the handler's catch block
    | Unhandled(exception: string)     // thrown outside every try block: the handler sends nothing

  /** A handler that changes a document and saves it either passes or fails. */
  datatype Outcome = Pass | Fail(error: Error)

  /** The in-memory step of a handler: the new value of the collection it edits, or an error. */
  datatype Result<T> = Ok(value: T) | Err(error: Error)

  /** The value a handler's Outcome and the document's new field stand for together. */
  function Saved<T>(o: Outcome, v: T): (r: Result<T>)
    ensures r.Ok? <==> o.Pass?
  {
    match o
    case Pass => Ok(v)
    case Fail(e) => Err(e)
  }

  /** The messages of the required fields that are empty, in the order the checks are listed.
      Each check is a (field value, message) pair. */
  function Required(checks: seq<(string, string)>): (errs: seq<string>)
    ensures |errs| <= |checks|
    ensures errs == [] <==> forall i :: 0 <= i < |checks| ==> checks[i].0 != ""
  {
    if checks == [] then []
    else (if checks[0].0 == "" then [checks[0].1] else []) + Required(checks[1..])
  }

  /** A single check. */
  lemma RequiredOne(value: string, message: string)
    ensures Required([(value, message)]) == if value == "" then [message] else []
  {
    assert [(value, message)][1..] == [];
  }

  /** A failed check contributes its message, and the checks keep their order in the list. */
  lemma {:induction false} RequiredConcat(a: seq<(string, string)>, b: seq<(string, string)>)
    ensures Required(a + b) == Required(a) + Required(b)
  {
    if a == [] {
      assert a + b == b;
    } else {
      assert (a + b)[1..] == a[1..] + b;
      RequiredConcat(a[1..], b);
    }
  }
}
