/**
 * Values shared by the back-end controllers: document identifiers, JSON-like
 * field values, the error codes a controller answers with, and the
 * "stop at the first failing check" pattern every controller follows.
 */
module Common {

  /** A document identifier (a MongoDB ObjectId); the store hands them out from a counter. */
  type Id = nat

  datatype Option<+T> = None | Some(value: T)

  /** A field value of a submitted request body or of a stored document. */
  datatype Value = Num(n: real) | Str(s: string) | Ref(id: Id)

  /** A JavaScript object: field name to value. */
  type Doc = map<string, Value>

  /** Reading `obj[key]`: `None` stands for `undefined`. */
  function Field(d: Doc, key: string): Option<Value>
  {
    if key in d then Some(d[key]) else None
  }

  /** The error codes the controllers put in the `errors` list of their answer. */
  datatype ErrorCode =
    | ValidationFailed
    | CategoryNotFound
    | SupplierNotFound
    | DuplicatedProduct
    | InvalidProductAvailableQuantity
    | InvalidProductPrice
    | PermissionDenied
    | ProductNotFound
    | InvalidWorkMonth
    | InvalidWorkYear
    | DuplicatedWorkSchedule
    | WorkScheduleNotFound
    | InvalidWorkShiftTimeRange
    | DuplicatedWorkShift

  const OK: int := 200
  const BAD_REQUEST: int := 400
  const UNAUTHORIZED: int := 401
  const NOT_FOUND: int := 404

  /** The HTTP status each error is answered with. */
  function StatusOf(e: ErrorCode): int
  {
    match e
    case CategoryNotFound | SupplierNotFound | ProductNotFound | WorkScheduleNotFound => NOT_FOUND
    case PermissionDenied => UNAUTHORIZED
    case _ => BAD_REQUEST
  }

  /** What a controller answers: the created or updated data, or one error code. */
  datatype Response<+T> = Ok(data: T) | Err(code: ErrorCode)
  {
    function Status(): int
    {
      if Ok? then OK else StatusOf(code)
    }
  }

  /** One guard of a controller: whether it passes and the error it answers with when it does not. */
  datatype Check = Check(passes: bool, code: ErrorCode)

  /**
   * A controller's early returns: the checks run in order and the first one
   * that fails decides the answer; `None` means every check passed.
   */
  function FirstFailure(checks: seq<Check>): (r: Option<ErrorCode>)
    ensures r.None? <==> forall i :: 0 <= i < |checks| ==> checks[i].passes
    ensures r.Some? ==>
      exists i :: 0 <= i < |checks| && !checks[i].passes && checks[i].code == r.value &&
        forall j :: 0 <= j < i ==> checks[j].passes
  {
    if checks == [] then None
    else if !checks[0].passes then Some(checks[0].code)
    else
      var rest := FirstFailure(checks[1..]);
      assert forall i :: 1 <= i < |checks| ==> checks[i] == checks[1..][i - 1];
      rest
  }

  /** The failing check that comes first wins, whatever the checks after it say. */
  lemma {:induction false} FirstFailureAt(checks: seq<Check>, i: nat)
    requires i < |checks| && !checks[i].passes
    requires forall j :: 0 <= j < i ==> checks[j].passes
    ensures FirstFailure(checks) == Some(checks[i].code)
  {
    if i > 0 {
      FirstFailureAt(checks[1..], i - 1);
    }
  }
}
