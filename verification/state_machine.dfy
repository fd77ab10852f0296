/** The string status machine of `useStateMachine`: a status string plus
    a sticky error and a sticky value. */
module StateMachine {
  import opened Results
  import opened Js

  const IDLE := "IDLE"
  const LOADING := "LOADING"
  const PROCESSING := "PROCESSING"
  const ERROR := "ERROR"
  const READY := "READY"
  const PENDING := "PENDING"

  /** The `string | Error` an error may be. */
  datatype ErrorValue = Message(text: string) | ErrorObject(message: string)

  /** `if (error)`: an empty message string is falsy, an `Error` never is. */
  predicate ErrorTruthy(e: Option<ErrorValue>) {
    match e
    case None => false
    case Some(Message(text)) => text != ""
    case Some(ErrorObject(_)) => true
  }

  datatype Machine = Machine(status: string, error: Option<ErrorValue>, value: JsValue)

  /** `useStateMachine(initialStatus, initialValue)`: `??` falls back to
      "IDLE" only for a missing status, so an empty string is kept. */
  function Init(initialStatus: Option<string>, initialValue: JsValue): (m: Machine)
    ensures initialStatus.None? ==> m.status == IDLE
    ensures initialStatus.Some? ==> m.status == initialStatus.value
    ensures m.error.None? && m.value == initialValue
  {
    Machine(initialStatus.GetOr(IDLE), None, initialValue)
  }

  /** `statusIs(...args)`: `args.some(s => s === status)`. */
  predicate StatusIs(m: Machine, args: seq<string>)
    ensures StatusIs(m, args) <==> exists i :: 0 <= i < |args| && args[i] == m.status
    decreases |args|
  {
    |args| > 0 && (args[0] == m.status || StatusIs(m, args[1..]))
  }

  /** `statusIsnt(...args)`: `args.every(s => s !== status)`. */
  predicate StatusIsnt(m: Machine, args: seq<string>)
    ensures StatusIsnt(m, args) <==> forall i :: 0 <= i < |args| ==> args[i] != m.status
    decreases |args|
  {
    |args| == 0 || (args[0] != m.status && StatusIsnt(m, args[1..]))
  }

  lemma StatusIsntIsNegation(m: Machine, args: seq<string>)
    ensures StatusIsnt(m, args) <==> !StatusIs(m, args)
    ensures !StatusIs(m, []) && StatusIsnt(m, [])
  {
  }

  /** `statusSetter(newStatus, error, value)`: the status is always
      replaced; error and value only when the new ones are truthy. */
  function SetStatus(m: Machine, newStatus: string, error: Option<ErrorValue>, value: JsValue): (r: Machine)
    ensures r.status == newStatus
    ensures ErrorTruthy(error) ==> r.error == error
    ensures !ErrorTruthy(error) ==> r.error == m.error
    ensures Truthy(value) ==> r.value == value
    ensures !Truthy(value) ==> r.value == m.value
  {
    Machine(newStatus,
            if ErrorTruthy(error) then error else m.error,
            if Truthy(value) then value else m.value)
  }

  /** Setting only a status, as the upload manager always does. */
  function SetOnly(m: Machine, newStatus: string): (r: Machine)
    ensures r.status == newStatus && r.error == m.error && r.value == m.value
  {
    SetStatus(m, newStatus, None, Undefined)
  }

  /** An error, once set, survives every later status change that does
      not bring a truthy error of its own. */
  lemma {:induction false} ErrorPersists(m: Machine, statuses: seq<string>)
    ensures SetAll(m, statuses).error == m.error
    ensures |statuses| > 0 ==> SetAll(m, statuses).status == statuses[|statuses| - 1]
    decreases |statuses|
  {
    if |statuses| > 0 {
      ErrorPersists(m, statuses[..|statuses| - 1]);
    }
  }

  function SetAll(m: Machine, statuses: seq<string>): Machine
    decreases |statuses|
  {
    if |statuses| == 0 then m
    else SetOnly(SetAll(m, statuses[..|statuses| - 1]), statuses[|statuses| - 1])
  }

  /** `resetStatus(newStatus)`: `||` also turns an empty status into "IDLE". */
  function Reset(m: Machine, newStatus: string): (r: Machine)
    ensures newStatus == "" ==> r.status == IDLE
    ensures newStatus != "" ==> r.status == newStatus
    ensures r.error.None? && r.value == Undefined
  {
    Machine(if newStatus == "" then IDLE else newStatus, None, Undefined)
  }

  /** `getErrorString()`: a string error as it is, otherwise the error's
      message, otherwise `JSON.stringify(error)` ("{}" for an `Error`
      without message, `undefined` for no error). */
  function ErrorString(m: Machine): (r: Option<string>)
    ensures m.error.None? <==> r.None?
    ensures m.error.Some? && m.error.value.Message? ==> r == Some(m.error.value.text)
    ensures m.error.Some? && m.error.value.ErrorObject? && m.error.value.message != "" ==>
              r == Some(m.error.value.message)
  {
    match m.error
    case None => None
    case Some(Message(text)) => Some(text)
    case Some(ErrorObject(message)) => if message != "" then Some(message) else Some("{}")
  }
}
