/** How the script reacts to an HTTP status code: go on, or halt the run. */
module StatusCodes {

  datatype Status = Ok | Unauthorized | Fatal

  /**
   * `process_status_code`: 401 is checked first and halts as an
   * authentication failure; any code whose tens, rounded down, are not 20
   * halts as an unexpected status.
   */
  function Classify(code: int): (s: Status)
    ensures s == Unauthorized <==> code == 401
    ensures s == Ok <==> 200 <= code <= 209
    ensures s == Fatal <==> code != 401 && !(200 <= code <= 209)
  {
    if code == 401 then Unauthorized
    else if FloorDiv(code, 10) != 20 then Fatal
    else Ok
  }

  /** Python's `math.floor(a / b)` for a positive divisor. */
  function FloorDiv(a: int, b: int): (q: int)
    requires b > 0
    ensures q * b <= a < q * b + b
  {
    a / b
  }
}
