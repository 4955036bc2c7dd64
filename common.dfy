/** Values shared by every controller: optional values, request fields as the
    JSON body or query string delivers them, and the HTTP reply of a handler. */
module Common {

  datatype Option<+T> = None | Some(value: T) {
    function GetOr(default: T): T {
      match this
      case Some(v) => v
      case None => default
    }
  }

  /** Identifiers are the UUID strings the store generates. */
  type Id = string

  /** A field of a request body or query: missing (`undefined`), an explicit
      JSON `null`, or a string. */
  datatype Field = Absent | Null | Text(s: string)

  /** JavaScript truthiness of a field: only a non-empty string is truthy. */
  predicate Truthy(f: Field) {
    f.Text? && f.s != ""
  }

  /** The error statuses the handlers answer with. */
  datatype Code = BadRequest | Unauthorized | Forbidden | NotFound | ServerError

  function HttpStatus(c: Code): nat {
    match c
    case BadRequest => 400
    case Unauthorized => 401
    case Forbidden => 403
    case NotFound => 404
    case ServerError => 500
  }

  /** What a handler sends: 200 with a body, 201 with the created record, or
      an error status with its message. */
  datatype Reply<+T> = Ok(value: T) | Created(value: T) | Err(code: Code, message: string)

  /** Decimal rendering of a count, as a template literal prints it. */
  function NatToString(n: nat): (r: string)
    ensures |r| >= 1
    ensures forall i :: 0 <= i < |r| ==> '0' <= r[i] <= '9'
    decreases n
  {
    if n < 10 then [Digit(n)] else NatToString(n / 10) + [Digit(n % 10)]
  }

  function Digit(d: nat): (c: char)
    requires d < 10
    ensures '0' <= c <= '9' && c as int - '0' as int == d
  {
    ('0' as int + d) as char
  }

  /** The number a string of decimal digits denotes. */
  function DecimalValue(s: string): nat
    requires forall i :: 0 <= i < |s| ==> '0' <= s[i] <= '9'
    decreases |s|
  {
    if s == [] then 0 else 10 * DecimalValue(s[..|s| - 1]) + (s[|s| - 1] as int - '0' as int)
  }

  /** Reading back the digits of a count gives the count. */
  lemma {:induction false} NatToStringRoundTrip(n: nat)
    ensures DecimalValue(NatToString(n)) == n
    decreases n
  {
    if n >= 10 {
      NatToStringRoundTrip(n / 10);
      var s := NatToString(n);
      assert s[..|s| - 1] == NatToString(n / 10);
    }
  }
}
