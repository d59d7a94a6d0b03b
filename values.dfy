/**
 * PHP scalar values as they travel through the option arrays of both
 * Multiplayer revisions, with the two PHP conversions the code relies on:
 * `empty()` and string conversion for the `.` operator.
 */
module PhpValues {

  datatype Option<+T> = None | Some(value: T)

  /** A scalar option value: what a caller may put in the options array. */
  datatype Value = Null | Bool(b: bool) | Int(i: int) | Str(s: string)

  /**
   * PHP `empty($x)` on a scalar (and on a missing key, which reads as null):
   * null, false, 0, "" and "0" are empty, everything else is not.
   */
  predicate IsEmpty(v: Value) {
    match v
    case Null => true
    case Bool(b) => !b
    case Int(i) => i == 0
    case Str(s) => s == "" || s == "0"
  }

  /** PHP truthiness of a scalar, as tested by `if ($value && ...)`. */
  predicate Truthy(v: Value) {
    !IsEmpty(v)
  }

  /** The decimal digit for 0 <= d < 10. */
  function Digit(d: nat): (c: char)
    requires d < 10
    ensures '0' <= c <= '9'
  {
    "0123456789"[d]
  }

  /** Decimal rendering of a natural number, without leading zeros. */
  function NatToString(n: nat): (r: string)
    ensures |r| > 0
    ensures forall k :: 0 <= k < |r| ==> '0' <= r[k] <= '9'
    ensures n > 0 ==> r[0] != '0'
  {
    if n < 10 then [Digit(n)] else NatToString(n / 10) + [Digit(n % 10)]
  }

  /** PHP's conversion of an integer to a string. */
  function IntToString(i: int): string {
    if i < 0 then "-" + NatToString(-i) else NatToString(i)
  }

  /** PHP's conversion of a scalar to a string (`(string)$v`, as used by `.`). */
  function ToPhpString(v: Value): string {
    match v
    case Null => ""
    case Bool(b) => if b then "1" else ""
    case Int(i) => IntToString(i)
    case Str(s) => s
  }

  /**
   * A scalar is empty exactly when its string form is: null, false, 0, ""
   * and "0" become "" or "0", any other scalar a string PHP finds non-empty.
   */
  lemma EmptyIffStringEmpty(v: Value)
    ensures IsEmpty(v) <==> IsEmpty(Str(ToPhpString(v)))
  {
    if v.Int? {
      if v.i == 0 {
        assert ToPhpString(v) == [Digit(0)];
      } else if v.i < 0 {
        assert ToPhpString(v)[0] == '-';
      } else {
        assert ToPhpString(v)[0] != '0';
      }
    }
  }
}
