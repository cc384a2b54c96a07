/** Option, Result and Outcome: the model's stand-ins for null and for thrown exceptions. */
module Wrappers {

  datatype Option<+T> = None | Some(value: T) {
    function GetOr(default: T): T {
      match this
      case Some(v) => v
      case None => default
    }
  }

  datatype Result<+R, +E> = Success(value: R) | Failure(error: E)

  /** The result of an operation that returns nothing (a `void` method) or throws. */
  datatype Outcome<+E> = Pass | Fail(error: E)
}

/** Primitive types and string predicates shared by the whole domain. */
module Common {
  import opened Wrappers

  /** A `System.Guid`; only equality matters, so any integer stands for one. */
  type Guid = int

  /** A `System.DateTime`, as its tick count; `DateTime.MinValue` has zero ticks. */
  type DateTime = nat

  const MinValue: DateTime := 0

  /** The exceptions thrown by the core, one constructor per distinct failure. */
  datatype Error =
    | BlankArgument(param: string)      // ArgumentException: null, empty or white-space argument
    | MissingAt                         // ArgumentException: email without '@'
    | TooShort                          // ArgumentException: username shorter than 3 characters
    | RatingOutOfRange                  // ArgumentOutOfRangeException: rating outside 1..10
    | NullArgument(param: string)       // ArgumentNullException
    | DuplicateReview                   // InvalidOperationException: user already reviewed the title
    | TitleIdMismatch                   // InvalidOperationException: review.TitleId != title Id
    | UserNotFound                      // InvalidOperationException: "User not found"
    | TitleNotFound                     // InvalidOperationException: "Title not found"
    | MovieNotFound                     // InvalidOperationException: no such movie in the metadata source

  /** `char.IsWhiteSpace`: the Unicode separators plus U+0009..U+000D, U+0085 and U+00A0. */
  predicate IsWhiteSpace(c: char): (w: bool)
    ensures w && ' ' <= c <= '~' ==> c == ' '
  {
    var n := c as int;
    (0x09 <= n <= 0x0D) || n == 0x20 || n == 0x85 || n == 0xA0 || n == 0x1680
    || (0x2000 <= n <= 0x200A) || n == 0x2028 || n == 0x2029 || n == 0x202F
    || n == 0x205F || n == 0x3000
  }

  /** `string.IsNullOrWhiteSpace` on a non-null string: empty, or white space only. */
  predicate IsBlank(s: string): (b: bool)
    ensures s == [] ==> b
    ensures b ==> forall i :: 0 <= i < |s| ==> s[i] == ' ' || !(' ' <= s[i] <= '~')
  {
    forall i :: 0 <= i < |s| ==> IsWhiteSpace(s[i])
  }

  /** `!string.IsNullOrWhiteSpace(s)` on a nullable string. */
  predicate Present(s: Option<string>) {
    s.Some? && !IsBlank(s.value)
  }

  /** A string holding an '@' is never blank: '@' is not white space. */
  lemma AtSignIsNotBlank(s: string)
    ensures '@' in s ==> !IsBlank(s)
  {
    if '@' in s {
      var i :| 0 <= i < |s| && s[i] == '@';
      assert !IsWhiteSpace(s[i]);
    }
  }

  // Decimal rendering of natural numbers (`int.ToString()` on non-negative values).

  predicate IsDigit(c: char) { '0' <= c <= '9' }

  function DigitChar(d: nat): (c: char)
    requires d < 10
    ensures IsDigit(c) && c as int - '0' as int == d
  {
    ('0' as int + d) as char
  }

  function Decimal(n: nat): (s: string)
    decreases n
  {
    if n < 10 then [DigitChar(n)] else Decimal(n / 10) + [DigitChar(n % 10)]
  }

  /** Reads a string of digits back as a number (most significant digit first). */
  function DigitsValue(s: string): nat
    requires forall i :: 0 <= i < |s| ==> IsDigit(s[i])
    decreases |s|
  {
    if s == [] then 0
    else
      assert IsDigit(s[|s| - 1]);
      DigitsValue(s[..|s| - 1]) * 10 + (s[|s| - 1] as int - '0' as int)
  }

  /** The rendering is all digits, has no leading zero, and reads back as the number. */
  lemma {:induction false} DecimalRoundTrip(n: nat)
    ensures |Decimal(n)| >= 1
    ensures forall i :: 0 <= i < |Decimal(n)| ==> IsDigit(Decimal(n)[i])
    ensures n > 0 ==> Decimal(n)[0] != '0'
    ensures DigitsValue(Decimal(n)) == n
    decreases n
  {
    if n >= 10 {
      DecimalRoundTrip(n / 10);
      var s := Decimal(n);
      var p := Decimal(n / 10);
      assert s[..|s| - 1] == p;
      assert s[0] == p[0];
    }
  }
}
