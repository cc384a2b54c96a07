/** The validated value objects: MovieRating, Email and Username. Each is built only through its
    validating constructor function, so every value the rest of the model holds is valid. */
module ValueObjects {
  import opened Wrappers
  import opened Common

  // ---------------------------------------------------------------- MovieRating

  datatype MovieRating = MovieRating(value: int)

  ghost predicate ValidRating(m: MovieRating) {
    1 <= m.value <= 10
  }

  /** `new MovieRating(value)`: accepted exactly on 1..10, stored unchanged. */
  function NewMovieRating(value: int): (r: Result<MovieRating, Error>)
    ensures r.Success? <==> 1 <= value <= 10
    ensures r.Success? ==> r.value.value == value && ValidRating(r.value)
    ensures r.Failure? ==> r.error == RatingOutOfRange
  {
    if value < 1 || value > 10 then Failure(RatingOutOfRange) else Success(MovieRating(value))
  }

  /** `MovieRating.ToString()`: the decimal rendering of the value. */
  function RatingToString(m: MovieRating): (s: string)
    requires ValidRating(m)
    ensures |s| == (if m.value == 10 then 2 else 1)
    ensures forall i :: 0 <= i < |s| ==> IsDigit(s[i])
    ensures DigitsValue(s) == m.value
  {
    DecimalRoundTrip(m.value);
    Decimal(m.value)
  }

  // ---------------------------------------------------------------- Email

  datatype Email = Email(address: string)

  ghost predicate ValidEmail(e: Email) {
    !IsBlank(e.address) && '@' in e.address
  }

  /** `new Email(address)`: blank is rejected first, then an address without '@'. */
  function NewEmail(address: string): (r: Result<Email, Error>)
    ensures IsBlank(address) ==> r == Failure(BlankArgument("address"))
    ensures !IsBlank(address) && '@' !in address ==> r == Failure(MissingAt)
    ensures r.Success? <==> '@' in address
    ensures r.Success? ==> r.value.address == address && ValidEmail(r.value)
  {
    AtSignIsNotBlank(address);
    if IsBlank(address) then Failure(BlankArgument("address"))
    else if '@' !in address then Failure(MissingAt)
    else Success(Email(address))
  }

  /** `Email.ToString()`: the stored address. */
  function EmailToString(e: Email): (s: string)
    requires ValidEmail(e)
    ensures NewEmail(s) == Success(e)
  {
    e.address
  }

  // ---------------------------------------------------------------- Username

  datatype Username = Username(value: string)

  ghost predicate ValidUsername(u: Username) {
    !IsBlank(u.value) && |u.value| >= 3
  }

  /** `new Username(value)`: blank is rejected first, then anything shorter than 3 characters. */
  function NewUsername(value: string): (r: Result<Username, Error>)
    ensures IsBlank(value) ==> r == Failure(BlankArgument("value"))
    ensures !IsBlank(value) && |value| < 3 ==> r == Failure(TooShort)
    ensures r.Success? <==> !IsBlank(value) && |value| >= 3
    ensures r.Success? ==> r.value.value == value && ValidUsername(r.value)
  {
    if IsBlank(value) then Failure(BlankArgument("value"))
    else if |value| < 3 then Failure(TooShort)
    else Success(Username(value))
  }

  /** `Username.ToString()`: the stored value. */
  function UsernameToString(u: Username): (s: string)
    requires ValidUsername(u)
    ensures NewUsername(s) == Success(u)
  {
    u.value
  }
}
