/** The shared vocabulary of the canteen backend: the User and Reservation
    records, the sentinel errors, and the meal-type enumeration with its
    String function (pkg/reservation.go, pkg/user.go). */
module Pkg {

  datatype Option<+T> = None | Some(value: T)

  /** A Go pair `(T, error)` in which exactly one side is set. */
  datatype Result<+T> = Ok(value: T) | Err(error: Error)

  /** The error carried by a result, as a named `err` result would hold it. */
  function ErrorOf<T>(r: Result<T>): (e: Option<Error>)
    ensures e.None? <==> r.Ok?
    ensures r.Err? ==> e == Some(r.error)
  {
    if r.Ok? then None else Some(r.error)
  }

  /** The HTTP package that declared a per-package error value. */
  datatype Origin = ReservationsPkg | UserlistPkg | AuthPkg

  /** Go error values. A sentinel created once with errors.New is one
      constructor, compared by identity; an error built on the spot with
      fmt.Errorf or errors.New is `Fresh`, a new pointer that no sentinel
      equals whatever its text; `InvalidRequestBody` is a struct value type
      of the package that declares it. The auth package declares no
      method-not-allowed error, so `MethodNotAllowed(AuthPkg)` is never
      produced. */
  datatype Error =
    | ReservationNotFound
    | ReservationAlreadyExists
    | UserNotFound
    | UserAlreadyExists
    | NonNumericReservationID
    | NonNumericUserID
    | ResourceNotFound(origin: Origin)
    | MethodNotAllowed(origin: Origin)
    | InvalidRequestBody(origin: Origin, cause: string)
    | Fresh(text: string)
  {
    /** The text `Error()` returns: a fixed text per sentinel, the decoder's
        message behind a fixed prefix for a bad request body, and the text
        given at construction for a fresh error. */
    function Message(): (s: string)
      ensures InvalidRequestBody? ==> s == "invalid request body: " + cause
      ensures Fresh? ==> s == text
      ensures !InvalidRequestBody? && !Fresh? ==> |s| > 0
    {
      match this
      case ReservationNotFound => "reservation not found"
      case ReservationAlreadyExists => "reservation already exists"
      case UserNotFound => "user not found"
      case UserAlreadyExists => "user already exists"
      case NonNumericReservationID => "reservation id in path must be numberic"
      case NonNumericUserID => "user id in path must be numberic"
      case ResourceNotFound(_) => "resource not found"
      case MethodNotAllowed(_) => "method not allowed"
      case InvalidRequestBody(_, cause) => "invalid request body: " + cause
      case Fresh(text) => text
    }
  }

  /** `fmt.Errorf(prefix + "%v", cause)`: a fresh error whose text is the
      prefix followed by the cause's text. */
  function Wrap(prefix: string, cause: Error): (w: Error)
    ensures w.Fresh? && w.Message() == prefix + cause.Message()
  {
    Fresh(prefix + cause.Message())
  }

  /** Time instants as Unix seconds; `ZeroTime` is Go's zero `time.Time`
      (January 1 of year 1, UTC). */
  const ZeroTime: int := -62135596800

  /** The meal type of a reservation: a Go `int` with three named values. */
  type ReservationType = int

  const Breakfast: ReservationType := 1
  const Lunch: ReservationType := 2
  const Dinner: ReservationType := 3

  const TypeNames: seq<string> := ["breakfast", "lunch", "dinner"]

  /** `ReservationType.String`: a range check followed by a lookup in a
      fixed array; the guard keeps the index within bounds. */
  function TypeString(t: ReservationType): (s: string)
    ensures t == Breakfast ==> s == "breakfast"
    ensures t == Lunch ==> s == "lunch"
    ensures t == Dinner ==> s == "dinner"
    ensures t < Breakfast || t > Dinner ==> s == ""
  {
    if t < Breakfast || t > Dinner then "" else TypeNames[t - 1]
  }

  /** Only the three enumerated values have a name. */
  lemma TypeStringNonEmptyIff(t: ReservationType)
    ensures TypeString(t) != "" <==> Breakfast <= t <= Dinner
  {
  }

  /** No two meal types share a name. */
  lemma TypeStringInjective(a: ReservationType, b: ReservationType)
    requires Breakfast <= a <= Dinner && Breakfast <= b <= Dinner
    requires TypeString(a) == TypeString(b)
    ensures a == b
  {
  }

  /** The two reservation sentinels are distinct values with distinct texts,
      and so are the two user sentinels. */
  lemma SentinelsDistinct()
    ensures ReservationNotFound != ReservationAlreadyExists
    ensures ReservationNotFound.Message() != ReservationAlreadyExists.Message()
    ensures UserNotFound != UserAlreadyExists
    ensures UserNotFound.Message() != UserAlreadyExists.Message()
  {
  }

  /** A wrapped error is never one of the sentinels, so a caller matching a
      sentinel by identity cannot mistake it for one. */
  lemma WrapIsNoSentinel(prefix: string, cause: Error)
    ensures Wrap(prefix, cause).Fresh?
    ensures Wrap(prefix, cause) != ReservationNotFound && Wrap(prefix, cause) != ReservationAlreadyExists
    ensures Wrap(prefix, cause) != UserNotFound && Wrap(prefix, cause) != UserAlreadyExists
    ensures Wrap(prefix, cause) != NonNumericReservationID && Wrap(prefix, cause) != NonNumericUserID
    ensures forall o: Origin :: Wrap(prefix, cause) != ResourceNotFound(o) && Wrap(prefix, cause) != MethodNotAllowed(o)
  {
  }

  datatype Reservation = Reservation(
    id: int,
    userID: int,
    name: string,
    reservationTime: int,
    kind: ReservationType,
    noOfGuests: int,
    createdAt: int)

  datatype User = User(
    id: int,
    name: string,
    password: string,
    designation: string,
    employeeID: string,
    createdAt: int)
}
