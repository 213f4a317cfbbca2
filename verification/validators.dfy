/** The duration guard of pomodoro/validators.py: a type check, then a lower bound, then an
    upper bound, each raising ValidationError with its own message. */
module Validators {
  import opened Wrappers

  const MIN_DURATION_MINUTES: int := 1
  const MAX_DURATION_MINUTES: int := 240

  /** A Python float: a finite value, one of the two infinities, or NaN. */
  datatype Float = Finite(value: real) | PosInf | NegInf | NaN

  /** The Python value handed to the validator. `bool` is a subclass of `int` in Python, so it
      passes the type check with the value 0 or 1; `Other` is every non-number (str, None, ...). */
  datatype DurationInput =
    | IntV(i: int)
    | BoolV(b: bool)
    | FloatV(f: Float)
    | Other

  /** The three ways ValidationError is raised. */
  datatype DurationError = NotANumber | TooShort | TooLong

  function Message(e: DurationError): string
  {
    match e
    case NotANumber => "Duration must be a number"
    case TooShort => "Duration must be at least 1 minute(s)"
    case TooLong => "Duration must be at most 240 minutes"
  }

  /** `isinstance(x, (int, float))`. */
  predicate IsNumber(x: DurationInput)
  {
    !x.Other?
  }

  /** The exact value of a finite number, if `x` is one. */
  function RealValue(x: DurationInput): Option<real>
  {
    match x
    case IntV(i) => Some(i as real)
    case BoolV(b) => Some(if b then 1.0 else 0.0)
    case FloatV(Finite(v)) => Some(v)
    case _ => None
  }

  /** A finite number within [MIN_DURATION_MINUTES, MAX_DURATION_MINUTES], both ends included. */
  predicate InRange(x: DurationInput)
  {
    RealValue(x).Some? &&
    MIN_DURATION_MINUTES as real <= RealValue(x).value <= MAX_DURATION_MINUTES as real
  }

  /** Python's `x < n` for a number `x` and an int `n`: exact, and false whenever `x` is NaN. */
  predicate PyLess(x: DurationInput, n: int)
  {
    match x
    case IntV(i) => i < n
    case BoolV(b) => (if b then 1 else 0) < n
    case FloatV(Finite(v)) => v < n as real
    case FloatV(NegInf) => true
    case _ => false
  }

  /** Python's `x > n` for a number `x` and an int `n`, false whenever `x` is NaN. */
  predicate PyGreater(x: DurationInput, n: int)
  {
    match x
    case IntV(i) => i > n
    case BoolV(b) => (if b then 1 else 0) > n
    case FloatV(Finite(v)) => v > n as real
    case FloatV(PosInf) => true
    case _ => false
  }

  /** validate_duration as written. Every non-number is refused before any range check, a number
      below 1 is too short, one above 240 too long; NaN compares false both ways and passes. */
  function ValidateDuration(x: DurationInput): (r: Outcome<DurationError>)
    ensures r == Fail(NotANumber) <==> x.Other?
    ensures r == Fail(TooShort) <==>
              x == FloatV(NegInf) || (RealValue(x).Some? && RealValue(x).value < MIN_DURATION_MINUTES as real)
    ensures r == Fail(TooLong) <==>
              x == FloatV(PosInf) || (RealValue(x).Some? && RealValue(x).value > MAX_DURATION_MINUTES as real)
    ensures r == Pass <==> InRange(x) || x == FloatV(NaN)
  {
    if !IsNumber(x) then Fail(NotANumber)
    else if PyLess(x, MIN_DURATION_MINUTES) then Fail(TooShort)
    else if PyGreater(x, MAX_DURATION_MINUTES) then Fail(TooLong)
    else Pass
  }

  /** NaN slips through the guard chain: it is no number in [1, 240], yet it passes. */
  lemma NaNPassesValidation()
    ensures !InRange(FloatV(NaN)) && ValidateDuration(FloatV(NaN)) == Pass
  {
  }

  /** The check as evidently intended: NaN is refused as not a number; everything else is
      decided exactly as validate_duration decides it. */
  function CheckDuration(x: DurationInput): (r: Outcome<DurationError>)
    ensures r == Pass <==> InRange(x)
    ensures r == Fail(NotANumber) <==> x.Other? || x == FloatV(NaN)
    ensures x != FloatV(NaN) ==> r == ValidateDuration(x)
  {
    if x == FloatV(NaN) then Fail(NotANumber) else ValidateDuration(x)
  }

  /** The cases the validator's own tests pin down, 25.5 and both inclusive bounds among them;
      `True` counts as the int 1 and `False` as 0. */
  lemma ValidationExamples()
    ensures ValidateDuration(IntV(1)) == Pass && ValidateDuration(IntV(240)) == Pass
    ensures ValidateDuration(IntV(25)) == Pass && ValidateDuration(FloatV(Finite(25.5))) == Pass
    ensures ValidateDuration(IntV(0)) == Fail(TooShort) && ValidateDuration(IntV(-1)) == Fail(TooShort)
    ensures ValidateDuration(IntV(241)) == Fail(TooLong) && ValidateDuration(IntV(1000)) == Fail(TooLong)
    ensures ValidateDuration(Other) == Fail(NotANumber)
    ensures ValidateDuration(BoolV(true)) == Pass && ValidateDuration(BoolV(false)) == Fail(TooShort)
  {
  }
}
