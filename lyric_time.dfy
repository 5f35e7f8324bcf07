/** `LyricTime` (src/models/lyrics/data_types.py): a playback position in minutes, seconds
    and milliseconds, its validation, its conversions to and from a millisecond count, and
    the `+`, `-`, `==` and `<` operators. */
module LyricTimes {
  import opened Wrappers

  const MS_PER_SECOND: int := 1000
  const MS_PER_MINUTE: int := 60 * 1000
  const MS_PER_HOUR: int := 60 * 60 * 1000

  /** The exceptions the type raises, by the condition that raises them. */
  datatype TimeError =
    | DoesNotMatch                             // ValueError: time string does not match format
    | UnknownPlaceholder(placeholder: string)  // ValueError: unknown `%x` placeholder
    | DanglingPercent                          // ValueError: '%' must be followed by a character
    | OutOfRange                               // AssertionError raised by validate_time
    | WrongOperandType                         // TypeError raised by +, - and <
    | UnassignedSlot                           // AttributeError: reading a slot never assigned

  datatype LyricTime = LyricTime(mins: int, secs: int, ms: int) {
    /** The ranges `validate_time` asserts. */
    predicate Valid() {
      0 <= mins <= 59 && 0 <= secs <= 59 && 0 <= ms <= 999
    }
  }

  const Zero: LyricTime := LyricTime(0, 0, 0)

  /** The right-hand operand of an operator: Python lets it be any object. */
  datatype Operand = TimeOperand(time: LyricTime) | IntOperand(n: int) | OtherOperand

  /** `LyricTime(mins, secs, ms)`: the constructor runs `validate_time` first. */
  function New(mins: int, secs: int, ms: int): (r: Result<LyricTime, TimeError>)
    ensures r.Success? <==> 0 <= mins <= 59 && 0 <= secs <= 59 && 0 <= ms <= 999
    ensures r.Success? ==> r.value.Valid() && r.value == LyricTime(mins, secs, ms)
    ensures r.Failure? ==> r.error == OutOfRange
  {
    if 0 <= mins <= 59 && 0 <= secs <= 59 && 0 <= ms <= 999 then Success(LyricTime(mins, secs, ms))
    else Failure(OutOfRange)
  }

  /** The formula of `to_milliseconds`; a valid time lies within one hour. */
  function ToMilliseconds(t: LyricTime): (n: int)
    ensures t.Valid() ==> 0 <= n < MS_PER_HOUR
  {
    t.mins * 60 * 1000 + t.secs * 1000 + t.ms
  }

  /** Python's `int(a / b)`: true division, then truncation toward zero. */
  function TruncDiv(a: int, b: int): int
    requires b > 0
  {
    if a >= 0 then a / b else -((-a) / b)
  }

  /** `convert_from_milliseconds`: whole seconds modulo 60, whole minutes modulo 60 and the
      millisecond remainder; Python's `%` and `//` by a positive number agree with Dafny's. */
  function FromMilliseconds(n: int): (t: LyricTime)
    ensures t.Valid()
  {
    var s := TruncDiv(n, 1000);
    LyricTime((s / 60) % 60, s % 60, n % 1000)
  }

  lemma DivModUnique(a: int, b: int, q: int, r: int)
    requires b > 0 && 0 <= r < b && a == q * b + r
    ensures a / b == q && a % b == r
  {
    var q', r' := a / b, a % b;
    assert a == q' * b + r';
    if q > q' {
      assert (q - q') * b == q * b - q' * b;
      MulMonotone(q - q', b);
    } else if q < q' {
      assert (q' - q) * b == q' * b - q * b;
      MulMonotone(q' - q, b);
    }
  }

  lemma MulMonotone(k: int, b: int)
    requires k >= 1 && b > 0
    ensures k * b >= b
  {
    if k > 1 {
      MulMonotone(k - 1, b);
      assert k * b == (k - 1) * b + b;
    }
  }

  /** Converting a valid time to milliseconds and back gives the same time. */
  lemma FromToRoundTrip(t: LyricTime)
    requires t.Valid()
    ensures FromMilliseconds(ToMilliseconds(t)) == t
  {
    var n := ToMilliseconds(t);
    var s := t.mins * 60 + t.secs;
    DivModUnique(n, 1000, s, t.ms);
    DivModUnique(s, 60, t.mins, t.secs);
    DivModUnique(t.mins, 60, 0, t.mins);
  }

  /** Converting a non-negative count to a time and back keeps the count modulo one hour. */
  lemma ToFromRoundTrip(n: int)
    requires n >= 0
    ensures ToMilliseconds(FromMilliseconds(n)) == n % MS_PER_HOUR
  {
    var s, r := n / 1000, n % 1000;
    var q, secs := s / 60, s % 60;
    var p, mins := q / 60, q % 60;
    assert n == 1000 * s + r;
    assert s == 60 * q + secs;
    assert q == 60 * p + mins;
    assert n == p * MS_PER_HOUR + (mins * 60000 + secs * 1000 + r);
    DivModUnique(n, MS_PER_HOUR, p, mins * 60000 + secs * 1000 + r);
  }

  /** On valid times, `to_milliseconds` is one-to-one. */
  lemma ToMillisecondsInjective(a: LyricTime, b: LyricTime)
    requires a.Valid() && b.Valid() && ToMilliseconds(a) == ToMilliseconds(b)
    ensures a == b
  {
    FromToRoundTrip(a);
    FromToRoundTrip(b);
  }

  /** `a + other`: the millisecond sum, wrapped to one hour by the conversion back. */
  function Add(a: LyricTime, other: Operand): (r: Result<LyricTime, TimeError>)
    requires a.Valid() && (other.TimeOperand? ==> other.time.Valid())
    ensures r.Success? <==> other.TimeOperand?
    ensures r.Failure? ==> r.error == WrongOperandType
    ensures r.Success? ==> r.value.Valid()
    ensures r.Success? ==>
      ToMilliseconds(r.value) == (ToMilliseconds(a) + ToMilliseconds(other.time)) % MS_PER_HOUR
  {
    if other.TimeOperand? then
      var n := ToMilliseconds(a) + ToMilliseconds(other.time);
      ToFromRoundTrip(n);
      Success(FromMilliseconds(n))
    else Failure(WrongOperandType)
  }

  /** `a - other` as written: it converts `abs(a_ms + other_ms)`, a sum and not a difference. */
  function Sub(a: LyricTime, other: Operand): (r: Result<LyricTime, TimeError>)
    requires a.Valid() && (other.TimeOperand? ==> other.time.Valid())
    ensures r.Success? <==> other.TimeOperand?
    ensures r.Failure? ==> r.error == WrongOperandType
  {
    if other.TimeOperand? then
      var n := ToMilliseconds(a) + ToMilliseconds(other.time);
      Success(FromMilliseconds(if n < 0 then -n else n))
    else Failure(WrongOperandType)
  }

  /** The written `-` gives exactly what `+` gives, on every pair of operands. */
  lemma SubIsAdd(a: LyricTime, other: Operand)
    requires a.Valid() && (other.TimeOperand? ==> other.time.Valid())
    ensures Sub(a, other) == Add(a, other)
  {
  }

  /** 0:2.0 - 0:1.0 evaluates to 0:3.0 instead of 0:1.0. */
  lemma SubCounterexample()
    ensures Sub(LyricTime(0, 2, 0), TimeOperand(LyricTime(0, 1, 0))) == Success(LyricTime(0, 3, 0))
  {
    assert ToMilliseconds(LyricTime(0, 2, 0)) + ToMilliseconds(LyricTime(0, 1, 0)) == 3000;
    DivModUnique(3000, 1000, 3, 0);
  }

  /** `-` as evidently intended: the absolute millisecond difference. */
  function SubCorrected(a: LyricTime, other: Operand): (r: Result<LyricTime, TimeError>)
    requires a.Valid() && (other.TimeOperand? ==> other.time.Valid())
    ensures r.Success? <==> other.TimeOperand?
    ensures r.Failure? ==> r.error == WrongOperandType
    ensures r.Success? ==> r.value.Valid()
    ensures r.Success? ==>
      ToMilliseconds(r.value) == Abs(ToMilliseconds(a) - ToMilliseconds(other.time))
  {
    if other.TimeOperand? then
      var n := Abs(ToMilliseconds(a) - ToMilliseconds(other.time));
      assert 0 <= n < MS_PER_HOUR;
      ToFromRoundTrip(n);
      DivModUnique(n, MS_PER_HOUR, 0, n);
      Success(FromMilliseconds(n))
    else Failure(WrongOperandType)
  }

  function Abs(n: int): int {
    if n < 0 then -n else n
  }

  /** The corrected `-` undoes `+`: (a - b) + b == a whenever b is not later than a. */
  lemma SubCorrectedThenAdd(a: LyricTime, b: LyricTime)
    requires a.Valid() && b.Valid() && ToMilliseconds(b) <= ToMilliseconds(a)
    ensures SubCorrected(a, TimeOperand(b)).Success?
    ensures Add(SubCorrected(a, TimeOperand(b)).value, TimeOperand(b)) == Success(a)
  {
    var A, B := ToMilliseconds(a), ToMilliseconds(b);
    var d := SubCorrected(a, TimeOperand(b)).value;
    var D := ToMilliseconds(d);
    assert D + B == A;
    DivModUnique(A, MS_PER_HOUR, 0, A);
    var s := Add(d, TimeOperand(b)).value;
    assert ToMilliseconds(s) == (D + B) % MS_PER_HOUR;
    ToMillisecondsInjective(s, a);
  }

  /** `+` wraps around the hour: it is commutative, associative and has 0:0.0 as identity. */
  lemma AddCommutative(a: LyricTime, b: LyricTime)
    requires a.Valid() && b.Valid()
    ensures Add(a, TimeOperand(b)) == Add(b, TimeOperand(a))
  {
  }

  lemma AddZero(a: LyricTime)
    requires a.Valid()
    ensures Add(a, TimeOperand(Zero)) == Success(a)
  {
    var s := Add(a, TimeOperand(Zero)).value;
    DivModUnique(ToMilliseconds(a), MS_PER_HOUR, 0, ToMilliseconds(a));
    ToMillisecondsInjective(s, a);
  }

  lemma ModAddLeft(x: int, y: int, m: int)
    requires m > 0
    ensures (x % m + y) % m == (x + y) % m
  {
    DivModUnique(x + y, m, x / m + (x % m + y) / m, (x % m + y) % m);
  }

  /** Addition modulo one hour is associative on counts. */
  lemma ModAssociative(a: int, b: int, c: int, ab: int, bc: int, left: int, right: int)
    requires ab == (a + b) % MS_PER_HOUR && bc == (b + c) % MS_PER_HOUR
    requires left == (ab + c) % MS_PER_HOUR && right == (a + bc) % MS_PER_HOUR
    ensures left == right
  {
    ModAddLeft(a + b, c, MS_PER_HOUR);
    ModAddLeft(b + c, a, MS_PER_HOUR);
    assert bc + a == a + bc;
  }

  /** The sum of two valid times, with the facts `Add` guarantees about it. */
  lemma AddCount(a: LyricTime, b: LyricTime) returns (r: LyricTime)
    requires a.Valid() && b.Valid()
    ensures Add(a, TimeOperand(b)) == Success(r) && r.Valid()
    ensures ToMilliseconds(r) == (ToMilliseconds(a) + ToMilliseconds(b)) % MS_PER_HOUR
  {
    r := Add(a, TimeOperand(b)).value;
  }

  lemma AddAssociative(a: LyricTime, b: LyricTime, c: LyricTime)
    requires a.Valid() && b.Valid() && c.Valid()
    ensures Add(Add(a, TimeOperand(b)).value, TimeOperand(c)) ==
            Add(a, TimeOperand(Add(b, TimeOperand(c)).value))
  {
    var ab := AddCount(a, b);
    var bc := AddCount(b, c);
    var left := AddCount(ab, c);
    var right := AddCount(a, bc);
    SumsAgree(a, b, c, ab, bc, left, right);
  }

  /** Two valid times whose counts are the two groupings of one sum modulo the hour agree. */
  lemma SumsAgree(a: LyricTime, b: LyricTime, c: LyricTime, ab: LyricTime, bc: LyricTime,
                  left: LyricTime, right: LyricTime)
    requires left.Valid() && right.Valid()
    requires ToMilliseconds(ab) == (ToMilliseconds(a) + ToMilliseconds(b)) % MS_PER_HOUR
    requires ToMilliseconds(bc) == (ToMilliseconds(b) + ToMilliseconds(c)) % MS_PER_HOUR
    requires ToMilliseconds(left) == (ToMilliseconds(ab) + ToMilliseconds(c)) % MS_PER_HOUR
    requires ToMilliseconds(right) == (ToMilliseconds(a) + ToMilliseconds(bc)) % MS_PER_HOUR
    ensures left == right
  {
    ModAssociative(ToMilliseconds(a), ToMilliseconds(b), ToMilliseconds(c), ToMilliseconds(ab),
                   ToMilliseconds(bc), ToMilliseconds(left), ToMilliseconds(right));
    ToMillisecondsInjective(left, right);
  }

  /** `a == other`: the three fields agree; any operand that is not a time is unequal. */
  function Equals(a: LyricTime, other: Operand): (r: bool)
    ensures r <==> other == TimeOperand(a)
  {
    match other
    case TimeOperand(b) => b.mins == a.mins && b.secs == a.secs && b.ms == a.ms
    case _ => false
  }

  /** `a < other`: millisecond totals, against a time or a plain int; TypeError otherwise. */
  function Less(a: LyricTime, other: Operand): (r: Result<bool, TimeError>)
    ensures r.Failure? <==> other.OtherOperand?
    ensures r.Failure? ==> r.error == WrongOperandType
  {
    match other
    case TimeOperand(b) => Success(ToMilliseconds(a) < ToMilliseconds(b))
    case IntOperand(n) => Success(ToMilliseconds(a) < n)
    case OtherOperand => Failure(WrongOperandType)
  }

  /** Equal times are not ordered either way. */
  lemma EqualsExcludesLess(a: LyricTime, b: LyricTime)
    requires Equals(a, TimeOperand(b))
    ensures Less(a, TimeOperand(b)) == Success(false) && Less(b, TimeOperand(a)) == Success(false)
  {
  }

  /** On valid times exactly one of a < b, b < a and a == b holds. */
  lemma Trichotomy(a: LyricTime, b: LyricTime)
    requires a.Valid() && b.Valid()
    ensures Less(a, TimeOperand(b)).value || Less(b, TimeOperand(a)).value || Equals(a, TimeOperand(b))
    ensures !(Less(a, TimeOperand(b)).value && Less(b, TimeOperand(a)).value)
    ensures Equals(a, TimeOperand(b)) ==> !Less(a, TimeOperand(b)).value && !Less(b, TimeOperand(a)).value
  {
    if ToMilliseconds(a) == ToMilliseconds(b) {
      ToMillisecondsInjective(a, b);
    }
  }

  /** Comparing with an int compares the millisecond total with it. */
  lemma LessThanInt(a: LyricTime, n: int)
    requires a.Valid()
    ensures n <= 0 ==> Less(a, IntOperand(n)) == Success(false)
    ensures n > MS_PER_HOUR - 1 ==> Less(a, IntOperand(n)) == Success(true)
  {
  }

  // The `to_milliseconds` cache as written: `__ms_cached` is listed in `__slots__` but no
  // method assigns it before `to_milliseconds` reads it.

  datatype MsCache = Unassigned | Cached(value: int)

  /** `to_milliseconds` as written: the first statement reads the cache slot. */
  function ToMillisecondsAsWritten(cache: MsCache, t: LyricTime): (r: Result<(int, MsCache), TimeError>)
    ensures r.Failure? <==> cache.Unassigned?
    ensures r.Failure? ==> r.error == UnassignedSlot
  {
    match cache
    case Unassigned => Failure(UnassignedSlot)
    case Cached(v) => Success((v, cache))
  }

  /** A `LyricTime` object as written: its three fields and its cache slot. */
  datatype TimeObject = TimeObject(time: LyricTime, cache: MsCache)

  /** Any Python value as the right-hand operand of the written operators. */
  datatype Value = TimeValue(obj: TimeObject) | IntValue(n: int) | OtherValue

  /** `LyricTime(mins, secs, ms)` as written: `validate_time`, then the three fields; the
      cache slot is left unassigned. */
  function Construct(mins: int, secs: int, ms: int): (r: Result<TimeObject, TimeError>)
    ensures r.Success? <==> New(mins, secs, ms).Success?
    ensures r.Success? ==> r.value.time == New(mins, secs, ms).value && r.value.cache.Unassigned?
  {
    match New(mins, secs, ms)
    case Failure(e) => Failure(e)
    case Success(t) => Success(TimeObject(t, Unassigned))
  }

  /** `x.to_milliseconds()` as written, for its value. */
  function MsOf(x: TimeObject): Result<int, TimeError> {
    match ToMillisecondsAsWritten(x.cache, x.time)
    case Failure(e) => Failure(e)
    case Success((n, _)) => Success(n)
  }

  /** `a + other` as written: the type check, then `to_milliseconds` of each side. */
  function AddAsWritten(a: TimeObject, other: Value): Result<LyricTime, TimeError> {
    if !other.TimeValue? then Failure(WrongOperandType)
    else
      match MsOf(a)
      case Failure(e) => Failure(e)
      case Success(x) =>
        match MsOf(other.obj)
        case Failure(e) => Failure(e)
        case Success(y) => Success(FromMilliseconds(x + y))
  }

  /** `a - other` as written: the same, with `abs` of the sum. */
  function SubAsWritten(a: TimeObject, other: Value): Result<LyricTime, TimeError> {
    if !other.TimeValue? then Failure(WrongOperandType)
    else
      match MsOf(a)
      case Failure(e) => Failure(e)
      case Success(x) =>
        match MsOf(other.obj)
        case Failure(e) => Failure(e)
        case Success(y) => Success(FromMilliseconds(if x + y < 0 then -(x + y) else x + y))
  }

  /** `a < other` as written: a time or an int operand is compared with `to_milliseconds`. */
  function LessAsWritten(a: TimeObject, other: Value): Result<bool, TimeError> {
    match other
    case OtherValue => Failure(WrongOperandType)
    case TimeValue(b) =>
      (match MsOf(a)
       case Failure(e) => Failure(e)
       case Success(x) =>
         match MsOf(b)
         case Failure(e) => Failure(e)
         case Success(y) => Success(x < y))
    case IntValue(n) =>
      match MsOf(a)
      case Failure(e) => Failure(e)
      case Success(x) => Success(x < n)
  }

  /** The constructor never assigns the slot, so the first `to_milliseconds` call on a new
      time raises. */
  lemma CacheReadFails(mins: int, secs: int, ms: int)
    requires New(mins, secs, ms).Success?
    ensures var a := Construct(mins, secs, ms).value;
      ToMillisecondsAsWritten(a.cache, a.time) == Failure(UnassignedSlot)
  {
  }

  /** On a new time every written `+`, `-` and `<` raises: TypeError for an operand of the
      wrong type, AttributeError for every other. */
  lemma FreshOperatorsRaise(mins: int, secs: int, ms: int, other: Value)
    requires New(mins, secs, ms).Success?
    ensures var a := Construct(mins, secs, ms).value;
      && AddAsWritten(a, other) == Failure(if other.TimeValue? then UnassignedSlot else WrongOperandType)
      && SubAsWritten(a, other) == Failure(if other.TimeValue? then UnassignedSlot else WrongOperandType)
      && LessAsWritten(a, other) == Failure(if other.OtherValue? then WrongOperandType else UnassignedSlot)
  {
  }

  /** A cache slot holding what the formula gives. */
  predicate Filled(x: TimeObject) {
    x.cache == Cached(ToMilliseconds(x.time))
  }

  /** The operand the formula-based operators see. */
  function Plain(v: Value): Operand {
    match v
    case TimeValue(x) => TimeOperand(x.time)
    case IntValue(n) => IntOperand(n)
    case OtherValue => OtherOperand
  }

  /** Once every cache slot holds the formula's value, the written operators are `Add`,
      `Sub` and `Less`. */
  lemma FilledOperatorsAgree(a: TimeObject, other: Value)
    requires a.time.Valid() && Filled(a)
    requires other.TimeValue? ==> other.obj.time.Valid() && Filled(other.obj)
    ensures AddAsWritten(a, other) == Add(a.time, Plain(other))
    ensures SubAsWritten(a, other) == Sub(a.time, Plain(other))
    ensures LessAsWritten(a, other) == Less(a.time, Plain(other))
  {
  }
}
