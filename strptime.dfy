/** `LyricTime.strptime` (src/models/lyrics/data_types.py): a format string and a time string
    are read in lockstep. Outside a placeholder the two characters must agree; `%M`, `%S` and
    `%m` read the maximal run of ASCII digits as minutes, seconds or milliseconds; `%%` reads
    one literal `%`. Both strings must be used up, and a field whose placeholder does not
    occur is 0. */
module TimeParsing {
  import opened Wrappers
  import opened Decimal
  import opened LyricTimes

  const DEFAULT_FORMAT: string := "%M:%S.%m"
  const VALID_PLACEHOLDERS: seq<string> := ["%M", "%S", "%m", "%%"]

  datatype Field = Minutes | Seconds | Millis

  /** The fields read so far; `None` is the source's sentinel -1 ("not read yet"). */
  datatype Fields = Fields(mins: Option<nat>, secs: Option<nat>, ms: Option<nat>)

  const NoFields: Fields := Fields(None, None, None)

  function Get(acc: Fields, k: Field): Option<nat> {
    match k
    case Minutes => acc.mins
    case Seconds => acc.secs
    case Millis => acc.ms
  }

  function Set(acc: Fields, k: Field, v: nat): (r: Fields)
    ensures Get(r, k) == Some(v)
    ensures forall k' :: k' != k ==> Get(r, k') == Get(acc, k')
  {
    match k
    case Minutes => acc.(mins := Some(v))
    case Seconds => acc.(secs := Some(v))
    case Millis => acc.(ms := Some(v))
  }

  /** Storing a value read for `k`; a second value for the same field is refused. */
  function Record(acc: Fields, k: Field, v: nat): (r: Option<Fields>)
    ensures r.None? <==> Get(acc, k).Some?
    ensures r.Some? ==> r.value == Set(acc, k, v)
  {
    if Get(acc, k).Some? then None else Some(Set(acc, k, v))
  }

  function PlaceholderField(p: string): Field
    requires p in VALID_PLACEHOLDERS && p != "%%"
  {
    if p == "%M" then Minutes else if p == "%S" then Seconds else Millis
  }

  /** A field placeholder reads the maximal digit run at the head of `t`: its length and the
      fields with the value stored, or `None` for an empty run or a field read twice. */
  function ReadField(t: string, k: Field, acc: Fields): (r: Option<(nat, Fields)>)
    ensures r.Some? ==> 0 < r.value.0 <= |t|
  {
    var n := DigitPrefixLength(t);
    if n == 0 then None  // int('') raises ValueError
    else
      match Record(acc, k, DigitsValue(t[..n]))
      case None => None
      case Some(acc') => Some((n, acc'))
  }

  /** The lockstep walk over the rest `t` of the time string and the rest `f` of the format. */
  function Scan(t: string, f: string, acc: Fields): Result<Fields, TimeError>
    decreases |t| + |f|
  {
    if t == [] || f == [] then
      if t == [] && f == [] then Success(acc) else Failure(DoesNotMatch)
    else if f[0] != '%' then
      if t[0] == f[0] then Scan(t[1..], f[1..], acc) else Failure(DoesNotMatch)
    else if |f| < 2 then
      Failure(DanglingPercent)
    else if f[..2] !in VALID_PLACEHOLDERS then
      Failure(UnknownPlaceholder(f[..2]))
    else if f[..2] == "%%" then
      if t[0] == '%' then Scan(t[1..], f[2..], acc) else Failure(DoesNotMatch)
    else
      match ReadField(t, PlaceholderField(f[..2]), acc)
      case None => Failure(DoesNotMatch)
      case Some((n, acc')) => Scan(t[n..], f[2..], acc')
  }

  /** `strptime(timeStr, format)`: the walk, then fields not read become 0, then the
      constructor's range check. */
  function Parse(timeStr: string, format: string): (r: Result<LyricTime, TimeError>)
    ensures r.Success? ==> r.value.Valid()
  {
    match Scan(timeStr, format, NoFields)
    case Failure(e) => Failure(e)
    case Success(fs) => New(fs.mins.GetOr(0), fs.secs.GetOr(0), fs.ms.GetOr(0))
  }

  /** `find_non_numeric_idx`: the index of the first non-digit at or after `start`, or -1. */
  method FindNonNumericIdx(s: string, start: nat) returns (idx: int)
    requires start <= |s|
    ensures idx == -1 || start <= idx < |s|
    ensures (if idx == -1 then |s| else idx) == start + DigitPrefixLength(s[start..])
  {
    for i := start to |s|
      invariant AllDigits(s[start..i])
    {
      if !IsDigit(s[i]) {
        assert s[start..][..i - start] == s[start..i];
        DigitPrefixLengthUnique(s[start..], i - start);
        return i;
      }
      assert s[start..i + 1] == s[start..i] + [s[i]];
    }
    assert s[start..][..|s| - start] == s[start..|s|];
    DigitPrefixLengthUnique(s[start..], |s| - start);
    return -1;
  }

  /** The fields as the source's three variables hold them, -1 meaning "not read". */
  function Captured(mins: int, secs: int, ms: int): Fields
    requires mins >= -1 && secs >= -1 && ms >= -1
  {
    Fields(if mins == -1 then None else Some(mins),
           if secs == -1 then None else Some(secs),
           if ms == -1 then None else Some(ms))
  }

  /** One step of `Scan` at positions `ti` and `fi` of the whole strings. */
  lemma ScanAt(t: string, f: string, ti: nat, fi: nat, acc: Fields)
    requires ti < |t| && fi < |f|
    ensures Scan(t[ti..], f[fi..], acc) ==
      if f[fi] != '%' then
        if t[ti] == f[fi] then Scan(t[ti + 1..], f[fi + 1..], acc) else Failure(DoesNotMatch)
      else if fi + 1 >= |f| then Failure(DanglingPercent)
      else if f[fi..fi + 2] !in VALID_PLACEHOLDERS then Failure(UnknownPlaceholder(f[fi..fi + 2]))
      else if f[fi..fi + 2] == "%%" then
        if t[ti] == '%' then Scan(t[ti + 1..], f[fi + 2..], acc) else Failure(DoesNotMatch)
      else
        match ReadField(t[ti..], PlaceholderField(f[fi..fi + 2]), acc)
        case None => Failure(DoesNotMatch)
        case Some((n, acc')) => Scan(t[ti + n..], f[fi + 2..], acc')
  {
    var t', f' := t[ti..], f[fi..];
    assert t'[1..] == t[ti + 1..] && f'[1..] == f[fi + 1..];
    if fi + 1 < |f| {
      assert f'[..2] == f[fi..fi + 2] && f'[2..] == f[fi + 2..];
      if f'[..2] in VALID_PLACEHOLDERS && f'[..2] != "%%" {
        var read := ReadField(t', PlaceholderField(f'[..2]), acc);
        if read.Some? {
          assert t'[read.value.0..] == t[ti + read.value.0..];
        }
      }
    }
  }

  /** Lines 124-166 of `strptime`: read the digit run at `timeIdx` for a field placeholder
      and store it, refusing an empty run and a field read twice. */
  method ReadPlaceholderValue(timeStr: string, timeIdx: nat, placeholder: string,
                              mins: int, secs: int, ms: int)
    returns (ok: bool, end: nat, mins': int, secs': int, ms': int)
    requires timeIdx < |timeStr| && placeholder in VALID_PLACEHOLDERS && placeholder != "%%"
    requires mins >= -1 && secs >= -1 && ms >= -1
    ensures mins' >= -1 && secs' >= -1 && ms' >= -1
    ensures var read := ReadField(timeStr[timeIdx..], PlaceholderField(placeholder), Captured(mins, secs, ms));
      ok <==> read.Some?
    ensures var read := ReadField(timeStr[timeIdx..], PlaceholderField(placeholder), Captured(mins, secs, ms));
      ok ==> end == timeIdx + read.value.0 && Captured(mins', secs', ms') == read.value.1
  {
    mins', secs', ms' := mins, secs, ms;
    var i := FindNonNumericIdx(timeStr, timeIdx);
    var valueStr := if i == -1 then timeStr[timeIdx..] else timeStr[timeIdx..i];
    end := if i == -1 then |timeStr| else i;
    assert timeStr[timeIdx..][..end - timeIdx] == valueStr;
    ghost var acc := Captured(mins, secs, ms);
    ghost var k := PlaceholderField(placeholder);
    assert end - timeIdx == DigitPrefixLength(timeStr[timeIdx..]);
    assert ReadField(timeStr[timeIdx..], k, acc) ==
      if valueStr == [] then None
      else if Get(acc, k).Some? then None
      else Some((end - timeIdx, Set(acc, k, DigitsValue(valueStr))));
    if valueStr == [] {
      return false, end, mins', secs', ms';
    }
    var value := DigitsValue(valueStr);
    if placeholder == "%M" {
      if mins != -1 {
        return false, end, mins', secs', ms';
      }
      mins' := value;
    } else if placeholder == "%m" {
      if ms != -1 {
        return false, end, mins', secs', ms';
      }
      ms' := value;
    } else {
      if secs != -1 {
        return false, end, mins', secs', ms';
      }
      secs' := value;
    }
    ok := true;
  }

  /** The `while` loop of `strptime`, stepping `timeIdx` and `formatIdx`. */
  method Strptime(timeStr: string, format: string) returns (r: Result<LyricTime, TimeError>)
    ensures r == Parse(timeStr, format)
  {
    var mins: int, secs: int, ms: int := -1, -1, -1;
    var timeIdx, formatIdx := 0, 0;
    while timeIdx < |timeStr| && formatIdx < |format|
      invariant 0 <= timeIdx <= |timeStr| && 0 <= formatIdx <= |format|
      invariant mins >= -1 && secs >= -1 && ms >= -1
      invariant Scan(timeStr, format, NoFields) ==
                Scan(timeStr[timeIdx..], format[formatIdx..], Captured(mins, secs, ms))
      decreases |format| - formatIdx
    {
      ScanAt(timeStr, format, timeIdx, formatIdx, Captured(mins, secs, ms));
      var t, f := timeStr[timeIdx], format[formatIdx];
      if f != '%' {
        if t != f {
          return Failure(DoesNotMatch);
        }
        timeIdx, formatIdx := timeIdx + 1, formatIdx + 1;
      } else if formatIdx + 1 < |format| {
        var placeholder := format[formatIdx..formatIdx + 2];
        if placeholder !in VALID_PLACEHOLDERS {
          return Failure(UnknownPlaceholder(placeholder));
        }
        if placeholder == "%%" {
          if timeStr[timeIdx] == '%' {
            timeIdx, formatIdx := timeIdx + 1, formatIdx + 2;
            continue;
          }
          return Failure(DoesNotMatch);
        }
        var ok, end;
        ok, end, mins, secs, ms := ReadPlaceholderValue(timeStr, timeIdx, placeholder, mins, secs, ms);
        if !ok {
          return Failure(DoesNotMatch);
        }
        timeIdx, formatIdx := end, formatIdx + 2;
      } else {
        return Failure(DanglingPercent);
      }
    }
    assert timeIdx >= |timeStr| ==> timeStr[timeIdx..] == [];
    assert formatIdx >= |format| ==> format[formatIdx..] == [];
    if timeIdx >= |timeStr| && formatIdx >= |format| {
      r := New(if mins == -1 then 0 else mins, if secs == -1 then 0 else secs, if ms == -1 then 0 else ms);
    } else {
      r := Failure(DoesNotMatch);
    }
  }
}
