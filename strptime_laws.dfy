/** What `strptime` promises, stated over format strings built from tokens: rendering a time
    through a format and parsing it back gives the time again; a placeholder reads the
    maximal digit run; a repeated placeholder, a literal mismatch, an unknown placeholder and
    a lone trailing '%' are errors; fields whose placeholder is absent are 0. */
module TimeParsingLaws {
  import opened Wrappers
  import opened Decimal
  import opened LyricTimes
  import opened TimeParsing

  /** One unit of a format string: a literal character, `%%`, or a field placeholder. */
  datatype Token = Literal(c: char) | PercentSign | Placeholder(field: Field)

  function PlaceholderText(k: Field): (p: string)
    ensures p in VALID_PLACEHOLDERS && p != "%%" && PlaceholderField(p) == k && |p| == 2
  {
    match k
    case Minutes => "%M"
    case Seconds => "%S"
    case Millis => "%m"
  }

  function TokenText(tok: Token): (s: string)
    ensures s != []
  {
    match tok
    case Literal(c) => [c]
    case PercentSign => "%%"
    case Placeholder(k) => PlaceholderText(k)
  }

  function FormatText(toks: seq<Token>): string {
    if toks == [] then [] else TokenText(toks[0]) + FormatText(toks[1..])
  }

  /** A literal token never holds '%' (that is what `%%` is for). */
  predicate WellFormed(toks: seq<Token>) {
    forall i :: 0 <= i < |toks| ==> toks[i] != Literal('%')
  }

  /** What a time string has right after a field: the end, a non-digit literal or '%'. */
  predicate NonDigitStart(tok: Token) {
    tok.PercentSign? || (tok.Literal? && !IsDigit(tok.c))
  }

  predicate Separated(toks: seq<Token>) {
    forall i :: 0 <= i < |toks| - 1 && toks[i].Placeholder? ==> NonDigitStart(toks[i + 1])
  }

  /** No field placeholder occurs twice. */
  predicate Distinct(toks: seq<Token>) {
    forall i, j :: 0 <= i < j < |toks| && toks[i].Placeholder? ==> toks[j] != toks[i]
  }

  function TimeField(x: LyricTime, k: Field): int {
    match k
    case Minutes => x.mins
    case Seconds => x.secs
    case Millis => x.ms
  }

  function TokenRender(tok: Token, x: LyricTime): string
    requires x.Valid()
  {
    match tok
    case Literal(c) => [c]
    case PercentSign => "%"
    case Placeholder(k) => NatToString(TimeField(x, k))
  }

  /** The time string that `x` printed through the format `toks` gives. */
  function Render(toks: seq<Token>, x: LyricTime): string
    requires x.Valid()
  {
    if toks == [] then [] else TokenRender(toks[0], x) + Render(toks[1..], x)
  }

  /** The fields of `x` whose placeholder occurs in `toks` are stored, the others kept. */
  function Fill(acc: Fields, toks: seq<Token>, x: LyricTime): (r: Fields)
    requires x.Valid()
    ensures forall k :: Get(r, k) == if Placeholder(k) in toks then Some(TimeField(x, k) as nat) else Get(acc, k)
  {
    Fields(if Placeholder(Minutes) in toks then Some(x.mins) else acc.mins,
           if Placeholder(Seconds) in toks then Some(x.secs) else acc.secs,
           if Placeholder(Millis) in toks then Some(x.ms) else acc.ms)
  }

  /** `x` with every field whose placeholder is absent from `toks` set to 0. */
  function Expected(toks: seq<Token>, x: LyricTime): (y: LyricTime)
    requires x.Valid()
    ensures y.Valid()
  {
    LyricTime(if Placeholder(Minutes) in toks then x.mins else 0,
              if Placeholder(Seconds) in toks then x.secs else 0,
              if Placeholder(Millis) in toks then x.ms else 0)
  }

  lemma RenderNonDigitStart(toks: seq<Token>, x: LyricTime)
    requires x.Valid() && toks != [] && NonDigitStart(toks[0])
    ensures Render(toks, x) != [] && !IsDigit(Render(toks, x)[0])
  {
  }

  lemma TailProperties(toks: seq<Token>)
    requires toks != []
    ensures WellFormed(toks) ==> WellFormed(toks[1..])
    ensures Separated(toks) ==> Separated(toks[1..])
    ensures Distinct(toks) ==> Distinct(toks[1..])
    ensures Distinct(toks) && toks[0].Placeholder? ==> toks[0] !in toks[1..]
    ensures forall k :: Placeholder(k) in toks <==> toks[0] == Placeholder(k) || Placeholder(k) in toks[1..]
  {
    var rest := toks[1..];
    if Distinct(toks) {
      forall i, j | 0 <= i < j < |rest| && rest[i].Placeholder? ensures rest[j] != rest[i] {
        assert rest[i] == toks[i + 1] && rest[j] == toks[j + 1];
      }
      if toks[0].Placeholder? {
        forall j | 0 <= j < |rest| ensures rest[j] != toks[0] {
          assert rest[j] == toks[j + 1];
        }
      }
    }
    if Separated(toks) {
      forall i | 0 <= i < |rest| - 1 && rest[i].Placeholder? ensures NonDigitStart(rest[i + 1]) {
        assert rest[i] == toks[i + 1] && rest[i + 1] == toks[i + 2];
      }
    }
  }

  /** A literal character of the format consumes the same character of the time string. */
  lemma ScanLiteralHead(c: char, t: string, f: string, acc: Fields)
    requires c != '%'
    ensures Scan([c] + t, [c] + f, acc) == Scan(t, f, acc)
  {
    assert ([c] + t)[1..] == t && ([c] + f)[1..] == f;
  }

  /** `%%` in the format consumes one '%' of the time string. */
  lemma ScanPercentHead(t: string, f: string, acc: Fields)
    ensures Scan("%" + t, "%%" + f, acc) == Scan(t, f, acc)
  {
    assert ("%%" + f)[..2] == "%%" && ("%%" + f)[2..] == f && ("%" + t)[1..] == t;
  }

  /** A placeholder reads the whole run of digits in front of it, and no more. */
  lemma ScanPlaceholderHead(k: Field, d: string, t: string, f: string, acc: Fields)
    requires d != [] && AllDigits(d) && (t == [] || !IsDigit(t[0]))
    requires Get(acc, k).None?
    ensures Scan(d + t, PlaceholderText(k) + f, acc) == Scan(t, f, Set(acc, k, DigitsValue(d)))
  {
    var f' := PlaceholderText(k) + f;
    assert f'[..2] == PlaceholderText(k) && f'[2..] == f;
    DigitPrefixLengthOf(d, t);
    assert (d + t)[..|d|] == d && (d + t)[|d|..] == t;
  }

  /** Parsing a rendered time walks the format token by token. */
  lemma {:induction false} ScanRender(toks: seq<Token>, x: LyricTime, acc: Fields)
    requires x.Valid() && WellFormed(toks) && Separated(toks) && Distinct(toks)
    requires forall k :: Placeholder(k) in toks ==> Get(acc, k).None?
    ensures Scan(Render(toks, x), FormatText(toks), acc) == Success(Fill(acc, toks, x))
  {
    if toks == [] {
      return;
    }
    var tok, rest := toks[0], toks[1..];
    TailProperties(toks);
    var rt, rf := Render(rest, x), FormatText(rest);
    assert Render(toks, x) == TokenRender(tok, x) + rt;
    assert FormatText(toks) == TokenText(tok) + rf;
    match tok
    case Literal(c) =>
      ScanLiteralHead(c, rt, rf, acc);
      ScanRender(rest, x, acc);
      assert Fill(acc, toks, x) == Fill(acc, rest, x);
    case PercentSign =>
      ScanPercentHead(rt, rf, acc);
      ScanRender(rest, x, acc);
      assert Fill(acc, toks, x) == Fill(acc, rest, x);
    case Placeholder(k) =>
      var v: nat := TimeField(x, k);
      if rest != [] {
        assert NonDigitStart(toks[1]);
        RenderNonDigitStart(rest, x);
      }
      ScanPlaceholderHead(k, NatToString(v), rt, rf, acc);
      DigitsValueOfNatToString(v);
      var acc' := Set(acc, k, v);
      ScanRender(rest, x, acc');
      assert Fill(acc', rest, x) == Fill(acc, toks, x);
  }

  /** Round trip: a valid time printed through a well-formed format whose placeholders are
      distinct and each followed by a non-digit parses back to that time, with the fields
      the format does not mention set to 0. */
  lemma RenderRoundTrip(toks: seq<Token>, x: LyricTime)
    requires x.Valid() && WellFormed(toks) && Separated(toks) && Distinct(toks)
    ensures Parse(Render(toks, x), FormatText(toks)) == Success(Expected(toks, x))
  {
    ScanRender(toks, x, NoFields);
  }

  const DefaultTokens: seq<Token> :=
    [Placeholder(Minutes), Literal(':'), Placeholder(Seconds), Literal('.'), Placeholder(Millis)]

  lemma DefaultTokensShape()
    ensures FormatText(DefaultTokens) == DEFAULT_FORMAT
    ensures WellFormed(DefaultTokens) && Separated(DefaultTokens) && Distinct(DefaultTokens)
  {
    assert FormatText(DefaultTokens[4..]) == "%m";
    assert FormatText(DefaultTokens[3..]) == ".%m";
    assert FormatText(DefaultTokens[2..]) == "%S.%m";
    assert FormatText(DefaultTokens[1..]) == ":%S.%m";
    forall i | 0 <= i < |DefaultTokens| - 1 && DefaultTokens[i].Placeholder?
      ensures NonDigitStart(DefaultTokens[i + 1])
    {
      assert i == 0 || i == 2;
    }
  }

  /** Every valid time survives printing through the default format "%M:%S.%m". */
  lemma DefaultFormatRoundTrip(x: LyricTime)
    requires x.Valid()
    ensures Parse(Render(DefaultTokens, x), DEFAULT_FORMAT) == Success(x)
  {
    DefaultTokensShape();
    RenderRoundTrip(DefaultTokens, x);
    assert DefaultTokens[0] == Placeholder(Minutes) && DefaultTokens[2] == Placeholder(Seconds);
    assert DefaultTokens[4] == Placeholder(Millis);
  }

  /** A piece of format with no '%': it must appear verbatim in the time string. */
  predicate Literals(p: string) {
    forall i :: 0 <= i < |p| ==> p[i] != '%'
  }

  /** A literal prefix shared by the time string and the format is consumed and changes
      nothing else. */
  lemma {:induction false} LiteralPrefix(p: string, t: string, f: string, acc: Fields)
    requires Literals(p)
    ensures Scan(p + t, p + f, acc) == Scan(t, f, acc)
  {
    if p == [] {
      assert p + t == t && p + f == f;
    } else {
      assert p + t == [p[0]] + (p[1..] + t);
      assert p + f == [p[0]] + (p[1..] + f);
      ScanLiteralHead(p[0], p[1..] + t, p[1..] + f, acc);
      assert Literals(p[1..]) by {
        forall i | 0 <= i < |p[1..]| ensures p[1..][i] != '%' {
          assert p[1..][i] == p[i + 1];
        }
      }
      LiteralPrefix(p[1..], t, f, acc);
    }
  }

  /** A literal of the format that the time string does not have is a mismatch. */
  lemma LiteralMismatch(p: string, c: char, d: char, t: string, f: string, acc: Fields)
    requires Literals(p) && c != '%' && d != c
    ensures Scan(p + [d] + t, p + [c] + f, acc) == Failure(DoesNotMatch)
  {
    assert p + [d] + t == p + ([d] + t) && p + [c] + f == p + ([c] + f);
    LiteralPrefix(p, [d] + t, [c] + f, acc);
    assert ([c] + f)[0] == c && ([d] + t)[0] == d;
  }

  /** A '%' followed by anything but M, S, m or '%' names an unknown placeholder. */
  lemma UnknownPlaceholderFails(p: string, c: char, t: string, f: string, acc: Fields)
    requires Literals(p) && t != [] && ['%', c] !in VALID_PLACEHOLDERS
    ensures Scan(p + t, p + ['%', c] + f, acc) == Failure(UnknownPlaceholder(['%', c]))
  {
    assert p + ['%', c] + f == p + (['%', c] + f);
    LiteralPrefix(p, t, ['%', c] + f, acc);
    assert (['%', c] + f)[..2] == ['%', c];
  }

  /** A lone '%' at the end of the format is an error of its own. */
  lemma DanglingPercentFails(p: string, t: string, acc: Fields)
    requires Literals(p) && t != []
    ensures Scan(p + t, p + "%", acc) == Failure(DanglingPercent)
  {
    LiteralPrefix(p, t, "%", acc);
  }

  /** `%%` matches exactly one '%' of the time string. */
  lemma PercentMatchesOne(p: string, t: string, f: string, acc: Fields)
    requires Literals(p)
    ensures Scan(p + t, p + "%%" + f, acc)
         == if t != [] && t[0] == '%' then Scan(t[1..], f, acc) else Failure(DoesNotMatch)
  {
    assert p + "%%" + f == p + ("%%" + f);
    LiteralPrefix(p, t, "%%" + f, acc);
    assert ("%%" + f)[..2] == "%%" && ("%%" + f)[2..] == f;
  }

  /** A placeholder consumes the maximal run of digits and stores its value. */
  lemma MaximalRun(p: string, d: string, t: string, k: Field, f: string, acc: Fields)
    requires Literals(p) && d != [] && AllDigits(d) && (t == [] || !IsDigit(t[0]))
    requires Get(acc, k).None?
    ensures Scan(p + d + t, p + PlaceholderText(k) + f, acc)
         == Scan(t, f, Set(acc, k, DigitsValue(d)))
  {
    assert p + d + t == p + (d + t);
    assert p + PlaceholderText(k) + f == p + (PlaceholderText(k) + f);
    LiteralPrefix(p, d + t, PlaceholderText(k) + f, acc);
    ScanPlaceholderHead(k, d, t, f, acc);
  }

  /** A placeholder with no digit in front of it does not match. */
  lemma EmptyRunFails(p: string, t: string, k: Field, f: string, acc: Fields)
    requires Literals(p) && (t == [] || !IsDigit(t[0]))
    ensures Scan(p + t, p + PlaceholderText(k) + f, acc) == Failure(DoesNotMatch)
  {
    assert p + PlaceholderText(k) + f == p + (PlaceholderText(k) + f);
    LiteralPrefix(p, t, PlaceholderText(k) + f, acc);
    assert (PlaceholderText(k) + f)[..2] == PlaceholderText(k);
    if t != [] {
      assert DigitPrefixLength(t) == 0;
    }
  }

  /** A field whose placeholder was already read cannot be read again. */
  lemma FieldReadTwiceFails(p: string, t: string, k: Field, f: string, acc: Fields)
    requires Literals(p) && Get(acc, k).Some?
    ensures Scan(p + t, p + PlaceholderText(k) + f, acc) == Failure(DoesNotMatch)
  {
    assert p + PlaceholderText(k) + f == p + (PlaceholderText(k) + f);
    LiteralPrefix(p, t, PlaceholderText(k) + f, acc);
    assert (PlaceholderText(k) + f)[..2] == PlaceholderText(k);
  }

  /** The walk succeeds only when time string and format run out together. */
  lemma LeftoversFail(p: string, t: string, f: string, acc: Fields)
    requires Literals(p) && (t == [] <==> f != [])
    ensures Scan(p + t, p + f, acc) == Failure(DoesNotMatch)
  {
    LiteralPrefix(p, t, f, acc);
  }

  /** A format without any placeholder parses its own text to 0:0.0 (and does not raise). */
  lemma LiteralOnlyFormat(p: string)
    requires Literals(p)
    ensures Parse(p, p) == Success(Zero)
  {
    LiteralPrefix(p, [], [], NoFields);
    assert p + [] == p;
  }

  function Prepend(tok: Token, r: Option<seq<Token>>): Option<seq<Token>> {
    if r.Some? then Some([tok] + r.value) else None
  }

  /** The format string read as tokens; `None` when it holds an unknown or dangling '%'. */
  function Tokenize(f: string): Option<seq<Token>>
    decreases |f|
  {
    if f == [] then Some([])
    else if f[0] != '%' then Prepend(Literal(f[0]), Tokenize(f[1..]))
    else if |f| < 2 || f[..2] !in VALID_PLACEHOLDERS then None
    else if f[..2] == "%%" then Prepend(PercentSign, Tokenize(f[2..]))
    else Prepend(Placeholder(PlaceholderField(f[..2])), Tokenize(f[2..]))
  }

  /** Reading the text of one token, other than a literal '%', gives that token first. */
  lemma TokenizeHead(tok: Token, rest: string)
    requires tok != Literal('%')
    ensures Tokenize(TokenText(tok) + rest) == Prepend(tok, Tokenize(rest))
  {
    var f := TokenText(tok) + rest;
    match tok
    case Literal(c) =>
      assert f[0] == c && f[1..] == rest;
    case PercentSign =>
      assert f[..2] == "%%" && f[2..] == rest;
    case Placeholder(k) =>
      assert f[..2] == PlaceholderText(k) && f[2..] == rest;
  }

  /** Reading tokens is the inverse of writing them. */
  lemma {:induction false} TokenizeFormatText(toks: seq<Token>)
    requires WellFormed(toks)
    ensures Tokenize(FormatText(toks)) == Some(toks)
  {
    if toks != [] {
      TailProperties(toks);
      TokenizeFormatText(toks[1..]);
      TokenizeHead(toks[0], FormatText(toks[1..]));
      assert [toks[0]] + toks[1..] == toks;
    }
  }

  /** The head token of a format that reads as tokens, and the text it covers. */
  lemma TokenizeSplit(f: string) returns (n: nat)
    requires f != [] && Tokenize(f).Some?
    ensures 0 < n <= |f| && Tokenize(f[n..]).Some?
    ensures Tokenize(f).value == [Tokenize(f).value[0]] + Tokenize(f[n..]).value
    ensures Tokenize(f).value[0] != Literal('%') && TokenText(Tokenize(f).value[0]) == f[..n]
  {
    n := if f[0] != '%' then 1 else 2;
  }

  /** ... and writing them back is the inverse of reading. */
  lemma {:induction false} TokenizeSound(f: string)
    requires Tokenize(f).Some?
    ensures WellFormed(Tokenize(f).value) && FormatText(Tokenize(f).value) == f
    decreases |f|
  {
    if f != [] {
      var toks := Tokenize(f).value;
      var n := TokenizeSplit(f);
      TokenizeSound(f[n..]);
      var rest := Tokenize(f[n..]).value;
      assert toks[1..] == rest;
      assert f == f[..n] + f[n..];
      assert WellFormed(toks) by {
        forall i | 0 <= i < |toks| ensures toks[i] != Literal('%') {
          if i > 0 {
            assert toks[i] == rest[i - 1];
          }
        }
      }
    }
  }

  /** A successful walk follows a format that reads as tokens. */
  lemma {:induction false} ScanSuccessTokenizes(t: string, f: string, acc: Fields)
    requires Scan(t, f, acc).Success?
    ensures Tokenize(f).Some?
    decreases |f|
  {
    if t != [] && f != [] {
      if f[0] != '%' {
        ScanSuccessTokenizes(t[1..], f[1..], acc);
      } else if f[..2] == "%%" {
        ScanSuccessTokenizes(t[1..], f[2..], acc);
      } else {
        var r := ReadField(t, PlaceholderField(f[..2]), acc).value;
        ScanSuccessTokenizes(t[r.0..], f[2..], r.1);
      }
    }
  }

  lemma ConsDistinct(tok: Token, rest: seq<Token>)
    requires Distinct(rest) && (tok.Placeholder? ==> tok !in rest)
    ensures Distinct([tok] + rest)
  {
    var toks := [tok] + rest;
    forall i, j | 0 <= i < j < |toks| && toks[i].Placeholder? ensures toks[j] != toks[i] {
      assert toks[j] == rest[j - 1];
      if i > 0 {
        assert toks[i] == rest[i - 1];
      }
    }
  }

  /** The first token of a successful walk: where the walk goes on, and with which fields.
      A placeholder reads a field that was unset and touches no other. */
  lemma ScanTokenStep(toks: seq<Token>, t: string, acc: Fields) returns (t': string, acc': Fields)
    requires WellFormed(toks) && toks != [] && Scan(t, FormatText(toks), acc).Success?
    ensures Scan(t', FormatText(toks[1..]), acc') == Scan(t, FormatText(toks), acc)
    ensures !toks[0].Placeholder? ==> acc' == acc
    ensures toks[0].Placeholder? ==>
      && Get(acc, toks[0].field).None? && Get(acc', toks[0].field).Some?
      && forall k :: k != toks[0].field ==> Get(acc', k) == Get(acc, k)
  {
    var f, rf := FormatText(toks), FormatText(toks[1..]);
    match toks[0]
    case Literal(c) =>
      assert f[1..] == rf;
      t', acc' := t[1..], acc;
    case PercentSign =>
      assert f[..2] == "%%" && f[2..] == rf;
      t', acc' := t[1..], acc;
    case Placeholder(k) =>
      assert f[..2] == PlaceholderText(k) && f[2..] == rf;
      var r := ReadField(t, k, acc).value;
      t', acc' := t[r.0..], r.1;
  }

  /** What a successful walk over tokens did: every placeholder read a field that was unset
      (so no placeholder is repeated), and every other field is as it was. */
  lemma {:induction false} ScanSuccessShape(toks: seq<Token>, t: string, acc: Fields, fs: Fields)
    requires WellFormed(toks) && Scan(t, FormatText(toks), acc) == Success(fs)
    ensures Distinct(toks)
    ensures forall k :: Placeholder(k) in toks ==> Get(acc, k).None? && Get(fs, k).Some?
    ensures forall k :: Placeholder(k) !in toks ==> Get(fs, k) == Get(acc, k)
  {
    if toks == [] {
      return;
    }
    var tok, rest := toks[0], toks[1..];
    TailProperties(toks);
    var t', acc' := ScanTokenStep(toks, t, acc);
    ScanSuccessShape(rest, t', acc', fs);
    ConsDistinct(tok, rest);
    assert toks == [tok] + rest;
  }

  /** For any format string: a successful parse means the format reads as tokens with no
      placeholder repeated, and every field whose placeholder is absent is 0. */
  lemma ParseSuccessShape(t: string, f: string)
    requires Parse(t, f).Success?
    ensures Tokenize(f).Some? && Distinct(Tokenize(f).value)
    ensures forall k :: Placeholder(k) !in Tokenize(f).value ==> TimeField(Parse(t, f).value, k) == 0
  {
    ScanSuccessTokenizes(t, f, NoFields);
    var toks := Tokenize(f).value;
    TokenizeSound(f);
    var fs := Scan(t, f, NoFields).value;
    ScanSuccessShape(toks, t, NoFields, fs);
  }

  /** A format that repeats a placeholder never parses. */
  lemma RepeatedPlaceholderFails(t: string, toks: seq<Token>)
    requires WellFormed(toks) && !Distinct(toks)
    ensures Parse(t, FormatText(toks)).Failure?
  {
    if Parse(t, FormatText(toks)).Success? {
      ScanSuccessShape(toks, t, NoFields, Scan(t, FormatText(toks), NoFields).value);
    }
  }

  lemma TwoDigits(d: string)
    requires |d| == 2 && AllDigits(d)
    ensures DigitsValue(d) == DigitValue(d[0]) * 10 + DigitValue(d[1])
  {
    assert d[..|d| - 1] == d[..1];
    assert DigitsValue(d[..1]) == DigitValue(d[0]) by {
      assert d[..1][..0] == [] && d[..1][0] == d[0];
    }
  }

  lemma DefaultMinutesStep(m: string, rest: string)
    requires m != [] && AllDigits(m) && rest != [] && rest[0] == ':'
    ensures Scan(m + rest, DEFAULT_FORMAT, NoFields)
         == Scan(rest, ":%S.%m", Set(NoFields, Minutes, DigitsValue(m)))
  {
    assert DEFAULT_FORMAT == "%M" + ":%S.%m";
    ScanPlaceholderHead(Minutes, m, rest, ":%S.%m", NoFields);
  }

  lemma DefaultColonStep(rest: string, acc: Fields)
    ensures Scan([':'] + rest, ":%S.%m", acc) == Scan(rest, "%S.%m", acc)
  {
    assert ":%S.%m" == [':'] + "%S.%m";
    ScanLiteralHead(':', rest, "%S.%m", acc);
  }

  lemma DefaultSecondsStep(sec: string, rest: string, acc: Fields)
    requires sec != [] && AllDigits(sec) && rest != [] && rest[0] == '.' && acc.secs.None?
    ensures Scan(sec + rest, "%S.%m", acc) == Scan(rest, ".%m", Set(acc, Seconds, DigitsValue(sec)))
  {
    assert "%S.%m" == "%S" + ".%m";
    ScanPlaceholderHead(Seconds, sec, rest, ".%m", acc);
  }

  lemma DefaultDotStep(rest: string, acc: Fields)
    ensures Scan(['.'] + rest, ".%m", acc) == Scan(rest, "%m", acc)
  {
    assert ".%m" == ['.'] + "%m";
    ScanLiteralHead('.', rest, "%m", acc);
  }

  lemma DefaultMillisStep(ms: string, acc: Fields)
    requires ms != [] && AllDigits(ms) && acc.ms.None?
    ensures Scan(ms, "%m", acc) == Success(Set(acc, Millis, DigitsValue(ms)))
  {
    assert ms == ms + [] && "%m" == "%m" + [];
    ScanPlaceholderHead(Millis, ms, [], [], acc);
  }

  /** After the minutes, ":%S.%m" reads a colon, the seconds, a dot and the milliseconds. */
  lemma DefaultTailSteps(sec: string, ms: string, a: Fields)
    requires sec != [] && ms != [] && AllDigits(sec) && AllDigits(ms) && a.secs.None? && a.ms.None?
    ensures Scan([':'] + (sec + (['.'] + ms)), ":%S.%m", a)
         == Success(Set(Set(a, Seconds, DigitsValue(sec)), Millis, DigitsValue(ms)))
  {
    var b := Set(a, Seconds, DigitsValue(sec));
    DefaultColonStep(sec + (['.'] + ms), a);
    DefaultSecondsStep(sec, ['.'] + ms, a);
    DefaultDotStep(ms, b);
    DefaultMillisStep(ms, b);
  }

  /** The walk over a time string of the default shape stores the three run values. */
  lemma DefaultScan(m: string, sec: string, ms: string)
    requires m != [] && sec != [] && ms != [] && AllDigits(m) && AllDigits(sec) && AllDigits(ms)
    ensures Scan(m + ":" + sec + "." + ms, DEFAULT_FORMAT, NoFields)
         == Success(Fields(Some(DigitsValue(m)), Some(DigitsValue(sec)), Some(DigitsValue(ms))))
  {
    var t1 := [':'] + (sec + (['.'] + ms));
    assert m + ":" + sec + "." + ms == m + t1;
    DefaultMinutesStep(m, t1);
    DefaultTailSteps(sec, ms, Set(NoFields, Minutes, DigitsValue(m)));
  }

  /** The default format "%M:%S.%m" reads three digit runs separated by ':' and '.'. */
  lemma DefaultFormatParse(m: string, sec: string, ms: string)
    requires m != [] && sec != [] && ms != [] && AllDigits(m) && AllDigits(sec) && AllDigits(ms)
    ensures Parse(m + ":" + sec + "." + ms, DEFAULT_FORMAT)
         == New(DigitsValue(m), DigitsValue(sec), DigitsValue(ms))
  {
    DefaultScan(m, sec, ms);
  }

  /** "50:20.09" through the default format: leading zeros are allowed. */
  lemma DefaultFormatExample()
    ensures Parse("50" + ":" + "20" + "." + "09", DEFAULT_FORMAT) == Success(LyricTime(50, 20, 9))
  {
    TwoDigits("50");
    TwoDigits("20");
    TwoDigits("09");
    DefaultFormatParse("50", "20", "09");
  }

  /** Sixty minutes is outside the range the constructor accepts. */
  lemma OutOfRangeExample()
    ensures Parse("60" + ":" + "00" + "." + "0", DEFAULT_FORMAT) == Failure(OutOfRange)
  {
    TwoDigits("60");
    TwoDigits("00");
    assert DigitsValue("0") == 0 by {
      assert "0"[..0] == [];
    }
    DefaultFormatParse("60", "00", "0");
  }
}
