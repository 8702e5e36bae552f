/** Number parsing: the decimal literals JavaScript's `parseFloat`/`parseInt` and Python's
    `float`/`int` read, and the tolerant field parsers the service (TypeScript) and the two
    Python programs wrap around them. */
module NumberParsing {
  import opened Basics
  import opened Text
  import opened Json

  function Pow10(n: nat): (p: nat)
    ensures p >= 1
  {
    if n == 0 then 1 else 10 * Pow10(n - 1)
  }

  /** Length of the run of decimal digits starting at `i`. */
  function DigitRun(s: string, i: nat): (n: nat)
    requires i <= |s|
    ensures i + n <= |s| && AllDigits(s[i..i + n])
    ensures i + n == |s| || !IsDigit(s[i + n])
    decreases |s| - i
  {
    if i < |s| && IsDigit(s[i]) then
      var m := DigitRun(s, i + 1);
      assert s[i..i + 1 + m] == [s[i]] + s[i + 1..i + 1 + m];
      1 + m
    else 0
  }

  /** A scanned number and how many characters it used. */
  datatype Scan = Scan(value: real, length: nat)

  /** The longest prefix of `s` of the form `[+-]? (digits ('.' digits?)? | '.' digits)`
      (decimal literals without exponent). */
  function DecimalPrefix(s: string): (r: Option<Scan>)
    ensures r.Some? ==> 1 <= r.value.length <= |s|
  {
    var k := if |s| > 0 && (s[0] == '+' || s[0] == '-') then 1 else 0;
    var n1 := DigitRun(s, k);
    var hasDot := k + n1 < |s| && s[k + n1] == '.';
    var n2 := if hasDot then DigitRun(s, k + n1 + 1) else 0;
    if n1 == 0 && n2 == 0 then None
    else
      var whole := DigitsValue(s[k..k + n1]) as real;
      var frac := if hasDot then DigitsValue(s[k + n1 + 1..k + n1 + 1 + n2]) as real / Pow10(n2) as real else 0.0;
      var magnitude := whole + frac;
      Some(Scan(if k == 1 && s[0] == '-' then -magnitude else magnitude,
                if hasDot then k + n1 + 1 + n2 else k + n1))
  }

  /** JavaScript `parseFloat(s)`; `None` is NaN. */
  function JsParseFloat(s: string): Option<real>
  {
    var t := TrimStartBy(s, IsJsSpace);
    var scan :- DecimalPrefix(t);
    Some(scan.value)
  }

  /** An optionally signed run of decimal digits at the start of `t`: its value and the number
      of characters it takes. */
  function SignedPrefix(t: string): (r: Option<(int, nat)>)
    ensures r.Some? ==> 1 <= r.value.1 <= |t|
  {
    var k := if |t| > 0 && (t[0] == '+' || t[0] == '-') then 1 else 0;
    var n := DigitRun(t, k);
    if n == 0 then None
    else
      var v := DigitsValue(t[k..k + n]);
      Some((if k == 1 && t[0] == '-' then -(v as int) else v as int, k + n))
  }

  /** JavaScript `parseInt(s, 10)`; `None` is NaN. */
  function JsParseInt10(s: string): (r: Option<int>)
  {
    var p :- SignedPrefix(TrimStartBy(s, IsJsSpace));
    Some(p.0)
  }

  predicate IsHexDigit(c: char) { IsDigit(c) || 'a' <= c <= 'f' || 'A' <= c <= 'F' }

  function HexValue(c: char): nat
    requires IsHexDigit(c)
  {
    if IsDigit(c) then DigitValue(c) else if 'a' <= c <= 'f' then c as int - 'a' as int + 10
    else c as int - 'A' as int + 10
  }

  /** Value of the longest run of hexadecimal digits starting at `i`, read from the left, with
      the number of digits read. */
  function HexRun(s: string, i: nat, acc: nat): (r: (nat, nat))
    requires i <= |s|
    decreases |s| - i
  {
    if i < |s| && IsHexDigit(s[i]) then
      var (v, n) := HexRun(s, i + 1, acc * 16 + HexValue(s[i]));
      (v, n + 1)
    else (acc, 0)
  }

  /** JavaScript `parseInt(s)` without a radix: like radix 10, except that a `0x`/`0X` prefix
      after the sign selects hexadecimal. */
  function JsParseInt(s: string): (r: Option<int>)
  {
    var t := TrimStartBy(s, IsJsSpace);
    var k := if |t| > 0 && (t[0] == '+' || t[0] == '-') then 1 else 0;
    if k + 1 < |t| && t[k] == '0' && (t[k + 1] == 'x' || t[k + 1] == 'X') then
      var (v, n) := HexRun(t, k + 2, 0);
      if n == 0 then None else Some(if k == 1 && t[0] == '-' then -(v as int) else v as int)
    else JsParseInt10(s)
  }

  /** Python `float(s)` for decimal literals: surrounding white space is allowed, the rest must be
      one literal; `None` is the `ValueError`. */
  function PyFloat(s: string): Option<real>
  {
    var t := StripPy(s);
    var scan :- DecimalPrefix(t);
    if scan.length == |t| then Some(scan.value) else None
  }

  /** Python `int(s)` for decimal strings; `None` is the `ValueError`. */
  function PyInt(s: string): Option<int>
  {
    var t := StripPy(s);
    var p :- SignedPrefix(t);
    if p.1 == |t| then Some(p.0) else None
  }

  /** Floor of a real, `Math.floor`. */
  function Floor(x: real): int { x.Floor }

  /** Truncation toward zero, Python `int(x)` on a float. */
  function Trunc(x: real): int { if x >= 0.0 then x.Floor else -((-x).Floor) }

  /** JavaScript `Math.round`: halves round up. */
  function JsRound(x: real): (r: int)
    ensures x - 0.5 < r as real <= x + 0.5
  {
    (x + 0.5).Floor
  }

  /** Python `round` on a float: halves round to the even neighbour. */
  function PyRound(x: real): (r: int)
    ensures x - 0.5 <= r as real <= x + 0.5
  {
    var f := x.Floor;
    var frac := x - f as real;
    if frac < 0.5 then f else if frac > 0.5 then f + 1 else if f % 2 == 0 then f else f + 1
  }

  /** The service's `parseFloat(value, defaultValue)`: null and undefined give the default, a
      number is returned as it is, a string loses all its white space and its first comma
      becomes a point, and a result of NaN or 0 gives the default. */
  function TsParseFloat(v: Option<Value>, default: real): (r: real)
    ensures v.Some? && v.value.NumText? ==> r == (if v.value.x == 0.0 then default else v.value.x)
    ensures v.Some? && v.value.Num? ==> r == v.value.n
    ensures v.None? || v.value.Null? ==> r == default
  {
    match v
    case None => default
    case Some(Null) => default
    case Some(Num(n)) => n
    case Some(NumText(x)) => if x == 0.0 then default else x
    case Some(Str(s)) =>
      var p := JsParseFloat(ReplaceFirst(RemoveJsSpaces(s), ',', '.'));
      if p.None? || p.value == 0.0 then default else p.value
  }

  predicate IsDigitOrMinus(c: char) { IsDigit(c) || c == '-' }

  /** A number-text field the parse-int helpers can read: a whole number (its text has no point). */
  predicate WholeText(v: Option<Value>)
  {
    v.Some? && v.value.NumText? ==> v.value.x == v.value.x.Floor as real
  }

  /** The service's `parseInt(value, defaultValue)`: numbers are floored; a string keeps only its
      digits and minus signs, is read by `parseInt(_, 10)`, and NaN or 0 gives the default. */
  function TsParseInt(v: Option<Value>, default: int): (r: int)
    requires WholeText(v)
    ensures v.None? || v.value.Null? ==> r == default
    ensures v.Some? && v.value.Num? ==> r == v.value.n.Floor
  {
    match v
    case None => default
    case Some(Null) => default
    case Some(Num(n)) => Floor(n)
    case Some(NumText(x)) => TsParseIntText(IntToString(x.Floor), default)
    case Some(Str(s)) => TsParseIntText(s, default)
  }

  function TsParseIntText(s: string, default: int): int
  {
    var p := JsParseInt10(Filter(s, IsDigitOrMinus));
    if p.None? || p.value == 0 then default else p.value
  }

  /** The characters the Python programs keep in a number: all but the space and the narrow
      no-break space. */
  predicate NotPySeparator(c: char) { c != ' ' && c != '\U{202F}' }

  /** Python `parse_float(s, default)` (both Python programs): None gives the default, a number is
      converted, a string loses its spaces and narrow no-break spaces, every comma becomes a
      point, and a string `float` rejects gives the default. */
  function PyParseFloat(v: Option<Value>, default: real): (r: real)
    ensures v.Some? && v.value.NumText? ==> r == v.value.x
    ensures v.Some? && v.value.Num? ==> r == v.value.n
    ensures v.None? || v.value.Null? ==> r == default
  {
    match v
    case None => default
    case Some(Null) => default
    case Some(Num(n)) => n
    case Some(NumText(x)) => x
    case Some(Str(s)) =>
      PyFloat(ReplaceAll(Filter(s, NotPySeparator), ',', '.')).GetOr(default)
  }

  /** Python `parse_int(s, default)`: numbers are truncated toward zero; a string keeps its digits
      and minus signs, and "" or "-" or a string `int` rejects gives the default. */
  function PyParseInt(v: Option<Value>, default: int): (r: int)
    requires WholeText(v)
    ensures v.None? || v.value.Null? ==> r == default
    ensures v.Some? && v.value.Num? ==> r == Trunc(v.value.n)
  {
    match v
    case None => default
    case Some(Null) => default
    case Some(Num(n)) => Trunc(n)
    case Some(NumText(x)) => PyParseIntText(IntToString(x.Floor), default)
    case Some(Str(s)) => PyParseIntText(s, default)
  }

  function PyParseIntText(s: string, default: int): int
  {
    var digits := Filter(s, IsDigitOrMinus);
    if digits == "" || digits == "-" then default else PyInt(digits).GetOr(default)
  }

  lemma {:induction false} DigitRunToEnd(s: string, i: nat)
    requires i <= |s| && AllDigits(s[i..])
    ensures DigitRun(s, i) == |s| - i
    decreases |s| - i
  {
    if i < |s| {
      assert IsDigit(s[i..][0]);
      assert s[i + 1..] == s[i..][1..];
      DigitRunToEnd(s, i + 1);
    }
  }



  /** JavaScript `parseInt(_, 10)` reads back the decimal rendering of every integer. */
  lemma JsParseInt10OfIntToString(i: int)
    ensures JsParseInt10(IntToString(i)) == Some(i)
  {
    var s := IntToString(i);
    IntToStringEnds(i);
    NoLeadingSpace(s, IsJsSpace);
    SignedPrefixOfIntToString(i);
  }

  /** So does `parseInt` without a radix: a rendered integer never starts with `0x`. */
  lemma JsParseIntOfIntToString(i: int)
    ensures JsParseInt(IntToString(i)) == Some(i)
  {
    var s := IntToString(i);
    IntToStringEnds(i);
    NoLeadingSpace(s, IsJsSpace);
    JsParseInt10OfIntToString(i);
    IntToStringNotHex(i);
  }

  /** And so does Python's `int`. */
  lemma PyIntOfIntToString(i: int)
    ensures PyInt(IntToString(i)) == Some(i)
  {
    StripIntToString(i);
    SignedPrefixOfIntToString(i);
  }

  /** A rendered integer is one signed run of digits, read back as itself. */
  lemma SignedPrefixOfIntToString(i: int)
    ensures SignedPrefix(IntToString(i)) == Some((i, |IntToString(i)|))
  {
    var s := IntToString(i);
    var k := if i < 0 then 1 else 0;
    SignedDigits(i);
    assert s[k..k + DigitRun(s, k)] == s[k..];
  }

  /** A rendered integer starts with a digit or a minus sign and ends with a digit. */
  lemma IntToStringEnds(i: int)
    ensures var s := IntToString(i);
      |s| > 0 && (IsDigit(s[0]) || s[0] == '-') && IsDigit(s[|s| - 1])
  {
    var n: nat := if i < 0 then -i else i;
    NatToStringDigits(n);
    var d := NatToString(n);
    assert IsDigit(d[0]) && IsDigit(d[|d| - 1]);
    if i < 0 {
      assert IntToString(i) == "-" + d;
    }
  }

  /** A rendered integer has no `0x` after its sign. */
  lemma IntToStringNotHex(i: int)
    ensures var s := IntToString(i);
      var k := if |s| > 0 && (s[0] == '+' || s[0] == '-') then 1 else 0;
      !(k + 1 < |s| && s[k] == '0' && (s[k + 1] == 'x' || s[k + 1] == 'X'))
  {
    var n: nat := if i < 0 then -i else i;
    NatToStringDigits(n);
    var s := IntToString(i);
    var k := if i < 0 then 1 else 0;
    SignedDigits(i);
    assert s[k..] == NatToString(n);
    if k + 1 < |s| {
      assert IsDigit(s[k..][1]);
    }
  }

  /** Python's `int` reads a plain run of digits as its decimal value. */
  lemma PyIntOfDigits(s: string)
    requires |s| > 0 && AllDigits(s)
    ensures PyInt(s) == Some(DigitsValue(s) as int)
  {
    assert IsDigit(s[0]) && IsDigit(s[|s| - 1]);
    StripPyUnchanged(s);
    SignedPrefixOfDigits(s);
  }

  lemma SignedPrefixOfDigits(s: string)
    requires |s| > 0 && AllDigits(s)
    ensures SignedPrefix(s) == Some((DigitsValue(s) as int, |s|))
  {
    assert IsDigit(s[0]);
    DigitRunToEnd(s, 0);
    assert s[0..|s|] == s;
  }

  /** The digits of a rendered integer start after its sign and run to its end. */
  lemma SignedDigits(i: int)
    ensures var k := if i < 0 then 1 else 0;
      var s := IntToString(i);
      k <= |s| && DigitRun(s, k) == |s| - k && DigitRun(s, k) > 0 &&
      DigitsValue(s[k..]) == (if i < 0 then -i else i) &&
      (|s| > 0 && (s[0] == '+' || s[0] == '-') <==> i < 0) &&
      (i < 0 ==> s[0] == '-')
  {
    var n: nat := if i < 0 then -i else i;
    NatToStringDigits(n);
    var s := IntToString(i);
    var k := if i < 0 then 1 else 0;
    assert s[k..] == NatToString(n);
    DigitRunToEnd(s, k);
  }

  lemma StripIntToString(i: int)
    ensures StripPy(IntToString(i)) == IntToString(i)
  {
    IntToStringEnds(i);
    StripPyUnchanged(IntToString(i));
  }

  /** The service and the Python programs disagree on a zero balance: "0" is read as the default
      by the service's `parseFloat` (`parseFloat("0") || default`) and as 0 by Python's. */
  lemma ZeroTextDivergence(default: real)
    requires default != 0.0
    ensures TsParseFloat(Some(Str("0")), default) == default
    ensures PyParseFloat(Some(Str("0")), default) == 0.0
  {
    var z := "0";
    assert AllDigits(z) && DigitsValue(z) == 0;
    FilterAll(z, NotJsSpace);
    ReplaceFirstAbsent(z, ',', '.');
    JsParseFloatOfDigits(z);
    FilterAll(z, NotPySeparator);
    ReplaceAllAbsent(z, ',', '.');
    PyFloatOfDigits(z);
  }

  /** They also disagree on the white space they drop: a no-break space used as a thousands
      separator between two digits is removed by the service, which reads the two digits ... */
  lemma NoBreakSpaceService(a: char, b: char, default: real)
    requires IsDigit(a) && IsDigit(b) && DigitValue(a) * 10 + DigitValue(b) != 0
    ensures TsParseFloat(Some(Str([a, '\U{00A0}', b])), default)
      == (DigitValue(a) * 10 + DigitValue(b)) as real
  {
    var d := [a, b];
    RemoveNoBreakSpace(a, b);
    ReplaceFirstAbsent(d, ',', '.');
    TwoDigitsValue(d);
    JsParseFloatOfDigits(d);
    TsParseFloatOfText([a, '\U{00A0}', b], d, default);
  }

  /** The service's parser on a string is `parseFloat` on its cleaned text. */
  lemma TsParseFloatOfText(s: string, t: string, default: real)
    requires ReplaceFirst(RemoveJsSpaces(s), ',', '.') == t && JsParseFloat(t).Some?
    ensures TsParseFloat(Some(Str(s)), default)
      == if JsParseFloat(t).value == 0.0 then default else JsParseFloat(t).value
  {
  }

  /** `parseFloat` reads a run of digits as its decimal value. */
  lemma JsParseFloatOfDigits(s: string)
    requires |s| >= 1 && AllDigits(s)
    ensures JsParseFloat(s) == Some(DigitsValue(s) as real)
  {
    assert IsDigit(s[0]);
    NoLeadingSpace(s, IsJsSpace);
    DecimalPrefixOfDigits(s);
  }

  /** So does Python's `float`. */
  lemma PyFloatOfDigits(s: string)
    requires |s| >= 1 && AllDigits(s)
    ensures PyFloat(s) == Some(DigitsValue(s) as real)
  {
    assert IsDigit(s[0]) && IsDigit(s[|s| - 1]);
    StripPyUnchanged(s);
    DecimalPrefixOfDigits(s);
  }

  /** A string of digits is one whole decimal literal. */
  lemma DecimalPrefixOfDigits(s: string)
    requires |s| >= 1 && AllDigits(s)
    ensures DecimalPrefix(s) == Some(Scan(DigitsValue(s) as real, |s|))
  {
    assert IsDigit(s[0]);
    assert s[0..] == s;
    DigitRunToEnd(s, 0);
    assert s[0..|s|] == s;
  }

  /** ... and kept by Python's, whose `float` then rejects the text and gives the default. */
  lemma NoBreakSpacePython(a: char, b: char, default: real)
    requires IsDigit(a) && IsDigit(b)
    ensures PyParseFloat(Some(Str([a, '\U{00A0}', b])), default) == default
  {
    var s := [a, '\U{00A0}', b];
    FilterAll(s, NotPySeparator);
    ReplaceAllAbsent(s, ',', '.');
    StripPyUnchanged(s);
    NoFloatAfterOneDigit(s);
    PyFloatRejects(s);
    PyParseFloatRejected(s, s, default);
  }

  /** Python's parser gives the default for a string whose cleaned text `float` rejects. */
  lemma PyParseFloatRejected(s: string, t: string, default: real)
    requires ReplaceAll(Filter(s, NotPySeparator), ',', '.') == t && PyFloat(t).None?
    ensures PyParseFloat(Some(Str(s)), default) == default
  {
  }

  /** `float` rejects a text that is more than its longest decimal prefix. */
  lemma PyFloatRejects(s: string)
    requires StripPy(s) == s && DecimalPrefix(s).Some? && DecimalPrefix(s).value.length != |s|
    ensures PyFloat(s).None?
  {
  }

  /** A text whose second character is not a digit, a point or part of a number reads as no
      Python float. */
  lemma NoFloatAfterOneDigit(s: string)
    requires |s| == 3 && IsDigit(s[0]) && !IsDigit(s[1]) && s[1] != '.'
    ensures DecimalPrefix(s).Some? && DecimalPrefix(s).value.length == 1
  {
    assert DigitRun(s, 0) == 1 by { assert DigitRun(s, 1) == 0; }
  }

  /** `\s` matches the no-break space. */
  lemma RemoveNoBreakSpace(a: char, b: char)
    requires IsDigit(a) && IsDigit(b)
    ensures RemoveJsSpaces([a, '\U{00A0}', b]) == [a, b]
  {
    var keep := NotJsSpace;
    FilterAppend([a], ['\U{00A0}', b], keep);
    FilterAppend(['\U{00A0}'], [b], keep);
    assert [a, '\U{00A0}', b] == [a] + (['\U{00A0}'] + [b]);
  }
}
