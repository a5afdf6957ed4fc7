/** Shared vocabulary: optional values, results that carry the Python
    exception a call would raise, the dynamically typed values found in tag
    attribute dictionaries, and the handful of built-in string and integer
    operations the rest of the model relies on (int(), str(int), str.split,
    str.replace, str.lower). */
module Values {

  datatype Option<+T> = None | Some(value: T) {
    function GetOr(default: T): T {
      match this
      case Some(v) => v
      case None => default
    }
  }

  /** The exceptions the modelled code can raise or catch. */
  datatype Error =
    | KeyError(key: string)
    | TypeError
    | ValueError
    | AttributeError
    | ZeroDivisionError
    | IndexError
    | UnboundLocalError
    | ArgumentError
    | PluginError(configKey: string)
    | OperationError
    | IntegrityError
    | UnmappedInstanceError

  datatype Result<+T> = Ok(value: T) | Err(error: Error)

  datatype Outcome = Pass | Fail(error: Error)

  /** A value as it appears in a tag definition or an API response dictionary. */
  datatype Value =
    | VNull
    | VBool(b: bool)
    | VInt(i: int)
    | VStr(s: string)
    | VList(items: seq<Value>)
    | VDict(entries: map<string, Value>)

  type Attributes = map<string, Value>

  /** `d.get(key, default)` */
  function GetOr(d: map<string, Value>, key: string, default: Value): (v: Value)
    ensures key in d ==> v == d[key]
    ensures key !in d ==> v == default
  {
    if key in d then d[key] else default
  }

  /** `d.get(key)`: None when the key is absent. */
  function Get(d: map<string, Value>, key: string): Value {
    GetOr(d, key, VNull)
  }

  // ---------------------------------------------------------------------
  // Decimal integers: str(int) and int(str)
  // ---------------------------------------------------------------------

  predicate IsDigit(c: char) {
    '0' <= c <= '9'
  }

  /** The characters `str.isspace` accepts, which `int()` strips from both
      ends of its argument. */
  predicate IsSpace(c: char) {
    ('\U{9}' <= c <= '\U{D}') || ('\U{1C}' <= c <= '\U{20}') || c == '\U{85}' || c == '\U{A0}'
    || c == '\U{1680}' || ('\U{2000}' <= c <= '\U{200A}') || c == '\U{2028}' || c == '\U{2029}'
    || c == '\U{202F}' || c == '\U{205F}' || c == '\U{3000}'
  }

  function DigitChar(d: int): (c: char)
    requires 0 <= d < 10
    ensures IsDigit(c)
  {
    ['0', '1', '2', '3', '4', '5', '6', '7', '8', '9'][d]
  }

  function DigitValue(c: char): (d: int)
    requires IsDigit(c)
    ensures 0 <= d < 10
  {
    c as int - '0' as int
  }

  /** Decimal digits of a natural number, most significant first, no leading zeros. */
  function NatToString(n: nat): (s: string)
    ensures |s| > 0
    ensures forall i :: 0 <= i < |s| ==> IsDigit(s[i])
  {
    if n < 10 then [DigitChar(n)] else NatToString(n / 10) + [DigitChar(n % 10)]
  }

  /** `str(i)` / `'%s' % i` for an int. */
  function IntToString(i: int): string {
    if i < 0 then "-" + NatToString(-i) else NatToString(i)
  }

  /** The number a non-empty digit string denotes. */
  function DigitsValue(s: string): nat
    requires forall i :: 0 <= i < |s| ==> IsDigit(s[i])
  {
    if |s| == 0 then 0 else DigitsValue(s[..|s| - 1]) * 10 + DigitValue(s[|s| - 1])
  }

  function TrimStart(s: string): (r: string)
    ensures |r| <= |s|
  {
    if |s| > 0 && IsSpace(s[0]) then TrimStart(s[1..]) else s
  }

  function TrimEnd(s: string): (r: string)
    ensures |r| <= |s|
  {
    if |s| > 0 && IsSpace(s[|s| - 1]) then TrimEnd(s[..|s| - 1]) else s
  }

  predicate AllDigits(s: string) {
    forall i :: 0 <= i < |s| ==> IsDigit(s[i])
  }

  /** The digit part of a decimal literal: digits, where single underscores
      may separate two digits. */
  predicate Grouped(s: string) {
    && |s| > 0 && IsDigit(s[0]) && IsDigit(s[|s| - 1])
    && (forall i :: 0 <= i < |s| ==> IsDigit(s[i]) || s[i] == '_')
    && (forall i :: 0 <= i < |s| - 1 && s[i] == '_' ==> s[i + 1] != '_')
  }

  /** The digits of a grouped literal with the underscores taken out. */
  function DropUnderscores(s: string): (r: string)
    ensures (forall i :: 0 <= i < |s| ==> IsDigit(s[i]) || s[i] == '_') ==> AllDigits(r)
  {
    if |s| == 0 then ""
    else (if s[0] == '_' then "" else [s[0]]) + DropUnderscores(s[1..])
  }

  /** Parses what remains once surrounding whitespace is gone: an optional
      sign followed by a grouped run of decimal digits. */
  function ParseSigned(t: string): Option<int> {
    if |t| > 0 && (t[0] == '-' || t[0] == '+') then
      var digits := t[1..];
      if Grouped(digits) then
        var magnitude: int := DigitsValue(DropUnderscores(digits));
        Some(if t[0] == '-' then -magnitude else magnitude)
      else None
    else if Grouped(t) then Some(DigitsValue(DropUnderscores(t)))
    else None
  }

  /** `int(s)` for a string: None where Python raises ValueError. */
  function ParseInt(s: string): Option<int> {
    ParseSigned(TrimEnd(TrimStart(s)))
  }

  /** `int(v)` for an attribute value: strings are parsed, bools are 0/1,
      None and containers raise TypeError. */
  function ToInt(v: Value): (r: Result<int>)
    ensures r.Err? ==> (r.error == ValueError <==> v.VStr?)
    ensures r.Err? ==> r.error == ValueError || r.error == TypeError
    ensures v.VInt? ==> r == Ok(v.i)
    ensures v.VStr? ==> (r.Ok? <==> ParseInt(v.s).Some?) && (r.Ok? ==> r.value == ParseInt(v.s).value)
    ensures v.VNull? || v.VList? || v.VDict? ==> r == Err(TypeError)
  {
    match v
    case VInt(i) => Ok(i)
    case VBool(b) => Ok(if b then 1 else 0)
    case VStr(s) => (match ParseInt(s) case Some(i) => Ok(i) case None => Err(ValueError))
    case _ => Err(TypeError)
  }

  lemma {:induction false} DigitsValueSnoc(s: string, c: char)
    requires AllDigits(s) && IsDigit(c)
    ensures AllDigits(s + [c])
    ensures DigitsValue(s + [c]) == DigitsValue(s) * 10 + DigitValue(c)
  {
    assert (s + [c])[..|s + [c]| - 1] == s;
  }

  lemma {:induction false} NatToStringValue(n: nat)
    ensures DigitsValue(NatToString(n)) == n
  {
    if n < 10 {
      assert DigitValue(DigitChar(n)) == n;
    } else {
      NatToStringValue(n / 10);
      DigitsValueSnoc(NatToString(n / 10), DigitChar(n % 10));
      assert DigitValue(DigitChar(n % 10)) == n % 10;
    }
  }

  /** A string that neither starts nor ends with whitespace is not trimmed. */
  lemma Untrimmed(s: string)
    requires |s| > 0 && !IsSpace(s[0]) && !IsSpace(s[|s| - 1])
    ensures TrimEnd(TrimStart(s)) == s
  {
  }

  lemma {:induction false} DropUnderscoresOfDigits(s: string)
    requires AllDigits(s)
    ensures DropUnderscores(s) == s
  {
    if |s| > 0 {
      DropUnderscoresOfDigits(s[1..]);
      assert [s[0]] + s[1..] == s;
    }
  }

  lemma {:induction false} DropUnderscoresAppend(x: string, y: string)
    ensures DropUnderscores(x + y) == DropUnderscores(x) + DropUnderscores(y)
  {
    if |x| == 0 {
      assert x + y == y;
    } else {
      assert (x + y)[0] == x[0];
      assert (x + y)[1..] == x[1..] + y;
      DropUnderscoresAppend(x[1..], y);
    }
  }

  /** A plain digit string is a grouped literal that denotes its own value. */
  lemma DigitsParse(d: string)
    requires |d| > 0 && AllDigits(d)
    ensures Grouped(d) && DigitsValue(DropUnderscores(d)) == DigitsValue(d)
  {
    DropUnderscoresOfDigits(d);
  }

  lemma NatToStringRoundTrip(n: nat)
    ensures ParseInt(NatToString(n)) == Some(n)
  {
    var d := NatToString(n);
    Untrimmed(d);
    DigitsParse(d);
    NatToStringValue(n);
  }

  /** A minus sign in front of a grouped literal negates it. */
  lemma ParseNegated(d: string)
    requires Grouped(d)
    ensures ParseInt("-" + d) == Some(-(DigitsValue(DropUnderscores(d)) as int))
  {
    var s := "-" + d;
    assert s[1..] == d && s[|s| - 1] == d[|d| - 1];
    Untrimmed(s);
  }

  lemma NegativeToStringRoundTrip(n: nat)
    requires n > 0
    ensures ParseInt("-" + NatToString(n)) == Some(-(n as int))
  {
    var d := NatToString(n);
    DigitsParse(d);
    ParseNegated(d);
    NatToStringValue(n);
  }

  lemma GroupedJoin(a: string, b: string)
    requires |a| > 0 && |b| > 0 && AllDigits(a) && AllDigits(b)
    ensures Grouped(a + "_" + b)
  {
    var s := a + "_" + b;
    assert s[|s| - 1] == b[|b| - 1];
    forall i | 0 <= i < |s|
      ensures IsDigit(s[i]) || s[i] == '_'
    {
      if i > |a| { assert s[i] == b[i - |a| - 1]; }
    }
    forall i | 0 <= i < |s| - 1 && s[i] == '_'
      ensures s[i + 1] != '_'
    {
      assert i == |a|;
      assert s[i + 1] == b[0];
    }
  }

  lemma DropJoin(a: string, b: string)
    requires AllDigits(a) && AllDigits(b)
    ensures DropUnderscores(a + "_" + b) == a + b
  {
    var t := "_" + b;
    assert DropUnderscores("_") == "" by {
      assert "_"[1..] == "";
    }
    DropUnderscoresAppend("_", b);
    DropUnderscoresOfDigits(b);
    assert DropUnderscores(t) == b;
    DropUnderscoresAppend(a, t);
    DropUnderscoresOfDigits(a);
    assert a + "_" + b == a + t;
  }

  /** A grouped literal with nothing around it reads as its digits. */
  lemma ParseGrouped(t: string)
    requires Grouped(t)
    ensures ParseInt(t) == Some(DigitsValue(DropUnderscores(t)))
  {
    Untrimmed(t);
  }

  /** An underscore between two runs of digits does not change the number
      `int()` reads, as in `int("1_000") == 1000`. */
  lemma UnderscoreBetweenDigits(a: string, b: string)
    requires |a| > 0 && |b| > 0 && AllDigits(a) && AllDigits(b)
    ensures ParseInt(a + "_" + b) == ParseInt(a + b) == Some(DigitsValue(a + b))
  {
    GroupedJoin(a, b);
    DropJoin(a, b);
    ParseGrouped(a + "_" + b);
    DigitsParse(a + b);
    ParseGrouped(a + b);
  }

  /** A literal that starts or ends with an underscore, or holds two in a
      row, is a ValueError. */
  lemma MisplacedUnderscores()
    ensures ParseInt("_1").None? && ParseInt("1_").None? && ParseInt("1__0").None?
  {
    Untrimmed("_1");
    Untrimmed("1_");
    Untrimmed("1__0");
    assert !Grouped("1__0") by { assert "1__0"[1] == '_' && "1__0"[2] == '_'; }
  }

  lemma ThousandValue()
    ensures AllDigits("1000") && DigitsValue("1000") == 1000
  {
    assert "1000"[..3] == "100" && "100"[..2] == "10" && "10"[..1] == "1";
  }

  /** `int("1_000") == 1000`. */
  lemma UnderscoreExample()
    ensures ParseInt("1_000") == Some(1000)
  {
    UnderscoreBetweenDigits("1", "000");
    assert "1" + "_" + "000" == "1_000";
    assert "1" + "000" == "1000";
    ThousandValue();
  }

  /** A no-break space before the sign and a trailing newline are stripped. */
  lemma WhitespaceExample()
    ensures ParseInt("\U{A0}-7\n") == Some(-7)
  {
    assert TrimStart("\U{A0}-7\n") == "-7\n" by { assert "\U{A0}-7\n"[1..] == "-7\n"; }
    assert TrimEnd("-7\n") == "-7" by { assert "-7\n"[..2] == "-7"; }
    assert "-7"[1..] == "7";
    DigitsParse("7");
  }

  /** `int(str(i)) == i` for every integer. */
  lemma IntToStringRoundTrip(i: int)
    ensures ParseInt(IntToString(i)) == Some(i)
  {
    if i < 0 {
      NegativeToStringRoundTrip(-i);
    } else {
      NatToStringRoundTrip(i);
    }
  }

  // ---------------------------------------------------------------------
  // Truncating division: Python's int(a / b)
  // ---------------------------------------------------------------------

  function Abs(x: int): nat {
    if x < 0 then -x else x
  }

  /** The quotient rounded toward zero, which is what `int(a / b)` yields:
      its magnitude is the floor of |a| / |b| and its sign is the product
      of the operands' signs. */
  function TruncDiv(a: int, b: int): (q: int)
    requires b != 0
    ensures Abs(q) == Abs(a) / Abs(b)
    ensures q > 0 ==> (a > 0) == (b > 0)
    ensures q < 0 ==> (a > 0) != (b > 0)
  {
    QuotientOfMagnitudes(Abs(a), Abs(b));
    if (a < 0) == (b < 0) then Abs(a) / Abs(b) else -(Abs(a) / Abs(b))
  }

  lemma QuotientOfMagnitudes(x: nat, y: nat)
    requires y > 0
    ensures x / y >= 0
    ensures x == 0 ==> x / y == 0
  {
  }

  lemma TruncDivOfNaturals(a: nat, b: int)
    requires b > 0
    ensures TruncDiv(a, b) == a / b
  {
  }

  // ---------------------------------------------------------------------
  // String helpers: lower(), replace(), split(':')
  // ---------------------------------------------------------------------

  function LowerChar(c: char): char {
    if 'A' <= c <= 'Z' then (c as int + 32) as char else c
  }

  /** `s.lower()` on ASCII letters. */
  function Lower(s: string): (r: string)
    ensures |r| == |s|
    ensures forall i :: 0 <= i < |s| ==> r[i] == LowerChar(s[i])
  {
    if |s| == 0 then "" else [LowerChar(s[0])] + Lower(s[1..])
  }

  /** `s.replace(pat, rep)`: every non-overlapping occurrence of `pat`, found
      scanning left to right, is replaced. */
  function ReplaceAll(s: string, pat: string, rep: string): string
    requires |pat| > 0
    decreases |s|
  {
    if |s| < |pat| then s
    else if s[..|pat|] == pat then rep + ReplaceAll(s[|pat|..], pat, rep)
    else [s[0]] + ReplaceAll(s[1..], pat, rep)
  }

  /** `s.split(sep)` for a one-character separator. */
  function Split(s: string, sep: char): (parts: seq<string>)
    ensures |parts| > 0
  {
    if |s| == 0 then [""]
    else
      var rest := Split(s[1..], sep);
      if s[0] == sep then [""] + rest else [[s[0]] + rest[0]] + rest[1..]
  }

  /** `pat` occurs in `s` starting at index `i`. */
  predicate OccursAt(s: string, pat: string, i: nat) {
    i + |pat| <= |s| && s[i..i + |pat|] == pat
  }

  /** A string in which `pat` occurs at no position. */
  predicate Free(s: string, pat: string) {
    forall i: nat | i <= |s| :: !OccursAt(s, pat, i)
  }

  /** Replacing in a string where the pattern does not occur changes nothing. */
  lemma {:induction false} ReplaceAbsent(s: string, pat: string, rep: string)
    requires |pat| > 0 && Free(s, pat)
    ensures ReplaceAll(s, pat, rep) == s
    decreases |s|
  {
    if |s| >= |pat| {
      assert !OccursAt(s, pat, 0);
      var t := s[1..];
      forall i: nat | i <= |t|
        ensures !OccursAt(t, pat, i)
      {
        if i + |pat| <= |t| {
          assert t[i..i + |pat|] == s[i + 1..i + 1 + |pat|];
          assert !OccursAt(s, pat, i + 1);
        }
      }
      ReplaceAbsent(t, pat, rep);
      assert [s[0]] + t == s;
    }
  }

  lemma {:induction false} SplitNoSeparator(a: string, sep: char)
    requires forall i :: 0 <= i < |a| ==> a[i] != sep
    ensures Split(a, sep) == [a]
  {
    if |a| > 0 {
      SplitNoSeparator(a[1..], sep);
      assert [a[0]] + a[1..] == a;
    }
  }

  /** Splitting `a + sep + t` where `a` has no separator peels `a` off. */
  lemma {:induction false} SplitAfterField(a: string, sep: char, t: string)
    requires forall i :: 0 <= i < |a| ==> a[i] != sep
    ensures Split(a + [sep] + t, sep) == [a] + Split(t, sep)
  {
    if |a| == 0 {
      assert a + [sep] + t == [sep] + t;
      assert ([sep] + t)[1..] == t;
    } else {
      var s := a + [sep] + t;
      assert s[1..] == a[1..] + [sep] + t;
      SplitAfterField(a[1..], sep, t);
      assert [a[0]] + a[1..] == a;
    }
  }
}
