/** The slice of JavaScript value semantics that the generator's option handling relies on:
    the values an option can hold, truthiness, loose equality against numbers and strings,
    string conversion for template literals, and the `$` patterns of String.prototype.replace. */
module JsValues {

  datatype Option<+T> = None | Some(value: T)

  /** A value stored under an option key. A key that is absent from the map is `undefined`.
      Numbers are integers in this model. */
  datatype Value =
    | JNull
    | JBool(b: bool)
    | JNumber(n: int)
    | JString(s: string)
    | JArray(items: seq<Value>)

  /** The result of ECMAScript StringToNumber, with exact reals for finite values. */
  datatype Numeric = Finite(r: real) | Infinite(negative: bool) | NaN

  /** WhiteSpace and LineTerminator code points of ECMAScript: the `\s` class of a regular
      expression and the characters that StringToNumber trims. */
  predicate IsJsSpace(c: char)
  {
    c == '\t' || c == '\n' || c == '\U{000B}' || c == '\U{000C}' || c == '\r' || c == ' '
    || c == '\U{00A0}' || c == '\U{1680}' || ('\U{2000}' <= c <= '\U{200A}')
    || c == '\U{2028}' || c == '\U{2029}' || c == '\U{202F}' || c == '\U{205F}'
    || c == '\U{3000}' || c == '\U{FEFF}'
  }

  /** The characters at which a regular expression's `.` stops and before which a
      multiline `$` matches. */
  predicate IsLineTerminator(c: char)
  {
    c == '\n' || c == '\r' || c == '\U{2028}' || c == '\U{2029}'
  }

  /** ASCII case mapping, the part of toLowerCase and of case-insensitive regular-expression
      matching that the generator's patterns can observe. */
  function LowerChar(c: char): (r: char)
    ensures 'A' <= c <= 'Z' ==> r as int == c as int + 32
    ensures !('A' <= c <= 'Z') ==> r == c
  {
    if 'A' <= c <= 'Z' then (c as int + 32) as char else c
  }

  function Lower(s: string): (r: string)
    ensures |r| == |s|
    ensures forall i :: 0 <= i < |s| ==> r[i] == LowerChar(s[i])
  {
    seq(|s|, i requires 0 <= i < |s| => LowerChar(s[i]))
  }

  lemma LowerIdempotent(s: string)
    ensures Lower(Lower(s)) == Lower(s)
  {
  }

  // ---------------------------------------------------------------------------------------
  // Truthiness and string conversion

  /** ToBoolean: what `if (v)`, `v || w` and `opts?.k` test. */
  predicate Truthy(v: Value)
  {
    match v
    case JNull => false
    case JBool(b) => b
    case JNumber(n) => n != 0
    case JString(s) => s != ""
    case JArray(_) => true
  }

  /** `opts?.k` used as a condition: an absent key is `undefined`, which is falsy. */
  predicate KeyTruthy(opts: map<string, Value>, k: string)
  {
    k in opts && Truthy(opts[k])
  }

  function DigitChar(d: nat): (c: char)
    requires d < 10
    ensures '0' <= c <= '9'
  {
    ('0' as int + d) as char
  }

  /** Decimal digits of a natural number, most significant first: they read back as the
      number, and only zero itself starts with '0'. */
  function NatDigits(n: nat): (r: string)
    ensures |r| > 0
    ensures forall i :: 0 <= i < |r| ==> '0' <= r[i] <= '9'
    ensures AllDigitsIn(r, 10) && DigitsValue(r, 10) == n
    ensures n == 0 ==> r == "0"
    ensures n > 0 ==> r[0] != '0'
  {
    if n < 10 then [DigitChar(n)]
    else
      var high := NatDigits(n / 10);
      var r := high + [DigitChar(n % 10)];
      assert r[..|r| - 1] == high;
      r
  }

  /** Number::toString for an integer. */
  function IntText(n: int): string
  {
    if n < 0 then "-" + NatDigits(-n) else NatDigits(n)
  }

  /** ToString(v), as a template literal `${v}` produces it. */
  function Text(v: Value): string
    decreases v, 0
  {
    match v
    case JNull => "null"
    case JBool(b) => if b then "true" else "false"
    case JNumber(n) => IntText(n)
    case JString(s) => s
    case JArray(items) => Join(items)
  }

  /** Array.prototype.join(",") as ToString applies it to an array: null becomes "". */
  function Join(items: seq<Value>): string
    decreases items, 2
  {
    if |items| == 0 then ""
    else if |items| == 1 then ElementText(items[0])
    else ElementText(items[0]) + "," + Join(items[1..])
  }

  function ElementText(v: Value): string
    decreases v, 1
  {
    match v
    case JNull => ""
    case JArray(items) => Join(items)
    case _ => Text(v)
  }

  /** `${opts.k}`: an absent key interpolates as "undefined". */
  function KeyText(opts: map<string, Value>, k: string): string
  {
    if k in opts then Text(opts[k]) else "undefined"
  }

  // ---------------------------------------------------------------------------------------
  // StringToNumber

  function TrimStart(s: string): (r: string)
    ensures |r| <= |s| && r == s[|s| - |r|..]
    ensures r != [] ==> !IsJsSpace(r[0])
    ensures forall i :: 0 <= i < |s| - |r| ==> IsJsSpace(s[i])
  {
    if s != [] && IsJsSpace(s[0]) then TrimStart(s[1..]) else s
  }

  function TrimEnd(s: string): (r: string)
    ensures |r| <= |s| && r == s[..|r|]
    ensures r != [] ==> !IsJsSpace(r[|r| - 1])
    ensures forall i :: |r| <= i < |s| ==> IsJsSpace(s[i])
  {
    if s != [] && IsJsSpace(s[|s| - 1]) then TrimEnd(s[..|s| - 1]) else s
  }

  function Trim(s: string): string
  {
    TrimEnd(TrimStart(s))
  }

  predicate IsDigit(c: char)
  {
    '0' <= c <= '9'
  }

  /** The value of `c` as a digit in `base` (2, 8, 10 or 16), if it is one. */
  function DigitValue(c: char, base: nat): Option<nat>
  {
    var d :=
      if '0' <= c <= '9' then (c as int - '0' as int)
      else if 'a' <= c <= 'f' then (c as int - 'a' as int + 10)
      else if 'A' <= c <= 'F' then (c as int - 'A' as int + 10)
      else 16;
    if d < base then Some(d) else None
  }

  predicate AllDigitsIn(s: string, base: nat)
  {
    forall i :: 0 <= i < |s| ==> DigitValue(s[i], base).Some?
  }

  function DigitsValue(s: string, base: nat): nat
    requires AllDigitsIn(s, base)
  {
    if s == [] then 0
    else DigitsValue(s[..|s| - 1], base) * base + DigitValue(s[|s| - 1], base).value
  }

  function Pow10(e: nat): (r: nat)
    ensures r >= 1
  {
    if e == 0 then 1 else 10 * Pow10(e - 1)
  }

  /** m * 10^e on exact reals. */
  function Scale(m: nat, e: int): real
  {
    if e >= 0 then (m * Pow10(e)) as real else m as real / Pow10(-e) as real
  }

  /** The index of the first occurrence of a character satisfying `c == x || c == y`, or |s|. */
  function FindEither(s: string, x: char, y: char): (k: nat)
    ensures k <= |s|
    ensures forall i :: 0 <= i < k ==> s[i] != x && s[i] != y
    ensures k < |s| ==> s[k] == x || s[k] == y
  {
    if s == [] then 0
    else if s[0] == x || s[0] == y then 0
    else 1 + FindEither(s[1..], x, y)
  }

  /** SignedInteger of an ExponentPart: an optional sign and at least one decimal digit. */
  function ParseExponent(s: string): Option<int>
  {
    if s == [] then None
    else if s[0] == '+' || s[0] == '-' then
      var digits := s[1..];
      if digits != [] && AllDigitsIn(digits, 10) then
        var magnitude: int := DigitsValue(digits, 10);
        Some(if s[0] == '-' then -magnitude else magnitude)
      else None
    else if AllDigitsIn(s, 10) then Some(DigitsValue(s, 10))
    else None
  }

  /** StrUnsignedDecimalLiteral other than Infinity: `12`, `1.`, `.5`, `1.5e-3`. */
  function ParseUnsignedDecimal(t: string): Option<real>
  {
    var k := FindEither(t, 'e', 'E');
    var exponent := if k == |t| then Some(0) else ParseExponent(t[k + 1..]);
    var mantissa := t[..k];
    var d := FindEither(mantissa, '.', '.');
    var whole := mantissa[..d];
    var fraction := if d < |mantissa| then mantissa[d + 1..] else "";
    if exponent.None? || (whole == [] && fraction == []) then None
    else if !AllDigitsIn(whole, 10) || !AllDigitsIn(fraction, 10) then None
    else Some(Scale(DigitsValue(whole + fraction, 10), exponent.value - |fraction|))
  }

  /** StrDecimalLiteral: an optional sign, then Infinity or an unsigned decimal. */
  function ParseDecimal(t: string): Option<Numeric>
  {
    var negative := t != [] && t[0] == '-';
    var body := if t != [] && (t[0] == '+' || t[0] == '-') then t[1..] else t;
    if body == "Infinity" then Some(Infinite(negative))
    else match ParseUnsignedDecimal(body)
      case None => None
      case Some(r) => Some(Finite(if negative then -r else r))
  }

  /** NonDecimalIntegerLiteral: 0b, 0o or 0x (either case) and at least one digit. */
  function ParseNonDecimal(t: string): Option<Numeric>
  {
    if |t| < 3 || t[0] != '0' then None
    else
      var base := if t[1] == 'x' || t[1] == 'X' then 16
                  else if t[1] == 'o' || t[1] == 'O' then 8
                  else if t[1] == 'b' || t[1] == 'B' then 2
                  else 0;
      if base != 0 && AllDigitsIn(t[2..], base) then Some(Finite(DigitsValue(t[2..], base) as real))
      else None
  }

  /** ECMAScript StringToNumber: blank strings are 0, anything outside the grammar is NaN. */
  function StringToNumber(s: string): Numeric
  {
    var t := Trim(s);
    if t == [] then Finite(0.0)
    else match ParseNonDecimal(t)
      case Some(n) => n
      case None =>
        match ParseDecimal(t)
        case Some(n) => n
        case None => NaN
  }

  /** `v == x` for a number x (and `v == true`, which compares with 1): null never equals
      a number; booleans compare as 0 or 1; strings and arrays through StringToNumber. */
  predicate LooselyEqualsNumber(v: Value, x: real)
  {
    match v
    case JNull => false
    case JBool(b) => (if b then 1.0 else 0.0) == x
    case JNumber(n) => n as real == x
    case JString(s) => StringToNumber(s) == Finite(x)
    case JArray(items) => StringToNumber(Join(items)) == Finite(x)
  }

  /** `v == str` for a string literal str. */
  predicate LooselyEqualsString(v: Value, str: string)
  {
    match v
    case JNull => false
    case JBool(b) => StringToNumber(str) == Finite(if b then 1.0 else 0.0)
    case JNumber(n) => StringToNumber(str) == Finite(n as real)
    case JString(s) => s == str
    case JArray(items) => Join(items) == str
  }

  /** `opts.k == true`, with an absent key being `undefined`. */
  predicate KeyLooselyTrue(opts: map<string, Value>, k: string)
  {
    k in opts && LooselyEqualsNumber(opts[k], 1.0)
  }

  /** A string whose first non-blank character cannot begin a numeric literal converts to
      NaN, so it never loosely equals a number. */
  lemma NonNumericLead(s: string)
    requires Trim(s) != []
    requires Trim(s)[0] !in "0123456789+-.I"
    ensures StringToNumber(s) == NaN
  {
    var t := Trim(s);
    assert ParseNonDecimal(t) == None;
    assert t != "Infinity" by { assert t[0] != 'I'; }
    UnsignedDecimalLead(t);
  }

  lemma UnsignedDecimalLead(t: string)
    requires t != [] && !IsDigit(t[0]) && t[0] != '.'
    ensures ParseUnsignedDecimal(t) == None
  {
    var k := FindEither(t, 'e', 'E');
    if k > 0 {
      var mantissa := t[..k];
      assert mantissa[0] == t[0];
      var d := FindEither(mantissa, '.', '.');
      assert d > 0;
      assert mantissa[..d][0] == t[0];
      assert DigitValue(t[0], 10).None?;
      assert !AllDigitsIn(mantissa[..d], 10);
    }
  }

  /** Booleans loosely equal `true` exactly when they are true. */
  lemma BooleanLooselyTrue(b: bool)
    ensures LooselyEqualsNumber(JBool(b), 1.0) <==> b
  {
  }

  // ---------------------------------------------------------------------------------------
  // Replacement patterns of String.prototype.replace

  /** GetSubstitution with no capture groups: `$$` is `$`, `$&` the matched text, `` $` `` the text
      before the match, `$'` the text after it; any other `$` stands for itself. */
  function Substitute(template: string, matched: string, before: string, after: string): string
  {
    if template == [] then []
    else if template[0] == '$' && |template| >= 2 && template[1] == '$' then
      "$" + Substitute(template[2..], matched, before, after)
    else if template[0] == '$' && |template| >= 2 && template[1] == '&' then
      matched + Substitute(template[2..], matched, before, after)
    else if template[0] == '$' && |template| >= 2 && template[1] == '`' then
      before + Substitute(template[2..], matched, before, after)
    else if template[0] == '$' && |template| >= 2 && template[1] == '\'' then
      after + Substitute(template[2..], matched, before, after)
    else [template[0]] + Substitute(template[1..], matched, before, after)
  }

  /** A replacement string without `$` is inserted literally. */
  lemma {:induction false} SubstitutePlain(template: string, matched: string, before: string, after: string)
    requires '$' !in template
    ensures Substitute(template, matched, before, after) == template
  {
    if template != [] {
      assert template[0] != '$';
      assert '$' !in template[1..] by {
        forall i | 0 <= i < |template[1..]| ensures template[1..][i] != '$' {
          assert template[1..][i] == template[i + 1];
        }
      }
      SubstitutePlain(template[1..], matched, before, after);
      assert template == [template[0]] + template[1..];
    }
  }

  // ---------------------------------------------------------------------------------------
  // indexOf

  /** Whether `pat` occurs in `s` starting at position i. */
  predicate OccursAt(s: string, pat: string, i: nat)
  {
    i + |pat| <= |s| && s[i..i + |pat|] == pat
  }

  /** The first position at or after `from` where `pat` occurs, or -1. */
  function IndexFrom(s: string, pat: string, from: nat): (r: int)
    decreases |s| - from
    ensures r == -1 || (from <= r && OccursAt(s, pat, r))
    ensures r == -1 ==> forall i :: from <= i ==> !OccursAt(s, pat, i)
    ensures r != -1 ==> forall i :: from <= i < r ==> !OccursAt(s, pat, i)
  {
    if from + |pat| > |s| then -1
    else if s[from..from + |pat|] == pat then from
    else IndexFrom(s, pat, from + 1)
  }

  /** String.prototype.indexOf (and Buffer.prototype.indexOf on text of single-byte characters). */
  function IndexOf(s: string, pat: string): int
  {
    IndexFrom(s, pat, 0)
  }
}
