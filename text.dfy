/** The JavaScript string builtins the application's logic depends on:
    `trim`, `toLowerCase`, `parseInt(s, 10)`, `Number(s)`, `String(n)`,
    `padStart(2, '0')`, `replace(/\s+/g, '-')` and `split(':')`.
    Integers are unbounded here; JavaScript numbers are doubles. */
module Text {
  import opened Base

  predicate IsDigit(c: char) { '0' <= c <= '9' }

  /** The ECMAScript WhiteSpace and LineTerminator code points: what `trim`
      strips and what the regular-expression class `\s` matches. */
  predicate IsSpace(c: char) {
    if c < '\U{A0}' then
      ('\t' <= c <= '\r') || c == ' '   // tab, line feed, vertical tab, form feed, carriage return
    else
      || c == '\U{A0}' || c == '\U{1680}' || ('\U{2000}' <= c <= '\U{200A}')
      || c == '\U{2028}' || c == '\U{2029}' || c == '\U{202F}' || c == '\U{205F}'
      || c == '\U{3000}' || c == '\U{FEFF}'
  }

  /** `s.trimStart()`: the longest suffix of `s` that does not begin with white space. */
  function TrimStart(s: string): (r: string)
    ensures |r| <= |s| && r == s[|s| - |r|..]
    ensures forall i :: 0 <= i < |s| - |r| ==> IsSpace(s[i])
    ensures r == [] || !IsSpace(r[0])
  {
    if s == [] || !IsSpace(s[0]) then s else TrimStart(s[1..])
  }

  /** `s.trimEnd()`: the longest prefix of `s` that does not end with white space. */
  function TrimEnd(s: string): (r: string)
    ensures |r| <= |s| && r == s[..|r|]
    ensures forall i :: |r| <= i < |s| ==> IsSpace(s[i])
    ensures r == [] || !IsSpace(r[|r| - 1])
  {
    if s == [] || !IsSpace(s[|s| - 1]) then s else TrimEnd(s[..|s| - 1])
  }

  /** `s.trim()`. */
  function Trim(s: string): string {
    TrimEnd(TrimStart(s))
  }

  /** A string trims to nothing exactly when it is all white space. */
  lemma TrimEmpty(s: string)
    ensures Trim(s) == [] <==> forall i :: 0 <= i < |s| ==> IsSpace(s[i])
  {
  }

  /** Trimming a string that neither starts nor ends with white space is the identity. */
  lemma TrimPlain(s: string)
    requires s != [] && !IsSpace(s[0]) && !IsSpace(s[|s| - 1])
    ensures Trim(s) == s
  {
  }

  /** `c.toLowerCase()` on the ASCII letters; every other code point is kept. */
  function LowerChar(c: char): char {
    if 'A' <= c <= 'Z' then (c as int + 32) as char else c
  }

  /** `s.toLowerCase()`, restricted to ASCII letters. */
  function ToLower(s: string): string {
    seq(|s|, i requires 0 <= i < |s| => LowerChar(s[i]))
  }

  predicate AllDigits(s: string) {
    forall i :: 0 <= i < |s| ==> IsDigit(s[i])
  }

  /** The value of a string of decimal digits (0 for the empty string). */
  function DigitsValue(s: string): nat
    requires AllDigits(s)
  {
    if s == [] then 0 else 10 * DigitsValue(s[..|s| - 1]) + (s[|s| - 1] as int - '0' as int)
  }

  /** The longest prefix of `s` made of decimal digits. */
  function DigitPrefix(s: string): (r: string)
    ensures AllDigits(r) && r <= s
    ensures |r| == |s| || !IsDigit(s[|r|])
  {
    if s == [] || !IsDigit(s[0]) then [] else [s[0]] + DigitPrefix(s[1..])
  }

  lemma {:induction false} DigitPrefixAll(s: string)
    requires AllDigits(s)
    ensures DigitPrefix(s) == s
  {
    if s != [] {
      DigitPrefixAll(s[1..]);
    }
  }

  /** `parseInt(s, 10)`: skip leading white space, take an optional sign and
      the longest run of digits that follows; no digits gives `NaN` (None). */
  function ParseInt(s: string): Option<int> {
    ParseSigned(TrimStart(s))
  }

  /** An optional sign followed by the digit prefix of the rest. */
  function ParseSigned(t: string): Option<int> {
    if |t| > 0 && t[0] == '-' then Negate(ParseDigits(t[1..]))
    else if |t| > 0 && t[0] == '+' then ParseDigits(t[1..])
    else ParseDigits(t)
  }

  function ParseDigits(body: string): Option<int> {
    var d := DigitPrefix(body);
    if d == [] then None else Some(DigitsValue(d))
  }

  function Negate(v: Option<int>): Option<int> {
    if v.Some? then Some(-v.value) else None
  }

  /** `Number(s)` for the strings whose value is an integer written in
      decimal: white space around an optional sign and digits; a blank string
      is 0. Every other string is `NaN` (None) here. */
  function NumberValue(s: string): Option<int> {
    if Trim(s) == [] then Some(0) else WholeSigned(Trim(s))
  }

  /** `!isNaN(Number(s))`: after trimming, `s` is empty or a
      StringNumericLiteral (ECMAScript section 7.1.4.1): a signed decimal with
      optional fraction and exponent, `Infinity`, or an unsigned hexadecimal,
      octal or binary integer. */
  predicate IsNumeric(s: string) {
    var t := Trim(s);
    t == [] || SignedDecimal(t) || NonDecimalInteger(t)
  }

  predicate SignedDecimal(t: string) {
    if |t| > 0 && (t[0] == '+' || t[0] == '-') then UnsignedDecimal(t[1..]) else UnsignedDecimal(t)
  }

  /** `Infinity`, or digits with an optional fraction (at least one digit in
      all) and an optional exponent. */
  predicate UnsignedDecimal(t: string) {
    var whole := DigitPrefix(t);
    var rest := t[|whole|..];
    if t == "Infinity" then true
    else if rest != [] && rest[0] == '.' then
      var fraction := DigitPrefix(rest[1..]);
      (whole != [] || fraction != []) && OptionalExponent(rest[1 + |fraction|..])
    else whole != [] && OptionalExponent(rest)
  }

  predicate OptionalExponent(t: string) {
    t == [] || ((t[0] == 'e' || t[0] == 'E') && SignedDigits(t[1..]))
  }

  predicate SignedDigits(t: string) {
    if |t| > 0 && (t[0] == '+' || t[0] == '-') then t[1..] != [] && AllDigits(t[1..])
    else t != [] && AllDigits(t)
  }

  predicate NonDecimalInteger(t: string) {
    && |t| > 2 && t[0] == '0'
    && (|| ((t[1] == 'x' || t[1] == 'X') && forall i :: 2 <= i < |t| ==> IsHexDigit(t[i]))
        || ((t[1] == 'o' || t[1] == 'O') && forall i :: 2 <= i < |t| ==> '0' <= t[i] <= '7')
        || ((t[1] == 'b' || t[1] == 'B') && forall i :: 2 <= i < |t| ==> t[i] == '0' || t[i] == '1'))
  }

  predicate IsHexDigit(c: char) {
    IsDigit(c) || 'a' <= c <= 'f' || 'A' <= c <= 'F'
  }

  /** Every string this model gives an integer value is numeric. */
  lemma NumberValueIsNumeric(s: string)
    requires NumberValue(s).Some?
    ensures IsNumeric(s)
  {
    var t := Trim(s);
    if t != [] {
      var body := if t[0] == '-' || t[0] == '+' then t[1..] else t;
      DigitPrefixAll(body);
      assert body[|body|..] == [];
    }
  }

  /** An optional sign followed by digits up to the end of the string. */
  function WholeSigned(t: string): Option<int> {
    if |t| > 0 && t[0] == '-' then Negate(WholeDigits(t[1..]))
    else if |t| > 0 && t[0] == '+' then WholeDigits(t[1..])
    else WholeDigits(t)
  }

  function WholeDigits(body: string): Option<int> {
    if body != [] && AllDigits(body) then Some(DigitsValue(body)) else None
  }

  /** Where `Number` yields an integer for a non-blank string, `parseInt`
      yields the same integer. */
  lemma NumberAgreesWithParseInt(s: string)
    requires Trim(s) != [] && NumberValue(s).Some?
    ensures ParseInt(s) == NumberValue(s)
  {
    var t0 := TrimStart(s);
    var t := Trim(s);
    assert t == t0[..|t|];
    assert |t| == |t0| || IsSpace(t0[|t|]);
    SignedAgrees(t0, t);
  }

  /** `parseInt`'s reading of a trimmed-at-the-start string agrees with
      `Number`'s reading of the same string trimmed at the end. */
  lemma SignedAgrees(t0: string, t: string)
    requires t != [] && |t| <= |t0| && t == t0[..|t|] && (|t| == |t0| || IsSpace(t0[|t|]))
    requires WholeSigned(t).Some?
    ensures ParseSigned(t0) == WholeSigned(t)
  {
    var k := if t[0] == '-' || t[0] == '+' then 1 else 0;
    var body, body0 := t[k..], t0[k..];
    assert body == t0[k..|t|];
    assert body0[..|body|] == t0[k..|t|];
    if |t| < |t0| {
      assert body0[|body|] == t0[|t|];
    }
    DigitsAgree(body, body0);
  }

  /** A complete run of digits followed by white space or nothing is read
      the same by `parseInt` and by `Number`. */
  lemma DigitsAgree(body: string, body0: string)
    requires |body| <= |body0| && body == body0[..|body|] && (|body| == |body0| || IsSpace(body0[|body|]))
    requires WholeDigits(body).Some?
    ensures ParseDigits(body0) == WholeDigits(body)
  {
    DigitPrefixAll(body);
    DigitPrefixMaximal(body, body0);
  }

  /** The digit prefix of a string that starts with a complete run of digits
      followed by something that is not a digit, is that run. */
  lemma {:induction false} DigitPrefixMaximal(d: string, s: string)
    requires AllDigits(d) && d <= s
    requires |d| == |s| || !IsDigit(s[|d|])
    ensures DigitPrefix(s) == d
  {
    if d != [] {
      DigitPrefixMaximal(d[1..], s[1..]);
    }
  }

  function DigitChar(n: nat): (c: char)
    requires n < 10
    ensures IsDigit(c) && c as int - '0' as int == n
  {
    ('0' as int + n) as char
  }

  /** `String(n)` for a natural number: its shortest decimal representation. */
  function ShowNat(n: nat): (r: string)
    ensures r != [] && AllDigits(r)
    ensures DigitsValue(r) == n
  {
    if n < 10 then [DigitChar(n)]
    else
      var r := ShowNat(n / 10) + [DigitChar(n % 10)];
      assert r[..|r| - 1] == ShowNat(n / 10);
      r
  }

  /** `String(n)` for an integer. */
  function ShowInt(n: int): string {
    if n < 0 then "-" + ShowNat(-n) else ShowNat(n)
  }

  /** `parseInt` reads back what `String` writes. */
  lemma ParseIntShowInt(n: int)
    ensures ParseInt(ShowInt(n)) == Some(n)
  {
    var s := ShowInt(n);
    var m: nat := if n < 0 then -n else n;
    var d := ShowNat(m);
    assert IsDigit(d[0]);
    assert !IsSpace(s[0]);
    assert TrimStart(s) == s;
    DigitPrefixAll(d);
    assert ParseDigits(d) == Some(m);
    if n < 0 {
      assert s[1..] == d;
    }
  }

  /** `Number` reads back what `String` writes. */
  lemma NumberValueShowInt(n: int)
    ensures NumberValue(ShowInt(n)) == Some(n)
  {
    var s := ShowInt(n);
    TrimPlain(s);
    var m: nat := if n < 0 then -n else n;
    if n < 0 {
      assert s[1..] == ShowNat(m);
    }
  }

  /** `s.padStart(2, '0')`. */
  function PadStart2(s: string): (r: string)
    ensures |r| == if |s| < 2 then 2 else |s|
  {
    if |s| == 0 then "00" else if |s| == 1 then "0" + s else s
  }

  /** `String(n).padStart(2, '0')` for n below 100 is two digits whose value is n. */
  lemma TwoDigits(n: nat)
    requires n < 100
    ensures var r := PadStart2(ShowNat(n));
      |r| == 2 && IsDigit(r[0]) && IsDigit(r[1])
      && 10 * (r[0] as int - '0' as int) + (r[1] as int - '0' as int) == n
  {
    if n >= 10 {
      assert ShowNat(n) == ShowNat(n / 10) + [DigitChar(n % 10)];
    }
  }

  /** `s.replace(/\s+/g, '-')`: every maximal run of white space becomes one hyphen. */
  function Hyphenate(s: string): (r: string)
    decreases |s|
  {
    if s == [] then []
    else if IsSpace(s[0]) then "-" + Hyphenate(TrimStart(s[1..]))
    else [s[0]] + Hyphenate(s[1..])
  }

  /** The result of the replacement holds no white space. */
  lemma {:induction false} HyphenateNoSpace(s: string)
    ensures forall i :: 0 <= i < |Hyphenate(s)| ==> !IsSpace(Hyphenate(s)[i])
    decreases |s|
  {
    if s != [] {
      if IsSpace(s[0]) {
        HyphenateNoSpace(TrimStart(s[1..]));
      } else {
        HyphenateNoSpace(s[1..]);
      }
    }
  }

  /** A string without white space is left as it is. */
  lemma {:induction false} HyphenatePlain(s: string)
    requires forall i :: 0 <= i < |s| ==> !IsSpace(s[i])
    ensures Hyphenate(s) == s
  {
    if s != [] {
      HyphenatePlain(s[1..]);
    }
  }

  /** The part of `s` before its first occurrence of `c` (all of `s` if none):
      the first element of `s.split(c)`. */
  function Before(s: string, c: char): (r: string)
    ensures r <= s && c !in r
    ensures |r| == |s| || s[|r|] == c
  {
    if s == [] || s[0] == c then [] else [s[0]] + Before(s[1..], c)
  }

  /** The part of `s` after its first occurrence of `c`, if there is one. */
  function After(s: string, c: char): (r: Option<string>)
    ensures r.None? <==> c !in s
    ensures r.Some? ==> s == Before(s, c) + [c] + r.value
  {
    var b := Before(s, c);
    if |b| == |s| then None else Some(s[|b| + 1..])
  }
}
