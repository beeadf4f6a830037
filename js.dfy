/**
  The part of the JavaScript runtime that the restaurant model relies on:
  loosely typed JSON values with JavaScript truthiness, property reads on
  plain objects, `String.prototype.split` on a one-character separator,
  `String.prototype.toLowerCase` followed by `replace(/\W/g, '')`, and
  `parseInt(s, 10)`.
 */
module Js {

  datatype Option<T> = None | Some(value: T)

  /** A value as it arrives from `JSON.parse`, plus `undefined` and `NaN`.
      Numbers are exact reals (IEEE rounding is not modelled). */
  datatype Value =
    | Undefined
    | Null
    | NaN
    | Bool(b: bool)
    | Num(x: real)
    | Str(s: string)
    | List(items: seq<Value>)
    | Object(props: map<string, Value>)

  /** JavaScript's ToBoolean: the falsy values are undefined, null, NaN,
      false, 0 and the empty string. */
  function Truthy(v: Value): (b: bool)
    ensures !b <==> v == Undefined || v == Null || v == NaN || v == Bool(false) || v == Num(0.0) || v == Str("")
  {
    match v
    case Undefined => false
    case Null => false
    case NaN => false
    case Bool(b) => b
    case Num(x) => x != 0.0
    case Str(s) => s != ""
    case List(_) => true
    case Object(_) => true
  }

  /** The number value of an integer. */
  function IntValue(n: int): (v: Value)
    ensures v.Num? && Truthy(v) == (n != 0)
  {
    Num(n as real)
  }

  /** `obj[key]` on an object whose own properties are `props` and that
      inherits nothing under `key`. */
  function Get(props: map<string, Value>, key: string): (v: Value)
    ensures key !in props ==> v == Undefined
    ensures key in props ==> v == props[key]
  {
    if key in props then props[key] else Undefined
  }

  // ---------------------------------------------------------------------
  // toLowerCase and /\W/g

  /** A "word" character of a regular expression without the `u` flag:
      `[A-Za-z0-9_]`. `\W` is every other character. */
  predicate IsWordChar(c: char) {
    ('A' <= c <= 'Z') || ('a' <= c <= 'z') || ('0' <= c <= '9') || c == '_'
  }

  /** A character that can appear in a derived id: `[a-z0-9_]`. */
  predicate IsIdChar(c: char) {
    ('a' <= c <= 'z') || ('0' <= c <= '9') || c == '_'
  }

  /** The lower case of one character, exact on ASCII and on the two
      characters outside ASCII whose full lower-case mapping contains an
      ASCII letter: U+0130 (to "i" followed by U+0307) and U+212A KELVIN
      SIGN (to "k"). Every other character outside ASCII is kept as it is:
      its real lower case lies outside ASCII too, so `\W` removes it either
      way. */
  function LowerChar(c: char): (r: string)
    ensures 'A' <= c <= 'Z' ==> r == [(c as int + 32) as char]
    ensures c < 128 as char && !('A' <= c <= 'Z') ==> r == [c]
    ensures r != [] && forall i :: 0 <= i < |r| ==> !('A' <= r[i] <= 'Z')
  {
    if 'A' <= c <= 'Z' then [(c as int + 32) as char]
    else if c == '\U{130}' then ['i', '\U{307}']
    else if c == '\U{212A}' then ['k']
    else [c]
  }

  /** `s.toLowerCase()`: no upper-case ASCII letter survives, and no
      character is lost. */
  function ToLowerCase(s: string): (r: string)
    ensures |r| >= |s|
    ensures forall i :: 0 <= i < |r| ==> !('A' <= r[i] <= 'Z')
  {
    if s == [] then [] else LowerChar(s[0]) + ToLowerCase(s[1..])
  }

  /** `s.replace(/\W/g, '')`. */
  function RemoveNonWord(s: string): (r: string)
    ensures forall i :: 0 <= i < |r| ==> IsWordChar(r[i])
    ensures |r| <= |s|
  {
    if s == [] then []
    else if IsWordChar(s[0]) then [s[0]] + RemoveNonWord(s[1..])
    else RemoveNonWord(s[1..])
  }

  lemma {:induction false} RemoveNonWordAppend(a: string, b: string)
    ensures RemoveNonWord(a + b) == RemoveNonWord(a) + RemoveNonWord(b)
  {
    if a == [] {
      assert a + b == b;
    } else {
      assert (a + b)[0] == a[0] && (a + b)[1..] == a[1..] + b;
      RemoveNonWordAppend(a[1..], b);
    }
  }

  lemma {:induction false} ToLowerCaseAppend(a: string, b: string)
    ensures ToLowerCase(a + b) == ToLowerCase(a) + ToLowerCase(b)
  {
    if a == [] {
      assert a + b == b;
    } else {
      assert (a + b)[0] == a[0] && (a + b)[1..] == a[1..] + b;
      ToLowerCaseAppend(a[1..], b);
    }
  }

  // ---------------------------------------------------------------------
  // split

  /** `s.split(sep)` for a one-character separator: the maximal runs of
      characters between separators, in order; the empty string gives one
      empty piece. */
  function Split(s: string, sep: char): (parts: seq<string>)
    ensures |parts| >= 1
    ensures forall i :: 0 <= i < |parts| ==> sep !in parts[i]
  {
    if s == [] then [""]
    else
      var rest := Split(s[1..], sep);
      if s[0] == sep then [""] + rest
      else [[s[0]] + rest[0]] + rest[1..]
  }

  /** `parts.join(sep)`, the inverse of `Split`. */
  function Join(parts: seq<string>, sep: char): string
    requires |parts| >= 1
  {
    if |parts| == 1 then parts[0] else parts[0] + [sep] + Join(parts[1..], sep)
  }

  /** The number of occurrences of `c` in `s`. */
  function Occurrences(s: string, c: char): nat {
    if s == [] then 0 else (if s[0] == c then 1 else 0) + Occurrences(s[1..], c)
  }

  lemma {:induction false} SplitLength(s: string, sep: char)
    ensures |Split(s, sep)| == Occurrences(s, sep) + 1
  {
    if s != [] {
      SplitLength(s[1..], sep);
    }
  }

  lemma {:induction false} JoinSplit(s: string, sep: char)
    ensures Join(Split(s, sep), sep) == s
  {
    if s != [] {
      var rest := Split(s[1..], sep);
      JoinSplit(s[1..], sep);
      if s[0] == sep {
        assert Split(s, sep)[1..] == rest;
      } else if |rest| == 1 {
        assert Join(Split(s, sep), sep) == [s[0]] + rest[0];
      } else {
        var parts := Split(s, sep);
        assert parts[1..] == rest[1..];
        calc {
          Join(parts, sep);
          parts[0] + [sep] + Join(rest[1..], sep);
          [s[0]] + (rest[0] + [sep] + Join(rest[1..], sep));
          [s[0]] + Join(rest, sep);
        }
      }
    }
  }

  /** Splitting a separator-free piece followed by more text puts the piece
      in front of the first part. */
  lemma {:induction false} SplitPrefix(p: string, t: string, sep: char)
    requires sep !in p
    ensures Split(p + t, sep) == [p + Split(t, sep)[0]] + Split(t, sep)[1..]
  {
    var parts := Split(t, sep);
    if p == [] {
      assert p + t == t;
      assert p + parts[0] == parts[0];
      assert parts == [parts[0]] + parts[1..];
    } else {
      assert (p + t)[0] == p[0] && (p + t)[1..] == p[1..] + t;
      assert p[0] != sep by { assert p[0] in p; }
      SplitPrefix(p[1..], t, sep);
      assert [p[0]] + (p[1..] + Split(t, sep)[0]) == p + Split(t, sep)[0];
    }
  }

  /** Text without the separator splits into itself alone. */
  lemma SplitWithoutSeparator(s: string, sep: char)
    requires sep !in s
    ensures Split(s, sep) == [s]
  {
    SplitPrefix(s, "", sep);
    assert s + "" == s;
  }

  lemma {:induction false} SplitJoin(parts: seq<string>, sep: char)
    requires |parts| >= 1
    requires forall i :: 0 <= i < |parts| ==> sep !in parts[i]
    ensures Split(Join(parts, sep), sep) == parts
  {
    if |parts| == 1 {
      SplitPrefix(parts[0], "", sep);
      assert parts[0] + "" == parts[0];
    } else {
      var tail := Join(parts[1..], sep);
      SplitJoin(parts[1..], sep);
      assert Join(parts, sep) == parts[0] + ([sep] + tail);
      SplitPrefix(parts[0], [sep] + tail, sep);
      var s := [sep] + tail;
      assert s[0] == sep && s[1..] == tail;
      assert Split(s, sep) == [""] + parts[1..];
      assert parts[0] + "" == parts[0];
      assert parts == [parts[0]] + parts[1..];
    }
  }

  // ---------------------------------------------------------------------
  // parseInt(s, 10)

  /** The characters `parseInt` skips at the start: white space and line
      terminators. */
  predicate IsStrWhiteSpace(c: char) {
    c == '\t' || c == '\n' || c == '\U{B}' || c == '\U{C}' || c == '\r' || c == ' '
    || c == '\U{A0}' || c == '\U{1680}' || ('\U{2000}' <= c <= '\U{200A}')
    || c == '\U{2028}' || c == '\U{2029}' || c == '\U{202F}' || c == '\U{205F}'
    || c == '\U{3000}' || c == '\U{FEFF}'
  }

  predicate IsDigit(c: char) {
    '0' <= c <= '9'
  }

  function TrimStart(s: string): (r: string)
    ensures r == [] || !IsStrWhiteSpace(r[0])
  {
    if s != [] && IsStrWhiteSpace(s[0]) then TrimStart(s[1..]) else s
  }

  /** The longest prefix of decimal digits. */
  function DigitPrefix(s: string): (d: string)
    ensures forall i :: 0 <= i < |d| ==> IsDigit(d[i])
    ensures |d| <= |s| && d == s[..|d|]
    ensures |d| < |s| ==> !IsDigit(s[|d|])
  {
    if s != [] && IsDigit(s[0]) then [s[0]] + DigitPrefix(s[1..]) else []
  }

  function DigitsValue(d: string): nat
    requires forall i :: 0 <= i < |d| ==> IsDigit(d[i])
  {
    if d == [] then 0
    else
      assert IsDigit(d[|d| - 1]);
      DigitsValue(d[..|d| - 1]) * 10 + (d[|d| - 1] as int - '0' as int)
  }

  /** The number read from the longest run of leading digits, if there is
      one. */
  function ReadDigits(u: string): (r: Option<nat>)
    ensures r.None? <==> u == [] || !IsDigit(u[0])
  {
    var z := DigitPrefix(u);
    if z == [] then None else Some(DigitsValue(z))
  }

  /** `parseInt(s, 10)`: skip leading white space, read an optional sign,
      then the longest run of decimal digits; NaN when there is none. Text
      after the digits is ignored. (`"-0"` gives 0 here, where JavaScript
      gives negative zero.) */
  function ParseInt(s: string): (r: Value)
    ensures r.NaN? || exists n :: r == IntValue(n)
  {
    var t := TrimStart(s);
    var negative := t != [] && t[0] == '-';
    var digits := ReadDigits(if t != [] && (t[0] == '-' || t[0] == '+') then t[1..] else t);
    if digits.None? then NaN
    else if negative then IntValue(-(digits.value as int))
    else IntValue(digits.value)
  }

  function DigitChar(n: nat): (c: char)
    requires n < 10
    ensures IsDigit(c)
  {
    ('0' as int + n) as char
  }

  /** The decimal numeral of a natural number, without leading zeros. */
  function DecimalDigits(n: nat): (d: string)
    ensures d != [] && forall i :: 0 <= i < |d| ==> IsDigit(d[i])
  {
    if n < 10 then [DigitChar(n)] else DecimalDigits(n / 10) + [DigitChar(n % 10)]
  }

  /** The decimal numeral of an integer, as `String(n)` writes it. */
  function DecimalString(n: int): string {
    if n < 0 then "-" + DecimalDigits(-n) else DecimalDigits(n)
  }

  lemma {:induction false} DigitsValueOfDecimal(n: nat)
    ensures DigitsValue(DecimalDigits(n)) == n
  {
    if n >= 10 {
      var d := DecimalDigits(n);
      assert d[..|d| - 1] == DecimalDigits(n / 10);
      DigitsValueOfDecimal(n / 10);
    }
  }

  lemma {:induction false} DigitPrefixOfDigits(d: string, rest: string)
    requires forall i :: 0 <= i < |d| ==> IsDigit(d[i])
    requires rest == [] || !IsDigit(rest[0])
    ensures DigitPrefix(d + rest) == d
  {
    if d != [] {
      assert (d + rest)[1..] == d[1..] + rest;
      DigitPrefixOfDigits(d[1..], rest);
    }
  }

  lemma {:induction false} TrimStartOfWhiteSpace(ws: string, t: string)
    requires forall i :: 0 <= i < |ws| ==> IsStrWhiteSpace(ws[i])
    requires t == [] || !IsStrWhiteSpace(t[0])
    ensures TrimStart(ws + t) == t
  {
    if ws != [] {
      assert (ws + t)[1..] == ws[1..] + t;
      TrimStartOfWhiteSpace(ws[1..], t);
    }
  }

  lemma ParseIntSkipsWhiteSpace(ws: string, t: string)
    requires forall i :: 0 <= i < |ws| ==> IsStrWhiteSpace(ws[i])
    requires t == [] || !IsStrWhiteSpace(t[0])
    ensures ParseInt(ws + t) == ParseInt(t)
  {
    TrimStartOfWhiteSpace(ws, t);
    assert TrimStart(t) == t;
  }

  /** Text that starts with neither white space, a sign nor a digit is not a
      number. */
  lemma ParseIntOfNonNumeral(s: string)
    requires s != [] && !IsStrWhiteSpace(s[0]) && !IsDigit(s[0]) && s[0] != '-' && s[0] != '+'
    ensures ParseInt(s) == NaN
  {
    assert TrimStart(s) == s;
  }

  lemma ReadDigitsOfDecimal(m: nat, rest: string)
    requires rest == [] || !IsDigit(rest[0])
    ensures ReadDigits(DecimalDigits(m) + rest) == Some(m)
  {
    DigitPrefixOfDigits(DecimalDigits(m), rest);
    DigitsValueOfDecimal(m);
  }

  lemma ParseIntOfNatural(n: int, rest: string)
    requires 0 <= n
    requires rest == [] || !IsDigit(rest[0])
    ensures ParseInt(DecimalString(n) + rest) == IntValue(n)
  {
    var t := DecimalDigits(n) + rest;
    assert DecimalString(n) + rest == t;
    assert IsDigit(t[0]);
    assert TrimStart(t) == t;
    ReadDigitsOfDecimal(n, rest);
  }

  lemma ParseIntOfMinus(m: nat, rest: string, t: string)
    requires rest == [] || !IsDigit(rest[0])
    requires t == "-" + (DecimalDigits(m) + rest)
    ensures ParseInt(t) == IntValue(-(m as int))
  {
    var u := DecimalDigits(m) + rest;
    assert t[0] == '-' && t[1..] == u;
    assert TrimStart(t) == t;
    ReadDigitsOfDecimal(m, rest);
  }

  lemma ParseIntOfNegative(n: int, rest: string)
    requires n < 0
    requires rest == [] || !IsDigit(rest[0])
    ensures ParseInt(DecimalString(n) + rest) == IntValue(n)
  {
    ParseIntOfMinus(-n, rest, DecimalString(n) + rest);
  }

  lemma ParseIntOfNumeral(n: int, rest: string)
    requires rest == [] || !IsDigit(rest[0])
    ensures ParseInt(DecimalString(n) + rest) == IntValue(n)
  {
    if n < 0 {
      ParseIntOfNegative(n, rest);
    } else {
      ParseIntOfNatural(n, rest);
    }
  }

  /** The round trip: `parseInt` reads back the numeral of any integer,
      whatever white space precedes it and whatever non-digit text follows. */
  lemma ParseIntOfDecimal(ws: string, n: int, rest: string)
    requires forall i :: 0 <= i < |ws| ==> IsStrWhiteSpace(ws[i])
    requires rest == [] || !IsDigit(rest[0])
    ensures ParseInt(ws + DecimalString(n) + rest) == IntValue(n)
  {
    var t := DecimalString(n) + rest;
    assert ws + DecimalString(n) + rest == ws + t;
    assert t[0] == '-' || IsDigit(t[0]);
    ParseIntSkipsWhiteSpace(ws, t);
    ParseIntOfNumeral(n, rest);
  }
}
