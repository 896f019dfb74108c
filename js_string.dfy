/** The JavaScript string built-ins that the record filter relies on:
    `String.prototype.toLowerCase`, `String.prototype.includes`,
    `String.prototype.split` with a one-character separator, and the global
    `parseInt` called without a radix. */
module JsString {

  /** A JavaScript number as `parseInt` and the arithmetic on its results
      can produce it: an integer, or `NaN`. */
  datatype Number = NaN | Num(value: int)

  /** `x === y` on numbers: `NaN` equals nothing, not even itself. */
  predicate StrictEquals(x: Number, y: Number)
  {
    x.Num? && y.Num? && x.value == y.value
  }

  /** `Math.min(x, y)`: `NaN` if either argument is. */
  function MathMin(x: Number, y: Number): Number
  {
    if x.NaN? || y.NaN? then NaN else if x.value <= y.value then x else y
  }

  /** `Math.max(x, y)`: `NaN` if either argument is. */
  function MathMax(x: Number, y: Number): Number
  {
    if x.NaN? || y.NaN? then NaN else if x.value >= y.value then x else y
  }

  /** `x - y`: `NaN` if either operand is. */
  function Minus(x: Number, y: Number): Number
  {
    if x.NaN? || y.NaN? then NaN else Num(x.value - y.value)
  }

  // ---------------------------------------------------------------------
  // toLowerCase
  // ---------------------------------------------------------------------

  /** Simple case mapping of one character: ASCII, Latin-1 and the basic
      Cyrillic block (enough for every name in the record tables). */
  function LowerChar(c: char): char
  {
    if 'A' <= c <= 'Z' || ('\U{C0}' <= c <= '\U{DE}' && c != '\U{D7}') || '\U{410}' <= c <= '\U{42F}' then
      (c as int + 0x20) as char
    else if '\U{400}' <= c <= '\U{40F}' then
      (c as int + 0x50) as char
    else
      c
  }

  /** `s.toLowerCase()`, character by character. */
  function ToLowerCase(s: string): (r: string)
    ensures |r| == |s|
    ensures forall i :: 0 <= i < |s| ==> r[i] == LowerChar(s[i])
  {
    if s == [] then [] else [LowerChar(s[0])] + ToLowerCase(s[1..])
  }

  // ---------------------------------------------------------------------
  // includes
  // ---------------------------------------------------------------------

  /** `sub` occurs in `s` starting at position `i`. */
  ghost predicate OccursAt(s: string, sub: string, i: int)
  {
    0 <= i && i + |sub| <= |s| && s[i..i + |sub|] == sub
  }

  /** `s.includes(sub)`: a left-to-right scan for `sub` as a prefix. */
  function Includes(s: string, sub: string): bool
    decreases |s|
  {
    if sub <= s then true
    else if |s| <= |sub| then false
    else Includes(s[1..], sub)
  }

  /** The scan finds `sub` exactly when it occurs somewhere in `s`. */
  lemma {:induction false} IncludesIffOccurs(s: string, sub: string)
    ensures Includes(s, sub) <==> exists i :: OccursAt(s, sub, i)
    decreases |s|
  {
    if sub <= s {
      assert OccursAt(s, sub, 0);
    } else if |s| <= |sub| {
      forall i ensures !OccursAt(s, sub, i) {
        if 0 <= i && i + |sub| <= |s| {
          assert s[i..i + |sub|] == s[..|sub|];
        }
      }
    } else {
      IncludesIffOccurs(s[1..], sub);
      if Includes(s[1..], sub) {
        var j :| OccursAt(s[1..], sub, j);
        assert s[j + 1..j + 1 + |sub|] == s[1..][j..j + |sub|];
        assert OccursAt(s, sub, j + 1);
      } else {
        forall i ensures !OccursAt(s, sub, i) {
          if i == 0 {
            assert s[0..|sub|] == s[..|sub|];
          } else if 1 <= i && i + |sub| <= |s| {
            assert s[1..][i - 1..i - 1 + |sub|] == s[i..i + |sub|];
            assert !OccursAt(s[1..], sub, i - 1);
          }
        }
      }
    }
  }

  /** A string cannot include a text holding a character it lacks. */
  lemma IncludesNeedsChar(s: string, sub: string, c: char)
    requires c in sub && c !in s
    ensures !Includes(s, sub)
  {
    IncludesIffOccurs(s, sub);
    var j :| 0 <= j < |sub| && sub[j] == c;
    forall i ensures !OccursAt(s, sub, i) {
      if 0 <= i && i + |sub| <= |s| {
        assert s[i + j] == s[i..i + |sub|][j];
        assert s[i + j] != c;
      }
    }
  }

  /** A string with neither case of the ASCII letter `c` lower-cases to
      one without `c`. */
  lemma LowerCaseLacksLetter(s: string, c: char)
    requires 'a' <= c <= 'z'
    requires c !in s && (c as int - 0x20) as char !in s
    ensures c !in ToLowerCase(s)
  {
    forall k | 0 <= k < |s| ensures ToLowerCase(s)[k] != c {
      assert s[k] in s;
    }
  }

  // ---------------------------------------------------------------------
  // split
  // ---------------------------------------------------------------------

  /** Number of occurrences of `c` in `s`. */
  function Occurrences(s: string, c: char): nat
  {
    if s == [] then 0 else (if s[0] == c then 1 else 0) + Occurrences(s[1..], c)
  }

  /** Occurrences add up over a concatenation. */
  lemma {:induction false} OccurrencesAppend(a: string, b: string, c: char)
    ensures Occurrences(a + b, c) == Occurrences(a, c) + Occurrences(b, c)
    decreases |a|
  {
    if a == [] {
      assert a + b == b;
    } else {
      OccurrencesAppend(a[1..], b, c);
      assert (a + b)[1..] == a[1..] + b;
    }
  }

  /** No occurrence means the character is absent. */
  lemma {:induction false} OccurrencesZero(s: string, c: char)
    ensures Occurrences(s, c) == 0 <==> c !in s
    decreases |s|
  {
    if s != [] {
      OccurrencesZero(s[1..], c);
      assert s == [s[0]] + s[1..];
    }
  }

  /** In a string where `sep` occurs exactly once, the text on either side
      of that occurrence is free of `sep`, and splitting cuts there. */
  lemma SoleSeparator(s: string, sep: char, i: int)
    requires Occurrences(s, sep) == 1
    requires 0 <= i < |s| && s[i] == sep
    ensures sep !in s[..i] && sep !in s[i + 1..]
    ensures Split(s, sep) == [s[..i], s[i + 1..]]
  {
    assert s == s[..i] + ([s[i]] + s[i + 1..]);
    OccurrencesAppend(s[..i], [s[i]] + s[i + 1..], sep);
    OccurrencesAppend([s[i]], s[i + 1..], sep);
    OccurrencesZero(s[..i], sep);
    OccurrencesZero(s[i + 1..], sep);
    SplitAtSoleSeparator(s, sep, i);
  }

  /** `s.split(sep)` for a one-character separator: the pieces between
      separators, including empty ones; `"".split(sep)` is `[""]`. */
  function Split(s: string, sep: char): (parts: seq<string>)
    ensures |parts| >= 1
    decreases |s|
  {
    if s == [] then [[]]
    else
      var rest := Split(s[1..], sep);
      if s[0] == sep then [[]] + rest
      else [[s[0]] + rest[0]] + rest[1..]
  }

  /** `parts.join(sep)`, the inverse of `Split`. */
  function Join(parts: seq<string>, sep: char): string
    requires |parts| >= 1
  {
    if |parts| == 1 then parts[0] else parts[0] + [sep] + Join(parts[1..], sep)
  }

  /** `k` separators give `k + 1` pieces. */
  lemma {:induction false} SplitLength(s: string, sep: char)
    ensures |Split(s, sep)| == Occurrences(s, sep) + 1
    decreases |s|
  {
    if s != [] {
      SplitLength(s[1..], sep);
    }
  }

  /** Joining the pieces with the separator gives back the string. */
  lemma {:induction false} JoinSplit(s: string, sep: char)
    ensures Join(Split(s, sep), sep) == s
    decreases |s|
  {
    if s != [] {
      JoinSplit(s[1..], sep);
      var rest := Split(s[1..], sep);
      if s[0] == sep {
        assert Join([[]] + rest, sep) == [] + [sep] + Join(rest, sep);
      } else if |rest| == 1 {
        assert Split(s, sep) == [[s[0]] + rest[0]];
      } else {
        var parts := Split(s, sep);
        assert parts[1..] == rest[1..];
        assert Join(rest, sep) == rest[0] + [sep] + Join(rest[1..], sep);
        assert Join(parts, sep) == [s[0]] + rest[0] + [sep] + Join(rest[1..], sep);
      }
    }
  }

  /** Splitting a join of separator-free pieces gives back the pieces. */
  lemma {:induction false} SplitJoin(parts: seq<string>, sep: char)
    requires |parts| >= 1
    requires forall k :: 0 <= k < |parts| ==> sep !in parts[k]
    ensures Split(Join(parts, sep), sep) == parts
    decreases |parts|, |parts[0]|
  {
    var p := parts[0];
    if |parts| == 1 {
      if p != [] {
        SplitJoin([p[1..]], sep);
        assert Join([p[1..]], sep) == p[1..];
        assert [p[0]] + p[1..] == p;
      }
    } else if p == [] {
      var tail := Join(parts[1..], sep);
      SplitJoin(parts[1..], sep);
      assert Join(parts, sep) == [sep] + tail;
      assert ([sep] + tail)[1..] == tail;
    } else {
      var shorter := [p[1..]] + parts[1..];
      assert shorter[1..] == parts[1..];
      SplitJoin(shorter, sep);
      assert Join(parts, sep) == [p[0]] + Join(shorter, sep);
      assert ([p[0]] + Join(shorter, sep))[1..] == Join(shorter, sep);
      assert [p[0]] + p[1..] == p;
    }
  }

  /** A string with exactly one separator, at position `i`, splits into
      the text before it and the text after it. */
  lemma SplitAtSoleSeparator(s: string, sep: char, i: int)
    requires 0 <= i < |s| && s[i] == sep
    requires sep !in s[..i] && sep !in s[i + 1..]
    ensures Split(s, sep) == [s[..i], s[i + 1..]]
  {
    assert Join([s[..i], s[i + 1..]], sep) == s;
    SplitJoin([s[..i], s[i + 1..]], sep);
  }

  // ---------------------------------------------------------------------
  // parseInt
  // ---------------------------------------------------------------------

  /** The white space and line terminators that `parseInt` skips before the
      number (StrWhiteSpaceChar of the ECMAScript standard). */
  predicate IsStrWhiteSpace(c: char)
  {
    || c == '\t' || c == '\n' || c == '\U{B}' || c == '\U{C}' || c == '\r' || c == ' '
    || c == '\U{A0}' || c == '\U{1680}' || '\U{2000}' <= c <= '\U{200A}'
    || c == '\U{2028}' || c == '\U{2029}' || c == '\U{202F}' || c == '\U{205F}'
    || c == '\U{3000}' || c == '\U{FEFF}'
  }

  /** `s` with its leading white space removed. */
  function TrimStart(s: string): (t: string)
    ensures t == [] || !IsStrWhiteSpace(t[0])
    ensures |t| <= |s| && t == s[|s| - |t|..]
  {
    if s != [] && IsStrWhiteSpace(s[0]) then TrimStart(s[1..]) else s
  }

  predicate IsDecimalDigit(c: char)
  {
    '0' <= c <= '9'
  }

  /** `c` is a digit in base `radix` (10 or 16). */
  predicate IsRadixDigit(c: char, radix: int)
  {
    IsDecimalDigit(c) || (radix == 16 && ('a' <= c <= 'f' || 'A' <= c <= 'F'))
  }

  function DigitValue(c: char): nat
  {
    if IsDecimalDigit(c) then c as int - '0' as int
    else if 'a' <= c <= 'f' then c as int - 'a' as int + 10
    else if 'A' <= c <= 'F' then c as int - 'A' as int + 10
    else 0
  }

  /** The longest prefix of `s` made of digits in base `radix`. */
  function DigitPrefix(s: string, radix: int): (z: string)
    ensures z <= s
    ensures forall k :: 0 <= k < |z| ==> IsRadixDigit(z[k], radix)
    ensures |z| == |s| || !IsRadixDigit(s[|z|], radix)
  {
    if s != [] && IsRadixDigit(s[0], radix) then [s[0]] + DigitPrefix(s[1..], radix) else []
  }

  /** The value of a string of digits in base `radix`, most significant first. */
  function DigitsValue(ds: string, radix: nat): nat
  {
    if ds == [] then 0 else DigitsValue(ds[..|ds| - 1], radix) * radix + DigitValue(ds[|ds| - 1])
  }

  /** The number read from the digits at the start of `v`, or `NaN`. */
  function ParseDigits(v: string, radix: nat): Number
  {
    var z := DigitPrefix(v, radix);
    if z == [] then NaN else Num(DigitsValue(z, radix))
  }

  /** An unsigned number: a `0x`/`0X` prefix switches to base 16. */
  function ParseUnsigned(u: string): Number
  {
    if |u| >= 2 && u[0] == '0' && (u[1] == 'x' || u[1] == 'X') then ParseDigits(u[2..], 16)
    else ParseDigits(u, 10)
  }

  /** A number after an optional `+` or `-` sign; `-NaN` is `NaN`. */
  function ParseSigned(t: string): Number
  {
    if t != [] && t[0] == '-' then
      match ParseUnsigned(t[1..])
      case NaN => NaN
      case Num(v) => Num(-v)
    else if t != [] && t[0] == '+' then ParseUnsigned(t[1..])
    else ParseUnsigned(t)
  }

  /** `parseInt(s)` with no radix: skip leading white space, read an optional
      sign, a `0x`/`0X` prefix switches to base 16, then take the longest run
      of digits; no digits at all is `NaN`. */
  function ParseInt(s: string): Number
  {
    ParseSigned(TrimStart(s))
  }

  /** Decimal digits of a natural number, without leading zeros. */
  function DecimalDigits(n: nat): (ds: string)
    ensures |ds| >= 1
    ensures forall k :: 0 <= k < |ds| ==> IsDecimalDigit(ds[k])
  {
    if n < 10 then [('0' as int + n) as char]
    else DecimalDigits(n / 10) + [('0' as int + n % 10) as char]
  }

  /** `String(n)` for an integer `n` that JavaScript holds exactly and
      writes without an exponent (magnitude below 2^53). */
  function DecimalString(n: int): string
  {
    if n < 0 then "-" + DecimalDigits(-n) else DecimalDigits(n)
  }

  /** A run made only of digits is its own longest digit prefix. */
  lemma {:induction false} DigitPrefixOfDigits(ds: string, radix: int)
    requires forall k :: 0 <= k < |ds| ==> IsRadixDigit(ds[k], radix)
    ensures DigitPrefix(ds, radix) == ds
    decreases |ds|
  {
    if ds != [] {
      DigitPrefixOfDigits(ds[1..], radix);
    }
  }

  /** Reading the decimal digits of `n` gives back `n`. */
  lemma {:induction false} DecimalDigitsValue(n: nat)
    ensures DigitsValue(DecimalDigits(n), 10) == n
  {
    if n >= 10 {
      DecimalDigitsValue(n / 10);
      var ds := DecimalDigits(n);
      assert ds[..|ds| - 1] == DecimalDigits(n / 10);
    }
  }

  /** The longest digit prefix of digits followed by a non-digit is those digits. */
  lemma {:induction false} DigitPrefixOfDigitsThen(ds: string, rest: string, radix: int)
    requires forall k :: 0 <= k < |ds| ==> IsRadixDigit(ds[k], radix)
    requires rest == [] || !IsRadixDigit(rest[0], radix)
    ensures DigitPrefix(ds + rest, radix) == ds
    decreases |ds|
  {
    if ds != [] {
      DigitPrefixOfDigitsThen(ds[1..], rest, radix);
      assert (ds + rest)[1..] == ds[1..] + rest;
    } else {
      assert ds + rest == rest;
    }
  }

  /** Decimal digits are not white space. */
  lemma DigitIsNotWhiteSpace(c: char)
    requires IsDecimalDigit(c)
    ensures !IsStrWhiteSpace(c) && c != '-' && c != '+'
  {
  }

  /** An unsigned run of decimal digits is read in base 10, whatever follows
      it, unless an `x` right after a single `0` makes it a hex prefix. */
  lemma UnsignedDigitsThen(ds: string, rest: string)
    requires |ds| >= 1 && forall k :: 0 <= k < |ds| ==> IsDecimalDigit(ds[k])
    requires rest == [] || (!IsDecimalDigit(rest[0]) && (ds == "0" ==> rest[0] != 'x' && rest[0] != 'X'))
    ensures ParseUnsigned(ds + rest) == Num(DigitsValue(ds, 10))
  {
    var s := ds + rest;
    assert |s| >= 2 ==> !(s[0] == '0' && (s[1] == 'x' || s[1] == 'X')) by {
      if |s| >= 2 && |ds| >= 2 {
        assert s[1] == ds[1];
      } else if |s| >= 2 && s[0] == '0' {
        assert ds == [s[0]] == "0";
        assert s[1] == rest[0];
      }
    }
    DigitPrefixOfDigitsThen(ds, rest, 10);
  }

  /** `parseInt` reads a leading run of decimal digits, whatever follows it. */
  lemma ParseIntDigitsThen(ds: string, rest: string)
    requires |ds| >= 1 && forall k :: 0 <= k < |ds| ==> IsDecimalDigit(ds[k])
    requires rest == [] || (!IsDecimalDigit(rest[0]) && (ds == "0" ==> rest[0] != 'x' && rest[0] != 'X'))
    ensures ParseInt(ds + rest) == Num(DigitsValue(ds, 10))
  {
    var s := ds + rest;
    assert s[0] == ds[0];
    DigitIsNotWhiteSpace(ds[0]);
    TrimStartKeeps(s);
    assert ParseSigned(s) == ParseUnsigned(s);
    UnsignedDigitsThen(ds, rest);
  }

  /** `TrimStart` removes leading white space and nothing else. */
  lemma TrimStartKeeps(s: string)
    requires s == [] || !IsStrWhiteSpace(s[0])
    ensures TrimStart(s) == s
  {
  }

  /** A run of decimal digits on its own is read in base 10. */
  lemma UnsignedDigits(ds: string)
    requires |ds| >= 1 && forall k :: 0 <= k < |ds| ==> IsDecimalDigit(ds[k])
    ensures ParseUnsigned(ds) == Num(DigitsValue(ds, 10))
  {
    assert ds + "" == ds;
    UnsignedDigitsThen(ds, "");
  }

  /** A minus sign before a run of decimal digits negates it. */
  lemma ParseIntNegativeDigits(s: string)
    requires |s| >= 2 && s[0] == '-'
    requires forall k :: 1 <= k < |s| ==> IsDecimalDigit(s[k])
    ensures ParseInt(s) == Num(-(DigitsValue(s[1..], 10) as int))
  {
    var ds := s[1..];
    forall k | 0 <= k < |ds| ensures IsDecimalDigit(ds[k]) {
      assert ds[k] == s[k + 1];
    }
    UnsignedDigits(ds);
    TrimStartKeeps(s);
  }

  /** `parseInt(String(n)) === n` for every integer `n`. */
  lemma ParseIntDecimalString(n: int)
    ensures ParseInt(DecimalString(n)) == Num(n)
  {
    if n < 0 {
      NegativeDecimalString(n);
    } else {
      NaturalDecimalString(n);
    }
  }

  /** `String(n)` of a negative `n` reads back as `n`. */
  lemma NegativeDecimalString(n: int)
    requires n < 0
    ensures ParseInt(DecimalString(n)) == Num(n)
  {
    var m: nat := -n;
    NegativeText(n);
    DecimalDigitsValue(m);
    NegativeReadBack(DecimalString(n), DecimalDigits(m), m);
  }

  /** A minus sign before digits worth `m` reads as `-m`. */
  lemma NegativeReadBack(t: string, ds: string, m: nat)
    requires |t| >= 2 && t[0] == '-' && t[1..] == ds
    requires forall k :: 1 <= k < |t| ==> IsDecimalDigit(t[k])
    requires DigitsValue(ds, 10) == m
    ensures ParseInt(t) == Num(-(m as int))
  {
    ParseIntNegativeDigits(t);
  }

  /** `String(n)` of a negative `n`: a minus sign, then the digits of `-n`. */
  lemma NegativeText(n: int)
    requires n < 0
    ensures |DecimalString(n)| >= 2 && DecimalString(n)[0] == '-'
    ensures DecimalString(n)[1..] == DecimalDigits(-n)
    ensures forall k :: 1 <= k < |DecimalString(n)| ==> IsDecimalDigit(DecimalString(n)[k])
  {
    var ds := DecimalDigits(-n);
    var t := DecimalString(n);
    assert t == "-" + ds;
    forall k | 1 <= k < |t| ensures IsDecimalDigit(t[k]) {
      assert t[k] == ds[k - 1];
    }
  }

  /** `String(n)` of a natural `n` reads back as `n`. */
  lemma NaturalDecimalString(n: int)
    requires n >= 0
    ensures ParseInt(DecimalString(n)) == Num(n)
  {
    assert DecimalString(n) == DecimalDigits(n);
    ParseIntDecimalDigits(n);
  }

  /** `parseInt(String(n)) === n` for a natural `n`. */
  lemma ParseIntDecimalDigits(n: nat)
    ensures ParseInt(DecimalDigits(n)) == Num(n)
  {
    ParseIntIgnoresTrailing(n, "");
    assert DecimalDigits(n) + "" == DecimalDigits(n);
  }

  /** Whatever follows the digits does not change what `parseInt` reads:
      `parseInt("1000abc") === 1000` and `parseInt("1000x") === 1000`; only
      a lone `0` followed by `x` starts a hexadecimal number. */
  lemma ParseIntIgnoresTrailing(n: nat, rest: string)
    requires rest == [] || (!IsDecimalDigit(rest[0]) && (n == 0 ==> rest[0] != 'x' && rest[0] != 'X'))
    ensures ParseInt(DecimalDigits(n) + rest) == Num(n)
  {
    DecimalDigitsValue(n);
    if DecimalDigits(n) == "0" {
      assert DigitsValue("0", 10) == 0;
    }
    ParseIntDigitsThen(DecimalDigits(n), rest);
  }

  /** Text that starts with neither white space, a sign nor a digit is `NaN`:
      `parseInt("abc")`, `parseInt("")`. */
  lemma ParseIntNoDigits(s: string)
    requires s == [] || (!IsStrWhiteSpace(s[0]) && !IsDecimalDigit(s[0]) && s[0] != '-' && s[0] != '+')
    ensures ParseInt(s) == NaN
  {
    assert TrimStart(s) == s;
    assert ParseSigned(s) == ParseUnsigned(s);
    assert ParseUnsigned(s) == ParseDigits(s, 10);
    assert DigitPrefix(s, 10) == [];
  }
}
