/** The string operations the dashboard's components use, over ASCII:
    `toLowerCase`, `includes`, `startsWith` and `Number.parseInt`. */
module Text {
  import opened Seqs

  /** `toLowerCase` on one character; only the ASCII letters A-Z change. */
  function LowerChar(c: char): char
  {
    if 'A' <= c <= 'Z' then (c as int + 32) as char else c
  }

  /** `s.toLowerCase()` */
  function Lower(s: string): (r: string)
    ensures |r| == |s|
    ensures forall i | 0 <= i < |s| ::
      if 'A' <= s[i] <= 'Z' then r[i] as int == s[i] as int + 32 else r[i] == s[i]
    ensures forall i | 0 <= i < |r| :: !('A' <= r[i] <= 'Z')
  {
    seq(|s|, i requires 0 <= i < |s| => LowerChar(s[i]))
  }

  /** Lower-casing twice is lower-casing once. */
  lemma LowerIdempotent(s: string)
    ensures Lower(Lower(s)) == Lower(s)
  {
    assert forall i | 0 <= i < |s| :: Lower(Lower(s))[i] == Lower(s)[i];
  }

  /** `s.startsWith(prefix)` */
  predicate StartsWith(s: string, prefix: string)
  {
    |prefix| <= |s| && s[..|prefix|] == prefix
  }

  /** `sub` occurs in `s` at offset `i`. */
  predicate OccursAt(s: string, sub: string, i: nat)
  {
    i + |sub| <= |s| && s[i..i + |sub|] == sub
  }

  /** `s.includes(sub)`, searching from the front. */
  predicate Contains(s: string, sub: string)
  {
    if StartsWith(s, sub) then true
    else if s == [] then false
    else Contains(s[1..], sub)
  }

  /** `includes` finds `sub` exactly when `sub` occurs at some offset of `s`. */
  lemma {:induction false} ContainsIff(s: string, sub: string)
    ensures Contains(s, sub) <==> exists i: nat :: OccursAt(s, sub, i)
  {
    if StartsWith(s, sub) {
      assert OccursAt(s, sub, 0);
    } else if s == [] {
    } else {
      ContainsIff(s[1..], sub);
      if exists i: nat :: OccursAt(s[1..], sub, i) {
        var i: nat :| OccursAt(s[1..], sub, i);
        assert s[1..][i..i + |sub|] == s[i + 1..i + 1 + |sub|];
        assert OccursAt(s, sub, i + 1);
      }
      if exists i: nat :: OccursAt(s, sub, i) {
        var i: nat :| OccursAt(s, sub, i);
        assert i != 0;
        assert s[1..][i - 1..i - 1 + |sub|] == s[i..i + |sub|];
        assert OccursAt(s[1..], sub, i - 1);
      }
    }
  }

  /** Every string includes the empty string. */
  lemma ContainsEmpty(s: string)
    ensures Contains(s, "")
  {
  }

  /** The characters `parseInt` skips before the number: the ECMAScript
      white space (tab, vertical tab, form feed, the byte order mark and the
      space separators of category Zs) and line terminators. */
  predicate IsWhitespace(c: char)
  {
    || c == '\t' || c == '\U{B}' || c == '\U{C}' || c == '\U{FEFF}'
    || c == ' ' || c == '\U{A0}' || c == '\U{1680}' || '\U{2000}' <= c <= '\U{200A}'
    || c == '\U{202F}' || c == '\U{205F}' || c == '\U{3000}'
    || c == '\n' || c == '\r' || c == '\U{2028}' || c == '\U{2029}'
  }

  function TrimStart(s: string): (r: string)
    ensures r == [] || !IsWhitespace(r[0])
    ensures |r| <= |s| && r == s[|s| - |r|..]
    ensures forall i | 0 <= i < |s| - |r| :: IsWhitespace(s[i])
  {
    if s != [] && IsWhitespace(s[0]) then TrimStart(s[1..]) else s
  }

  /** The value of `c` as a digit in any radix up to 36, or 36 when it is no digit. */
  function DigitValue(c: char): (d: nat)
    ensures d <= 36
  {
    if '0' <= c <= '9' then c as int - '0' as int
    else if 'a' <= c <= 'z' then c as int - 'a' as int + 10
    else if 'A' <= c <= 'Z' then c as int - 'A' as int + 10
    else 36
  }

  /** The longest prefix of `s` made of digits of `radix`. */
  function LeadingDigits(s: string, radix: nat): (r: string)
    ensures StartsWith(s, r)
    ensures forall i | 0 <= i < |r| :: DigitValue(r[i]) < radix
    ensures |r| < |s| ==> DigitValue(s[|r|]) >= radix
  {
    if s != [] && DigitValue(s[0]) < radix then [s[0]] + LeadingDigits(s[1..], radix) else []
  }

  /** The number a digit string denotes in `radix`, most significant digit first. */
  function DigitsValue(ds: string, radix: nat): nat
  {
    if ds == [] then 0
    else DigitsValue(ds[..|ds| - 1], radix) * radix + DigitValue(ds[|ds| - 1])
  }

  /** The unsigned part of `parseInt`: a `0x`/`0X` prefix selects radix 16,
      otherwise radix 10, then the longest run of digits is read; `None`
      when there is none. */
  function ParseUnsigned(u: string): Option<nat>
  {
    var hex := StartsWith(u, "0x") || StartsWith(u, "0X");
    var radix := if hex then 16 else 10;
    var ds := LeadingDigits(if hex then u[2..] else u, radix);
    if ds == [] then None else Some(DigitsValue(ds, radix))
  }

  /** `Number.parseInt(s)` with no radix: skip leading white space, read an
      optional sign, then the unsigned part. `None` stands for NaN. */
  function ParseInt(s: string): Option<int>
  {
    var t := TrimStart(s);
    var sign := if t != [] && t[0] == '-' then -1 else 1;
    var u := if t != [] && (t[0] == '-' || t[0] == '+') then t[1..] else t;
    match ParseUnsigned(u)
    case None => None
    case Some(v) => Some(sign * v)
  }

  function DigitChar(d: nat): (c: char)
    requires d < 10
    ensures DigitValue(c) == d
  {
    ('0' as int + d) as char
  }

  /** `String(n)` for a natural number. */
  function DecimalString(n: nat): (s: string)
    ensures s != []
    ensures forall i | 0 <= i < |s| :: DigitValue(s[i]) < 10
  {
    if n < 10 then [DigitChar(n)] else DecimalString(n / 10) + [DigitChar(n % 10)]
  }

  lemma {:induction false} DecimalStringValue(n: nat)
    ensures DigitsValue(DecimalString(n), 10) == n
  {
    var s := DecimalString(n);
    if n >= 10 {
      DecimalStringValue(n / 10);
      assert s[..|s| - 1] == DecimalString(n / 10);
    }
  }

  lemma {:induction false} LeadingDigitsOfDigits(ds: string, rest: string, radix: nat)
    requires forall i | 0 <= i < |ds| :: DigitValue(ds[i]) < radix
    requires rest == [] || DigitValue(rest[0]) >= radix
    ensures LeadingDigits(ds + rest, radix) == ds
  {
    if ds == [] {
      assert ds + rest == rest;
    } else {
      assert (ds + rest)[1..] == ds[1..] + rest;
      LeadingDigitsOfDigits(ds[1..], rest, radix);
    }
  }

  /** `rest` ends the decimal form of `n` as `parseInt` reads it: it is
      empty or starts with a non-digit, and after a lone `0` that non-digit
      is no `x` or `X` (which would make a radix prefix). */
  predicate EndsDecimal(n: nat, rest: string)
  {
    rest == [] || (DigitValue(rest[0]) >= 10 && (n == 0 ==> rest[0] != 'x' && rest[0] != 'X'))
  }

  /** The decimal form of a positive number does not start with `0`. */
  lemma {:induction false} DecimalLeadingDigit(n: nat)
    requires n >= 1
    ensures DecimalString(n)[0] != '0'
  {
    if n >= 10 {
      DecimalLeadingDigit(n / 10);
      assert DecimalString(n)[0] == DecimalString(n / 10)[0];
    }
  }

  /** The decimal form of `n` followed by what ends it starts with a digit
      and has no radix prefix. */
  lemma DecimalNoRadixPrefix(n: nat, rest: string)
    requires EndsDecimal(n, rest)
    ensures var s := DecimalString(n) + rest;
      && s != [] && DigitValue(s[0]) < 10
      && !StartsWith(s, "0x") && !StartsWith(s, "0X")
  {
    var ds := DecimalString(n);
    var s := ds + rest;
    assert s[0] == ds[0];
    if n >= 1 {
      DecimalLeadingDigit(n);
      assert s[0] != '0';
    } else if |s| >= 2 {
      assert ds == "0";
      assert s[1] == rest[0];
      assert s[..2][1] == s[1];
    }
  }

  /** The digits of the decimal form of `n`, read up to the first non-digit, are worth `n`. */
  lemma DecimalDigitsRead(n: nat, rest: string)
    requires rest == [] || DigitValue(rest[0]) >= 10
    ensures LeadingDigits(DecimalString(n) + rest, 10) == DecimalString(n)
    ensures DigitsValue(DecimalString(n), 10) == n
  {
    LeadingDigitsOfDigits(DecimalString(n), rest, 10);
    DecimalStringValue(n);
  }

  /** The unsigned part reads back the decimal form of a natural number. */
  lemma ParseUnsignedDecimal(n: nat, rest: string)
    requires EndsDecimal(n, rest)
    ensures ParseUnsigned(DecimalString(n) + rest) == Some(n)
  {
    DecimalNoRadixPrefix(n, rest);
    DecimalDigitsRead(n, rest);
  }

  /** Without white space or sign in front, `parseInt` is its unsigned part. */
  lemma ParseIntUnsigned(s: string)
    requires s != [] && !IsWhitespace(s[0]) && s[0] != '-' && s[0] != '+'
    ensures ParseUnsigned(s).Some? ==> ParseInt(s) == Some(ParseUnsigned(s).value)
    ensures ParseUnsigned(s).None? ==> ParseInt(s).None?
  {
    assert TrimStart(s) == s;
  }

  /** A leading minus sign negates the unsigned part that follows it. */
  lemma ParseIntMinus(u: string)
    ensures ParseUnsigned(u).Some? ==> ParseInt("-" + u) == Some(-(ParseUnsigned(u).value as int))
    ensures ParseUnsigned(u).None? ==> ParseInt("-" + u).None?
  {
    var s := "-" + u;
    assert s[0] == '-' && s[1..] == u;
    assert TrimStart(s) == s;
  }

  /** `parseInt` reads back the decimal form of a natural number and ignores
      whatever follows once a non-digit is reached ("12abc" reads as 12); an
      `x` right after a lone `0` would switch to radix 16 instead. */
  lemma ParseIntDecimal(n: nat, rest: string)
    requires EndsDecimal(n, rest)
    ensures ParseInt(DecimalString(n) + rest) == Some(n)
  {
    var s := DecimalString(n) + rest;
    assert s != [] && DigitValue(s[0]) < 10 by {
      DecimalNoRadixPrefix(n, rest);
    }
    assert ParseUnsigned(s) == Some(n) by {
      ParseUnsignedDecimal(n, rest);
    }
    ParseIntUnsigned(s);
  }

  /** A leading minus sign negates the number read ("-3" reads as -3). */
  lemma ParseIntNegative(n: nat, rest: string)
    requires EndsDecimal(n, rest)
    ensures ParseInt("-" + DecimalString(n) + rest) == Some(-(n as int))
  {
    var d := DecimalString(n);
    SignPrefix(d, rest);
    ParseUnsignedDecimal(n, rest);
    ParseIntMinus(d + rest);
  }

  lemma SignPrefix(d: string, rest: string)
    ensures "-" + d + rest == "-" + (d + rest)
  {
  }

  /** Input with no digit at the front is NaN. */
  lemma ParseIntNoDigits(s: string)
    requires s == [] || (DigitValue(s[0]) >= 10 && !IsWhitespace(s[0]) && s[0] != '-' && s[0] != '+')
    ensures ParseInt(s) == None
  {
  }
}
