/** The JavaScript string and number built-ins the application relies on,
    restricted to what it uses: white space, `trim`, `includes`, `toLowerCase`
    (ASCII letters), `parseInt(_, 10)` (section 19.2.5 of ECMA-262),
    `String(n)` for integers, and `toLocaleString()` with three-digit ','
    grouping. */
module JsText {

  /** WhiteSpace and LineTerminator code points of ECMA-262 (sections 12.2 and
      12.3): the characters `trim` and `parseInt` skip. */
  predicate IsJsWhitespace(c: char)
  {
    c == '\t' || c == '\n' || c == '\U{000B}' || c == '\U{000C}' || c == '\r' ||
    c == ' ' || c == '\U{00A0}' || c == '\U{1680}' || ('\U{2000}' <= c <= '\U{200A}') ||
    c == '\U{2028}' || c == '\U{2029}' || c == '\U{202F}' || c == '\U{205F}' ||
    c == '\U{3000}' || c == '\U{FEFF}'
  }

  /** Drops the leading white space of s. */
  function TrimStart(s: string): (t: string)
    ensures |t| <= |s| && t == s[|s| - |t|..]
    ensures t == [] || !IsJsWhitespace(t[0])
    ensures forall i :: 0 <= i < |s| - |t| ==> IsJsWhitespace(s[i])
  {
    if |s| > 0 && IsJsWhitespace(s[0]) then TrimStart(s[1..]) else s
  }

  /** Drops the trailing white space of s. */
  function TrimEnd(s: string): (t: string)
    ensures |t| <= |s| && t == s[..|t|]
    ensures t == [] || !IsJsWhitespace(t[|t| - 1])
    ensures forall i :: |t| <= i < |s| ==> IsJsWhitespace(s[i])
  {
    if |s| > 0 && IsJsWhitespace(s[|s| - 1]) then TrimEnd(s[..|s| - 1]) else s
  }

  /** String.prototype.trim. */
  function Trim(s: string): (t: string)
    ensures t == [] || (!IsJsWhitespace(t[0]) && !IsJsWhitespace(t[|t| - 1]))
  {
    TrimEnd(TrimStart(s))
  }

  /** A string that neither starts nor ends with white space is its own trim. */
  lemma TrimUntouched(s: string)
    requires s == [] || (!IsJsWhitespace(s[0]) && !IsJsWhitespace(s[|s| - 1]))
    ensures Trim(s) == s
  {
  }

  predicate StartsWith(s: string, prefix: string)
  {
    |prefix| <= |s| && s[..|prefix|] == prefix
  }

  predicate EndsWith(s: string, suffix: string)
  {
    |suffix| <= |s| && s[|s| - |suffix|..] == suffix
  }

  /** String.prototype.includes: key occurs somewhere in s. */
  predicate Contains(s: string, key: string)
  {
    StartsWith(s, key) || (|s| > 0 && Contains(s[1..], key))
  }

  /** key occurs in s at position i. */
  predicate OccursAt(s: string, key: string, i: int)
  {
    0 <= i <= |s| - |key| && s[i..i + |key|] == key
  }

  /** Contains agrees with the positional definition of an occurrence. */
  lemma {:induction false} ContainsAt(s: string, key: string)
    ensures Contains(s, key) <==> exists i :: OccursAt(s, key, i)
  {
    if StartsWith(s, key) {
      assert OccursAt(s, key, 0);
    } else if |s| > 0 {
      ContainsAt(s[1..], key);
      if exists i :: OccursAt(s, key, i) {
        var i :| OccursAt(s, key, i);
        assert i != 0;
        assert OccursAt(s[1..], key, i - 1);
      }
      if Contains(s[1..], key) {
        var j :| OccursAt(s[1..], key, j);
        assert OccursAt(s, key, j + 1);
      }
    }
  }

  lemma ContainsSelf(key: string)
    ensures Contains(key, key)
  {
    assert key[..|key|] == key;
  }

  /** An occurrence in a prefix is an occurrence in the whole string. */
  lemma {:induction false} ContainsExtendRight(a: string, b: string, key: string)
    requires Contains(a, key)
    ensures Contains(a + b, key)
  {
    if StartsWith(a, key) {
      assert (a + b)[..|key|] == a[..|key|];
    } else {
      assert (a + b)[1..] == a[1..] + b;
      ContainsExtendRight(a[1..], b, key);
    }
  }

  /** An occurrence in a suffix is an occurrence in the whole string. */
  lemma {:induction false} ContainsExtendLeft(a: string, b: string, key: string)
    requires Contains(b, key)
    ensures Contains(a + b, key)
  {
    if a != [] {
      assert (a + b)[1..] == a[1..] + b;
      ContainsExtendLeft(a[1..], b, key);
    } else {
      assert a + b == b;
    }
  }

  /** String.prototype.replace with a string pattern: only the first
      occurrence is replaced. */
  function ReplaceFirst(s: string, pattern: string, replacement: string): string
  {
    if StartsWith(s, pattern) then replacement + s[|pattern|..]
    else if s == [] then s
    else [s[0]] + ReplaceFirst(s[1..], pattern, replacement)
  }

  /** When the pattern's first character does not occur in a, the first
      occurrence in a + pattern is the appended one. */
  lemma {:induction false} ReplaceFirstAfter(a: string, pattern: string, replacement: string)
    requires |pattern| > 0
    requires forall i :: 0 <= i < |a| ==> a[i] != pattern[0]
    ensures ReplaceFirst(a + pattern, pattern, replacement) == a + replacement
  {
    if a == [] {
      assert a + pattern == pattern;
    } else {
      assert (a + pattern)[..|pattern|][0] == a[0];
      assert (a + pattern)[1..] == a[1..] + pattern;
      ReplaceFirstAfter(a[1..], pattern, replacement);
    }
  }

  /** A non-empty key whose first character does not occur in s does not occur in s. */
  lemma {:induction false} NotContainsWithoutFirstChar(s: string, key: string)
    requires |key| > 0
    requires forall i :: 0 <= i < |s| ==> s[i] != key[0]
    ensures !Contains(s, key)
  {
    if |s| >= |key| {
      assert s[..|key|][0] == s[0];
    }
    if |s| > 0 {
      NotContainsWithoutFirstChar(s[1..], key);
    }
  }

  /** toLowerCase on one character; only ASCII letters are mapped. */
  function LowerChar(c: char): char
  {
    if 'A' <= c <= 'Z' then (c as int + 32) as char else c
  }

  /** String.prototype.toLowerCase, restricted to ASCII letters. */
  function ToLower(s: string): (t: string)
    ensures |t| == |s| && forall i :: 0 <= i < |s| ==> t[i] == LowerChar(s[i])
  {
    seq(|s|, i requires 0 <= i < |s| => LowerChar(s[i]))
  }

  /** Lower-casing twice is lower-casing once. */
  lemma ToLowerIdempotent(s: string)
    ensures ToLower(ToLower(s)) == ToLower(s)
  {
  }

  /** Lower-casing distributes over concatenation. */
  lemma ToLowerAppend(a: string, b: string)
    ensures ToLower(a + b) == ToLower(a) + ToLower(b)
  {
  }

  // ---------------------------------------------------------------------
  // Decimal digits

  predicate IsDigit(c: char) { '0' <= c <= '9' }

  predicate AllDigits(s: string)
  {
    forall i :: 0 <= i < |s| ==> IsDigit(s[i])
  }

  function DigitChar(d: int): (c: char)
    requires 0 <= d < 10
    ensures IsDigit(c)
  {
    ('0' as int + d) as char
  }

  function DigitValue(c: char): (d: int)
    requires IsDigit(c)
    ensures 0 <= d < 10 && DigitChar(d) == c
  {
    c as int - '0' as int
  }

  /** The number a string of decimal digits denotes, read left to right. */
  function DigitsValue(s: string): nat
    requires AllDigits(s)
  {
    if s == [] then 0 else 10 * DigitsValue(s[..|s| - 1]) + DigitValue(s[|s| - 1])
  }

  /** The decimal representation of n, most significant digit first and
      without leading zeros. */
  function Digits(n: nat): (s: string)
    ensures |s| > 0 && AllDigits(s)
    ensures s[0] != '0' || n == 0
    ensures DigitsValue(s) == n
  {
    if n < 10 then [DigitChar(n)]
    else
      var init := Digits(n / 10);
      assert (init + [DigitChar(n % 10)])[..|init|] == init;
      init + [DigitChar(n % 10)]
  }

  /** The longest prefix of s made of decimal digits. */
  function LeadingDigits(s: string): (d: string)
    ensures |d| <= |s| && d == s[..|d|] && AllDigits(d)
    ensures |d| < |s| ==> !IsDigit(s[|d|])
  {
    if |s| > 0 && IsDigit(s[0]) then [s[0]] + LeadingDigits(s[1..]) else []
  }

  lemma {:induction false} LeadingDigitsOfDigits(s: string)
    requires AllDigits(s)
    ensures LeadingDigits(s) == s
  {
    if s != [] {
      LeadingDigitsOfDigits(s[1..]);
    }
  }

  /** A Number produced by parseInt: NaN or an integer. (parseInt yields
      -0 for "-0"; -0 behaves as 0 everywhere the application uses it.) */
  datatype Parsed = NaN | Num(n: int)

  /** parseInt(s, 10): skip leading white space, take an optional sign, then the
      longest run of decimal digits; no digits at all gives NaN. */
  function ParseInt(s: string): (r: Parsed)
    ensures r.Num? ==> exists i :: 0 <= i < |s| && IsDigit(s[i])
  {
    var t := TrimStart(s);
    var negative := |t| > 0 && t[0] == '-';
    var body := if |t| > 0 && (t[0] == '-' || t[0] == '+') then t[1..] else t;
    var z := LeadingDigits(body);
    var v: int := if z == [] then 0 else DigitsValue(z);
    assert z != [] ==> s[|s| - |body|] == body[0] == z[0];
    if z == [] then NaN else Num(if negative then -v else v)
  }

  /** A plain decimal numeral: an optional '-', then digits without a leading
      zero (except for "0" itself). */
  predicate IsNumeral(s: string)
  {
    var d := if |s| > 0 && s[0] == '-' then s[1..] else s;
    |d| > 0 && AllDigits(d) && (d[0] == '0' ==> |d| == 1)
  }

  /** String(n) for an integer n (below 10^21 in magnitude, where JavaScript
      switches to exponent notation). */
  function NumberToString(n: int): (s: string)
    ensures IsNumeral(s)
    ensures (n < 0) == (s[0] == '-')
  {
    if n < 0 then "-" + Digits(-n) else Digits(n)
  }

  /** parseInt reads back exactly the integer String(n) wrote. */
  lemma ParseIntOfNumberToString(n: int)
    ensures ParseInt(NumberToString(n)) == Num(n)
  {
    var s := NumberToString(n);
    assert !IsJsWhitespace(s[0]);
    assert TrimStart(s) == s;
    if n < 0 {
      assert s[1..] == Digits(-n);
      LeadingDigitsOfDigits(Digits(-n));
    } else {
      LeadingDigitsOfDigits(Digits(n));
    }
  }

  /** Three digits, with leading zeros: one group of a grouped number. */
  function Pad3(k: nat): (s: string)
    requires k < 1000
    ensures |s| == 3 && AllDigits(s)
  {
    [DigitChar(k / 100), DigitChar(k / 10 % 10), DigitChar(k % 10)]
  }

  /** A non-negative integer with its digits grouped by three with ','. */
  function Grouped(n: nat): (s: string)
    ensures |s| > 0 && IsDigit(s[0])
    ensures forall i :: 0 <= i < |s| ==> IsDigit(s[i]) || s[i] == ','
  {
    if n < 1000 then Digits(n)
    else Grouped(n / 1000) + "," + Pad3(n % 1000)
  }

  /** Number.prototype.toLocaleString() for an integer, with ',' grouping. */
  function LocaleString(n: int): string
  {
    if n < 0 then "-" + Grouped(-n) else Grouped(n)
  }

  /** s with every ',' removed. */
  function WithoutCommas(s: string): (t: string)
    ensures |t| <= |s|
  {
    if s == [] then []
    else if s[0] == ',' then WithoutCommas(s[1..])
    else [s[0]] + WithoutCommas(s[1..])
  }

  lemma {:induction false} WithoutCommasAppend(a: string, b: string)
    ensures WithoutCommas(a + b) == WithoutCommas(a) + WithoutCommas(b)
  {
    if a != [] {
      assert (a + b)[1..] == a[1..] + b;
      WithoutCommasAppend(a[1..], b);
    } else {
      assert a + b == b;
    }
  }

  lemma {:induction false} WithoutCommasOfDigits(s: string)
    requires AllDigits(s)
    ensures WithoutCommas(s) == s
  {
    if s != [] {
      WithoutCommasOfDigits(s[1..]);
    }
  }

  /** The digits of 1000 * a + b are those of a followed by three digits of b. */
  lemma DigitsSplit(a: nat, b: nat)
    requires a >= 1 && b < 1000
    ensures Digits(1000 * a + b) == Digits(a) + Pad3(b)
  {
    var n := 1000 * a + b;
    assert n / 10 == 100 * a + b / 10 && n % 10 == b % 10;
    var m := n / 10;
    assert m / 10 == 10 * a + b / 100 && m % 10 == b / 10 % 10;
    var k := m / 10;
    assert k / 10 == a && k % 10 == b / 100;
    calc {
      Digits(n);
      Digits(m) + [DigitChar(b % 10)];
      Digits(k) + [DigitChar(b / 10 % 10)] + [DigitChar(b % 10)];
      Digits(a) + [DigitChar(b / 100)] + [DigitChar(b / 10 % 10)] + [DigitChar(b % 10)];
      Digits(a) + Pad3(b);
    }
  }

  /** Removing the group separators of a grouped number gives its plain digits. */
  lemma {:induction false} GroupedWithoutCommas(n: nat)
    ensures WithoutCommas(Grouped(n)) == Digits(n)
  {
    if n < 1000 {
      WithoutCommasOfDigits(Digits(n));
    } else {
      var a, b := n / 1000, n % 1000;
      GroupedWithoutCommas(a);
      WithoutCommasAppend(Grouped(a) + ",", Pad3(b));
      WithoutCommasAppend(Grouped(a), ",");
      WithoutCommasOfDigits(Pad3(b));
      DigitsSplit(a, b);
    }
  }

  lemma WithoutCommasAfterSign(g: string)
    ensures WithoutCommas("-" + g) == "-" + WithoutCommas(g)
  {
    assert ("-" + g)[0] == '-' && ("-" + g)[1..] == g;
  }

  /** Removing the group separators of toLocaleString gives String(n). */
  lemma LocaleStringWithoutCommas(n: int)
    ensures WithoutCommas(LocaleString(n)) == NumberToString(n)
  {
    var m: nat := if n < 0 then -n else n;
    GroupedWithoutCommas(m);
    if n < 0 {
      WithoutCommasAfterSign(Grouped(m));
    }
  }

  /** parseInt reads the plain digits of n back as n. */
  lemma ParseIntOfDigits(n: nat)
    ensures ParseInt(Digits(n)) == Num(n)
  {
    ParseIntOfNumberToString(n);
  }
}
