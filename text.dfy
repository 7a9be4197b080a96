/** The parts of Python's `str` and of its `float()` and `int()` conversions
    that the filter engine relies on, over `string` (a sequence of `char`). */
module Text {
  import opened Results

  // ---------------------------------------------------------------------------
  // Prefixes, occurrences
  // ---------------------------------------------------------------------------

  /** `s.startswith(p)` */
  predicate StartsWith(s: string, p: string) {
    |p| <= |s| && s[..|p|] == p
  }

  /** Number of occurrences of `c` in `s`. */
  function Count(s: string, c: char): nat {
    if s == [] then 0 else (if s[0] == c then 1 else 0) + Count(s[1..], c)
  }

  /** A character occurs zero times exactly when it is absent. */
  lemma {:induction false} CountZero(s: string, c: char)
    ensures Count(s, c) == 0 <==> c !in s
    decreases |s|
  {
    if s != [] {
      CountZero(s[1..], c);
      assert s == [s[0]] + s[1..];
    }
  }

  /** Index of the first occurrence of `c` (Python `s.index(c)`). */
  function IndexOf(s: string, c: char): (i: nat)
    requires c in s
    ensures i < |s| && s[i] == c && c !in s[..i]
  {
    if s[0] == c then 0
    else
      var j := IndexOf(s[1..], c);
      assert s[1..][..j] == s[1..j + 1];
      assert s[..j + 1] == [s[0]] + s[1..j + 1];
      j + 1
  }

  /** `s.replace(c, "")` */
  function RemoveAll(s: string, c: char): (r: string)
    ensures c !in r
    ensures forall d :: d in r ==> d in s
  {
    if s == [] then []
    else if s[0] == c then RemoveAll(s[1..], c)
    else [s[0]] + RemoveAll(s[1..], c)
  }

  /** `s.replace(pat, rep)`: non-overlapping occurrences, scanned from the left. */
  function ReplaceAll(s: string, pat: string, rep: string): string
    requires |pat| > 0
    decreases |s|
  {
    if |s| < |pat| then s
    else if s[..|pat|] == pat then rep + ReplaceAll(s[|pat|..], pat, rep)
    else [s[0]] + ReplaceAll(s[1..], pat, rep)
  }

  // ---------------------------------------------------------------------------
  // str.strip()
  // ---------------------------------------------------------------------------

  /** The characters for which Python's `str.isspace()` holds; `strip()` with
      no argument removes exactly these. */
  predicate IsSpace(c: char) {
    || c == ' ' || c == '\t' || c == '\n' || c == '\r' || c == '\U{000B}' || c == '\U{000C}'
    || ('\U{001C}' <= c <= '\U{001F}') || c == '\U{0085}' || c == '\U{00A0}' || c == '\U{1680}'
    || ('\U{2000}' <= c <= '\U{200A}') || c == '\U{2028}' || c == '\U{2029}' || c == '\U{202F}'
    || c == '\U{205F}' || c == '\U{3000}'
  }

  /** `s.lstrip()`: the longest suffix of `s` that does not start with white space. */
  function TrimStart(s: string): (r: string)
    ensures |r| <= |s| && r == s[|s| - |r|..]
    ensures r == [] || !IsSpace(r[0])
    ensures forall i :: 0 <= i < |s| - |r| ==> IsSpace(s[i])
  {
    if s != [] && IsSpace(s[0]) then TrimStart(s[1..]) else s
  }

  /** `s.rstrip()`: the longest prefix of `s` that does not end with white space. */
  function TrimEnd(s: string): (r: string)
    ensures |r| <= |s| && r == s[..|r|]
    ensures r == [] || !IsSpace(r[|r| - 1])
    ensures forall i :: |r| <= i < |s| ==> IsSpace(s[i])
  {
    if s != [] && IsSpace(s[|s| - 1]) then TrimEnd(s[..|s| - 1]) else s
  }

  /** `s.strip()` */
  function Strip(s: string): (r: string)
    ensures |r| <= |s|
    ensures r == [] || (!IsSpace(r[0]) && !IsSpace(r[|r| - 1]))
    ensures forall c :: c in r ==> c in s
  {
    var t := TrimStart(s);
    var r := TrimEnd(t);
    assert forall c :: c in r ==> c in t;
    r
  }

  /** A string that neither starts nor ends with white space is its own strip. */
  lemma StripUnchanged(s: string)
    requires s == [] || (!IsSpace(s[0]) && !IsSpace(s[|s| - 1]))
    ensures Strip(s) == s
  {
    assert TrimStart(s) == s;
    assert TrimEnd(s) == s;
  }

  /** Stripping keeps a first character that is not white space. */
  lemma StripKeepsFirst(s: string)
    requires s != [] && !IsSpace(s[0])
    ensures Strip(s) != [] && Strip(s)[0] == s[0]
  {
    assert TrimStart(s) == s;
    assert TrimEnd(s) == s[..|TrimEnd(s)|];
    assert |TrimEnd(s)| > 0 by { assert !IsSpace(s[0]); }
  }

  /** The white space `int()` and `float()` strip from their text. Both first
      turn every non-ASCII white-space character into a blank and then strip
      ASCII white space only, so the separators U+001C to U+001F, which
      `str.strip()` removes, are kept and make the text no number. */
  predicate IsNumberSpace(c: char) {
    IsSpace(c) && !('\U{001C}' <= c <= '\U{001F}')
  }

  /** The leading white space that `int()` and `float()` strip. */
  function NumberTrimStart(s: string): (r: string)
    ensures |r| <= |s| && r == s[|s| - |r|..]
    ensures r == [] || !IsNumberSpace(r[0])
    ensures forall i :: 0 <= i < |s| - |r| ==> IsNumberSpace(s[i])
  {
    if s != [] && IsNumberSpace(s[0]) then NumberTrimStart(s[1..]) else s
  }

  /** The trailing white space that `int()` and `float()` strip. */
  function NumberTrimEnd(s: string): (r: string)
    ensures |r| <= |s| && r == s[..|r|]
    ensures r == [] || !IsNumberSpace(r[|r| - 1])
    ensures forall i :: |r| <= i < |s| ==> IsNumberSpace(s[i])
  {
    if s != [] && IsNumberSpace(s[|s| - 1]) then NumberTrimEnd(s[..|s| - 1]) else s
  }

  /** The text `int()` and `float()` go on to read. */
  function NumberStrip(s: string): (r: string)
    ensures |r| <= |s| && (r == [] || (!IsNumberSpace(r[0]) && !IsNumberSpace(r[|r| - 1])))
  {
    NumberTrimEnd(NumberTrimStart(s))
  }

  /** Text that neither starts nor ends with such white space is read whole. */
  lemma NumberStripUnchanged(s: string)
    requires s == [] || (!IsNumberSpace(s[0]) && !IsNumberSpace(s[|s| - 1]))
    ensures NumberStrip(s) == s
  {
    assert NumberTrimStart(s) == s;
    assert NumberTrimEnd(s) == s;
  }

  /** The stripping keeps a first character that is not such white space. */
  lemma NumberStripKeepsFirst(s: string)
    requires s != [] && !IsNumberSpace(s[0])
    ensures NumberStrip(s) != [] && NumberStrip(s)[0] == s[0]
  {
    assert NumberTrimStart(s) == s;
    assert NumberTrimEnd(s) == s[..|NumberTrimEnd(s)|];
    assert |NumberTrimEnd(s)| > 0 by { assert !IsNumberSpace(s[0]); }
  }

  /** `str.strip()` removes a separator U+001C to U+001F after a text that
      neither starts nor ends with white space. */
  lemma SeparatorStripped(d: string, c: char)
    requires d != [] && !IsSpace(d[0]) && !IsSpace(d[|d| - 1])
    requires '\U{001C}' <= c <= '\U{001F}'
    ensures Strip(d + [c]) == d
  {
    var t := d + [c];
    assert TrimStart(t) == t;
    assert t[..|t| - 1] == d;
    assert TrimEnd(t) == TrimEnd(d);
    StripUnchanged(d);
  }

  /** After `str.strip()`, `int()` and `float()` find no white space left to
      strip, so on stripped text the two kinds of stripping agree. */
  lemma NumberStripAfterStrip(s: string)
    ensures NumberStrip(Strip(s)) == Strip(s)
  {
    NumberStripUnchanged(Strip(s));
  }

  /** `float()` reads only digits and dots after the sign. */
  lemma UnsignedDecimalChars(u: string)
    requires ParseUnsignedDecimal(u).Some?
    ensures forall i :: 0 <= i < |u| ==> IsDigit(u[i]) || u[i] == '.'
  {
    var parts := Split(u, '.');
    if |parts| == 2 {
      JoinSplit(u, '.');
      assert Join(parts[1..], '.') == parts[1];
      assert u == parts[0] + ['.'] + parts[1];
      forall i | 0 <= i < |u| ensures IsDigit(u[i]) || u[i] == '.' {
        if i < |parts[0]| { assert u[i] == parts[0][i]; }
        else if i > |parts[0]| { assert u[i] == parts[1][i - |parts[0]| - 1]; }
      }
    }
  }

  /** `float(t)` fails on a text that ends with one of the separators U+001C to
      U+001F, although `t.strip()` would drop it. */
  lemma SeparatorIsNoDecimal(t: string)
    requires t != [] && !IsNumberSpace(t[0])
    requires '\U{001C}' <= t[|t| - 1] <= '\U{001F}'
    ensures ParseDecimal(t) == None
  {
    NumberStripUnchanged(t);
    var u := if t[0] == '-' || t[0] == '+' then t[1..] else t;
    assert u == [] || u[|u| - 1] == t[|t| - 1];
    if ParseUnsignedDecimal(u).Some? {
      UnsignedDecimalChars(u);
      assert false;
    }
  }

  /** Joining at a separator that is not a space keeps the ends of the halves. */
  lemma JoinedStripped(a: string, sep: char, b: string)
    requires !IsSpace(sep)
    requires a == [] || !IsSpace(a[0])
    requires b == [] || !IsSpace(b[|b| - 1])
    ensures Strip(a + [sep] + b) == a + [sep] + b
  {
    var t := a + [sep] + b;
    assert t[0] == (if a == [] then sep else a[0]);
    assert t[|t| - 1] == (if b == [] then sep else b[|b| - 1]);
    StripUnchanged(t);
  }

  /** A string of white space strips to the empty string. */
  lemma {:induction false} StripSpaces(s: string)
    requires forall i :: 0 <= i < |s| ==> IsSpace(s[i])
    ensures Strip(s) == []
    decreases |s|
  {
    if s != [] {
      assert IsSpace(s[0]);
      StripSpaces(s[1..]);
    }
  }

  // ---------------------------------------------------------------------------
  // str.split(sep) for a one-character separator
  // ---------------------------------------------------------------------------

  /** `s.split(sep)`: the maximal pieces of `s` between occurrences of `sep`. */
  function Split(s: string, sep: char): (r: seq<string>)
    ensures |r| >= 1
    ensures forall k :: 0 <= k < |r| ==> sep !in r[k] && |r[k]| <= |s|
    ensures sep in s ==> forall k :: 0 <= k < |r| ==> |r[k]| < |s|
    ensures |r| == Count(s, sep) + 1
    decreases |s|
  {
    if s == [] then [[]]
    else
      var rest := Split(s[1..], sep);
      if s[0] == sep then [[]] + rest
      else [[s[0]] + rest[0]] + rest[1..]
  }

  /** The first piece starts with the first character when that is not the separator. */
  lemma SplitKeepsFirst(s: string, sep: char)
    requires s != [] && s[0] != sep
    ensures Split(s, sep)[0] != [] && Split(s, sep)[0][0] == s[0]
  {
  }

  /** `sep.join(parts)` */
  function Join(parts: seq<string>, sep: char): string
    decreases |parts|
  {
    if parts == [] then []
    else if |parts| == 1 then parts[0]
    else parts[0] + [sep] + Join(parts[1..], sep)
  }

  /** Joining the pieces again gives back the string that was split. */
  lemma {:induction false} JoinSplit(s: string, sep: char)
    ensures Join(Split(s, sep), sep) == s
    decreases |s|
  {
    if s != [] {
      var rest := Split(s[1..], sep);
      JoinSplit(s[1..], sep);
      if s[0] == sep {
        assert Split(s, sep) == [[]] + rest;
        assert ([[]] + rest)[1..] == rest;
      } else {
        var r := Split(s, sep);
        assert r == [[s[0]] + rest[0]] + rest[1..];
        if |rest| == 1 {
          assert r == [[s[0]] + rest[0]];
        } else {
          assert r[1..] == rest[1..];
          assert Join(r, sep) == [s[0]] + rest[0] + [sep] + Join(rest[1..], sep);
        }
      }
    }
  }

  /** Splitting a join of separator-free pieces gives back the pieces. */
  lemma {:induction false} SplitJoin(parts: seq<string>, sep: char)
    requires |parts| >= 1
    requires forall k :: 0 <= k < |parts| ==> sep !in parts[k]
    ensures Split(Join(parts, sep), sep) == parts
    decreases |parts|, |parts[0]|
  {
    var p := parts[0];
    if |parts| == 1 {
      SplitAbsent(p, sep);
    } else if p == [] {
      var tail := Join(parts[1..], sep);
      SplitJoin(parts[1..], sep);
      assert Join(parts, sep) == [sep] + tail;
      assert ([sep] + tail)[1..] == tail;
    } else {
      var s := Join(parts, sep);
      var shorter := [p[1..]] + parts[1..];
      assert Join(shorter, sep) == s[1..] by {
        assert s == [p[0]] + (p[1..] + [sep] + Join(parts[1..], sep));
      }
      SplitJoin(shorter, sep);
      assert s[0] == p[0];
      assert [p[0]] + p[1..] == p;
    }
  }

  /** A string without the separator splits into itself. */
  lemma {:induction false} SplitAbsent(s: string, sep: char)
    requires sep !in s
    ensures Split(s, sep) == [s]
    decreases |s|
  {
    if s != [] {
      SplitAbsent(s[1..], sep);
      assert [s[0]] + s[1..] == s;
    }
  }

  /** `a + [sep] + b` with no separator in either part splits into `[a, b]`. */
  lemma SplitTwo(a: string, sep: char, b: string)
    requires sep !in a && sep !in b
    ensures Split(a + [sep] + b, sep) == [a, b]
  {
    assert Join([a, b], sep) == a + [sep] + b;
    SplitJoin([a, b], sep);
  }

  // ---------------------------------------------------------------------------
  // Decimal numerals: int() and float()
  // ---------------------------------------------------------------------------

  predicate IsDigit(c: char) { '0' <= c <= '9' }

  predicate AllDigits(s: string) { forall i :: 0 <= i < |s| ==> IsDigit(s[i]) }

  function DigitValue(c: char): nat
    requires IsDigit(c)
  {
    c as int - '0' as int
  }

  function DigitChar(d: nat): char
    requires d < 10
  {
    ('0' as int + d) as char
  }

  /** The value of a string of decimal digits, most significant first. */
  function DigitsValue(s: string): nat
    requires AllDigits(s)
    decreases |s|
  {
    if s == [] then 0 else 10 * DigitsValue(s[..|s| - 1]) + DigitValue(s[|s| - 1])
  }

  function Pow10(n: nat): (p: nat)
    ensures p >= 1
  {
    if n == 0 then 1 else 10 * Pow10(n - 1)
  }

  /** A non-empty run of decimal digits. */
  function ParseNat(s: string): Option<nat> {
    if s != [] && AllDigits(s) then Some(DigitsValue(s)) else None
  }

  /** Python's `int(s)` on text: surrounding white space (as `NumberStrip`
      removes it), an optional sign and a non-empty run of decimal digits. */
  function ParseInt(s: string): Option<int> {
    var t := NumberStrip(s);
    if t != [] && (t[0] == '-' || t[0] == '+') then
      match ParseNat(t[1..])
      case Some(n) => Some(if t[0] == '-' then 0 - n else n as int)
      case None => None
    else
      match ParseNat(t)
      case Some(n) => Some(n)
      case None => None
  }

  /** The unsigned part of a decimal literal: `ddd`, `ddd.ddd`, `ddd.` or `.ddd`. */
  function ParseUnsignedDecimal(t: string): Option<real> {
    var parts := Split(t, '.');
    if |parts| == 1 then
      match ParseNat(t)
      case Some(n) => Some(n as real)
      case None => None
    else if |parts| == 2 && AllDigits(parts[0]) && AllDigits(parts[1]) && parts != [[], []] then
      Some(DigitsValue(parts[0]) as real + DigitsValue(parts[1]) as real / Pow10(|parts[1]|) as real)
    else None
  }

  /** Python's `float(s)` on a plain decimal literal: surrounding white space
      (as `NumberStrip` removes it), an optional sign, then digits with an
      optional fraction. */
  function ParseDecimal(s: string): Option<real> {
    var t := NumberStrip(s);
    if t != [] && (t[0] == '-' || t[0] == '+') then
      match ParseUnsignedDecimal(t[1..])
      case Some(x) => Some(if t[0] == '-' then -x else x)
      case None => None
    else ParseUnsignedDecimal(t)
  }

  /** The decimal numeral of `n`, as `str(n)` writes it. */
  function DecimalString(n: nat): (s: string)
    ensures s != [] && AllDigits(s)
    decreases n
  {
    if n < 10 then [DigitChar(n)] else DecimalString(n / 10) + [DigitChar(n % 10)]
  }

  lemma {:induction false} DigitsOfDecimalString(n: nat)
    ensures DigitsValue(DecimalString(n)) == n
    decreases n
  {
    if n >= 10 {
      var x := DecimalString(n / 10);
      var s := x + [DigitChar(n % 10)];
      assert s[..|s| - 1] == x;
      DigitsOfDecimalString(n / 10);
    }
  }

  /** `str(n)` starts with `0` only for `n = 0`. */
  lemma {:induction false} DecimalStringLeading(n: nat)
    ensures DecimalString(n)[0] == '0' ==> n == 0
    decreases n
  {
    if n >= 10 {
      DecimalStringLeading(n / 10);
      assert DecimalString(n)[0] == DecimalString(n / 10)[0];
    }
  }

  /** A leading zero adds nothing to the value of a digit string. */
  lemma {:induction false} LeadingZeroValue(s: string)
    requires AllDigits(s)
    ensures AllDigits("0" + s) && DigitsValue("0" + s) == DigitsValue(s)
    decreases |s|
  {
    var t := "0" + s;
    assert forall k :: 0 <= k < |t| ==> IsDigit(t[k]);
    if s != [] {
      var init := s[..|s| - 1];
      assert t[..|t| - 1] == "0" + init;
      LeadingZeroValue(init);
    }
  }

  /** `int(str(n)) == n` */
  lemma IntOfDecimalString(n: nat)
    ensures ParseInt(DecimalString(n)) == Some(n)
  {
    var s := DecimalString(n);
    NumberStripUnchanged(s);
    DigitsOfDecimalString(n);
  }

  /** One blank on each side of a string with no white space at its ends is
      stripped away. */
  lemma StripPadded(s: string)
    requires s != [] && !IsSpace(s[0]) && !IsSpace(s[|s| - 1])
    ensures Strip(" " + s + " ") == s
  {
    var p := " " + s + " ";
    assert p[1..] == s + " ";
    assert TrimStart(s + " ") == s + " ";
    assert (s + " ")[..|s|] == s;
    assert TrimEnd(s + " ") == TrimEnd(s);
    StripUnchanged(s);
  }

  /** A sign followed by decimal digits has no white space to strip. */
  lemma SignedUnstripped(n: nat, sign: char)
    requires sign == '-' || sign == '+'
    ensures NumberStrip([sign] + DecimalString(n)) == [sign] + DecimalString(n)
  {
    var d := DecimalString(n);
    var t := [sign] + d;
    assert t[0] == sign && t[|t| - 1] == d[|d| - 1] && IsDigit(d[|d| - 1]);
    NumberStripUnchanged(t);
  }

  /** `int("-n")` is `-n` and `int("+n")` is `n`. */
  lemma IntOfSigned(n: nat, sign: char)
    requires sign == '-' || sign == '+'
    ensures ParseInt([sign] + DecimalString(n)) == Some(if sign == '-' then -(n as int) else n as int)
  {
    var t := [sign] + DecimalString(n);
    SignedUnstripped(n, sign);
    assert t[1..] == DecimalString(n);
    IntOfSignedText(t, n);
  }

  /** `int(t)` for a text `t` that is a sign and the digits of `n`. */
  lemma IntOfSignedText(t: string, n: nat)
    requires t != [] && (t[0] == '-' || t[0] == '+') && NumberStrip(t) == t && t[1..] == DecimalString(n)
    ensures ParseInt(t) == Some(if t[0] == '-' then -(n as int) else n as int)
  {
    DigitsOfDecimalString(n);
  }

  /** `int()` ignores a leading zero: `int("0" + str(n)) == n`. */
  lemma IntOfLeadingZero(n: nat)
    ensures ParseInt("0" + DecimalString(n)) == Some(n)
  {
    var d := DecimalString(n);
    var t := "0" + d;
    assert t[|t| - 1] == d[|d| - 1] && IsDigit(d[|d| - 1]);
    NumberStripUnchanged(t);
    LeadingZeroValue(d);
    DigitsOfDecimalString(n);
  }

  /** `float(str(n)) == n` */
  lemma FloatOfDecimalString(n: nat)
    ensures ParseDecimal(DecimalString(n)) == Some(n as real)
  {
    var s := DecimalString(n);
    NumberStripUnchanged(s);
    assert forall i :: 0 <= i < |s| ==> s[i] != '.';
    SplitAbsent(s, '.');
    DigitsOfDecimalString(n);
  }
}
