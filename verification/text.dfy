/**
 * The string primitives the JavaScript code relies on: `String.prototype.trim`
 * (and express-validator's `trim()` sanitizer, which strips the same set), the
 * `\s` regular-expression class, and `parseInt` with no radix argument.
 * Strings are sequences of Unicode code points, so `|s|` counts a character
 * outside the Basic Multilingual Plane once, where JavaScript's `.length`
 * counts its two UTF-16 code units. Numbers are unbounded integers, not
 * IEEE doubles.
 */
module Text {
  import opened Wrappers

  /**
   * ECMAScript WhiteSpace and LineTerminator code points: the set stripped by
   * `trim` and matched by `\s`.
   */
  predicate IsWhitespace(c: char) {
    || c == '\t' || c == '\n' || c == '\U{000B}' || c == '\U{000C}' || c == '\r'
    || c == ' ' || c == '\U{00A0}' || c == '\U{1680}'
    || ('\U{2000}' <= c <= '\U{200A}')
    || c == '\U{2028}' || c == '\U{2029}' || c == '\U{202F}' || c == '\U{205F}'
    || c == '\U{3000}' || c == '\U{FEFF}'
  }

  predicate AllWhitespace(s: string) {
    forall k :: 0 <= k < |s| ==> IsWhitespace(s[k])
  }

  /** Neither end of `s` is white space: what `trim` leaves behind. */
  predicate IsTrimmed(s: string) {
    s == [] || (!IsWhitespace(s[0]) && !IsWhitespace(s[|s| - 1]))
  }

  /** `r` is `s` with an all-white-space prefix and suffix cut off. */
  ghost predicate StripsTo(s: string, r: string) {
    exists i, j :: 0 <= i <= j <= |s| && r == s[i..j] && AllWhitespace(s[..i]) && AllWhitespace(s[j..])
  }

  /** `String.prototype.trimStart`. */
  function TrimStart(s: string): (r: string)
    ensures |r| <= |s| && r == s[|s| - |r|..]
    ensures AllWhitespace(s[..|s| - |r|])
    ensures r == [] || !IsWhitespace(r[0])
    decreases |s|
  {
    if |s| > 0 && IsWhitespace(s[0]) then TrimStart(s[1..]) else s
  }

  /** `String.prototype.trimEnd`. */
  function TrimEnd(s: string): (r: string)
    ensures |r| <= |s| && r == s[..|r|]
    ensures AllWhitespace(s[|r|..])
    ensures r == [] || !IsWhitespace(r[|r| - 1])
    decreases |s|
  {
    if |s| > 0 && IsWhitespace(s[|s| - 1]) then
      var r := TrimEnd(s[..|s| - 1]);
      assert s[|r|..] == s[..|s| - 1][|r|..] + [s[|s| - 1]];
      r
    else s
  }

  /** `String.prototype.trim`: both margins of white space removed. */
  function Trim(s: string): (r: string)
    ensures |r| <= |s|
    ensures IsTrimmed(r)
    ensures r == [] <==> AllWhitespace(s)
  {
    var t := TrimStart(s);
    TrimEndKeepsHead(t);
    WhitespaceWhenNothingStarts(s);
    TrimEnd(t)
  }

  /** Trimming the end of a string that starts with a non-white-space character keeps that character. */
  lemma TrimEndKeepsHead(t: string)
    requires t == [] || !IsWhitespace(t[0])
    ensures IsTrimmed(TrimEnd(t))
    ensures TrimEnd(t) == [] <==> t == []
  {
    var r := TrimEnd(t);
    if r != [] {
      assert r[0] == t[0];
    }
    if r == [] {
      assert t[|r|..] == t;
    }
  }

  /** `trimStart` leaves nothing exactly when the whole string is white space. */
  lemma WhitespaceWhenNothingStarts(s: string)
    ensures TrimStart(s) == [] <==> AllWhitespace(s)
  {
    var t := TrimStart(s);
    if t == [] {
      forall k | 0 <= k < |s| ensures IsWhitespace(s[k]) {
        assert s[k] == s[..|s|][k];
      }
    }
    if t != [] {
      assert t[0] == s[|s| - |t|];
    }
  }

  /** The trimmed string is the slice of `s` between two all-white-space margins. */
  lemma TrimStrips(s: string)
    ensures StripsTo(s, Trim(s))
  {
    var t := TrimStart(s);
    var r := TrimEnd(t);
    var i := |s| - |t|;
    assert t == s[i..];
    assert r == s[i..i + |r|];
    assert s[i + |r|..] == t[|r|..];
  }

  /** JavaScript's `!s.trim()`: the field holds nothing but white space. */
  predicate IsBlank(s: string) {
    Trim(s) == []
  }

  lemma {:induction false} TrimOfTrimmed(s: string)
    requires IsTrimmed(s)
    ensures Trim(s) == s
  {
    assert TrimStart(s) == s;
    assert TrimEnd(s) == s;
  }

  /** Trimming twice is trimming once: the server's `trim()` of an already trimmed payload changes nothing. */
  lemma TrimIdempotent(s: string)
    ensures Trim(Trim(s)) == Trim(s)
  {
    TrimOfTrimmed(Trim(s));
  }

  /** A string without white space is its own trim. */
  lemma TrimNoWhitespace(s: string)
    requires forall k :: 0 <= k < |s| ==> !IsWhitespace(s[k])
    ensures Trim(s) == s
  {
    TrimOfTrimmed(s);
  }

  // ---------------------------------------------------------------------
  // parseInt(string) with no radix argument (ECMAScript section 19.2.5).
  // ---------------------------------------------------------------------

  predicate IsDigit(c: char, hex: bool) {
    ('0' <= c <= '9') || (hex && (('a' <= c <= 'f') || ('A' <= c <= 'F')))
  }

  function DigitValue(c: char, hex: bool): (v: nat)
    requires IsDigit(c, hex)
    ensures v < Radix(hex)
  {
    if '0' <= c <= '9' then c as int - '0' as int
    else if 'a' <= c <= 'f' then c as int - 'a' as int + 10
    else c as int - 'A' as int + 10
  }

  function Radix(hex: bool): nat {
    if hex then 16 else 10
  }

  predicate AllDigits(s: string, hex: bool) {
    forall k :: 0 <= k < |s| ==> IsDigit(s[k], hex)
  }

  /** Length of the longest prefix of `s` made of digits of the radix. */
  function DigitRun(s: string, hex: bool): (n: nat)
    ensures n <= |s|
    ensures AllDigits(s[..n], hex)
    ensures n == |s| || !IsDigit(s[n], hex)
  {
    if |s| == 0 || !IsDigit(s[0], hex) then 0
    else
      var n := 1 + DigitRun(s[1..], hex);
      assert forall k :: 1 <= k < n ==> s[..n][k] == s[1..][..n - 1][k - 1];
      n
  }

  /** Positional value of a digit string, most significant digit first. */
  function DigitsValue(ds: string, hex: bool): nat
    requires AllDigits(ds, hex)
  {
    if |ds| == 0 then 0
    else DigitsValue(ds[..|ds| - 1], hex) * Radix(hex) + DigitValue(ds[|ds| - 1], hex)
  }

  /** A numeric string without its leading sign. */
  function StripSign(t: string): string {
    if |t| > 0 && (t[0] == '-' || t[0] == '+') then t[1..] else t
  }

  predicate NegativeSign(t: string) {
    |t| > 0 && t[0] == '-'
  }

  /** The sign-free remainder of a numeric string after its leading white space and sign. */
  function Unsigned(s: string): string {
    StripSign(TrimStart(s))
  }

  predicate IsNegative(s: string) {
    NegativeSign(TrimStart(s))
  }

  /** A `0x` or `0X` prefix switches the radix to 16. */
  predicate HasHexPrefix(u: string) {
    |u| >= 2 && u[0] == '0' && (u[1] == 'x' || u[1] == 'X')
  }

  function Body(u: string): string {
    if HasHexPrefix(u) then u[2..] else u
  }

  /** `parseInt(s)`; `None` stands for `NaN`. */
  function ParseInt(s: string): (r: Option<int>)
    ensures r.Some? <==> (|Body(Unsigned(s))| > 0 && IsDigit(Body(Unsigned(s))[0], HasHexPrefix(Unsigned(s))))
    ensures r.Some? && !IsNegative(s) ==> r.value >= 0
    ensures r.Some? && IsNegative(s) ==> r.value <= 0
  {
    Signed(TrimStart(s))
  }

  /** `parseInt` once the leading white space is gone: an optional sign, then the magnitude. */
  function Signed(t: string): Option<int> {
    match Magnitude(StripSign(t))
    case None => None
    case Some(m) => var v: int := m; Some(if NegativeSign(t) then -v else v)
  }

  /** The value of the longest digit prefix of an unsigned numeric string, in the radix its prefix selects. */
  function Magnitude(u: string): (r: Option<nat>)
    ensures r.Some? <==> (|Body(u)| > 0 && IsDigit(Body(u)[0], HasHexPrefix(u)))
  {
    var hex := HasHexPrefix(u);
    var b := Body(u);
    var n := DigitRun(b, hex);
    if n == 0 then None else Some(DigitsValue(b[..n], hex))
  }

  // ---------------------------------------------------------------------
  // Decimal rendering, the inverse of ParseInt on canonical strings.
  // ---------------------------------------------------------------------

  function DecimalDigit(d: nat): (c: char)
    requires d < 10
    ensures IsDigit(c, false) && DigitValue(c, false) == d
  {
    ('0' as int + d) as char
  }

  /** The digits of `n` in base 10, no leading zeros. */
  function NatToDecimal(n: nat): (s: string)
    ensures |s| > 0 && AllDigits(s, false)
    decreases n
  {
    if n < 10 then [DecimalDigit(n)] else NatToDecimal(n / 10) + [DecimalDigit(n % 10)]
  }

  /** The canonical decimal rendering of an integer: `String(n)` for `|n| < 10^21`. */
  function IntToDecimal(n: int): string {
    if n < 0 then ['-'] + NatToDecimal(-n) else NatToDecimal(n)
  }

  lemma {:induction false} NatToDecimalValue(n: nat)
    ensures DigitsValue(NatToDecimal(n), false) == n
    decreases n
  {
    var s := NatToDecimal(n);
    if n >= 10 {
      NatToDecimalValue(n / 10);
      assert s[..|s| - 1] == NatToDecimal(n / 10);
    }
  }

  /**
   * Parsing the canonical decimal rendering of `n` gives `n` back. In JavaScript
   * this holds for the integers a double represents exactly (`|n| <= 2^53`).
   */
  lemma ParseIntOfDecimal(n: int)
    ensures ParseInt(IntToDecimal(n)) == Some(n)
  {
    var s := IntToDecimal(n);
    var d := NatToDecimal(if n < 0 then -n else n);
    assert !IsWhitespace(s[0]);
    assert TrimStart(s) == s;
    assert Unsigned(s) == d;
    assert !HasHexPrefix(d) by {
      if |d| >= 2 {
        assert IsDigit(d[1], false);
      }
    }
    assert Body(d) == d;
    assert DigitRun(d, false) == |d|;
    assert d[..|d|] == d;
    NatToDecimalValue(if n < 0 then -n else n);
  }

  // ---------------------------------------------------------------------
  // The value parseInt reads: leading white space and sign, leading zeros,
  // the hexadecimal prefix, and the characters after the digits.
  // ---------------------------------------------------------------------

  /** Leading white space is skipped by `trimStart`, whatever follows it. */
  lemma {:induction false} TrimStartSkipsWhitespace(w: string, s: string)
    requires AllWhitespace(w)
    ensures TrimStart(w + s) == TrimStart(s)
    decreases |w|
  {
    if w != [] {
      var ws := w + s;
      assert ws[0] == w[0];
      assert IsWhitespace(ws[0]);
      assert TrimStart(ws) == TrimStart(ws[1..]);
      assert ws[1..] == w[1..] + s;
      assert AllWhitespace(w[1..]) by {
        forall k | 0 <= k < |w| - 1 ensures IsWhitespace(w[1..][k]) {
          assert w[1..][k] == w[k + 1];
        }
      }
      TrimStartSkipsWhitespace(w[1..], s);
    } else {
      assert w + s == s;
    }
  }

  /** `trimEnd` ignores white space after the text, as `trimStart` does before it. */
  lemma {:induction false} TrimEndSkipsWhitespace(s: string, w: string)
    requires AllWhitespace(w)
    ensures TrimEnd(s + w) == TrimEnd(s)
    decreases |w|
  {
    if w != [] {
      var sw := s + w;
      assert sw[|sw| - 1] == w[|w| - 1];
      assert IsWhitespace(sw[|sw| - 1]);
      var u := w[..|w| - 1];
      assert sw[..|sw| - 1] == s + u;
      assert AllWhitespace(u) by {
        forall k | 0 <= k < |u| ensures IsWhitespace(u[k]) {
          assert u[k] == w[k];
        }
      }
      TrimEndSkipsWhitespace(s, u);
    } else {
      assert s + w == s;
    }
  }

  /**
   * `trim` is the only way to strip white-space margins that leaves a
   * trimmed string: any such strip of `s` equals `Trim(s)`.
   */
  lemma TrimIsTheOnlyTrimmedStrip(s: string, r: string)
    requires StripsTo(s, r) && IsTrimmed(r)
    ensures r == Trim(s)
  {
    var i, j :| 0 <= i <= j <= |s| && r == s[i..j] && AllWhitespace(s[..i]) && AllWhitespace(s[j..]);
    if i == j {
      BlankBetweenMargins(s, i);
    } else {
      TextBetweenMargins(s, i, j);
    }
  }

  /** Two white-space margins that meet leave nothing to trim. */
  lemma BlankBetweenMargins(s: string, i: nat)
    requires i <= |s| && AllWhitespace(s[..i]) && AllWhitespace(s[i..])
    ensures Trim(s) == []
  {
    forall k | 0 <= k < |s| ensures IsWhitespace(s[k]) {
      if k < i {
        assert s[k] == s[..i][k];
      } else {
        assert s[k] == s[i..][k - i];
      }
    }
  }

  /** Text that starts and ends with a non-white-space character is what `trim` keeps of its margins. */
  lemma TextBetweenMargins(s: string, i: nat, j: nat)
    requires i < j <= |s| && AllWhitespace(s[..i]) && AllWhitespace(s[j..]) && IsTrimmed(s[i..j])
    ensures Trim(s) == s[i..j]
  {
    var r := s[i..j];
    var tail := r + s[j..];
    SplitInThree(s, i, j);
    TrimStartSkipsWhitespace(s[..i], tail);
    assert tail[0] == r[0];
    assert TrimStart(tail) == tail;
    TrimEndSkipsWhitespace(r, s[j..]);
    assert TrimEnd(r) == r;
  }

  /** A string is its prefix, middle and suffix put back together. */
  lemma SplitInThree(s: string, i: nat, j: nat)
    requires i <= j <= |s|
    ensures s == s[..i] + (s[i..j] + s[j..])
  {
    assert s[i..] == s[i..j] + s[j..];
    assert s == s[..i] + s[i..];
  }

  /** `parseInt` ignores white space before the number. */
  lemma ParseIntSkipsLeadingWhitespace(w: string, s: string)
    requires AllWhitespace(w)
    ensures ParseInt(w + s) == ParseInt(s)
  {
    TrimStartSkipsWhitespace(w, s);
    ParseIntReadsTrimStart(w + s, s);
  }

  /** `parseInt` sees a string only through what `trimStart` leaves of it. */
  lemma ParseIntReadsTrimStart(s1: string, s2: string)
    requires TrimStart(s1) == TrimStart(s2)
    ensures ParseInt(s1) == ParseInt(s2)
  {
  }

  /** A string that starts with neither white space nor a sign is its own unsigned part. */
  lemma UnsignedOfPlain(s: string)
    requires s == [] || (!IsWhitespace(s[0]) && s[0] != '-' && s[0] != '+')
    ensures Unsigned(s) == s && !IsNegative(s)
    ensures ParseInt(s) == Magnitude(s)
  {
    assert TrimStart(s) == s;
  }

  /** A leading `-` negates what the rest parses to, and a leading `+` changes nothing. */
  lemma ParseIntSign(s: string)
    requires s == [] || (!IsWhitespace(s[0]) && s[0] != '-' && s[0] != '+')
    ensures ParseInt(['-'] + s) == (if ParseInt(s).Some? then Some(-ParseInt(s).value) else None)
    ensures ParseInt(['+'] + s) == ParseInt(s)
  {
    UnsignedOfPlain(s);
    SignedUnsigned('-', s);
    SignedUnsigned('+', s);
  }

  /** After a sign character the unsigned part is what follows it. */
  lemma SignedUnsigned(sign: char, s: string)
    requires sign == '-' || sign == '+'
    ensures Unsigned([sign] + s) == s
    ensures IsNegative([sign] + s) == (sign == '-')
  {
    var t := [sign] + s;
    assert t[0] == sign && !IsWhitespace(t[0]);
    assert TrimStart(t) == t;
    assert t[1..] == s;
  }

  /** The digit run of `ds + t` is `ds` when `t` does not start with a digit. */
  lemma {:induction false} DigitRunOfDigits(ds: string, t: string, hex: bool)
    requires AllDigits(ds, hex)
    requires t == [] || !IsDigit(t[0], hex)
    ensures DigitRun(ds + t, hex) == |ds|
    decreases |ds|
  {
    if ds != [] {
      assert (ds + t)[0] == ds[0];
      assert (ds + t)[1..] == ds[1..] + t;
      DigitRunOfDigits(ds[1..], t, hex);
    }
  }

  /** The magnitude of a run of digits followed by a non-digit is the run's value. */
  lemma MagnitudeOfDigits(u: string, ds: string, t: string)
    requires Body(u) == ds + t && |ds| > 0 && AllDigits(ds, HasHexPrefix(u))
    requires t == [] || !IsDigit(t[0], HasHexPrefix(u))
    ensures Magnitude(u) == Some(DigitsValue(ds, HasHexPrefix(u)))
  {
    var hex := HasHexPrefix(u);
    DigitRunOfDigits(ds, t, hex);
    assert Body(u)[..|ds|] == ds;
  }

  /**
   * `parseInt` of a run of decimal digits followed by anything that is not a
   * digit is the value of the run: the characters after it are ignored. The
   * one exception is a lone `0` followed by `x`, which starts a hexadecimal
   * number instead.
   */
  lemma ParseIntReadsDecimalDigits(ds: string, t: string)
    requires |ds| > 0 && AllDigits(ds, false)
    requires t == [] || !IsDigit(t[0], false)
    requires !HasHexPrefix(ds + t)
    ensures ParseInt(ds + t) == Some(DigitsValue(ds, false))
  {
    var s := ds + t;
    assert s[0] == ds[0] && IsDigit(s[0], false);
    UnsignedOfPlain(s);
    MagnitudeOfDigits(s, ds, t);
  }

  /** `parseInt` of `0x` or `0X` and a run of hexadecimal digits is the run's base-16 value. */
  lemma ParseIntReadsHexDigits(x: char, hs: string, t: string)
    requires x == 'x' || x == 'X'
    requires |hs| > 0 && AllDigits(hs, true)
    requires t == [] || !IsDigit(t[0], true)
    ensures ParseInt(['0', x] + hs + t) == Some(DigitsValue(hs, true))
  {
    var s := ['0', x] + (hs + t);
    assert ['0', x] + hs + t == s;
    HexUnsigned(x, hs + t);
    MagnitudeOfDigits(s, hs, t);
  }

  /** A string opening with `0x` is its own unsigned part, and its body is what follows the prefix. */
  lemma HexUnsigned(x: char, b: string)
    requires x == 'x' || x == 'X'
    ensures var s := ['0', x] + b;
            ParseInt(s) == Magnitude(s) && HasHexPrefix(s) && Body(s) == b
  {
    var s := ['0', x] + b;
    assert s[0] == '0' && s[1] == x && s[2..] == b;
    UnsignedOfPlain(s);
  }

  /** A string of `0` characters has value 0. */
  lemma {:induction false} ZerosValue(z: string)
    requires forall k :: 0 <= k < |z| ==> z[k] == '0'
    ensures AllDigits(z, false) && DigitsValue(z, false) == 0
    decreases |z|
  {
    if z != [] {
      ZerosValue(z[..|z| - 1]);
    }
  }

  /** Zeros in front of a digit string do not change its value. */
  lemma {:induction false} LeadingZerosValue(z: string, ds: string)
    requires forall k :: 0 <= k < |z| ==> z[k] == '0'
    requires AllDigits(ds, false)
    ensures AllDigits(z + ds, false) && DigitsValue(z + ds, false) == DigitsValue(ds, false)
    decreases |ds|
  {
    ZerosValue(z);
    if ds == [] {
      assert z + ds == z;
    } else {
      var zd := z + ds;
      assert zd[..|zd| - 1] == z + ds[..|ds| - 1];
      assert zd[|zd| - 1] == ds[|ds| - 1];
      LeadingZerosValue(z, ds[..|ds| - 1]);
    }
  }

  /**
   * The canonical rendering of `n` followed by anything that does not continue
   * the number parses back to `n`: trailing text is ignored. (`"0"` followed by
   * `x` is excluded: that is the hexadecimal prefix.)
   */
  lemma ParseIntIgnoresTail(n: int, t: string)
    requires t == [] || !IsDigit(t[0], false)
    requires n != 0 || t == [] || (t[0] != 'x' && t[0] != 'X')
    ensures ParseInt(IntToDecimal(n) + t) == Some(n)
  {
    if n < 0 {
      NegativeIgnoresTail(-n, t);
      ConcatAssociates(['-'], NatToDecimal(-n), t);
    } else {
      NaturalIgnoresTail(n, t);
    }
  }

  /** The negative case of `ParseIntIgnoresTail`. */
  lemma NegativeIgnoresTail(m: nat, t: string)
    requires m > 0
    requires t == [] || !IsDigit(t[0], false)
    ensures ParseInt(['-'] + (NatToDecimal(m) + t)) == Some(-(m as int))
  {
    NaturalMagnitude(m, t);
    SignedMagnitude('-', NatToDecimal(m) + t);
  }

  lemma ConcatAssociates(a: string, b: string, c: string)
    ensures a + b + c == a + (b + c)
  {
  }

  /** `parseInt` of a sign and an unsigned string is the string's magnitude with that sign. */
  lemma SignedMagnitude(sign: char, u: string)
    requires sign == '-' || sign == '+'
    ensures var m := Magnitude(u);
            ParseInt([sign] + u) == (if m.None? then None else Some(if sign == '-' then -(m.value as int) else m.value))
  {
    SignedUnsigned(sign, u);
  }

  /** The unsigned case of `ParseIntIgnoresTail`; the digits are also the magnitude of the string. */
  lemma NaturalIgnoresTail(m: nat, t: string)
    requires t == [] || !IsDigit(t[0], false)
    requires m != 0 || t == [] || (t[0] != 'x' && t[0] != 'X')
    ensures ParseInt(NatToDecimal(m) + t) == Some(m)
  {
    var d := NatToDecimal(m);
    NaturalMagnitude(m, t);
    assert (d + t)[0] == d[0] && IsDigit(d[0], false);
    UnsignedOfPlain(d + t);
  }

  /** The digits of `m` followed by a non-digit have magnitude `m`. */
  lemma NaturalMagnitude(m: nat, t: string)
    requires t == [] || !IsDigit(t[0], false)
    requires m != 0 || t == [] || (t[0] != 'x' && t[0] != 'X')
    ensures Magnitude(NatToDecimal(m) + t) == Some(m)
  {
    var d := NatToDecimal(m);
    NatToDecimalValue(m);
    assert !HasHexPrefix(d + t) by {
      if |d| >= 2 {
        assert (d + t)[1] == d[1] && IsDigit(d[1], false);
      } else if |d + t| >= 2 {
        assert (d + t)[1] == t[0];
        assert d[0] == '0' ==> m == 0;
      }
    }
    MagnitudeOfDigits(d + t, d, t);
  }

  /** Leading zeros are ignored: `parseInt("007")` is 7, never an octal reading. */
  lemma ParseIntIgnoresLeadingZeros(z: string, n: nat, t: string)
    requires |z| > 0 && forall k :: 0 <= k < |z| ==> z[k] == '0'
    requires t == [] || !IsDigit(t[0], false)
    ensures ParseInt(z + NatToDecimal(n) + t) == Some(n)
  {
    var d := NatToDecimal(n);
    LeadingZerosValue(z, d);
    NatToDecimalValue(n);
    assert (z + d)[1] == (if |z| > 1 then z[1] else d[0]);
    assert z + d + t == (z + d) + t;
    ParseIntReadsDecimalDigits(z + d, t);
  }

  /** A value the hexadecimal prefix selects: `parseInt("0x1A")` is 26. */
  lemma ParseIntHexExample()
    ensures ParseInt("0x1A") == Some(26)
  {
    var hs := "1A";
    assert AllDigits(hs, true);
    assert hs[..1] == "1";
    assert DigitsValue(hs, true) == 26;
    assert ['0', 'x'] + hs + "" == "0x1A";
    ParseIntReadsHexDigits('x', hs, "");
  }
}
