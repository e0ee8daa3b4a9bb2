/** String operations of PHP and JavaScript that the core relies on, stated over
    `seq<char>`: decimal conversion, PHP's `(int)` cast and truthiness, `trim`,
    prefix and substring tests, splitting on separator characters, padding and
    `htmlspecialchars`. */
module PhpText {

  predicate IsDigit(c: char) {
    '0' <= c <= '9'
  }

  predicate AllDigits(s: string) {
    forall i :: 0 <= i < |s| ==> IsDigit(s[i])
  }

  function DigitChar(d: nat): (c: char)
    requires d < 10
    ensures IsDigit(c) && c as int - '0' as int == d
  {
    ('0' as int + d) as char
  }

  /** Decimal notation of a natural number, without leading zeros. */
  function NatToString(n: nat): (s: string)
    ensures |s| >= 1 && AllDigits(s)
    ensures s[0] == '0' ==> n == 0 && s == "0"
    decreases n
  {
    if n < 10 then [DigitChar(n)] else NatToString(n / 10) + [DigitChar(n % 10)]
  }

  /** PHP's conversion of an int to a string (`(string) $i`, `"$i"`, `.`). */
  function IntToString(i: int): string {
    if i < 0 then "-" + NatToString(-i) else NatToString(i)
  }

  /** The value of a string of decimal digits. */
  function DigitsValue(s: string): nat
    requires AllDigits(s)
  {
    if s == [] then 0 else DigitsValue(s[..|s| - 1]) * 10 + (s[|s| - 1] as int - '0' as int)
  }

  lemma {:induction false} NatToStringRoundTrip(n: nat)
    ensures DigitsValue(NatToString(n)) == n
    decreases n
  {
    if n >= 10 {
      var s := NatToString(n);
      NatToStringRoundTrip(n / 10);
      assert s[..|s| - 1] == NatToString(n / 10);
    }
  }

  /** Leading zeros do not change the value of a digit string. */
  lemma {:induction false} DigitsValueLeadingZeros(k: nat, s: string)
    requires AllDigits(s)
    ensures AllDigits(Repeat('0', k) + s)
    ensures DigitsValue(Repeat('0', k) + s) == DigitsValue(s)
    decreases |s|
  {
    var t := Repeat('0', k) + s;
    if s == [] {
      assert t == Repeat('0', k);
      RepeatedZerosValue(k);
    } else {
      assert t[..|t| - 1] == Repeat('0', k) + s[..|s| - 1];
      DigitsValueLeadingZeros(k, s[..|s| - 1]);
    }
  }

  lemma {:induction false} RepeatedZerosValue(k: nat)
    ensures AllDigits(Repeat('0', k)) && DigitsValue(Repeat('0', k)) == 0
  {
    if k > 0 {
      var z := Repeat('0', k);
      assert z[..|z| - 1] == Repeat('0', k - 1);
      RepeatedZerosValue(k - 1);
    }
  }

  /** PHP's whitespace for `(int)` casts of strings. */
  predicate IsCastSpace(c: char) {
    c == ' ' || c == '\t' || c == '\n' || c == '\r' || c == '\U{B}' || c == '\U{C}'
  }

  /** The longest prefix of `s` made of decimal digits. */
  function DigitPrefix(s: string): (p: string)
    ensures p <= s && AllDigits(p)
    ensures |p| < |s| ==> !IsDigit(s[|p|])
  {
    if s != [] && IsDigit(s[0]) then [s[0]] + DigitPrefix(s[1..]) else []
  }

  function Pow10(k: nat): (p: nat)
    ensures p >= 1
  {
    if k == 0 then 1 else 10 * Pow10(k - 1)
  }

  /** `m` times ten to the power `e`, rounded down when `e` is negative
      (dividing by ten `k` times rounds as dividing by `10^k` once). */
  function Scaled(m: nat, e: int): nat
    decreases if e < 0 then 0 - e else e
  {
    if e == 0 then m else if e > 0 then 10 * Scaled(m, e - 1) else Scaled(m, e + 1) / 10
  }

  predicate IsExponentMark(c: char) {
    c == 'e' || c == 'E'
  }

  /** The exponent at the start of `s`: `e` or `E`, an optional sign and at
      least one digit; 0 when `s` does not start with one. */
  function ExponentPart(s: string): int {
    if |s| >= 2 && IsExponentMark(s[0]) && IsDigit(s[1]) then DigitsValue(DigitPrefix(s[1..]))
    else if |s| >= 3 && IsExponentMark(s[0]) && s[1] == '-' && IsDigit(s[2]) then 0 - DigitsValue(DigitPrefix(s[2..]))
    else if |s| >= 3 && IsExponentMark(s[0]) && s[1] == '+' && IsDigit(s[2]) then DigitsValue(DigitPrefix(s[2..]))
    else 0
  }

  /** The magnitude of the unsigned number at the start of `s`, truncated to
      an integer: digits, then optionally a point and more digits (a number
      needs a digit before the point or right after it), then optionally an
      exponent; 0 when `s` does not start with a number. */
  function UnsignedPrefixValue(s: string): nat {
    var whole := DigitPrefix(s);
    var rest := s[|whole|..];
    if rest != [] && rest[0] == '.' && (whole != [] || (|rest| >= 2 && IsDigit(rest[1]))) then
      var fraction := DigitPrefix(rest[1..]);
      assert AllDigits(whole + fraction);
      Scaled(DigitsValue(whole + fraction), ExponentPart(rest[1 + |fraction|..]) - |fraction|)
    else Scaled(DigitsValue(whole), ExponentPart(rest))
  }

  /** PHP's `(int) $string`: leading whitespace, an optional sign, then the
      longest numeric prefix, read with its fraction and exponent and
      truncated toward zero; 0 when there is none. */
  function PhpIntCast(s: string): int {
    if s != [] && IsCastSpace(s[0]) then PhpIntCast(s[1..])
    else if s != [] && s[0] == '-' then 0 - UnsignedPrefixValue(s[1..])
    else if s != [] && s[0] == '+' then UnsignedPrefixValue(s[1..])
    else UnsignedPrefixValue(s)
  }

  /** Exponent notation is read: `(int) "3e1"` is 30, not 3. */
  lemma PhpIntCastExponent()
    ensures PhpIntCast("3e1") == 30
  {
    assert DigitPrefix("3e1") == "3" by { assert "3e1"[1..] == "e1"; }
    assert "3e1"[1..] == "e1";
    assert ExponentPart("e1") == 1 by { assert "e1"[1..] == "1"; assert DigitPrefix("1") == "1"; }
    assert Scaled(3, 1) == 30;
  }

  /** A fraction is cut off toward zero: `(int) "-1.9"` is -1. */
  lemma PhpIntCastFraction()
    ensures PhpIntCast("-1.9") == -1
  {
    var t := "1.9";
    assert "-1.9"[1..] == t;
    assert DigitPrefix(t) == "1" by { assert t[1..] == ".9"; }
    assert t[1..] == ".9" && ".9"[1..] == "9";
    assert DigitPrefix("9") == "9";
    assert ".9"[2..] == [];
    assert "1" + "9" == "19" && DigitsValue("19") == 19 by { assert "19"[..1] == "1"; }
    assert Scaled(19, -1) == 1;
  }

  lemma PhpIntCastOfDecimal(n: nat)
    ensures PhpIntCast(NatToString(n)) == n
  {
    var s := NatToString(n);
    assert DigitPrefix(s) == s by { DigitPrefixOfDigits(s); }
    assert s[|s|..] == [];
    NatToStringRoundTrip(n);
  }

  lemma {:induction false} DigitPrefixOfDigits(s: string)
    requires AllDigits(s)
    ensures DigitPrefix(s) == s
  {
    if s != [] {
      DigitPrefixOfDigits(s[1..]);
    }
  }

  lemma PhpIntCastOfInt(i: int)
    ensures PhpIntCast(IntToString(i)) == i
  {
    if i < 0 {
      var s := NatToString(-i);
      assert ("-" + s)[1..] == s;
      DigitPrefixOfDigits(s);
      assert s[|s|..] == [];
      NatToStringRoundTrip(-i);
    } else {
      PhpIntCastOfDecimal(i);
    }
  }

  /** PHP truthiness of a string: only "" and "0" are falsy. */
  predicate IsFalsy(s: string) {
    s == "" || s == "0"
  }

  /** The characters PHP's `trim` removes by default. */
  predicate IsTrimChar(c: char) {
    c == ' ' || c == '\t' || c == '\n' || c == '\r' || c == '\0' || c == '\U{B}'
  }

  function TrimLeft(s: string): (r: string)
    ensures r != [] ==> !IsTrimChar(r[0])
    ensures |r| <= |s| && r == s[|s| - |r|..]
  {
    if s != [] && IsTrimChar(s[0]) then TrimLeft(s[1..]) else s
  }

  function TrimRight(s: string): (r: string)
    ensures r != [] ==> !IsTrimChar(r[|r| - 1])
    ensures r <= s
  {
    if s != [] && IsTrimChar(s[|s| - 1]) then TrimRight(s[..|s| - 1]) else s
  }

  /** A string with no trim character at either end. */
  predicate IsTrimmed(s: string) {
    s != [] ==> !IsTrimChar(s[0]) && !IsTrimChar(s[|s| - 1])
  }

  /** PHP's `trim($s)`. */
  function Trim(s: string): (r: string)
    ensures IsTrimmed(r)
  {
    var l := TrimLeft(s);
    var r := TrimRight(l);
    assert r != [] ==> r[0] == l[0];
    r
  }

  lemma TrimOfTrimmed(s: string)
    requires IsTrimmed(s)
    ensures Trim(s) == s
  {
  }

  predicate StartsWith(s: string, prefix: string) {
    |prefix| <= |s| && s[..|prefix|] == prefix
  }

  /** JavaScript's `s.includes(sub)` and PHP's `str_contains`. */
  predicate Contains(s: string, sub: string) {
    exists i :: 0 <= i <= |s| && OccursAt(s, sub, i)
  }

  predicate OccursAt(s: string, sub: string, i: nat) {
    i + |sub| <= |s| && s[i..i + |sub|] == sub
  }

  function ToUpperChar(c: char): char {
    if 'a' <= c <= 'z' then (c as int - 32) as char else c
  }

  /** `toUpperCase` on the ASCII letters. */
  function ToUpperAscii(s: string): (r: string)
    ensures |r| == |s|
    ensures forall i :: 0 <= i < |s| ==> r[i] == ToUpperChar(s[i])
  {
    if s == [] then [] else [ToUpperChar(s[0])] + ToUpperAscii(s[1..])
  }

  /** `n` copies of `c` (PHP's `str_repeat`). */
  function Repeat(c: char, n: nat): (r: string)
    ensures |r| == n && forall i :: 0 <= i < n ==> r[i] == c
  {
    if n == 0 then [] else [c] + Repeat(c, n - 1)
  }

  /** PHP's `str_pad($s, $n, $c, STR_PAD_LEFT)`. */
  function PadLeft(s: string, n: nat, c: char): (r: string)
    ensures |r| == if |s| < n then n else |s|
    ensures r == Repeat(c, |r| - |s|) + s
  {
    if |s| < n then Repeat(c, n - |s|) + s else Repeat(c, 0) + s
  }

  /** Splits `s` at every character for which `isSep` holds (a regular
      expression of single-character alternatives given to `preg_split`). */
  function Split(s: string, isSep: char -> bool): (parts: seq<string>)
    ensures |parts| >= 1
    ensures forall k, i :: 0 <= k < |parts| && 0 <= i < |parts[k]| ==> !isSep(parts[k][i])
    decreases |s|
  {
    if s == [] then [""]
    else
      var rest := Split(s[1..], isSep);
      if isSep(s[0]) then [""] + rest
      else [[s[0]] + rest[0]] + rest[1..]
  }

  /** The number of separator characters in `s`. */
  function CountSeps(s: string, isSep: char -> bool): nat {
    if s == [] then 0 else (if isSep(s[0]) then 1 else 0) + CountSeps(s[1..], isSep)
  }

  lemma {:induction false} SplitCount(s: string, isSep: char -> bool)
    ensures |Split(s, isSep)| == CountSeps(s, isSep) + 1
    decreases |s|
  {
    if s != [] {
      SplitCount(s[1..], isSep);
    }
  }

  /** Gluing the pieces back with the separators they were cut at gives `s`
      back: the pieces lose no character but the separators. */
  function JoinWith(parts: seq<string>, seps: string): string
    requires |parts| == |seps| + 1
  {
    if |seps| == 0 then parts[0] else parts[0] + [seps[0]] + JoinWith(parts[1..], seps[1..])
  }

  function SepsOf(s: string, isSep: char -> bool): (r: string)
    ensures |r| == CountSeps(s, isSep)
  {
    if s == [] then [] else if isSep(s[0]) then [s[0]] + SepsOf(s[1..], isSep) else SepsOf(s[1..], isSep)
  }

  lemma {:induction false} SplitJoin(s: string, isSep: char -> bool)
    ensures |Split(s, isSep)| == |SepsOf(s, isSep)| + 1
    ensures JoinWith(Split(s, isSep), SepsOf(s, isSep)) == s
    decreases |s|
  {
    SplitCount(s, isSep);
    if s != [] {
      SplitJoin(s[1..], isSep);
      var rest := Split(s[1..], isSep);
      var seps := SepsOf(s[1..], isSep);
      if !isSep(s[0]) {
        var parts := Split(s, isSep);
        assert parts[0] == [s[0]] + rest[0];
        assert parts[1..] == rest[1..];
        if |seps| == 0 {
          assert JoinWith(parts, seps) == [s[0]] + rest[0];
        } else {
          assert JoinWith(parts, seps) == [s[0]] + rest[0] + [seps[0]] + JoinWith(rest[1..], seps[1..]);
        }
      }
    }
  }

  /** A string without separators is a single piece. */
  lemma {:induction false} SplitNoSep(s: string, isSep: char -> bool)
    requires forall i :: 0 <= i < |s| ==> !isSep(s[i])
    ensures Split(s, isSep) == [s]
    decreases |s|
  {
    if s != [] {
      SplitNoSep(s[1..], isSep);
      assert [s[0]] + s[1..] == s;
    }
  }

  /** Two separator-free strings around one separator give two pieces. */
  lemma {:induction false} SplitAround(x: string, c: char, y: string, isSep: char -> bool)
    requires forall i :: 0 <= i < |x| ==> !isSep(x[i])
    requires forall i :: 0 <= i < |y| ==> !isSep(y[i])
    requires isSep(c)
    ensures Split(x + [c] + y, isSep) == [x, y]
    decreases |x|
  {
    if x == [] {
      assert x + [c] + y == [c] + y;
      assert (x + [c] + y)[1..] == y;
      SplitNoSep(y, isSep);
    } else {
      SplitAround(x[1..], c, y, isSep);
      assert (x + [c] + y)[1..] == x[1..] + [c] + y;
      assert [x[0]] + x[1..] == x;
    }
  }

  /** Concatenation of strings, with `sep` between neighbours (`implode`). */
  function Implode(sep: string, parts: seq<string>): string {
    if parts == [] then ""
    else if |parts| == 1 then parts[0]
    else parts[0] + sep + Implode(sep, parts[1..])
  }

  /** PHP's `htmlspecialchars` with its default flags
      (ENT_QUOTES | ENT_SUBSTITUTE | ENT_HTML401, double encoding on). */
  function EscapeChar(c: char): string {
    if c == '&' then "&amp;"
    else if c == '"' then "&quot;"
    else if c == '\'' then "&#039;"
    else if c == '<' then "&lt;"
    else if c == '>' then "&gt;"
    else [c]
  }

  function HtmlEscape(s: string): string {
    if s == [] then "" else EscapeChar(s[0]) + HtmlEscape(s[1..])
  }

  /** Markup characters that may not appear in an escaped attribute or text. */
  predicate IsMarkup(c: char) {
    c == '<' || c == '>' || c == '"' || c == '\''
  }

  lemma {:induction false} HtmlEscapeNoMarkup(s: string)
    ensures forall i :: 0 <= i < |HtmlEscape(s)| ==> !IsMarkup(HtmlEscape(s)[i])
  {
    if s != [] {
      HtmlEscapeNoMarkup(s[1..]);
      var e := EscapeChar(s[0]);
      assert forall i :: 0 <= i < |e| ==> !IsMarkup(e[i]);
    }
  }

  lemma {:induction false} HtmlEscapeIdentity(s: string)
    requires forall i :: 0 <= i < |s| ==> !IsMarkup(s[i]) && s[i] != '&'
    ensures HtmlEscape(s) == s
  {
    if s != [] {
      HtmlEscapeIdentity(s[1..]);
    }
  }

  /** Reading an escaped text back: the five entities `htmlspecialchars`
      writes, each to its character. */
  function HtmlUnescape(t: string): string
    decreases |t|
  {
    if t == [] then ""
    else if t[0] != '&' then [t[0]] + HtmlUnescape(t[1..])
    else if |t| >= 5 && t[..5] == "&amp;" then "&" + HtmlUnescape(t[5..])
    else if |t| >= 6 && t[..6] == "&quot;" then "\"" + HtmlUnescape(t[6..])
    else if |t| >= 6 && t[..6] == "&#039;" then "'" + HtmlUnescape(t[6..])
    else if |t| >= 4 && t[..4] == "&lt;" then "<" + HtmlUnescape(t[4..])
    else if |t| >= 4 && t[..4] == "&gt;" then ">" + HtmlUnescape(t[4..])
    else "&" + HtmlUnescape(t[1..])
  }

  lemma UnescapeChar(c: char, u: string)
    ensures HtmlUnescape(EscapeChar(c) + u) == [c] + HtmlUnescape(u)
  {
    if c == '&' {
      UnescapeAmp(u);
    } else if c == '"' {
      UnescapeQuot(u);
    } else if c == '\'' {
      UnescapeApos(u);
    } else if c == '<' {
      UnescapeLt(u);
    } else if c == '>' {
      UnescapeGt(u);
    } else {
      var t := EscapeChar(c) + u;
      assert t[0] == c && t[1..] == u;
    }
  }

  lemma UnescapeAmp(u: string)
    ensures HtmlUnescape("&amp;" + u) == "&" + HtmlUnescape(u)
  {
    var t := "&amp;" + u;
    assert t[..5] == "&amp;" && t[5..] == u;
  }

  lemma UnescapeQuot(u: string)
    ensures HtmlUnescape("&quot;" + u) == "\"" + HtmlUnescape(u)
  {
    var t := "&quot;" + u;
    assert t[..6] == "&quot;" && t[6..] == u;
    assert t[..5][1] != "&amp;"[1];
  }

  lemma UnescapeApos(u: string)
    ensures HtmlUnescape("&#039;" + u) == "'" + HtmlUnescape(u)
  {
    var t := "&#039;" + u;
    assert t[..6] == "&#039;" && t[6..] == u;
    assert t[..5][1] != "&amp;"[1] && t[..6][1] != "&quot;"[1];
  }

  lemma UnescapeLt(u: string)
    ensures HtmlUnescape("&lt;" + u) == "<" + HtmlUnescape(u)
  {
    var t := "&lt;" + u;
    assert t[..4] == "&lt;" && t[4..] == u;
    assert |t| >= 5 ==> t[..5][1] != "&amp;"[1];
    assert |t| >= 6 ==> t[..6][1] != "&quot;"[1] && t[..6][1] != "&#039;"[1];
  }

  lemma UnescapeGt(u: string)
    ensures HtmlUnescape("&gt;" + u) == ">" + HtmlUnescape(u)
  {
    var t := "&gt;" + u;
    assert t[..4] == "&gt;" && t[4..] == u;
    assert |t| >= 5 ==> t[..5][1] != "&amp;"[1];
    assert |t| >= 6 ==> t[..6][1] != "&quot;"[1] && t[..6][1] != "&#039;"[1];
    assert t[..4][1] != "&lt;"[1];
  }

  /** Escaping loses nothing: the escaped text reads back as the original. */
  lemma {:induction false} HtmlEscapeRoundTrip(s: string)
    ensures HtmlUnescape(HtmlEscape(s)) == s
  {
    if s != [] {
      HtmlEscapeRoundTrip(s[1..]);
      UnescapeChar(s[0], HtmlEscape(s[1..]));
      assert [s[0]] + s[1..] == s;
    }
  }
}
