/**
 * The .NET string and number primitives the application relies on:
 * `string.Trim`, `string.IsNullOrWhiteSpace`, `string.ToLower`,
 * `string.Contains`, `int.ToString`, `int.TryParse`, `decimal.TryParse`,
 * C# unchecked 32-bit arithmetic, and an ordinal string order that stands
 * for the collation used by `ORDER BY` and `OrderBy`.
 */
module Text {
  import opened Wrappers

  // ---------------------------------------------------------------------
  // 32-bit integers

  const Int32Min: int := -0x8000_0000
  const Int32Max: int := 0x7FFF_FFFF

  predicate IsInt32(n: int) {
    Int32Min <= n <= Int32Max
  }

  /** C# unchecked `int` arithmetic: the result is taken modulo 2^32 into the Int32 range. */
  function Wrap32(n: int): (r: int)
    ensures IsInt32(r)
    ensures IsInt32(n) ==> r == n
    ensures n == Int32Max + 1 ==> r == Int32Min
  {
    (n - Int32Min) % 0x1_0000_0000 + Int32Min
  }

  // ---------------------------------------------------------------------
  // White space and trimming

  /** `char.IsWhiteSpace`: the Unicode space separators, line and paragraph separators and the C0/C1 blanks. */
  predicate IsWhiteSpace(c: char) {
    c == ' ' || ('\t' <= c <= '\r') || c == '\U{0085}' || c == '\U{00A0}' || c == '\U{1680}'
    || ('\U{2000}' <= c <= '\U{200A}') || c == '\U{2028}' || c == '\U{2029}'
    || c == '\U{202F}' || c == '\U{205F}' || c == '\U{3000}'
  }

  /** The white space that `NumberStyles.AllowLeadingWhite`/`AllowTrailingWhite` skip: U+0009..U+000D and U+0020. */
  predicate IsNumberWhite(c: char) {
    c == ' ' || ('\t' <= c <= '\r')
  }

  /** `string.IsNullOrWhiteSpace` on a non-null string (a WPF text box never holds null). */
  predicate IsBlank(s: string) {
    forall i :: 0 <= i < |s| ==> IsWhiteSpace(s[i])
  }

  /** Drops the longest prefix of characters satisfying `white`. */
  function TrimStartBy(s: string, white: char -> bool): string
    decreases |s|
  {
    if s != [] && white(s[0]) then TrimStartBy(s[1..], white) else s
  }

  /** Drops the longest suffix of characters satisfying `white`. */
  function TrimEndBy(s: string, white: char -> bool): string
    decreases |s|
  {
    if s != [] && white(s[|s| - 1]) then TrimEndBy(s[..|s| - 1], white) else s
  }

  function TrimBy(s: string, white: char -> bool): string {
    TrimEndBy(TrimStartBy(s, white), white)
  }

  /** `string.Trim()`. */
  function Trim(s: string): string {
    TrimBy(s, IsWhiteSpace)
  }

  /** Trimming the front drops exactly a prefix of white characters, and stops at one that is not white. */
  lemma {:induction false} TrimStartDropsWhite(s: string, white: char -> bool)
    ensures |TrimStartBy(s, white)| <= |s| && TrimStartBy(s, white) == s[|s| - |TrimStartBy(s, white)|..]
    ensures forall i :: 0 <= i < |s| - |TrimStartBy(s, white)| ==> white(s[i])
    ensures TrimStartBy(s, white) == [] || !white(TrimStartBy(s, white)[0])
    decreases |s|
  {
    if s != [] && white(s[0]) {
      TrimStartDropsWhite(s[1..], white);
      assert forall i :: 1 <= i < |s| ==> s[i] == s[1..][i - 1];
    }
  }

  /** Trimming the back drops exactly a suffix of white characters, and stops at one that is not white. */
  lemma {:induction false} TrimEndDropsWhite(s: string, white: char -> bool)
    ensures |TrimEndBy(s, white)| <= |s| && TrimEndBy(s, white) == s[..|TrimEndBy(s, white)|]
    ensures forall i :: |TrimEndBy(s, white)| <= i < |s| ==> white(s[i])
    ensures TrimEndBy(s, white) == [] || !white(TrimEndBy(s, white)[|TrimEndBy(s, white)| - 1])
    decreases |s|
  {
    if s != [] && white(s[|s| - 1]) {
      TrimEndDropsWhite(s[..|s| - 1], white);
    }
  }

  /** Trimming a string made only of white characters leaves nothing. */
  lemma {:induction false} TrimStartAllWhite(s: string, white: char -> bool)
    requires forall i :: 0 <= i < |s| ==> white(s[i])
    ensures TrimStartBy(s, white) == []
    decreases |s|
  {
    if s != [] {
      TrimStartAllWhite(s[1..], white);
    }
  }

  /** A string is blank exactly when trimming leaves nothing. */
  lemma BlankIffTrimmedEmpty(s: string)
    ensures IsBlank(s) <==> Trim(s) == ""
  {
    if IsBlank(s) {
      TrimStartAllWhite(s, IsWhiteSpace);
    } else {
      var front := TrimStartBy(s, IsWhiteSpace);
      TrimStartDropsWhite(s, IsWhiteSpace);
      TrimEndDropsWhite(front, IsWhiteSpace);
      var i :| 0 <= i < |s| && !IsWhiteSpace(s[i]);
      assert i >= |s| - |front|;
      var k := i - (|s| - |front|);
      assert front[k] == s[i];
      assert k < |Trim(s)|;
    }
  }

  /** Trimming a string that neither starts nor ends with white space changes nothing. */
  lemma TrimByNoop(s: string, white: char -> bool)
    requires s != [] && !white(s[0]) && !white(s[|s| - 1])
    ensures TrimBy(s, white) == s
  {
  }

  // ---------------------------------------------------------------------
  // Case folding and substring search

  /**
   * `char.ToLower` for Basic Latin, Latin-1 and the basic Cyrillic block;
   * every other character is left as it is.
   */
  function LowerChar(c: char): char {
    if 'A' <= c <= 'Z' then (c as int + 32) as char
    else if '\U{00C0}' <= c <= '\U{00DE}' && c != '\U{00D7}' then (c as int + 32) as char
    else if '\U{0410}' <= c <= '\U{042F}' then (c as int + 32) as char
    else if '\U{0400}' <= c <= '\U{040F}' then (c as int + 80) as char
    else c
  }

  /** `string.ToLower()`. */
  function ToLower(s: string): (r: string)
    ensures |r| == |s|
    ensures forall i :: 0 <= i < |s| ==> r[i] == LowerChar(s[i])
  {
    seq(|s|, i requires 0 <= i < |s| => LowerChar(s[i]))
  }

  /** `StringComparison.OrdinalIgnoreCase` equality, as equality after case folding. */
  predicate EqualsIgnoreCase(a: string, b: string) {
    ToLower(a) == ToLower(b)
  }

  /** `sub` occurs in `s` starting at position `i`. */
  predicate OccursAt(s: string, sub: string, i: int) {
    0 <= i <= |s| - |sub| && s[i..i + |sub|] == sub
  }

  /** `s.Contains(sub)` with ordinal comparison: `sub` occurs in `s` at some position. */
  function Contains(s: string, sub: string): (r: bool)
    ensures r <==> exists i :: OccursAt(s, sub, i)
    decreases |s|
  {
    if |sub| > |s| then false
    else if s[..|sub|] == sub then assert OccursAt(s, sub, 0); true
    else
      var rest := Contains(s[1..], sub);
      assert rest ==> exists i :: OccursAt(s, sub, i) by {
        if rest {
          var j :| OccursAt(s[1..], sub, j);
          assert s[j + 1..j + 1 + |sub|] == s[1..][j..j + |sub|];
          assert OccursAt(s, sub, j + 1);
        }
      }
      assert (exists i :: OccursAt(s, sub, i)) ==> rest by {
        if exists i :: OccursAt(s, sub, i) {
          var i :| OccursAt(s, sub, i);
          assert i != 0;
          assert s[1..][i - 1..i - 1 + |sub|] == s[i..i + |sub|];
          assert OccursAt(s[1..], sub, i - 1);
        }
      }
      rest
  }

  /** `s.Contains(sub, StringComparison.OrdinalIgnoreCase)`. */
  predicate ContainsIgnoreCase(s: string, sub: string) {
    Contains(ToLower(s), ToLower(sub))
  }

  // ---------------------------------------------------------------------
  // Decimal digits

  predicate IsDigit(c: char) {
    '0' <= c <= '9'
  }

  predicate AllDigits(s: string) {
    forall i :: 0 <= i < |s| ==> IsDigit(s[i])
  }

  function DigitChar(d: nat): (c: char)
    requires d < 10
    ensures IsDigit(c) && c as int - '0' as int == d
  {
    ('0' as int + d) as char
  }

  /** The number a string of decimal digits denotes (most significant digit first). */
  function DigitsValue(s: string): nat
    requires AllDigits(s)
    decreases |s|
  {
    if s == [] then 0 else DigitsValue(s[..|s| - 1]) * 10 + (s[|s| - 1] as int - '0' as int)
  }

  /** The value of the digits after a decimal separator: `0.d1d2…`. */
  function FractionValue(s: string): (r: real)
    requires AllDigits(s)
    ensures 0.0 <= r < 1.0
    decreases |s|
  {
    if s == [] then 0.0 else ((s[0] as int - '0' as int) as real + FractionValue(s[1..])) / 10.0
  }

  /** The decimal digits of `n`, without leading zeros. */
  function NatToString(n: nat): (s: string)
    ensures |s| >= 1 && AllDigits(s) && DigitsValue(s) == n
    ensures |s| > 1 ==> s[0] != '0'
    decreases n
  {
    if n < 10 then [DigitChar(n)]
    else
      var front := NatToString(n / 10);
      var s := front + [DigitChar(n % 10)];
      assert s[..|s| - 1] == front;
      s
  }

  /** `int.ToString()`: a minus sign for negative numbers, then the digits. */
  function IntToString(n: int): (s: string)
    ensures s != [] && (s[0] == '-' || IsDigit(s[0])) && IsDigit(s[|s| - 1])
    ensures forall i :: 0 < i < |s| ==> IsDigit(s[i])
  {
    if n < 0 then "-" + NatToString(-n) else NatToString(n)
  }

  /** `int.TryParse(s, out v)` with `NumberStyles.Integer`: `None` when it returns false. */
  function TryParseInt32(s: string): (r: Option<int>)
    ensures r.Some? ==> IsInt32(r.value)
  {
    var t := TrimBy(s, IsNumberWhite);
    if t != [] && (t[0] == '-' || t[0] == '+') then
      var body := t[1..];
      if body != [] && AllDigits(body) then
        var v: int := if t[0] == '-' then -(DigitsValue(body) as int) else DigitsValue(body);
        if IsInt32(v) then Some(v) else None
      else None
    else if t != [] && AllDigits(t) && IsInt32(DigitsValue(t)) then Some(DigitsValue(t))
    else None
  }

  /** What `int.ToString` writes, `int.TryParse` reads back. */
  lemma {:induction false} ParseIntToString(n: int)
    requires IsInt32(n)
    ensures TryParseInt32(IntToString(n)) == Some(n)
  {
    var s := IntToString(n);
    TrimByNoop(s, IsNumberWhite);
    if n < 0 {
      assert s[1..] == NatToString(-n);
    }
  }

  /** A parsed integer has a fixed text: no value is read from two different canonical spellings. */
  lemma IntToStringInjective(a: int, b: int)
    requires IntToString(a) == IntToString(b)
    ensures a == b
  {
    if IsInt32(a) && IsInt32(b) {
      ParseIntToString(a);
      ParseIntToString(b);
    } else {
      var s := IntToString(a);
      if a < 0 {
        assert b < 0 by { assert s[0] == '-'; }
        assert s[1..] == NatToString(-a) == NatToString(-b);
      } else {
        assert b >= 0 by { assert IsDigit(s[0]); }
      }
    }
  }

  /** Largest magnitude of a .NET `decimal` (2^96 - 1). */
  const DecimalMax: int := 79228162514264337593543950335

  /** Position of the first `c` in `s`, if any. */
  function IndexOf(s: string, c: char): (r: Option<nat>)
    ensures r.Some? ==> r.value < |s|
    ensures r.None? ==> c !in s
    decreases |s|
  {
    if s == [] then None
    else if s[0] == c then Some(0)
    else match IndexOf(s[1..], c)
      case None => None
      case Some(k) => Some(k + 1)
  }

  /** `IndexOf` finds the first occurrence. */
  lemma {:induction false} IndexOfFirst(s: string, c: char)
    ensures IndexOf(s, c).Some? ==> s[IndexOf(s, c).value] == c && c !in s[..IndexOf(s, c).value]
    decreases |s|
  {
    if s != [] && s[0] != c {
      IndexOfFirst(s[1..], c);
      if IndexOf(s[1..], c).Some? {
        var k := IndexOf(s[1..], c).value;
        assert s[..k + 1] == [s[0]] + s[1..][..k];
      }
    }
  }

  /**
   * The value of `digits[<sep>digits]` read from the left, with `whole` the value
   * of the digits already read and `any` whether there was one: at least one
   * digit in all, and only digits after the separator.
   */
  function UnsignedDecimal(body: string, sep: char, whole: nat, any: bool): (r: Option<real>)
    ensures r.Some? ==> r.value >= 0.0
    decreases |body|
  {
    if body == [] then (if any then Some(whole as real) else None)
    else if IsDigit(body[0]) then UnsignedDecimal(body[1..], sep, whole * 10 + (body[0] as int - '0' as int), true)
    else if body[0] == sep then
      var fraction := body[1..];
      if AllDigits(fraction) && (any || fraction != []) then Some(whole as real + FractionValue(fraction)) else None
    else None
  }

  predicate IsSign(c: char) {
    c == '-' || c == '+'
  }

  /**
   * `decimal.TryParse(s, out v)` (`NumberStyles.Number`) for a culture whose
   * decimal separator is `sep`: surrounding number white space, one sign either
   * leading (directly before the digits) or trailing (white space may come
   * before it), digits with at most one separator, and the range of `decimal`.
   */
  function TryParseDecimal(s: string, sep: char): (r: Option<real>)
    ensures r.Some? ==> -(DecimalMax as real) <= r.value <= DecimalMax as real
  {
    var t := TrimBy(s, IsNumberWhite);
    var leading := t != [] && IsSign(t[0]);
    var trailing := !leading && t != [] && IsSign(t[|t| - 1]);
    var body := if leading then t[1..] else if trailing then TrimEndBy(t[..|t| - 1], IsNumberWhite) else t;
    var negative := (leading && t[0] == '-') || (trailing && t[|t| - 1] == '-');
    match UnsignedDecimal(body, sep, 0, false)
    case None => None
    case Some(m) =>
      var v := if negative then -m else m;
      if -(DecimalMax as real) <= v <= DecimalMax as real then Some(v) else None
  }

  function Pow10(n: nat): (r: nat)
    ensures r >= 1
  {
    if n == 0 then 1 else 10 * Pow10(n - 1)
  }

  /** A leading digit weighs ten to the power of the digits after it. */
  lemma {:induction false} DigitsValueCons(c: char, t: string)
    requires IsDigit(c) && AllDigits(t)
    ensures DigitsValue([c] + t) == (c as int - '0' as int) * Pow10(|t|) + DigitsValue(t)
    decreases |t|
  {
    var u := [c] + t;
    if t != [] {
      var front := t[..|t| - 1];
      assert u[..|u| - 1] == [c] + front;
      DigitsValueCons(c, front);
      var d := c as int - '0' as int;
      assert DigitsValue(u) == (d * Pow10(|front|) + DigitsValue(front)) * 10 + (t[|t| - 1] as int - '0' as int);
      assert (d * Pow10(|front|)) * 10 == d * Pow10(|t|);
    } else {
      assert u[..0] == [];
    }
  }

  lemma ShiftArith(w: int, d: int, q: int, p: int, rest: int, v: int)
    requires p == 10 * q && v == d * q + rest
    ensures (w * 10 + d) * q + rest == w * p + v
  {
    assert (w * 10 + d) * q == w * (10 * q) + d * q;
  }

  /** Moving the first digit of `body` into `whole` keeps `whole` followed by `body` the same number. */
  lemma ShiftDigit(whole: nat, body: string)
    requires body != [] && AllDigits(body)
    ensures (whole * 10 + (body[0] as int - '0' as int)) * Pow10(|body| - 1) + DigitsValue(body[1..])
         == whole * Pow10(|body|) + DigitsValue(body)
  {
    var t := body[1..];
    assert body == [body[0]] + t;
    DigitsValueCons(body[0], t);
    ShiftArith(whole, body[0] as int - '0' as int, Pow10(|t|), Pow10(|body|), DigitsValue(t), DigitsValue(body));
  }

  /** Reading only digits after `whole` appends them to it in base ten. */
  lemma {:induction false} UnsignedDigits(body: string, sep: char, whole: nat, any: bool)
    requires AllDigits(body) && (any || body != [])
    ensures UnsignedDecimal(body, sep, whole, any) == Some((whole * Pow10(|body|) + DigitsValue(body)) as real)
    decreases |body|
  {
    if body != [] {
      UnsignedDigits(body[1..], sep, whole * 10 + (body[0] as int - '0' as int), true);
      ShiftDigit(whole, body);
    }
  }

  /** A string of decimal digits, within the range of `decimal`, reads as its integer value. */
  lemma DigitsParse(s: string, sep: char)
    requires s != [] && AllDigits(s) && DigitsValue(s) <= DecimalMax
    ensures TryParseDecimal(s, sep) == Some(DigitsValue(s) as real)
  {
    UnsignedDigits(s, sep, 0, false);
    TrimByNoop(s, IsNumberWhite);
  }

  /** A minus sign before or after such digits reads as their value negated. */
  lemma NegatedDigitsParse(s: string, sep: char)
    requires s != [] && AllDigits(s) && DigitsValue(s) <= DecimalMax
    ensures TryParseDecimal("-" + s, sep) == Some(-(DigitsValue(s) as real))
    ensures TryParseDecimal(s + "-", sep) == Some(-(DigitsValue(s) as real))
  {
    UnsignedDigits(s, sep, 0, false);
    var lead := "-" + s;
    TrimByNoop(lead, IsNumberWhite);
    assert lead[1..] == s;
    var trail := s + "-";
    TrimByNoop(trail, IsNumberWhite);
    assert trail[0] == s[0] && trail[..|trail| - 1] == s;
  }

  /** A sign may trail the number. */
  lemma TrailingSignAccepted()
    ensures TryParseDecimal("0-", ',') == Some(0.0)
  {
    assert TrimStartBy("0-", IsNumberWhite) == "0-";
    assert TrimEndBy("0-", IsNumberWhite) == "0-";
    assert "0-"[..1] == "0" && "0"[1..] == [];
  }

  /** White space may come between the digits and a trailing sign. */
  lemma SpacedTrailingSignAccepted()
    ensures TryParseDecimal("12,5 -", ',') == Some(-12.5)
  {
    var t := "12,5 -";
    assert TrimStartBy(t, IsNumberWhite) == t;
    assert TrimEndBy(t, IsNumberWhite) == t;
    assert t[..5] == "12,5 " && "12,5 "[..4] == "12,5";
    assert TrimEndBy("12,5 ", IsNumberWhite) == "12,5";
    assert "12,5"[1..] == "2,5" && "2,5"[1..] == ",5" && ",5"[1..] == "5";
    assert UnsignedDecimal("12,5", ',', 0, false) == Some(12.5);
  }

  /** A number with a sign at both ends is rejected. */
  lemma TwoSignsRejected()
    ensures TryParseDecimal("-5-", ',') == None
  {
    var t := "-5-";
    assert TrimStartBy(t, IsNumberWhite) == t;
    assert TrimEndBy(t, IsNumberWhite) == t;
    assert t[1..] == "5-" && "5-"[1..] == "-";
  }

  // ---------------------------------------------------------------------
  // Ordinal string order

  /** Lexicographic order on character codes (a prefix comes first). */
  predicate LexLe(a: string, b: string)
    decreases |a|
  {
    a == [] || (b != [] && (a[0] < b[0] || (a[0] == b[0] && LexLe(a[1..], b[1..]))))
  }

  lemma {:induction false} LexLeTotal(a: string, b: string)
    ensures LexLe(a, b) || LexLe(b, a)
    decreases |a|
  {
    if a != [] && b != [] && a[0] == b[0] {
      LexLeTotal(a[1..], b[1..]);
    }
  }

  lemma {:induction false} LexLeTransitive(a: string, b: string, c: string)
    requires LexLe(a, b) && LexLe(b, c)
    ensures LexLe(a, c)
    decreases |a|
  {
    if a != [] && a[0] == b[0] && b[0] == c[0] {
      LexLeTransitive(a[1..], b[1..], c[1..]);
    }
  }

  lemma {:induction false} LexLeAntisymmetric(a: string, b: string)
    ensures LexLe(a, b) && LexLe(b, a) ==> a == b
    decreases |a|
  {
    if a != [] && b != [] {
      LexLeAntisymmetric(a[1..], b[1..]);
      assert a == [a[0]] + a[1..] && b == [b[0]] + b[1..];
    }
  }
}
