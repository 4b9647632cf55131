/** The few Python string operations the converter relies on: `strip`,
    `startswith`, repetition `c * n`, `split` on one character, `join`, and
    the `int` and `float` conversions of a string. */
module Strings {
  import opened Results

  /** `unicode.isspace` of one character: the white-space set of the Unicode
      5.2 database that Python 2.7 uses (U+180E still counts). */
  predicate IsSpace(c: char) {
    || c == ' '
    || ('\t' <= c <= '\r')
    || ('\U{1c}' <= c <= '\U{1f}')
    || c == '\U{85}' || c == '\U{a0}' || c == '\U{1680}' || c == '\U{180e}'
    || ('\U{2000}' <= c <= '\U{200a}')
    || c == '\U{2028}' || c == '\U{2029}' || c == '\U{202f}' || c == '\U{205f}' || c == '\U{3000}'
  }

  /** Every character is white space (the empty string included). */
  predicate Blank(s: string) {
    forall i :: 0 <= i < |s| ==> IsSpace(s[i])
  }

  /** `s.lstrip()`. */
  function StripLeft(s: string): string {
    if s != [] && IsSpace(s[0]) then StripLeft(s[1..]) else s
  }

  /** `s.rstrip()`. */
  function StripRight(s: string): string {
    if s != [] && IsSpace(s[|s| - 1]) then StripRight(s[..|s| - 1]) else s
  }

  /** `s.strip()`. */
  function Strip(s: string): string {
    StripRight(StripLeft(s))
  }

  /** `lstrip` removes the longest white-space prefix. */
  lemma {:induction false} StripLeftRemovesSpace(s: string)
    ensures var r := StripLeft(s);
      && |r| <= |s| && r == s[|s| - |r|..]
      && (forall i :: 0 <= i < |s| - |r| ==> IsSpace(s[i]))
      && (r != [] ==> !IsSpace(r[0]))
  {
    if s != [] && IsSpace(s[0]) {
      var t := s[1..];
      StripLeftRemovesSpace(t);
      var r := StripLeft(t);
      assert StripLeft(s) == r;
      assert t[|t| - |r|..] == s[|s| - |r|..];
      forall i | 0 <= i < |s| - |r|
        ensures IsSpace(s[i])
      {
        if i > 0 {
          assert s[i] == t[i - 1];
        }
      }
    }
  }

  /** `rstrip` removes the longest white-space suffix. */
  lemma {:induction false} StripRightRemovesSpace(s: string)
    ensures var r := StripRight(s);
      && |r| <= |s| && r == s[..|r|]
      && (forall i :: |r| <= i < |s| ==> IsSpace(s[i]))
      && (r != [] ==> !IsSpace(r[|r| - 1]))
  {
    if s != [] && IsSpace(s[|s| - 1]) {
      var t := s[..|s| - 1];
      StripRightRemovesSpace(t);
      var r := StripRight(t);
      assert StripRight(s) == r;
      assert t[..|r|] == s[..|r|];
      forall i | |r| <= i < |s|
        ensures IsSpace(s[i])
      {
        if i < |s| - 1 {
          assert s[i] == t[i];
        }
      }
    }
  }

  /** `s.strip()` is empty exactly when `s` is all white space, and otherwise
      starts and ends with a character that is not. */
  lemma {:induction false} StripEmptyIffBlank(s: string)
    ensures |Strip(s)| <= |s|
    ensures Strip(s) == [] <==> Blank(s)
    ensures Strip(s) != [] ==> !IsSpace(Strip(s)[0]) && !IsSpace(Strip(s)[|Strip(s)| - 1])
  {
    var left := StripLeft(s);
    StripLeftRemovesSpace(s);
    StripRightRemovesSpace(left);
    if left != [] {
      assert s[|s| - |left|] == left[0];
      assert StripRight(left) != [];
    }
  }

  /** `s.startswith(p)`. */
  predicate StartsWith(s: string, p: string) {
    |p| <= |s| && s[..|p|] == p
  }

  /** `c * n`: Python yields the empty string for a count below one. */
  function Repeat(c: char, n: int): (r: string)
    ensures |r| == if n > 0 then n else 0
    ensures forall i :: 0 <= i < |r| ==> r[i] == c
    decreases n
  {
    if n <= 0 then [] else Repeat(c, n - 1) + [c]
  }

  /** `''.join(parts)`, the way every renderer flattens its buffer. */
  function Concat(parts: seq<string>): string {
    if parts == [] then "" else Concat(parts[..|parts| - 1]) + parts[|parts| - 1]
  }

  /** `sep.join(parts)`. */
  function JoinWith(parts: seq<string>, sep: string): string {
    if |parts| == 0 then ""
    else if |parts| == 1 then parts[0]
    else parts[0] + sep + JoinWith(parts[1..], sep)
  }

  /** Position of the first `c` in `s`, or `|s|` when there is none. */
  function IndexOf(s: string, c: char): (i: nat)
    ensures i <= |s|
    ensures i < |s| ==> s[i] == c
    ensures forall j :: 0 <= j < i ==> s[j] != c
  {
    if s == [] then 0
    else if s[0] == c then 0
    else 1 + IndexOf(s[1..], c)
  }

  /** `s.split(sep)` for a one-character separator: never empty, and no
      piece holds the separator. */
  function Split(s: string, sep: char): (parts: seq<string>)
    ensures |parts| >= 1
    ensures forall k :: 0 <= k < |parts| ==> sep !in parts[k]
    decreases |s|
  {
    var i := IndexOf(s, sep);
    if i == |s| then
      [s]
    else
      assert sep !in s[..i];
      [s[..i]] + Split(s[i + 1..], sep)
  }

  /** Joining the pieces of a split with the separator gives the string back. */
  lemma {:induction false} JoinSplit(s: string, sep: char)
    ensures JoinWith(Split(s, sep), [sep]) == s
    decreases |s|
  {
    var i := IndexOf(s, sep);
    if i < |s| {
      var rest := Split(s[i + 1..], sep);
      JoinSplit(s[i + 1..], sep);
      assert Split(s, sep) == [s[..i]] + rest;
      assert ([s[..i]] + rest)[1..] == rest;
      assert s == s[..i] + [sep] + s[i + 1..];
    }
  }

  /** Splitting a join of separator-free pieces gives the pieces back. */
  lemma {:induction false} SplitJoin(parts: seq<string>, sep: char)
    requires |parts| >= 1
    requires forall k :: 0 <= k < |parts| ==> sep !in parts[k]
    ensures Split(JoinWith(parts, [sep]), sep) == parts
  {
    if |parts| == 1 {
      assert JoinWith(parts, [sep]) == parts[0];
      assert IndexOf(parts[0], sep) == |parts[0]|;
    } else {
      var head, tail := parts[0], JoinWith(parts[1..], [sep]);
      var s := head + [sep] + tail;
      assert JoinWith(parts, [sep]) == s;
      var i := IndexOf(s, sep);
      assert s[|head|] == sep;
      assert forall j :: 0 <= j < |head| ==> s[j] == head[j] && head[j] != sep;
      assert i == |head|;
      assert s[..i] == head;
      assert s[i + 1..] == tail;
      SplitJoin(parts[1..], sep);
    }
  }

  predicate IsDigit(c: char) {
    '0' <= c <= '9'
  }

  predicate AllDigits(s: string) {
    forall i :: 0 <= i < |s| ==> IsDigit(s[i])
  }

  /** The number a string of decimal digits spells. */
  function DigitsValue(d: string): nat
    requires AllDigits(d)
  {
    if d == [] then 0 else 10 * DigitsValue(d[..|d| - 1]) + (d[|d| - 1] as int - '0' as int)
  }

  /** `str(n)` for a natural number. */
  function Decimal(n: nat): string {
    if n < 10 then [('0' as int + n) as char]
    else Decimal(n / 10) + [('0' as int + n % 10) as char]
  }

  /** `str(n)` is a non-empty run of digits that spells `n`. */
  lemma {:induction false} DecimalSpellsValue(n: nat)
    ensures Decimal(n) != [] && AllDigits(Decimal(n))
    ensures DigitsValue(Decimal(n)) == n
  {
    if n >= 10 {
      DecimalSpellsValue(n / 10);
      var d := Decimal(n);
      assert d[..|d| - 1] == Decimal(n / 10);
    }
  }

  /** Python 2.7's `int(s)`: surrounding white space, an optional sign, more
      white space after the sign (`int(u"- 3") == -3`) and at least one decimal
      digit; anything else raises ValueError (`None`). */
  function ParseInt(s: string): Option<int> {
    var t := Strip(s);
    if t == [] then None
    else
      var digits := if t[0] == '-' || t[0] == '+' then StripLeft(t[1..]) else t;
      if digits == [] || !AllDigits(digits) then None
      else
        var v: int := DigitsValue(digits);
        Some(if t[0] == '-' then -v else v)
  }

  /** A string that neither starts nor ends with white space is its own strip. */
  lemma {:induction false} StripKeeps(s: string)
    requires s != [] && !IsSpace(s[0]) && !IsSpace(s[|s| - 1])
    ensures Strip(s) == s
  {
    assert StripLeft(s) == s;
    assert StripRight(s) == s;
  }

  /** `int(str(n)) == n`. */
  lemma {:induction false} ParseIntOfDecimal(n: nat)
    ensures ParseInt(Decimal(n)) == Some(n)
  {
    DecimalSpellsValue(n);
    var d := Decimal(n);
    assert IsDigit(d[0]) && IsDigit(d[|d| - 1]);
    StripKeeps(d);
    assert d[0] != '-' && d[0] != '+';
  }

  /** `int("-" + str(n)) == -n`. */
  lemma {:induction false} ParseIntOfNegatedDecimal(n: nat)
    ensures ParseInt("-" + Decimal(n)) == Some(-(n as int))
  {
    DecimalSpellsValue(n);
    var d := Decimal(n);
    var m := "-" + d;
    assert IsDigit(m[|m| - 1]);
    StripKeeps(m);
    assert m[1..] == d;
    assert IsDigit(d[0]);
    assert StripLeft(d) == d;
  }

  /** White space between the sign and the digits is allowed:
      `int("- " + str(n)) == -n`. */
  lemma {:induction false} ParseIntSpaceAfterSign(n: nat)
    ensures ParseInt("- " + Decimal(n)) == Some(-(n as int))
  {
    DecimalSpellsValue(n);
    var d := Decimal(n);
    var m := "- " + d;
    assert IsDigit(m[|m| - 1]);
    StripKeeps(m);
    assert m[1..] == " " + d;
    assert StripLeft(" " + d) == StripLeft(d);
    assert IsDigit(d[0]);
    assert StripLeft(d) == d;
  }

  function Pow10(n: nat): (p: nat)
    ensures p >= 1
  {
    if n == 0 then 1 else 10 * Pow10(n - 1)
  }

  /** The value of a decimal mantissa `digits [ "." digits ]`, or None. */
  function ParseMantissa(m: string): Option<real> {
    var k := IndexOf(m, '.');
    var whole := m[..k];
    var frac := if k < |m| then m[k + 1..] else [];
    if |whole| + |frac| == 0 || !AllDigits(whole) || !AllDigits(frac) then None
    else Some(DigitsValue(whole) as real + DigitsValue(frac) as real / Pow10(|frac|) as real)
  }

  /** Python's `float(s)` restricted to finite decimal notation: white space,
      an optional sign, a mantissa and an optional `e`/`E` exponent. */
  function ParseFloat(s: string): Option<real> {
    var t := Strip(s);
    if t == [] then None
    else
      var negative := t[0] == '-';
      var body := if t[0] == '-' || t[0] == '+' then t[1..] else t;
      var e := if IndexOf(body, 'e') < IndexOf(body, 'E') then IndexOf(body, 'e') else IndexOf(body, 'E');
      var mantissa := ParseMantissa(body[..e]);
      var exponent :=
        if e == |body| then Some(0)
        else
          var x := body[e + 1..];
          var digits := if x != [] && (x[0] == '-' || x[0] == '+') then x[1..] else x;
          if digits == [] || !AllDigits(digits) then None
          else
            var v: int := DigitsValue(digits);
            Some(if x[0] == '-' then -v else v);
      match (mantissa, exponent)
      case (Some(v), Some(x)) =>
        var scaled := if x >= 0 then v * Pow10(x) as real else v / Pow10(-x) as real;
        Some(if negative then -scaled else scaled)
      case _ => None
  }
}
