/** String to integer conversion, with 32-bit `long` and 64-bit `long long`. */
module Conversions {

  const LONG_MAX := 0x7FFF_FFFF
  const LONG_MIN := -0x8000_0000
  const LLONG_MAX := 0x7FFF_FFFF_FFFF_FFFF
  const LLONG_MIN := -0x8000_0000_0000_0000

  /** Arithmetic on this type is checked: an overflow is a verification error. */
  newtype LongLong = x: int | LLONG_MIN <= x <= LLONG_MAX

  const MOST: LongLong := 0x7FFF_FFFF_FFFF_FFFF
  const LEAST: LongLong := -0x8000_0000_0000_0000

  /** The character at `i` of a NUL-terminated string. */
  function CharAt(s: string, i: nat): char
    requires i <= |s|
  {
    if i < |s| then s[i] else '\0'
  }

  /** isspace: the five control characters, not the blank. */
  predicate IsSpace(c: char) { 9 as char <= c <= 13 as char }

  function DigitOf(c: char): (d: nat)
    ensures d <= 36
  {
    if '0' <= c <= '9' then (c - '0') as nat
    else if 'a' <= c <= 'z' then (c - 'a') as nat + 10
    else if 'A' <= c <= 'Z' then (c - 'A') as nat + 10
    else 36
  }

  // ---- What a text stands for -----------------------------------------------------------------

  /** The first index from `i` on that holds no space. */
  function AfterSpaces(s: string, i: nat): (j: nat)
    requires i <= |s|
    ensures i <= j <= |s| && !IsSpace(CharAt(s, j))
    ensures forall k :: i <= k < j ==> IsSpace(s[k])
    decreases |s| - i
  {
    if i < |s| && IsSpace(s[i]) then AfterSpaces(s, i + 1) else i
  }

  function SignAt(s: string, i: nat): int
    requires i <= |s|
  {
    if CharAt(s, i) == '-' then -1 else 1
  }

  function AfterSign(s: string, i: nat): (j: nat)
    requires i <= |s|
    ensures i <= j <= |s|
  {
    if CharAt(s, i) == '-' || CharAt(s, i) == '+' then i + 1 else i
  }

  predicate HexPrefix(s: string, i: nat)
    requires i <= |s|
  {
    CharAt(s, i) == '0' && (CharAt(s, i + 1) == 'x' || CharAt(s, i + 1) == 'X')
  }

  /** Base 0 is chosen by the prefix. */
  function BaseAt(s: string, i: nat, base: nat): nat
    requires i <= |s|
  {
    if base != 0 then base else if HexPrefix(s, i) then 16 else if CharAt(s, i) == '0' then 8 else 10
  }

  function AfterPrefix(s: string, i: nat, base: nat): (j: nat)
    requires i <= |s|
    ensures i <= j <= |s|
  {
    if base == 0 && HexPrefix(s, i) then i + 2 else i
  }

  /** The end of the longest run of digits from `i` on. */
  function DigitsEnd(s: string, i: nat, base: nat): (j: nat)
    requires i <= |s|
    ensures i <= j <= |s| && (j < |s| ==> DigitOf(s[j]) >= base)
    ensures forall k :: i <= k < j ==> DigitOf(s[k]) < base
    decreases |s| - i
  {
    if i < |s| && DigitOf(s[i]) < base then DigitsEnd(s, i + 1, base) else i
  }

  function Push(v: nat, base: nat, digit: nat): nat { v * base + digit }

  /** The number that the characters of a text denote, most significant first. */
  function Value(t: string, base: nat): nat {
    if t == [] then 0 else Push(Value(t[..|t| - 1], base), base, DigitOf(t[|t| - 1]))
  }

  datatype Numeral = Numeral(sign: int, base: nat, start: nat, end: nat)

  /** Where the digits of the text are, after spaces, sign and prefix. */
  function NumeralOf(s: string, base: nat): (n: Numeral)
    ensures n.start <= n.end <= |s| && (n.sign == 1 || n.sign == -1)
  {
    var i := AfterSpaces(s, 0);
    var j := AfterSign(s, i);
    var b := BaseAt(s, j, base);
    var k := AfterPrefix(s, j, base);
    Numeral(SignAt(s, i), b, k, DigitsEnd(s, k, b))
  }

  /** The mathematical value of the longest numeral at the start of the text. */
  function Denoted(s: string, base: nat): int {
    var n := NumeralOf(s, base);
    n.sign * Value(s[n.start..n.end], n.base)
  }

  function Clamp(v: int, low: int, high: int): int
    requires low <= high
  {
    if v < low then low else if v > high then high else v
  }

  // ---- Digits and values --------------------------------------------------------------------------

  function Pow(b: nat, k: nat): nat {
    if k == 0 then 1 else b * Pow(b, k - 1)
  }

  lemma PushDistributes(d: nat, p: nat, v: nat, base: nat, last: nat)
    ensures Push(d * p + v, base, last) == d * (base * p) + Push(v, base, last)
  {
    assert (d * p + v) * base == d * (base * p) + v * base;
  }

  /** The first character weighs base to the number of characters behind it. */
  lemma {:induction false} ValueFromFront(t: string, base: nat)
    requires t != []
    ensures Value(t, base) == DigitOf(t[0]) * Pow(base, |t| - 1) + Value(t[1..], base)
    decreases |t|
  {
    if |t| == 1 {
      SingleDigit(t, base);
    } else {
      var front := t[..|t| - 1];
      ValueFromFront(front, base);
      assert t[1..][..|t| - 2] == front[1..] && t[1..][|t| - 2] == t[|t| - 1];
      PushDistributes(DigitOf(t[0]), Pow(base, |t| - 2), Value(front[1..], base), base, DigitOf(t[|t| - 1]));
    }
  }

  lemma SingleDigit(t: string, base: nat)
    requires |t| == 1
    ensures Value(t, base) == DigitOf(t[0]) * Pow(base, 0) + Value(t[1..], base)
  {
    assert t[..0] == [] && t[1..] == [];
    assert 0 * base == 0;
  }

  lemma PushGrows(v: nat, base: nat, digit: nat)
    requires base >= 1
    ensures v <= Push(v, base, digit)
  {
  }

  lemma {:induction false} PrefixIsSmaller(t: string, k: nat, base: nat)
    requires k <= |t| && base >= 1
    ensures Value(t[..k], base) <= Value(t, base)
    decreases |t| - k
  {
    if k == |t| {
      assert t[..k] == t;
    } else {
      PrefixIsSmaller(t, k + 1, base);
      var u := t[..k + 1];
      assert u[..k] == t[..k];
      PushGrows(Value(t[..k], base), base, DigitOf(u[k]));
    }
  }

  function DigitChar(d: nat): (c: char)
    requires d < 36
    ensures DigitOf(c) == d
  {
    if d < 10 then '0' + d as char else 'a' + (d - 10) as char
  }

  lemma Doubles(q: nat, base: nat)
    requires base >= 2
    ensures q * base >= q + q
  {
    assert q * base == q + q + q * (base - 2);
    assert q * (base - 2) >= 0;
  }

  lemma Split(n: nat, base: nat)
    requires base >= 2
    ensures n % base < base && n == Push(n / base, base, n % base) && (n >= base ==> n / base < n)
  {
    var q, r := n / base, n % base;
    assert n == q * base + r;
    Doubles(q, base);
  }

  /** The digits of a number, as the conversion reads them. */
  function Render(n: nat, base: nat): (t: string)
    requires 2 <= base <= 36
    ensures |t| > 0 && forall k :: 0 <= k < |t| ==> DigitOf(t[k]) < base
  {
    Split(n, base);
    if n < base then [DigitChar(n)] else Render(n / base, base) + [DigitChar(n % base)]
  }

  lemma {:induction false} RenderedValue(n: nat, base: nat)
    requires 2 <= base <= 36
    ensures Value(Render(n, base), base) == n
  {
    Split(n, base);
    var t := Render(n, base);
    if n >= base {
      RenderedValue(n / base, base);
      assert t[..|t| - 1] == Render(n / base, base);
    } else {
      assert t[..0] == [];
      assert Push(0, base, n) == n;
    }
  }

  // ---- strtoll and strtol ---------------------------------------------------------------------------

  /** One more digit overflows exactly when the value exceeds this quotient. */
  lemma OverflowTest(v: nat, base: nat, digit: nat, max: nat)
    requires base >= 1 && digit <= max
    ensures v > (max - digit) / base <==> Push(v, base, digit) > max
  {
    var q, r := (max - digit) / base, (max - digit) % base;
    assert max - digit == q * base + r;
    if v > q {
      assert v * base >= (q + 1) * base == q * base + base;
    } else {
      assert v * base <= q * base;
    }
  }

  /** Division in C cuts towards zero. */
  function Quotient(a: int, b: int): int
    requires b > 0
  {
    if a >= 0 then a / b else -(-a / b)
  }

  predicate IsBase(base: nat) { base == 0 || 2 <= base <= 36 }

  method SkipSpaces(s: string) returns (i: nat)
    ensures i == AfterSpaces(s, 0)
  {
    i := 0;
    while IsSpace(CharAt(s, i))
      invariant i <= |s| && AfterSpaces(s, 0) == AfterSpaces(s, i)
      decreases |s| - i
    {
      i := i + 1;
    }
  }

  lemma OneMoreDigit(s: string, start: nat, i: nat, base: nat)
    requires start <= i < |s|
    ensures Value(s[start..i + 1], base) == Push(Value(s[start..i], base), base, DigitOf(s[i]))
  {
    assert s[start..i + 1][..i - start] == s[start..i];
  }

  lemma OverflowStays(s: string, start: nat, i: nat, end: nat, base: nat)
    requires start <= i <= end <= |s| && base >= 1
    ensures Value(s[start..i], base) <= Value(s[start..end], base)
  {
    assert s[start..end][..i - start] == s[start..i];
    PrefixIsSmaller(s[start..end], i - start, base);
  }

  /** The two tests before a digit is taken in. The second one never holds: nothing is negative yet. */
  method WouldOverflow(result: LongLong, digit: nat, base: nat) returns (above: bool, below: bool)
    requires 0 <= result && digit < base <= 36
    ensures above <==> Push(result as int, base, digit) > LLONG_MAX
    ensures !below
  {
    OverflowTest(result as int, base, digit, LLONG_MAX);
    above := result > (MOST - digit as LongLong) / base as LongLong;
    below := result as int < Quotient(LLONG_MIN + digit, base);
  }

  /** The digits from `start` on, up to the first one that does not fit. */
  method ReadDigits(s: string, start: nat, base: nat) returns (result: LongLong, end: nat, erange: bool)
    requires start <= |s| && 2 <= base <= 36
    ensures var stop := DigitsEnd(s, start, base);
      && start <= end <= stop
      && (erange <==> Value(s[start..stop], base) > LLONG_MAX)
      && (!erange ==> end == stop && result as int == Value(s[start..stop], base))
      && (erange ==> result as int == LLONG_MAX && end < stop
                     && Value(s[start..end], base) <= LLONG_MAX < Value(s[start..end + 1], base))
  {
    result, end, erange := 0, start, false;
    while CharAt(s, end) != '\0'
      invariant start <= end <= DigitsEnd(s, start, base) == DigitsEnd(s, end, base)
      invariant 0 <= result && result as int == Value(s[start..end], base)
      decreases |s| - end
    {
      var digit := DigitOf(CharAt(s, end));
      if digit >= base {
        break;
      }
      OneMoreDigit(s, start, end, base);
      OverflowStays(s, start, end + 1, DigitsEnd(s, start, base), base);
      var above, below := WouldOverflow(result, digit, base);
      if above {
        erange, result := true, MOST;
        break;
      } else if below {
        erange, result := true, LEAST;
        break;
      }
      result := result * base as LongLong + digit as LongLong;
      end := end + 1;
    }
  }

  method ReadSign(s: string, i: nat) returns (sign: LongLong, j: nat)
    requires i <= |s|
    ensures sign as int == SignAt(s, i) && j == AfterSign(s, i)
  {
    sign, j := 1, i;
    if CharAt(s, j) == '-' {
      sign := -1;
      j := j + 1;
    } else if CharAt(s, j) == '+' {
      j := j + 1;
    }
  }

  method ReadPrefix(s: string, i: nat, base: nat) returns (radix: nat, j: nat)
    requires i <= |s| && IsBase(base)
    ensures radix == BaseAt(s, i, base) && j == AfterPrefix(s, i, base)
  {
    radix, j := base, i;
    if base == 0 {
      if CharAt(s, j) == '0' {
        if CharAt(s, j + 1) == 'x' || CharAt(s, j + 1) == 'X' {
          radix, j := 16, j + 2;
        } else {
          radix := 8;
        }
      } else {
        radix := 10;
      }
    }
  }

  /** strtoll: no intermediate result overflows, ERANGE is set exactly when the digits exceed
      LLONG_MAX, and the result then is LLONG_MAX with the sign. The end then is the digit that did
      not fit. */
  method StrToLL(s: string, base: nat) returns (result: LongLong, end: nat, erange: bool)
    requires IsBase(base)
    ensures var n := NumeralOf(s, base);
      var v := Value(s[n.start..n.end], n.base);
      && result as int == n.sign * Clamp(v, 0, LLONG_MAX)
      && (erange <==> v > LLONG_MAX)
      && n.start <= end <= n.end && (erange <==> end < n.end)
  {
    var i := SkipSpaces(s);
    var sign;
    sign, i := ReadSign(s, i);
    var radix;
    radix, i := ReadPrefix(s, i, base);
    result, end, erange := ReadDigits(s, i, radix);
    result := result * sign;
  }

  /** strtol on top of it: the mathematical value, clamped to `long`; ERANGE exactly when it clamps. The end
      is that of strtoll: behind the digits, unless these exceed LLONG_MAX. */
  method StrToL(s: string, base: nat) returns (result: int, end: nat, erange: bool)
    requires IsBase(base)
    ensures result == Clamp(Denoted(s, base), LONG_MIN, LONG_MAX)
    ensures erange <==> Denoted(s, base) < LONG_MIN || Denoted(s, base) > LONG_MAX
    ensures var n := NumeralOf(s, base);
      n.start <= end <= n.end && (end < n.end <==> Value(s[n.start..n.end], n.base) > LLONG_MAX)
  {
    var wide;
    wide, end, erange := StrToLL(s, base);
    if wide as int > LONG_MAX {
      erange := true;
      wide := LONG_MAX as LongLong;
    } else if (wide as int) < LONG_MIN {
      erange := true;
      wide := LONG_MIN as LongLong;
    }
    result := wide as int;
  }

  /** What strtoll returns. */
  function Wide(s: string, base: nat): int {
    var n := NumeralOf(s, base);
    n.sign * Clamp(Value(s[n.start..n.end], n.base), 0, LLONG_MAX)
  }

  /** strtoll saturates one above the least long long: it is right exactly when the text does not
      denote a number as low as that. */
  lemma WideIsExactIff(s: string, base: nat)
    ensures Wide(s, base) == Clamp(Denoted(s, base), LLONG_MIN, LLONG_MAX) <==> Denoted(s, base) > LLONG_MIN
  {
  }

  // ---- Upper case --------------------------------------------------------------------------------------

  function Upper(c: char): char {
    if 'a' <= c <= 'z' then 'A' + (c - 'a') else c
  }

  function Uppered(t: string): (u: string)
    ensures |u| == |t| && forall k :: 0 <= k < |t| ==> u[k] == Upper(t[k])
  {
    seq(|t|, k requires 0 <= k < |t| => Upper(t[k]))
  }

  /** Each digit has two characters, or one. */
  lemma DigitIff(c: char, d: nat)
    requires d < 36
    ensures DigitOf(c) == d <==> c == DigitChar(d) || c == Upper(DigitChar(d))
  {
  }

  lemma UpperChar(c: char)
    ensures DigitOf(Upper(c)) == DigitOf(c) && IsSpace(Upper(c)) == IsSpace(c)
    ensures (Upper(c) == '-' <==> c == '-') && (Upper(c) == '+' <==> c == '+') && (Upper(c) == '0' <==> c == '0')
    ensures Upper(c) == 'x' || Upper(c) == 'X' <==> c == 'x' || c == 'X'
  {
  }

  lemma UpperAt(s: string, i: nat)
    requires i <= |s|
    ensures CharAt(Uppered(s), i) == Upper(CharAt(s, i))
  {
  }

  lemma {:induction false} UpperSpaces(s: string, i: nat)
    requires i <= |s|
    ensures AfterSpaces(Uppered(s), i) == AfterSpaces(s, i)
    decreases |s| - i
  {
    if i < |s| {
      UpperChar(s[i]);
      UpperSpaces(s, i + 1);
    }
  }

  lemma {:induction false} UpperDigits(s: string, i: nat, base: nat)
    requires i <= |s|
    ensures DigitsEnd(Uppered(s), i, base) == DigitsEnd(s, i, base)
    decreases |s| - i
  {
    if i < |s| {
      UpperChar(s[i]);
      UpperDigits(s, i + 1, base);
    }
  }

  lemma {:induction false} UpperValue(t: string, base: nat)
    ensures Value(Uppered(t), base) == Value(t, base)
    decreases |t|
  {
    if t != [] {
      UpperChar(t[|t| - 1]);
      UpperValue(t[..|t| - 1], base);
      assert Uppered(t)[..|t| - 1] == Uppered(t[..|t| - 1]);
    }
  }

  lemma UpperStart(s: string, i: nat, base: nat)
    requires i <= |s|
    ensures var u := Uppered(s);
      && SignAt(u, i) == SignAt(s, i) && AfterSign(u, i) == AfterSign(s, i)
      && BaseAt(u, i, base) == BaseAt(s, i, base) && AfterPrefix(u, i, base) == AfterPrefix(s, i, base)
  {
    UpperAt(s, i);
    UpperChar(CharAt(s, i));
    if i < |s| {
      UpperAt(s, i + 1);
      UpperChar(CharAt(s, i + 1));
    }
  }

  /** A text denotes the same number in upper case. */
  lemma UpperIsDenoted(s: string, base: nat)
    ensures NumeralOf(Uppered(s), base) == NumeralOf(s, base) && Denoted(Uppered(s), base) == Denoted(s, base)
  {
    hide AfterSpaces, AfterSign, SignAt, BaseAt, AfterPrefix, DigitsEnd, Value;
    var i := AfterSpaces(s, 0);
    UpperSpaces(s, 0);
    UpperStart(s, i, base);
    var j := AfterSign(s, i);
    UpperStart(s, j, base);
    UpperDigits(s, AfterPrefix(s, j, base), BaseAt(s, j, base));
    var n := NumeralOf(s, base);
    UpperValue(s[n.start..n.end], n.base);
    assert Uppered(s)[n.start..n.end] == Uppered(s[n.start..n.end]);
  }

  // ---- The parts of a text --------------------------------------------------------------------------------

  predicate Starts(t: string, c: char) { t != "" && t[0] == c }

  /** The base that is given, or that the prefix chooses when base 0 is given. */
  predicate Chooses(base: nat, prefix: string, rest: string, radix: nat) {
    if base != 0 then radix == base && prefix == ""
    else if radix == 16 then prefix == "0x" || prefix == "0X"
    else
      && prefix == "" && (radix == 8 || radix == 10)
      && (radix == 8 <==> Starts(rest, '0'))
      && !(|rest| >= 2 && rest[0] == '0' && (rest[1] == 'x' || rest[1] == 'X'))
  }

  lemma {:induction false} SpacesEnd(s: string, i: nat, n: nat)
    requires i <= n <= |s| && (forall k :: i <= k < n ==> IsSpace(s[k])) && !IsSpace(CharAt(s, n))
    ensures AfterSpaces(s, i) == n
    decreases n - i
  {
    if i < n {
      SpacesEnd(s, i + 1, n);
    }
  }

  lemma {:induction false} DigitsStop(s: string, i: nat, n: nat, base: nat)
    requires i <= n <= |s| && (forall k :: i <= k < n ==> DigitOf(s[k]) < base) && (n < |s| ==> DigitOf(s[n]) >= base)
    ensures DigitsEnd(s, i, base) == n
    decreases n - i
  {
    if i < n {
      DigitsStop(s, i + 1, n, base);
    }
  }

  /** What is left of `s` from `i` on. */
  predicate Rests(s: string, i: nat, t: string) { i <= |s| && s[i..] == t }

  lemma RestStarts(s: string, i: nat, t: string)
    requires Rests(s, i, t)
    ensures CharAt(s, i) == CharAt(t, 0) && (t != "" ==> CharAt(s, i + 1) == CharAt(t, 1))
  {
    assert t != "" ==> s[i] == t[0];
    assert |t| > 1 ==> s[i + 1] == t[1];
  }

  lemma RestOf(s: string, i: nat, t: string, u: string)
    requires Rests(s, i, t + u)
    ensures Rests(s, i + |t|, u) && s[i..i + |t|] == t
  {
    assert s[i + |t|..] == s[i..][|t|..] == u;
    assert s[i..i + |t|] == s[i..][..|t|] == t;
  }

  lemma PrefixRead(s: string, j: nat, prefix: string, rest: string, base: nat, radix: nat)
    requires Rests(s, j, prefix + rest) && Chooses(base, prefix, rest, radix)
    ensures BaseAt(s, j, base) == radix && AfterPrefix(s, j, base) == j + |prefix|
  {
    RestStarts(s, j, prefix + rest);
    if prefix == "" {
      assert prefix + rest == rest;
    }
  }

  lemma SignRead(s: string, i: nat, sign: string, rest: string)
    requires Rests(s, i, sign + rest) && (sign == "" || sign == "+" || sign == "-")
    requires sign == "" ==> !Starts(rest, '+') && !Starts(rest, '-')
    ensures SignAt(s, i) == (if sign == "-" then -1 else 1) && AfterSign(s, i) == i + |sign|
  {
    RestStarts(s, i, sign + rest);
    if sign == "" {
      assert sign + rest == rest;
    }
  }

  lemma SpacesRead(s: string, spaces: string, rest: string)
    requires s == spaces + rest && forall c :: c in spaces ==> 9 <= c as int <= 13
    requires rest != "" ==> !(9 <= rest[0] as int <= 13)
    ensures AfterSpaces(s, 0) == |spaces| && Rests(s, |spaces|, rest)
  {
    forall k | 0 <= k < |spaces| ensures IsSpace(s[k]) {
      assert s[k] == spaces[k] && spaces[k] in spaces;
    }
    assert rest != "" ==> s[|spaces|] == rest[0];
    SpacesEnd(s, 0, |spaces|);
  }

  lemma DigitsRead(s: string, k: nat, digits: string, tail: string, radix: nat)
    requires Rests(s, k, digits + tail) && (forall c :: c in digits ==> DigitOf(c) < radix)
    requires tail != "" ==> DigitOf(tail[0]) >= radix
    ensures DigitsEnd(s, k, radix) == k + |digits| && s[k..k + |digits|] == digits
  {
    RestOf(s, k, digits, tail);
    RestStarts(s, k + |digits|, tail);
    forall i | k <= i < k + |digits| ensures DigitOf(s[i]) < radix {
      assert s[i] == digits[i - k] && digits[i - k] in digits;
    }
    DigitsStop(s, k, k + |digits|, radix);
  }

  /** A text is read as its parts: control characters 9 to 13, a sign, the prefix that goes with base 0, the
      digits of the base, and whatever follows. Parts may be empty; an empty sign is not followed by a sign. */
  lemma PartsAreRead(spaces: string, sign: string, prefix: string, digits: string, tail: string, base: nat, radix: nat)
    requires forall c :: c in spaces ==> 9 <= c as int <= 13
    requires sign == "" || sign == "+" || sign == "-"
    requires Chooses(base, prefix, digits + tail, radix)
    requires (forall c :: c in digits ==> DigitOf(c) < radix) && (tail != "" ==> DigitOf(tail[0]) >= radix)
    requires var body := prefix + (digits + tail);
      && (sign == "" ==> !Starts(body, '+') && !Starts(body, '-'))
      && (sign + body != "" ==> !(9 <= (sign + body)[0] as int <= 13))
    ensures var s, start := spaces + (sign + (prefix + (digits + tail))), |spaces| + |sign| + |prefix|;
      && NumeralOf(s, base) == Numeral(if sign == "-" then -1 else 1, radix, start, start + |digits|)
      && Denoted(s, base) == (if sign == "-" then -1 else 1) * Value(digits, radix)
  {
    hide AfterSpaces, AfterSign, SignAt, BaseAt, AfterPrefix, DigitsEnd, Value, Chooses, Rests;
    var rest := digits + tail;
    var body := prefix + rest;
    var s, i, j, k := spaces + (sign + body), |spaces|, |spaces| + |sign|, |spaces| + |sign| + |prefix|;
    SpacesRead(s, spaces, sign + body);
    SignRead(s, i, sign, body);
    RestOf(s, i, sign, body);
    PrefixRead(s, j, prefix, rest, base, radix);
    RestOf(s, j, prefix, rest);
    DigitsRead(s, k, digits, tail, radix);
    PartsGive(s, i, j, k, base, radix, if sign == "-" then -1 else 1, digits);
  }

  lemma PartsGive(s: string, i: nat, j: nat, k: nat, base: nat, radix: nat, sign: int, digits: string)
    requires i <= j <= k && k + |digits| <= |s|
    requires AfterSpaces(s, 0) == i && SignAt(s, i) == sign && AfterSign(s, i) == j
    requires BaseAt(s, j, base) == radix && AfterPrefix(s, j, base) == k
    requires DigitsEnd(s, k, radix) == k + |digits| && s[k..k + |digits|] == digits
    ensures NumeralOf(s, base) == Numeral(sign, radix, k, k + |digits|)
    ensures Denoted(s, base) == sign * Value(digits, radix)
  {
    hide AfterSpaces, AfterSign, SignAt, BaseAt, AfterPrefix, DigitsEnd, Value;
  }

  // ---- Round trip ---------------------------------------------------------------------------------------

  lemma {:induction false} AllDigits(s: string, i: nat, base: nat)
    requires i <= |s| && forall k :: i <= k < |s| ==> DigitOf(s[k]) < base
    ensures DigitsEnd(s, i, base) == |s|
    decreases |s| - i
  {
    if i < |s| {
      AllDigits(s, i + 1, base);
    }
  }

  function Signed(n: int, base: nat): string
    requires 2 <= base <= 36
  {
    if n < 0 then "-" + Render(-n, base) else Render(n, base)
  }

  lemma PlainStart(s: string, base: nat)
    requires |s| > 0 && 2 <= base <= 36 && (DigitOf(s[0]) < base || s[0] == '-')
    ensures AfterSpaces(s, 0) == 0
  {
  }

  /** Reading back what was written gives the number, for every base and every number. */
  lemma RenderedReadsBack(n: int, base: nat)
    requires 2 <= base <= 36
    ensures Denoted(Signed(n, base), base) == n
  {
    var s, m := Signed(n, base), if n < 0 then -n else n;
    var digits, start := Render(m, base), if n < 0 then 1 else 0;
    RenderedValue(m, base);
    assert s[start..] == digits;
    forall k | start <= k < |s| ensures DigitOf(s[k]) < base {
      assert s[k] == digits[k - start];
    }
    AllDigits(s, start, base);
    PlainStart(s, base);
    assert s[start..|s|] == digits;
    assert n >= 0 ==> DigitOf(s[0]) < base;
    assert NumeralOf(s, base) == Numeral(if n < 0 then -1 else 1, base, start, |s|);
  }

  /** In upper case as well. */
  lemma RenderedIsDenoted(n: int, base: nat)
    requires 2 <= base <= 36
    ensures Denoted(Signed(n, base), base) == n && Denoted(Uppered(Signed(n, base)), base) == n
  {
    RenderedReadsBack(n, base);
    UpperIsDenoted(Signed(n, base), base);
  }

  /** No superfluous zero is written. */
  lemma {:induction false} FrontIsNotZero(n: nat, base: nat)
    requires n > 0 && 2 <= base <= 36
    ensures Render(n, base)[0] != '0'
    decreases n
  {
    Split(n, base);
    if n >= base {
      assert n / base > 0;
      FrontIsNotZero(n / base, base);
    }
  }

  lemma RenderedDigits(n: nat, base: nat)
    requires 2 <= base <= 36
    ensures forall c :: c in Render(n, base) ==> DigitOf(c) < base
  {
  }

  lemma AfterZero(t: string, base: nat)
    requires base >= 1
    ensures Value("0" + t, base) == Value(t, base)
  {
    ValueFromFront("0" + t, base);
    assert ("0" + t)[1..] == t;
    assert DigitOf('0') * Pow(base, |t|) == 0;
  }

  lemma HexReadsBack(n: nat)
    ensures Denoted("0x" + Render(n, 16), 0) == n
  {
    hide NumeralOf, Value, Render;
    RenderedDigits(n, 16);
    RenderedValue(n, 16);
    PartsAreRead("", "", "0x", Render(n, 16), "", 0, 16);
    assert "" + ("" + ("0x" + (Render(n, 16) + ""))) == "0x" + Render(n, 16);
  }

  lemma OctalReadsBack(n: nat)
    ensures Denoted("0" + Render(n, 8), 0) == n
  {
    hide NumeralOf, Value, Render;
    var digits := "0" + Render(n, 8);
    RenderedDigits(n, 8);
    RenderedValue(n, 8);
    AfterZero(Render(n, 8), 8);
    assert digits[1] == Render(n, 8)[0] && Render(n, 8)[0] in Render(n, 8);
    assert digits + "" == digits;
    PartsAreRead("", "", "", digits, "", 0, 8);
    assert "" + ("" + ("" + (digits + ""))) == digits;
  }

  lemma ZeroDigit(base: nat)
    ensures Render(0, 10) == "0" && Value("0", base) == 0
  {
    assert "0"[..0] == "" && Push(0, base, DigitOf('0')) == 0;
  }

  lemma DecimalReadsBack(n: nat)
    ensures Denoted(Render(n, 10), 0) == n
  {
    hide NumeralOf, Value;
    var digits, radix := Render(n, 10), if n == 0 then 8 else 10;
    RenderedDigits(n, 10);
    RenderedValue(n, 10);
    if n > 0 {
      FrontIsNotZero(n, 10);
    } else {
      ZeroDigit(8);
      ZeroDigit(10);
    }
    assert digits[0] in digits;
    assert digits + "" == digits;
    PartsAreRead("", "", "", digits, "", 0, radix);
    assert "" + ("" + ("" + (digits + ""))) == digits;
  }

  /** With base 0 the prefix tells hexadecimal, octal and decimal numbers apart, in lower and in upper case. */
  lemma PrefixedIsDenoted(n: nat)
    ensures Denoted("0x" + Render(n, 16), 0) == n && Denoted(Uppered("0x" + Render(n, 16)), 0) == n
    ensures Denoted("0" + Render(n, 8), 0) == n && Denoted(Render(n, 10), 0) == n
  {
    hide Denoted, Render;
    HexReadsBack(n);
    UpperIsDenoted("0x" + Render(n, 16), 0);
    OctalReadsBack(n);
    DecimalReadsBack(n);
  }
}
