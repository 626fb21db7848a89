/** The linker's own formatted output: numerals, format directives, and a bounded buffer. */
module Formatter {
  const TWO32: nat := 0x1_0000_0000
  const TWO64: nat := 0x1_0000_0000_0000_0000

  // ---- Numerals ------------------------------------------------------------------------------

  function Digit(d: nat, caps: bool): char
    requires d < 16
  {
    if d < 10 then '0' + d as char else (if caps then 'A' else 'a') + (d - 10) as char
  }

  /** v divided by b, and the remainder. */
  function Quot(v: nat, b: nat): (q: nat)
    requires 2 <= b
    ensures if v < b then q == 0 else 0 < q < v
  {
    if v < b then 0 else 1 + Quot(v - b, b)
  }

  function Rem(v: nat, b: nat): (r: nat)
    requires 2 <= b
    ensures r < b
  {
    if v < b then v else Rem(v - b, b)
  }

  lemma {:induction false} QuotRem(v: nat, b: nat)
    requires 2 <= b
    ensures Quot(v, b) * b + Rem(v, b) == v
  {
    if v >= b {
      QuotRem(v - b, b);
    }
  }

  lemma TimesGrows(x: nat, y: nat, b: nat)
    requires x <= y
    ensures x * b <= y * b && b * x <= b * y
  {
  }

  lemma Unique(b: nat, q: int, r: nat, q': int, r': nat)
    requires r < b && r' < b && q * b + r == q' * b + r'
    ensures q == q'
  {
    if q < q' {
      assert (q' - q) * b == q' * b - q * b;
      TimesGrows(1, q' - q, b);
    } else if q' < q {
      assert (q - q') * b == q * b - q' * b;
      TimesGrows(1, q - q', b);
    }
  }

  lemma Divided(v: nat, b: nat)
    requires 2 <= b
    ensures v / b == Quot(v, b) && v % b == Rem(v, b)
  {
    QuotRem(v, b);
    assert v / b * b + v % b == v;
    Unique(b, v / b, v % b, Quot(v, b), Rem(v, b));
  }

  /** The numeral of v, without leading zeros. */
  function Numeral(v: nat, base: nat, caps: bool): (s: string)
    requires 2 <= base <= 16
    ensures |s| > 0
  {
    (if v < base then "" else Numeral(Quot(v, base), base, caps)) + [Digit(Rem(v, base), caps)]
  }

  function DigitValue(c: char): int {
    if '0' <= c <= '9' then c as int - '0' as int
    else if 'a' <= c <= 'f' then c as int - 'a' as int + 10
    else if 'A' <= c <= 'F' then c as int - 'A' as int + 10
    else -1
  }

  function Value(s: string, n: nat, base: nat): int
    requires n <= |s|
  {
    if n == 0 then 0 else Value(s, n - 1, base) * base + DigitValue(s[n - 1])
  }

  lemma DigitBack(d: nat, caps: bool)
    requires d < 16
    ensures DigitValue(Digit(d, caps)) == d && (Digit(d, caps) == '0' <==> d == 0)
  {
  }

  /** The last digit, and what is left without it. */
  lemma NumeralNext(v: nat, base: nat, caps: bool)
    requires 2 <= base <= 16
    ensures var s := Numeral(v, base, caps);
            Rem(v, base) < 16 && s[|s| - 1] == Digit(Rem(v, base), caps)
            && if v < base then |s| == 1 else s[..|s| - 1] == Numeral(Quot(v, base), base, caps)
  {
    var t := if v < base then "" else Numeral(Quot(v, base), base, caps);
    assert Numeral(v, base, caps) == t + [Digit(Rem(v, base), caps)];
  }

  lemma {:induction false} ValueOfSame(s: string, t: string, n: nat, base: nat)
    requires n <= |s| && n <= |t| && s[..n] == t[..n]
    ensures Value(s, n, base) == Value(t, n, base)
  {
    if n > 0 {
      assert s[..n][n - 1] == t[..n][n - 1];
      assert s[..n - 1] == s[..n][..n - 1] && t[..n - 1] == t[..n][..n - 1];
      ValueOfSame(s, t, n - 1, base);
    }
  }

  /** The numeral of v stands for v. */
  lemma {:induction false} NumeralValue(v: nat, base: nat, caps: bool)
    requires 2 <= base <= 16
    ensures var s := Numeral(v, base, caps); Value(s, |s|, base) == v
    decreases v
  {
    var s := Numeral(v, base, caps);
    NumeralNext(v, base, caps);
    DigitBack(Rem(v, base), caps);
    QuotRem(v, base);
    if v >= base {
      var t := Numeral(Quot(v, base), base, caps);
      NumeralValue(Quot(v, base), base, caps);
      assert t[..|t|] == t;
      ValueOfSame(s, t, |t|, base);
    }
  }

  /** It is made of digits of the base, and starts with a zero only if it is "0". */
  lemma {:induction false} NumeralIsCanonical(v: nat, base: nat, caps: bool)
    requires 2 <= base <= 16
    ensures var s := Numeral(v, base, caps);
            (s[0] == '0' ==> v == 0 && |s| == 1) && forall k :: 0 <= k < |s| ==> 0 <= DigitValue(s[k]) < base
    decreases v
  {
    var s := Numeral(v, base, caps);
    NumeralNext(v, base, caps);
    DigitBack(Rem(v, base), caps);
    if v >= base {
      var t := Numeral(Quot(v, base), base, caps);
      NumeralIsCanonical(Quot(v, base), base, caps);
      forall k | 0 <= k < |s| - 1 ensures s[k] == t[k] {
        assert s[..|s| - 1][k] == t[k];
      }
    }
  }

  function Pow8(n: nat): nat {
    if n == 0 then 1 else 8 * Pow8(n - 1)
  }

  lemma {:induction false} NumeralFits(v: nat, base: nat, caps: bool, n: nat)
    requires 8 <= base <= 16 && v < Pow8(n) && n > 0
    ensures |Numeral(v, base, caps)| <= n
  {
    if v >= base {
      QuotRem(v, base);
      TimesGrows(8, base, Quot(v, base));
      NumeralFits(Quot(v, base), base, caps, n - 1);
    }
  }

  lemma NumeralShort(v: nat, base: nat, caps: bool)
    requires 8 <= base <= 16 && v < TWO64
    ensures |Numeral(v, base, caps)| <= 22
  {
    assert Pow8(22) >= TWO64 by {
      assert Pow8(11) == 0x2_0000_0000;
      assert Pow8(22) == 0x2_0000_0000 * Pow8(11);
    }
    NumeralFits(v, base, caps, 22);
  }

  function Least(x: int, y: int): int {
    if x < y then x else y
  }

  /** The n characters of b behind `from` are the last n of s, backwards. */
  ghost predicate Backwards(b: string, s: string, from: nat, n: nat) {
    && n <= |s| && from + n <= |b|
    && forall k {:trigger b[k]} :: from <= k < from + n ==> b[k] == s[|s| - 1 - (k - from)]
  }

  /** The characters from `from` to `to` have been turned round. */
  ghost predicate Turned(before: string, after: string, from: nat, to: nat) {
    && from <= to <= |before| == |after|
    && (forall k {:trigger after[k]} :: from <= k < to ==> after[k] == before[from + to - 1 - k])
    && (forall k {:trigger after[k]} :: 0 <= k < |after| && !(from <= k < to) ==> after[k] == before[k])
  }

  /** b is `before` with the last n characters of s and a NUL put in at `from`, and changed only behind that. */
  ghost predicate Holds(before: string, b: string, s: string, from: nat, n: nat) {
    && n <= |s| && from + n < |b| == |before|
    && b[from..from + n] == s[|s| - n..] && b[from + n] == '\0' && b[..from] == before[..from]
  }

  /** format_number into the size characters of buffer from `from` on: the numeral, or its last
      size - 1 digits, made from the low end and then reversed in place. */
  method FormatNumber(buffer: array<char>, from: nat, size: nat, value: nat, base: nat, caps: bool) returns (n: nat)
    requires 2 <= base <= 16 && 0 < size && from + size <= buffer.Length
    modifies buffer
    ensures n == Least(|Numeral(value, base, caps)|, size - 1)
    ensures Holds(old(buffer[..]), buffer[..], Numeral(value, base, caps), from, n)
  {
    ghost var before := buffer[..];
    n := LowDigits(buffer, from, size, value, base, caps);
    ghost var low := buffer[..];
    buffer[from + n] := '\0';
    ghost var digits := buffer[..];
    assert digits == low[from + n := '\0'];
    Reverse(buffer, from, from + n);
    Reversed(before, low, digits, buffer[..], Numeral(value, base, caps), from, n);
  }

  lemma Reversed(before: string, low: string, digits: string, after: string, s: string, from: nat, n: nat)
    requires Backwards(low, s, from, n) && from + n < |low| == |before| && low[..from] == before[..from]
    requires digits == low[from + n := '\0'] && Turned(digits, after, from, from + n)
    ensures Holds(before, after, s, from, n)
  {
    assert after[..from] == low[..from];
  }

  /** Done of the digits of s have been made, and those of v are still to come. */
  ghost predicate Making(s: string, v: nat, done: nat, base: nat, caps: bool)
    requires 2 <= base <= 16
  {
    if v == 0 then done == |s| else done < |s| && s[..|s| - done] == Numeral(v, base, caps)
  }

  lemma MakingNext(s: string, v: nat, done: nat, base: nat, caps: bool)
    requires 2 <= base <= 16 && Making(s, v, done, base, caps) && v != 0
    ensures s[|s| - 1 - done] == Digit(Rem(v, base), caps) && Making(s, Quot(v, base), done + 1, base, caps)
  {
    var t := Numeral(v, base, caps);
    NumeralNext(v, base, caps);
    assert s[..|s| - done][|s| - done - 1] == t[|t| - 1];
    assert s[..|s| - done][..|s| - done - 1] == s[..|s| - (done + 1)];
  }

  /** The next digit and what is left. */
  method SplitDigit(v: nat, base: nat) returns (d: nat, rest: nat)
    requires 2 <= base
    ensures d == Rem(v, base) && rest == Quot(v, base)
  {
    Divided(v, base);
    d := v % base;
    rest := v / base;
  }

  /** The digits from the low end, as many as fit. */
  method LowDigits(buffer: array<char>, from: nat, size: nat, value: nat, base: nat, caps: bool) returns (n: nat)
    requires 2 <= base <= 16 && 0 < size && from + size <= buffer.Length
    modifies buffer
    ensures var s := Numeral(value, base, caps);
            n == Least(|s|, size - 1) && Backwards(buffer[..], s, from, n)
    ensures buffer[..][..from] == old(buffer[..])[..from]
  {
    ghost var s := Numeral(value, base, caps);
    assert s[..|s|] == s;
    var v, pos := value, from;
    ghost var done := 0;
    while v != 0
      invariant done <= |s| && pos == from + Least(done, size - 1)
      invariant if value == 0 then v == 0 && done == 0 else Making(s, v, done, base, caps)
      invariant forall k :: from <= k < pos ==> buffer[k] == s[|s| - 1 - (k - from)]
      invariant forall k :: 0 <= k < from ==> buffer[k] == old(buffer[k])
      decreases v
    {
      MakingNext(s, v, done, base, caps);
      var d;
      d, v := SplitDigit(v, base);
      if pos < from + size - 1 {
        buffer[pos] := Digit(d, caps);
        pos := pos + 1;
      }
      done := done + 1;
    }
    if pos == from {
      if pos < from + size - 1 {
        buffer[pos] := '0';
        pos := pos + 1;
      }
    }
    n := pos - from;
  }

  method Reverse(a: array<char>, from: nat, to: nat)
    requires from <= to <= a.Length
    modifies a
    ensures Turned(old(a[..]), a[..], from, to)
  {
    var lo, hi: int := from, to - 1;
    while lo < hi
      invariant from <= lo <= to && lo + hi == from + to - 1 && lo <= hi + 1 && hi < to
      invariant forall k :: from <= k < lo || hi < k < to ==> a[k] == old(a[from + to - 1 - k])
      invariant forall k :: lo <= k <= hi || 0 <= k < from || to <= k < a.Length ==> a[k] == old(a[k])
    {
      a[lo], a[hi] := a[hi], a[lo];
      lo, hi := lo + 1, hi - 1;
    }
  }

  // ---- Decimals in a format ------------------------------------------------------------------

  predicate IsDecimal(c: char) {
    '0' <= c <= '9'
  }

  /** The character at i; a terminator follows the last. */
  function At(fmt: string, i: nat): char {
    if i < |fmt| then fmt[i] else '\0'
  }

  function DigitsEnd(fmt: string, i: nat): (e: nat)
    ensures i <= e && (i <= |fmt| ==> e <= |fmt|)
    decreases |fmt| - i
  {
    if i < |fmt| && IsDecimal(fmt[i]) then DigitsEnd(fmt, i + 1) else i
  }

  /** What the digits from i up to e stand for, modulo 2^32. */
  function Decimal(fmt: string, i: nat, e: nat): nat
    requires i <= e <= |fmt|
    decreases e
  {
    if i == e then 0 else (Decimal(fmt, i, e - 1) * 10 + (fmt[e - 1] as int - '0' as int) % TWO32) % TWO32
  }

  method ParseDecimal(fmt: string, pos: nat) returns (result: nat, end: nat)
    requires pos <= |fmt|
    ensures end == DigitsEnd(fmt, pos) && result == Decimal(fmt, pos, end)
  {
    result, end := 0, pos;
    while true
      invariant pos <= end <= |fmt| && DigitsEnd(fmt, pos) == DigitsEnd(fmt, end) && result == Decimal(fmt, pos, end)
      decreases |fmt| - end
    {
      var ch := At(fmt, end);
      var d := (ch as int - '0' as int) % TWO32;
      if d >= 10 {
        break;
      }
      result := (result * 10 + d) % TWO32;
      end := end + 1;
    }
  }

  /** parse_decimal reads back what format_number wrote, below 2^32. */
  lemma ParseInverts(v: nat, fmt: string, i: nat)
    requires v < TWO32
    requires var s := Numeral(v, 10, false);
             var e := i + |s|;
             e <= |fmt| && fmt[i..e] == s && (e < |fmt| ==> !IsDecimal(fmt[e]))
    ensures var e := i + |Numeral(v, 10, false)|; DigitsEnd(fmt, i) == e && Decimal(fmt, i, e) == v
  {
    var s := Numeral(v, 10, false);
    var e := i + |s|;
    NumeralValue(v, 10, false);
    forall k | i <= k < e ensures fmt[k] == s[k - i] && IsDecimal(fmt[k]) {
      PrintedDigit(v, fmt, i, k);
    }
    DigitsEndIs(fmt, i, e);
    DecimalIs(fmt, i, s, |s|);
  }

  lemma PrintedDigit(v: nat, fmt: string, i: nat, k: nat)
    requires var e := i + |Numeral(v, 10, false)|; e <= |fmt| && fmt[i..e] == Numeral(v, 10, false) && i <= k < e
    ensures fmt[k] == Numeral(v, 10, false)[k - i] && IsDecimal(fmt[k])
  {
    assert fmt[i..i + |Numeral(v, 10, false)|][k - i] == fmt[k];
    DecimalDigit(v, k - i);
  }

  lemma {:induction false} DecimalDigit(v: nat, k: nat)
    requires k < |Numeral(v, 10, false)|
    ensures IsDecimal(Numeral(v, 10, false)[k])
    decreases v
  {
    NumeralNext(v, 10, false);
    var s := Numeral(v, 10, false);
    if k < |s| - 1 {
      assert s[..|s| - 1][k] == s[k];
      DecimalDigit(Quot(v, 10), k);
    }
  }

  lemma {:induction false} DigitsEndIs(fmt: string, i: nat, e: nat)
    requires i <= e <= |fmt| && (forall k :: i <= k < e ==> IsDecimal(fmt[k])) && (e < |fmt| ==> !IsDecimal(fmt[e]))
    ensures DigitsEnd(fmt, i) == e
    decreases e - i
  {
    if i < e {
      DigitsEndIs(fmt, i + 1, e);
    }
  }

  lemma WrapsOnce(x: nat, d: nat)
    ensures (x % TWO32 * 10 + d % TWO32) % TWO32 == (x * 10 + d) % TWO32
  {
    var q, r := x / TWO32, d / TWO32;
    assert x * 10 + d == x % TWO32 * 10 + d % TWO32 + TWO32 * (q * 10 + r);
  }

  lemma {:induction false} DecimalIs(fmt: string, i: nat, s: string, n: nat)
    requires n <= |s| && i + |s| <= |fmt| && forall k :: i <= k < i + |s| ==> fmt[k] == s[k - i] && IsDecimal(fmt[k])
    ensures Value(s, n, 10) >= 0 && Decimal(fmt, i, i + n) == Value(s, n, 10) % TWO32
  {
    if n > 0 {
      DecimalIs(fmt, i, s, n - 1);
      assert fmt[i + (n - 1)] == s[n - 1];
      WrapsOnce(Value(s, n - 1, 10), DigitValue(s[n - 1]));
    }
  }

  // ---- Directives ----------------------------------------------------------------------------

  /** A variable argument: a string without NUL, or the bits of an integer or a pointer. */
  datatype Arg = Text(text: string) | Bits(bits: nat)

  /** What follows a '%': the flags, the width, the operand's size, the conversion, and where it ends. */
  datatype Directive = Directive(padZero: bool, padLeft: bool, width: int, bytes: nat, conv: char, next: nat)

  predicate IsFlag(c: char) {
    c == '0' || c == '-' || c == ' ' || c == '+'
  }

  function FlagsEnd(fmt: string, i: nat): (e: nat)
    requires i <= |fmt|
    ensures i <= e <= |fmt|
    decreases |fmt| - i
  {
    if i < |fmt| && IsFlag(fmt[i]) then FlagsEnd(fmt, i + 1) else i
  }

  /** The width, read as a signed integer, or -1 if there is none. */
  function Width(fmt: string, i: nat): int
    requires i <= |fmt|
  {
    var e := DigitsEnd(fmt, i);
    if e == i then -1 else AsInt(Decimal(fmt, i, e))
  }

  function AsInt(w: nat): int {
    if w < TWO32 / 2 then w else w - TWO32
  }

  function PrecisionEnd(fmt: string, i: nat): (e: nat)
    requires i <= |fmt|
    ensures i <= e <= |fmt|
  {
    if At(fmt, i) == '.' then DigitsEnd(fmt, i + 1) else i
  }

  /** The operand's size and where the conversion character stands. */
  function Length(fmt: string, i: nat): (r: (nat, nat))
    requires i <= |fmt|
    ensures i <= r.1 <= |fmt| && r.0 in {1, 2, 4, 8}
  {
    var c, d := At(fmt, i), At(fmt, i + 1);
    if c == 'h' then if d == 'h' then (1, i + 2) else (2, i + 1)
    else if c == 'l' then if d == 'l' then (8, i + 2) else (4, i + 1)
    else if c == 'z' || c == 't' then (4, i + 1)
    else (4, i)
  }

  /** The directive whose flags run from i to e. */
  function Parsed(fmt: string, i: nat, e: nat): (d: Directive)
    requires i <= e <= |fmt|
    ensures e < d.next
  {
    var w := DigitsEnd(fmt, e);
    var l := Length(fmt, PrecisionEnd(fmt, w));
    Directive('0' in fmt[i..e], '-' in fmt[i..e], Width(fmt, e), l.0, At(fmt, l.1), l.1 + 1)
  }

  /** An n-byte operand sign-extended to 64 bits. */
  function Extended(bits: nat, bytes: nat): nat
    requires bytes in {1, 2, 4, 8}
  {
    var w := Size(bytes);
    if bits % w >= w / 2 then bits % w + TWO64 - w else bits % w
  }

  function Size(bytes: nat): nat
    requires bytes in {1, 2, 4, 8}
  {
    if bytes == 1 then 0x100 else if bytes == 2 then 0x1_0000 else if bytes == 4 then TWO32 else TWO64
  }

  function SignedText(value: nat, base: nat): string
    requires 2 <= base <= 16 && value < TWO64
  {
    if value >= TWO64 / 2 then "-" + Numeral(TWO64 - value, base, false) else Numeral(value, base, false)
  }

  /** The argument that a conversion takes. */
  predicate Takes(conv: char, a: Arg) {
    if conv == 's' then a.Text? && forall k :: 0 <= k < |a.text| ==> a.text[k] != '\0' else a.Bits? && a.bits < TWO64
  }

  /** What a conversion makes of its argument; for any other character, such as 'u' or '%', nothing. */
  function Converted(conv: char, bytes: nat, a: Arg): string
    requires Takes(conv, a) && bytes in {1, 2, 4, 8}
  {
    if conv == 's' then a.text
    else if conv == 'c' then if a.bits % 256 == 0 then "" else [(a.bits % 256) as char]
    else if conv == 'p' then "0x" + Numeral(a.bits % TWO32, 16, false)
    else if conv == 'd' || conv == 'i' then SignedText(Extended(a.bits, bytes), 10)
    else if conv == 'o' then SignedText(Extended(a.bits, bytes), 8)
    else if conv == 'x' || conv == 'X' then Numeral(a.bits % Size(bytes), 16, conv == 'X')
    else ""
  }

  function Repeat(c: char, n: int): (s: string)
    ensures |s| == if n > 0 then n else 0
  {
    if n > 0 then seq(n, _ => c) else ""
  }

  function Padded(s: string, d: Directive): (r: string)
    ensures |r| == if |s| < d.width then d.width else |s|
  {
    var pad := Repeat(if d.padZero then '0' else ' ', d.width - |s|);
    if d.padLeft then s + pad else pad + s
  }

  /** What a directive makes of its argument. */
  function Shown(d: Directive, a: Arg): string
    requires Takes(d.conv, a) && d.bytes in {1, 2, 4, 8}
  {
    Padded(Converted(d.conv, d.bytes, a), d)
  }

  /** The next '%' from i on. */
  function RunEnd(fmt: string, i: nat): (e: nat)
    requires i <= |fmt|
    ensures i <= e <= |fmt| && (e < |fmt| ==> fmt[e] == '%')
    decreases |fmt| - i
  {
    if i == |fmt| || fmt[i] == '%' then i else RunEnd(fmt, i + 1)
  }

  /** The next stop in a format: its end, a '%' that nothing but flags follows, or a directive. */
  datatype Stop = End(at: nat) | Lone(at: nat) | Full(at: nat, d: Directive)

  function NextStop(fmt: string, i: nat): (s: Stop)
    requires i <= |fmt|
    ensures i <= s.at <= |fmt| && (s.Full? ==> s.at < s.d.next && s.d.bytes in {1, 2, 4, 8})
  {
    var m := RunEnd(fmt, i);
    if m == |fmt| then End(m) else
      var e := FlagsEnd(fmt, m + 1);
      if e == |fmt| then Lone(m) else Full(m, Parsed(fmt, m + 1, e))
  }

  /** The directive is complete, and there is an argument that it takes. */
  predicate Served(fmt: string, d: Directive, args: seq<Arg>, k: nat) {
    d.next <= |fmt| && k < |args| && Takes(d.conv, args[k])
  }

  /** Every directive from i on is complete, and its argument is there and is what it takes. */
  ghost predicate Supplied(fmt: string, i: nat, args: seq<Arg>, k: nat)
    requires i <= |fmt|
    decreases |fmt| - i
  {
    match NextStop(fmt, i)
    case End(_) => true
    case Lone(_) => true
    case Full(_, d) => Served(fmt, d, args, k) && Supplied(fmt, d.next, args, k + 1)
  }

  /** The whole output for the format from i on, as far as the directives are served. */
  ghost function Rendered(fmt: string, i: nat, args: seq<Arg>, k: nat): string
    requires i <= |fmt|
    decreases |fmt| - i
  {
    match NextStop(fmt, i)
    case End(m) => fmt[i..m]
    case Lone(m) => fmt[i..m] + "%"
    case Full(m, d) =>
      fmt[i..m] + if Served(fmt, d, args, k) then Shown(d, args[k]) + Rendered(fmt, d.next, args, k + 1) else ""
  }

  lemma Glue(before: string, x: string, y: string, z: string)
    ensures before + (x + y + z) == before + x + y + z && before + (x + y) == before + x + y
  {
  }

  lemma RenderedLast(fmt: string, i: nat, args: seq<Arg>, k: nat, before: string, s: Stop)
    requires i <= |fmt| && k <= |args| && Supplied(fmt, i, args, k) && s == NextStop(fmt, i)
    ensures s.End? ==> before + Rendered(fmt, i, args, k) == before + fmt[i..s.at]
    ensures s.Lone? ==> before + Rendered(fmt, i, args, k) == before + fmt[i..s.at] + "%"
  {
    Glue(before, fmt[i..s.at], "%", "");
  }

  lemma SuppliedNext(fmt: string, i: nat, args: seq<Arg>, k: nat, s: Stop)
    requires i <= |fmt| && k <= |args| && Supplied(fmt, i, args, k) && s == NextStop(fmt, i) && s.Full?
    ensures s.d.next <= |fmt| && k < |args| && Takes(s.d.conv, args[k]) && Supplied(fmt, s.d.next, args, k + 1)
    ensures Rendered(fmt, i, args, k) == fmt[i..s.at] + Shown(s.d, args[k]) + Rendered(fmt, s.d.next, args, k + 1)
  {
  }

  lemma RenderedNext(fmt: string, i: nat, args: seq<Arg>, k: nat, before: string, s: Stop)
    requires i <= |fmt| && k <= |args| && Supplied(fmt, i, args, k) && s == NextStop(fmt, i) && s.Full?
    ensures s.d.next <= |fmt| && k < |args| && Takes(s.d.conv, args[k]) && Supplied(fmt, s.d.next, args, k + 1)
    ensures before + Rendered(fmt, i, args, k)
            == before + fmt[i..s.at] + Shown(s.d, args[k]) + Rendered(fmt, s.d.next, args, k + 1)
  {
    SuppliedNext(fmt, i, args, k, s);
    Glue(before, fmt[i..s.at], Shown(s.d, args[k]), Rendered(fmt, s.d.next, args, k + 1));
  }

  /** Text without a '%' stands for itself. */
  lemma {:induction false} PlainText(fmt: string, args: seq<Arg>)
    requires '%' !in fmt
    ensures Supplied(fmt, 0, args, 0) && Rendered(fmt, 0, args, 0) == fmt
  {
    assert RunEnd(fmt, 0) == |fmt|;
    assert fmt[0..|fmt|] == fmt;
  }

  lemma ExtendedIs(bits: nat, bytes: nat)
    requires bytes in {1, 2, 4, 8} && bits < Size(bytes)
    ensures Extended(bits, bytes) == if bits < Size(bytes) / 2 then bits else bits + TWO64 - Size(bytes)
  {
  }

  /** What %d prints for an operand of any size reads back as the operand's signed value. */
  lemma SignedReadsBack(bits: nat, bytes: nat)
    requires bytes in {1, 2, 4, 8} && bits < Size(bytes)
    ensures var s := Converted('d', bytes, Bits(bits));
            if bits < Size(bytes) / 2 then Value(s, |s|, 10) == bits
            else s[..1] == "-" && Value(s[1..], |s| - 1, 10) == Size(bytes) - bits
  {
    ExtendedIs(bits, bytes);
    SignedValue(Extended(bits, bytes));
  }

  lemma SignedValue(v: nat)
    requires v < TWO64
    ensures var s := SignedText(v, 10);
            if v < TWO64 / 2 then Value(s, |s|, 10) == v else s[..1] == "-" && Value(s[1..], |s| - 1, 10) == TWO64 - v
  {
    if v >= TWO64 / 2 {
      NumeralValue(TWO64 - v, 10, false);
      assert SignedText(v, 10)[1..] == Numeral(TWO64 - v, 10, false);
    } else {
      NumeralValue(v, 10, false);
    }
  }

  // ---- Where it departs from printf ----------------------------------------------------------

  /** %u and %% take an argument and print nothing. */
  lemma NothingPrinted(fmt: string, a: Arg)
    requires fmt == "%u" || fmt == "%%"
    requires a.Bits? && a.bits < TWO64
    ensures Supplied(fmt, 0, [a], 0) && Rendered(fmt, 0, [a], 0) == ""
    ensures !Supplied(fmt, 0, [], 0)
  {
    assert RunEnd(fmt, 0) == 0 && FlagsEnd(fmt, 1) == 1;
    var d := Parsed(fmt, 1, 1);
    assert DigitsEnd(fmt, 1) == 1 && d.conv == fmt[1] && d.next == 2 && d.width == -1;
    assert RunEnd(fmt, 2) == 2;
  }

  /** %o prints the unsigned octal numeral exactly when the operand is not negative as a signed one. */
  lemma OctalIsSigned(bits: nat, bytes: nat)
    requires bytes in {1, 2, 4, 8} && bits < Size(bytes)
    ensures Converted('o', bytes, Bits(bits)) == Numeral(bits, 8, false) <==> bits < Size(bytes) / 2
  {
    ExtendedIs(bits, bytes);
    NumeralIsCanonical(bits, 8, false);
    var s := Numeral(bits, 8, false);
    assert DigitValue(s[0]) >= 0 && s[0] != '-';
  }

  /** Padding as the C standard has it (section 7.21.6.1 of ISO/IEC 9899:2011): zeros go behind the sign,
      and '-' makes '0' ignored. */
  function StandardPadded(s: string, d: Directive): string {
    if d.padLeft then s + Repeat(' ', d.width - |s|)
    else if !d.padZero then Repeat(' ', d.width - |s|) + s
    else if s != "" && s[0] == '-' then "-" + Repeat('0', d.width - |s|) + s[1..]
    else Repeat('0', d.width - |s|) + s
  }

  /** The padding is the standard one except when zeros are asked for, there is room for them, and they
      are to go behind the number or before a sign. */
  lemma PaddingStandardExactly(s: string, d: Directive)
    ensures Padded(s, d) == StandardPadded(s, d) <==>
      !(d.padZero && |s| < d.width && (d.padLeft || (s != "" && s[0] == '-')))
  {
    if d.padZero && |s| < d.width {
      if d.padLeft {
        assert Padded(s, d)[|s|] == '0' && StandardPadded(s, d)[|s|] == ' ';
      } else if s != "" && s[0] == '-' {
        assert Padded(s, d)[0] == '0' && StandardPadded(s, d)[0] == '-';
      }
    } else {
      NoRoom(s, d);
    }
  }

  lemma NoRoom(s: string, d: Directive)
    requires !(d.padZero && |s| < d.width)
    ensures Padded(s, d) == StandardPadded(s, d)
  {
    if d.padZero && s != "" && s[0] == '-' {
      assert s == "-" + "" + s[1..];
    }
  }

  // ---- Conversion ----------------------------------------------------------------------------

  lemma HeldWhole(before: string, b: string, s: string, from: nat, n: nat)
    requires Holds(before, b, s, from, n) && n == |s|
    ensures b[..from + n] == before[..from] + s
  {
    assert b[..from + n] == b[..from] + b[from..from + n];
  }

  /** format_number, from the given place of the buffer on. */
  method FormatFrom(buffer: array<char>, from: nat, value: nat, base: nat, caps: bool) returns (n: nat)
    requires from <= 2 && (base == 8 || base == 10 || base == 16) && value < TWO64 && buffer.Length == 32
    modifies buffer
    ensures from <= n < 32 && buffer[n] == '\0' && buffer[..n] == old(buffer[..from]) + Numeral(value, base, caps)
  {
    NumeralShort(value, base, caps);
    ghost var before, s := buffer[..], Numeral(value, base, caps);
    n := FormatNumber(buffer, from, 32 - from, value, base, caps);
    HeldWhole(before, buffer[..], s, from, n);
    n := from + n;
  }

  /** format_integer, into all of the buffer: the text is in the first n characters. */
  method FormatInteger(buffer: array<char>, value: nat, base: nat, signed: bool) returns (n: nat)
    requires (base == 8 || base == 10) && value < TWO64 && buffer.Length == 32
    modifies buffer
    ensures n < 32 && buffer[n] == '\0'
    ensures buffer[..n] == if signed then SignedText(value, base) else Numeral(value, base, false)
  {
    if signed && value >= TWO64 / 2 {
      buffer[0] := '-';
      assert buffer[..1] == "-";
      n := FormatFrom(buffer, 1, TWO64 - value, base, false);
    } else {
      assert buffer[..0] == "";
      n := FormatFrom(buffer, 0, value, base, false);
    }
  }

  /** The operand as a 64-bit value: converted to its type, and sign-extended if need be. */
  method Operand(a: Arg, bytes: nat, signed: bool) returns (value: nat)
    requires a.Bits? && a.bits < TWO64 && bytes in {1, 2, 4, 8}
    ensures value < TWO64 && value == if signed then Extended(a.bits, bytes) else a.bits % Size(bytes)
  {
    value := a.bits % Size(bytes);
    if signed && value >= Size(bytes) / 2 {
      value := value + TWO64 - Size(bytes);
    }
  }

  /** The conversion of one argument. */
  method Convert(conv: char, bytes: nat, a: Arg) returns (str: string)
    requires Takes(conv, a) && bytes in {1, 2, 4, 8}
    ensures str == Converted(conv, bytes, a)
  {
    if conv == 's' {
      return a.text;
    }
    var buffer := new char[32](_ => '\0');
    if conv == 'c' {
      buffer[0] := (a.bits % 256) as char;
      str := if buffer[0] == '\0' then "" else buffer[..1];
    } else if conv == 'p' {
      buffer[0], buffer[1] := '0', 'x';
      assert buffer[..2] == "0x";
      var n := FormatFrom(buffer, 2, a.bits % TWO32, 16, false);
      str := buffer[..n];
    } else {
      var signed := conv == 'd' || conv == 'i' || conv == 'o';
      var value := Operand(a, bytes, signed);
      str := ConvertInteger(buffer, conv, value, signed);
    }
  }

  method ConvertInteger(buffer: array<char>, conv: char, value: nat, signed: bool) returns (str: string)
    requires value < TWO64 && buffer.Length == 32 && (signed <==> conv == 'd' || conv == 'i' || conv == 'o')
    modifies buffer
    ensures str == if conv == 'd' || conv == 'i' then SignedText(value, 10) else if conv == 'o' then SignedText(value, 8)
                   else if conv == 'x' || conv == 'X' then Numeral(value, 16, conv == 'X') else ""
  {
    var n := 0;
    if conv == 'i' || conv == 'd' {
      n := FormatInteger(buffer, value, 10, signed);
    } else if conv == 'o' {
      n := FormatInteger(buffer, value, 8, signed);
    } else if conv == 'x' || conv == 'X' {
      n := FormatFrom(buffer, 0, value, 16, conv == 'X');
    } else {
      buffer[0] := '\0';
    }
    str := buffer[..n];
  }

  // ---- The bounded buffer --------------------------------------------------------------------

  class BufOut {
    const buffer: array<char>
    var pos: nat
    var end: nat
    var total: nat
    /** All that has been sent. */
    ghost var sent: string

    /** The buffer holds as much of it as fits, with a NUL at its end. */
    ghost predicate Valid()
      reads this, buffer
    {
      && end == buffer.Length - 1 && total == |sent| && pos == Least(|sent|, end)
      && buffer[..pos] == sent[..pos] && buffer[pos] == '\0'
    }

    /** buf_out_init, for a size that is not 0. */
    constructor (buffer: array<char>)
      requires buffer.Length > 0
      modifies buffer
      ensures Valid() && sent == "" && this.buffer == buffer
    {
      this.buffer, pos, end, total, sent := buffer, 0, buffer.Length - 1, 0, "";
      new;
      buffer[0] := '\0';
    }

    /** buf_out_send. */
    method Send(data: string)
      requires Valid()
      modifies this`pos, this`total, this`sent, buffer
      ensures Valid() && sent == old(sent) + data
    {
      var len := |data|;
      total := total + len;
      ghost var was := sent;
      sent := sent + data;
      while len > 0
        invariant 0 <= len <= |data| && pos <= end == buffer.Length - 1
        invariant sent == was + data && total == |sent| && pos <= |sent|
        invariant buffer[..pos] == sent[..pos] && buffer[pos] == '\0'
        invariant if len == |data| then pos == Least(|was|, end)
          else pos == Least(|sent|, end) && (len == 0 || pos == end)
      {
        var avail := end - pos;
        if avail == 0 {
          break;
        }
        if avail > len {
          avail := len;
        }
        Copy(data, avail);
        pos := pos + avail;
        buffer[pos] := '\0';
        len := len - avail;
      }
    }

    /** The first n characters of data go to pos. */
    method Copy(data: string, n: nat)
      requires n <= |data| && pos + n < buffer.Length
      modifies buffer
      ensures buffer[..pos + n] == old(buffer[..pos]) + data[..n]
    {
      for i := 0 to n
        invariant buffer[..pos + i] == old(buffer[..pos]) + data[..i]
      {
        buffer[pos + i] := data[i];
        assert buffer[..pos + i + 1] == buffer[..pos + i] + [data[i]];
        assert data[..i + 1] == data[..i] + [data[i]];
      }
    }

    /** out_send_repeat, eight characters at a time. */
    method SendRepeat(c: char, count: int)
      requires Valid()
      modifies this`pos, this`total, this`sent, buffer
      ensures Valid() && sent == old(sent) + Repeat(c, count)
    {
      var left := count;
      assert Repeat(c, 0) == "";
      while left > 0
        invariant Valid() && (count > 0 ==> 0 <= left <= count) && (count <= 0 ==> left == count)
        invariant sent == old(sent) + Repeat(c, if count > 0 then count - left else 0)
      {
        var avail := if left > 8 then 8 else left;
        Send(Repeat(c, avail));
        assert Repeat(c, count - left) + Repeat(c, avail) == Repeat(c, count - left + avail);
        left := left - avail;
      }
    }

    /** The tail of out_vformat's loop. */
    method SendPadded(str: string, d: Directive)
      requires Valid()
      modifies this`pos, this`total, this`sent, buffer
      ensures Valid() && sent == old(sent) + Padded(str, d)
    {
      var padChar := if d.padZero then '0' else ' ';
      if |str| < d.width && !d.padLeft {
        SendRepeat(padChar, d.width - |str|);
      }
      Send(str);
      if |str| < d.width && d.padLeft {
        SendRepeat(padChar, d.width - |str|);
      }
    }

    /** The directive after a '%': its flags up to e have been read. */
    method ReadDirective(fmt: string, i: nat, e: nat, padZero: bool, padLeft: bool) returns (d: Directive)
      requires i <= e <= |fmt| && Parsed(fmt, i, e).next <= |fmt| && padZero == ('0' in fmt[i..e])
               && padLeft == ('-' in fmt[i..e])
      requires e < |fmt| && !IsFlag(fmt[e])
      ensures d == Parsed(fmt, i, e)
    {
      var width, prec := -1, -1;
      var nn := e;
      var c := At(fmt, nn);
      nn := nn + 1;
      if IsDecimal(c) {
        nn := nn - 1;
        var w;
        w, nn := ParseDecimal(fmt, nn);
        width := AsInt(w);
        c := At(fmt, nn);
        nn := nn + 1;
      }
      assert nn == DigitsEnd(fmt, e) + 1;
      if c == '.' {
        var p;
        p, nn := ParseDecimal(fmt, nn);
        prec := AsInt(p);
        c := At(fmt, nn);
        nn := nn + 1;
      }
      var bytes := 4;
      if c == 'h' {
        bytes := 2;
        if At(fmt, nn) == 'h' {
          bytes := 1;
          nn := nn + 1;
        }
        c := At(fmt, nn);
        nn := nn + 1;
      } else if c == 'l' {
        if At(fmt, nn) == 'l' {
          bytes := 8;
          nn := nn + 1;
        }
        c := At(fmt, nn);
        nn := nn + 1;
      } else if c == 'z' || c == 't' {
        c := At(fmt, nn);
        nn := nn + 1;
      }
      d := Directive(padZero, padLeft, width, bytes, c, nn);
    }

    /** The flags after a '%'. */
    method ReadFlags(fmt: string, i: nat) returns (e: nat, padZero: bool, padLeft: bool)
      requires i <= |fmt|
      ensures e == FlagsEnd(fmt, i) && padZero == ('0' in fmt[i..e]) && padLeft == ('-' in fmt[i..e])
      ensures e < |fmt| ==> !IsFlag(fmt[e])
    {
      e, padZero, padLeft := i, false, false;
      while e < |fmt| && IsFlag(fmt[e])
        invariant i <= e <= |fmt| && FlagsEnd(fmt, i) == FlagsEnd(fmt, e)
        invariant padZero == ('0' in fmt[i..e]) && padLeft == ('-' in fmt[i..e])
      {
        assert fmt[i..e + 1] == fmt[i..e] + [fmt[e]];
        if fmt[e] == '0' {
          padZero := true;
        } else if fmt[e] == '-' {
          padLeft := true;
        }
        e := e + 1;
      }
    }

    /** What lies before the next '%'. */
    method SendRun(fmt: string, nn: nat) returns (mm: nat)
      requires Valid() && nn <= |fmt|
      modifies this`pos, this`total, this`sent, buffer
      ensures Valid() && mm == RunEnd(fmt, nn) && sent == old(sent) + fmt[nn..mm]
    {
      mm := nn;
      while mm < |fmt| && fmt[mm] != '%'
        invariant nn <= mm <= |fmt| && RunEnd(fmt, nn) == RunEnd(fmt, mm)
      {
        mm := mm + 1;
      }
      if mm > nn {
        Send(fmt[nn..mm]);
      }
    }

    /** One round of out_vformat's loop: over says that it was the last. */
    method Round(fmt: string, nn: nat, args: seq<Arg>, k: nat, ghost goal: string)
      returns (over: bool, nn': nat, k': nat)
      requires Valid() && nn <= |fmt| && k <= |args| && Supplied(fmt, nn, args, k)
               && goal == sent + Rendered(fmt, nn, args, k)
      modifies this`pos, this`total, this`sent, buffer
      ensures Valid()
      ensures over ==> sent == goal
      ensures !over ==> nn < nn' <= |fmt| && k' <= |args| && Supplied(fmt, nn', args, k') && goal == sent + Rendered(fmt, nn', args, k')
    {
      over, nn', k' := true, nn, k;
      ghost var stop, was := NextStop(fmt, nn), sent;
      RenderedLast(fmt, nn, args, k, was, stop);
      var mm := SendRun(fmt, nn);
      if mm == |fmt| {
        return;
      }
      var e, padZero, padLeft := ReadFlags(fmt, mm + 1);
      if e == |fmt| {
        Send("%");
        return;
      }
      RenderedNext(fmt, nn, args, k, was, stop);
      var d := ReadDirective(fmt, mm + 1, e, padZero, padLeft);
      SendDirective(d, args[k]);
      over, nn', k' := false, d.next, k + 1;
    }

    method SendDirective(d: Directive, a: Arg)
      requires Valid() && Takes(d.conv, a) && d.bytes in {1, 2, 4, 8}
      modifies this`pos, this`total, this`sent, buffer
      ensures Valid() && sent == old(sent) + Shown(d, a)
    {
      var str := Convert(d.conv, d.bytes, a);
      SendPadded(str, d);
    }

    /** out_vformat. */
    method Vformat(fmt: string, args: seq<Arg>)
      requires Valid() && Supplied(fmt, 0, args, 0)
      modifies this`pos, this`total, this`sent, buffer
      ensures Valid() && sent == old(sent) + Rendered(fmt, 0, args, 0)
    {
      ghost var goal := sent + Rendered(fmt, 0, args, 0);
      var over, nn: nat, k: nat := false, 0, 0;
      while !over
        invariant Valid()
        invariant if over then sent == goal
          else nn <= |fmt| && k <= |args| && Supplied(fmt, nn, args, k) && goal == sent + Rendered(fmt, nn, args, k)
        decreases !over, |fmt| - nn
      {
        over, nn, k := Round(fmt, nn, args, k, goal);
      }
    }
  }

  /** vformat_buffer: the result is the length of the whole output, of which the buffer holds as much
      as fits before its NUL. */
  method VformatBuffer(buffer: array<char>, fmt: string, args: seq<Arg>) returns (n: nat)
    requires Supplied(fmt, 0, args, 0)
    modifies buffer
    ensures var out := Rendered(fmt, 0, args, 0);
            if buffer.Length == 0 then n == 0 else
              var m := Least(|out|, buffer.Length - 1);
              n == |out| && buffer[..m] == out[..m] && buffer[m] == '\0'
  {
    if buffer.Length == 0 {
      return 0;
    }
    var out := new BufOut(buffer);
    out.Vformat(fmt, args);
    assert "" + Rendered(fmt, 0, args, 0) == Rendered(fmt, 0, args, 0);
    n := out.total;
  }
}
