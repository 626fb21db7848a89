/** What formats print, said of the text of the format: a written directive reads back as its parts, each
    conversion says what it sends of its argument, and a format is printed piece by piece. */
module FormatterMeaning {
  import opened Formatter

  // ---- A directive as it is written ----------------------------------------------------------

  /** The letters between precision and conversion, and the operand's size in bytes that they stand for. */
  predicate IsSize(letters: string, bytes: nat) {
    || (letters == "hh" && bytes == 1)
    || (letters == "h" && bytes == 2)
    || (letters in {"", "l", "z", "t"} && bytes == 4)
    || (letters == "ll" && bytes == 8)
  }

  /** The number of values that an operand of that size can have. */
  function Values(bytes: nat): nat {
    if bytes == 0 then 1 else 256 * Values(bytes - 1)
  }

  predicate IsFlags(s: string) {
    forall k :: 0 <= k < |s| ==> IsFlag(s[k])
  }

  /** No width is written for 0. */
  function WidthText(width: nat): string {
    if width == 0 then "" else Numeral(width, 10, false)
  }

  predicate IsPrecision(s: string) {
    s == "" || (s[0] == '.' && forall k :: 1 <= k < |s| ==> IsDecimal(s[k]))
  }

  /** A character that ends a directive. */
  predicate IsConversion(c: char) {
    !IsFlag(c) && !IsDecimal(c) && c != '.' && c != 'h' && c != 'l' && c != 'z' && c != 't'
  }

  lemma {:induction false} FlagsEndIs(fmt: string, i: nat, e: nat)
    requires i <= e <= |fmt| && (forall k :: i <= k < e ==> IsFlag(fmt[k])) && (e < |fmt| ==> !IsFlag(fmt[e]))
    ensures FlagsEnd(fmt, i) == e
    decreases e - i
  {
    if i < e {
      FlagsEndIs(fmt, i + 1, e);
    }
  }

  ghost predicate StandsAt(fmt: string, i: nat, s: string) {
    i + |s| <= |fmt| && forall k {:trigger s[k]} :: 0 <= k < |s| ==> fmt[i + k] == s[k]
  }

  /** A width is read back. */
  lemma WidthRead(fmt: string, i: nat, width: nat)
    requires width < TWO32 / 2 && StandsAt(fmt, i, WidthText(width)) && i + |WidthText(width)| < |fmt|
    requires !IsDecimal(fmt[i + |WidthText(width)|])
    ensures DigitsEnd(fmt, i) == i + |WidthText(width)| && Width(fmt, i) == if width == 0 then -1 else width
  {
    if width > 0 {
      assert fmt[i..i + |WidthText(width)|] == Numeral(width, 10, false);
      ParseInverts(width, fmt, i);
    }
  }

  /** It does not start with a flag. */
  lemma WidthStart(width: nat)
    requires width > 0
    ensures IsDecimal(WidthText(width)[0]) && !IsFlag(WidthText(width)[0])
  {
    NumeralIsCanonical(width, 10, false);
    DecimalDigit(width, 0);
  }

  lemma LettersRead(fmt: string, i: nat, letters: string, bytes: nat)
    requires IsSize(letters, bytes) && StandsAt(fmt, i, letters) && i + |letters| < |fmt|
    requires IsConversion(fmt[i + |letters|])
    ensures Length(fmt, i) == (bytes, i + |letters|)
    ensures !IsFlag(fmt[i]) && !IsDecimal(fmt[i]) && fmt[i] != '.'
  {
    assert letters != "" ==> fmt[i] == letters[0];
    assert |letters| == 2 ==> fmt[i + 1] == letters[1];
  }

  lemma PrecisionRead(fmt: string, i: nat, precision: string)
    requires IsPrecision(precision) && StandsAt(fmt, i, precision) && i + |precision| < |fmt|
    requires !IsDecimal(fmt[i + |precision|]) && !IsFlag(fmt[i + |precision|]) && fmt[i + |precision|] != '.'
    ensures PrecisionEnd(fmt, i) == i + |precision| && !IsDecimal(fmt[i]) && !IsFlag(fmt[i])
  {
    if precision != "" {
      assert fmt[i] == precision[0];
      forall k | i + 1 <= k < i + |precision| ensures IsDecimal(fmt[k]) {
        assert fmt[i + (k - i)] == precision[k - i];
      }
      DigitsEndIs(fmt, i + 1, i + |precision|);
    }
  }

  lemma FlagsRead(fmt: string, i: nat, flags: string)
    requires IsFlags(flags) && StandsAt(fmt, i, flags) && i + |flags| < |fmt| && !IsFlag(fmt[i + |flags|])
    ensures FlagsEnd(fmt, i) == i + |flags| && fmt[i..i + |flags|] == flags
  {
    forall k | i <= k < i + |flags| ensures IsFlag(fmt[k]) {
      assert fmt[i + (k - i)] == flags[k - i];
    }
    FlagsEndIs(fmt, i, i + |flags|);
  }

  /** The format is one directive, written with these parts. */
  ghost predicate IsWritten(fmt: string, flags: string, width: nat, precision: string, letters: string, conv: char) {
    var w := 1 + |flags|;
    var p := w + |WidthText(width)|;
    var l := p + |precision|;
    && |fmt| == l + |letters| + 1 && fmt[0] == '%' && fmt[|fmt| - 1] == conv && StandsAt(fmt, 1, flags)
    && StandsAt(fmt, w, WidthText(width)) && StandsAt(fmt, p, precision) && StandsAt(fmt, l, letters)
  }

  /** What follows the flags. */
  lemma RestReads(fmt: string, w: nat, width: nat, precision: string, letters: string, bytes: nat)
    requires width < TWO32 / 2 && IsPrecision(precision) && IsSize(letters, bytes)
    requires var p := w + |WidthText(width)|; var l := p + |precision|;
             && StandsAt(fmt, w, WidthText(width)) && StandsAt(fmt, p, precision) && StandsAt(fmt, l, letters)
             && |fmt| == l + |letters| + 1 && IsConversion(fmt[|fmt| - 1])
    ensures !IsFlag(fmt[w]) && Width(fmt, w) == (if width == 0 then -1 else width)
            && Length(fmt, PrecisionEnd(fmt, DigitsEnd(fmt, w))) == (bytes, |fmt| - 1)
  {
    var p := w + |WidthText(width)|;
    LettersRead(fmt, p + |precision|, letters, bytes);
    PrecisionRead(fmt, p, precision);
    WidthRead(fmt, w, width);
    if width > 0 {
      WidthStart(width);
      assert fmt[w + 0] == WidthText(width)[0];
    }
  }

  lemma ParsedIs(fmt: string, e: nat, flags: string, width: int, bytes: nat, conv: char)
    requires 1 <= e < |fmt| && fmt[1..e] == flags && Width(fmt, e) == width && fmt[|fmt| - 1] == conv
    requires Length(fmt, PrecisionEnd(fmt, DigitsEnd(fmt, e))) == (bytes, |fmt| - 1)
    ensures Parsed(fmt, 1, e) == Directive('0' in flags, '-' in flags, width, bytes, conv, |fmt|)
  {
  }

  lemma PartsRead(fmt: string, flags: string, width: nat, precision: string, letters: string, bytes: nat, conv: char)
    requires IsFlags(flags) && width < TWO32 / 2 && IsPrecision(precision) && IsSize(letters, bytes) && IsConversion(conv)
    requires IsWritten(fmt, flags, width, precision, letters, conv)
    ensures RunEnd(fmt, 0) == 0 && FlagsEnd(fmt, 1) == 1 + |flags| < |fmt|
    ensures Parsed(fmt, 1, 1 + |flags|)
            == Directive('0' in flags, '-' in flags, if width == 0 then -1 else width, bytes, conv, |fmt|)
  {
    RestReads(fmt, 1 + |flags|, width, precision, letters, bytes);
    FlagsRead(fmt, 1, flags);
    ParsedIs(fmt, 1 + |flags|, flags, if width == 0 then -1 else width, bytes, conv);
  }

  lemma StopIs(fmt: string, m: nat, e: nat, d: Directive)
    requires RunEnd(fmt, 0) == m < |fmt| && FlagsEnd(fmt, m + 1) == e < |fmt| && Parsed(fmt, m + 1, e) == d
    ensures NextStop(fmt, 0) == Full(m, d)
  {
  }

  /** What a written directive reads as: its flags, its width, its size and its conversion. */
  lemma DirectiveReads(fmt: string, flags: string, width: nat, precision: string, letters: string, bytes: nat, conv: char)
    requires IsFlags(flags) && width < TWO32 / 2 && IsPrecision(precision) && IsSize(letters, bytes) && IsConversion(conv)
    requires IsWritten(fmt, flags, width, precision, letters, conv)
    ensures NextStop(fmt, 0) == Full(0,
              Directive('0' in flags, '-' in flags, if width == 0 then -1 else width, bytes, conv, |fmt|))
  {
    PartsRead(fmt, flags, width, precision, letters, bytes, conv);
    StopIs(fmt, 0, 1 + |flags|, Parsed(fmt, 1, 1 + |flags|));
  }

  // ---- A format within a longer one ----------------------------------------------------------

  /** g stands at n in the format, and ends with it, unless something ends before. */
  ghost predicate Within(fmt: string, n: nat, g: string, end: nat) {
    StandsAt(fmt, n, g) && (n + |g| == |fmt| || end < |g|)
  }

  lemma AtWithin(fmt: string, n: nat, g: string, i: nat)
    requires StandsAt(fmt, n, g) && (n + |g| == |fmt| || i < |g|)
    ensures At(fmt, n + i) == At(g, i)
  {
    assert i < |g| ==> fmt[n + i] == g[i];
  }

  lemma {:induction false} DigitsWithin(fmt: string, n: nat, g: string, i: nat)
    requires Within(fmt, n, g, DigitsEnd(g, i))
    ensures DigitsEnd(fmt, n + i) == n + DigitsEnd(g, i)
    decreases |g| - i
  {
    if i < |g| {
      assert fmt[n + i] == g[i];
      if IsDecimal(g[i]) {
        DigitsWithin(fmt, n, g, i + 1);
      }
    }
  }

  lemma {:induction false} FlagsWithin(fmt: string, n: nat, g: string, i: nat)
    requires i <= |g| && Within(fmt, n, g, FlagsEnd(g, i))
    ensures FlagsEnd(fmt, n + i) == n + FlagsEnd(g, i)
    decreases |g| - i
  {
    if i < |g| {
      assert fmt[n + i] == g[i];
      if IsFlag(g[i]) {
        FlagsWithin(fmt, n, g, i + 1);
      }
    }
  }

  lemma {:induction false} RunWithin(fmt: string, n: nat, g: string, i: nat)
    requires i <= |g| && Within(fmt, n, g, RunEnd(g, i))
    ensures RunEnd(fmt, n + i) == n + RunEnd(g, i)
    decreases |g| - i
  {
    if i < |g| {
      assert fmt[n + i] == g[i];
      if g[i] != '%' {
        RunWithin(fmt, n, g, i + 1);
      }
    }
  }

  lemma {:induction false} DecimalWithin(fmt: string, n: nat, g: string, i: nat, e: nat)
    requires i <= e <= |g| && StandsAt(fmt, n, g)
    ensures Decimal(fmt, n + i, n + e) == Decimal(g, i, e)
    decreases e
  {
    if i < e {
      assert fmt[n + (e - 1)] == g[e - 1];
      DecimalWithin(fmt, n, g, i, e - 1);
    }
  }

  lemma WidthWithin(fmt: string, n: nat, g: string, i: nat)
    requires i <= |g| && Within(fmt, n, g, DigitsEnd(g, i))
    ensures Width(fmt, n + i) == Width(g, i)
  {
    DigitsWithin(fmt, n, g, i);
    DecimalWithin(fmt, n, g, i, DigitsEnd(g, i));
  }

  lemma LengthWithin(fmt: string, n: nat, g: string, i: nat)
    requires i <= |g| && Within(fmt, n, g, Length(g, i).1)
    ensures Length(fmt, n + i) == (Length(g, i).0, n + Length(g, i).1)
  {
    AtWithin(fmt, n, g, i);
    if At(g, i) == 'h' || At(g, i) == 'l' {
      AtWithin(fmt, n, g, i + 1);
    }
  }

  lemma PrecisionWithin(fmt: string, n: nat, g: string, i: nat)
    requires i <= |g| && Within(fmt, n, g, PrecisionEnd(g, i))
    ensures PrecisionEnd(fmt, n + i) == n + PrecisionEnd(g, i)
  {
    AtWithin(fmt, n, g, i);
    if At(g, i) == '.' {
      DigitsWithin(fmt, n, g, i + 1);
    }
  }

  lemma SliceWithin(fmt: string, n: nat, g: string, i: nat, e: nat)
    requires StandsAt(fmt, n, g) && i <= e <= |g|
    ensures fmt[n + i..n + e] == g[i..e]
  {
    forall k | i <= k < e ensures fmt[n + k] == g[k] {
    }
  }

  ghost function Moved(d: Directive, n: nat): Directive {
    d.(next := n + d.next)
  }

  ghost function MovedStop(s: Stop, n: nat): Stop {
    match s
    case End(m) => End(n + m)
    case Lone(m) => Lone(n + m)
    case Full(m, d) => Full(n + m, Moved(d, n))
  }

  lemma ParsedWithin(fmt: string, n: nat, g: string, i: nat, e: nat)
    requires i <= e <= |g| && Within(fmt, n, g, Parsed(g, i, e).next - 1)
    ensures Parsed(fmt, n + i, n + e) == Moved(Parsed(g, i, e), n)
  {
    var w := DigitsEnd(g, e);
    var p := PrecisionEnd(g, w);
    DigitsWithin(fmt, n, g, e);
    WidthWithin(fmt, n, g, e);
    PrecisionWithin(fmt, n, g, w);
    LengthWithin(fmt, n, g, p);
    AtWithin(fmt, n, g, Length(g, p).1);
    SliceWithin(fmt, n, g, i, e);
  }

  /** The end of a format stops where the format does. */
  lemma StopWithin(fmt: string, n: nat, g: string, i: nat)
    requires i <= |g| && StandsAt(fmt, n, g) && n + |g| == |fmt|
    ensures NextStop(fmt, n + i) == MovedStop(NextStop(g, i), n)
  {
    RunWithin(fmt, n, g, i);
    var m := RunEnd(g, i);
    if m < |g| {
      FlagsWithin(fmt, n, g, m + 1);
      var e := FlagsEnd(g, m + 1);
      if e < |g| {
        ParsedWithin(fmt, n, g, m + 1, e);
      }
    }
  }

  /** A format taken to pieces: text, and directives with the text before them. */
  datatype Script =
    | Last(text: string)
    | LastPercent(text: string)
    | Broken(text: string)
    | Then(text: string, d: Directive, rest: Script)

  function Placeless(d: Directive): Directive {
    d.(next := 0)
  }

  /** The next stop; a parameter below, so that the proofs about pieces need not look into it. */
  type Stops = (string, nat) -> Stop

  function StopAt(fmt: string, i: nat): Stop {
    if i <= |fmt| then NextStop(fmt, i) else End(i)
  }

  ghost function ScriptOf(stops: Stops, fmt: string, i: nat): Script
    requires i <= |fmt|
    decreases |fmt| - i
  {
    var s := stops(fmt, i);
    var text := if i <= s.at <= |fmt| then fmt[i..s.at] else "";
    match s
    case End(_) => Last(text)
    case Lone(_) => LastPercent(text)
    case Full(_, d) =>
      if i < d.next <= |fmt| then Then(text, Placeless(d), ScriptOf(stops, fmt, d.next)) else Broken(text)
  }

  /** In fmt, from n on, the stops are those of g. */
  ghost predicate SameStops(stops: Stops, fmt: string, n: nat, g: string) {
    && n + |g| == |fmt| && StandsAt(fmt, n, g)
    && forall i: nat {:trigger stops(g, i)} :: i <= |g| ==> stops(fmt, n + i) == MovedStop(stops(g, i), n)
  }

  /** The end of a format has the same pieces wherever it stands. */
  lemma {:induction false} ScriptWithin(stops: Stops, fmt: string, n: nat, g: string, i: nat)
    requires i <= |g| && SameStops(stops, fmt, n, g)
    ensures ScriptOf(stops, fmt, n + i) == ScriptOf(stops, g, i)
    decreases |g| - i
  {
    var s := stops(g, i);
    if i <= s.at <= |g| {
      SliceWithin(fmt, n, g, i, s.at);
    }
    if s.Full? && i < s.d.next <= |g| {
      ScriptWithin(stops, fmt, n, g, s.d.next);
    }
  }

  predicate Serves(d: Directive, args: seq<Arg>) {
    d.bytes in {1, 2, 4, 8} && args != [] && Takes(d.conv, args[0])
  }

  /** What the pieces print, each directive with one argument. */
  function Played(s: Script, args: seq<Arg>): string {
    match s
    case Last(text) => text
    case LastPercent(text) => text + "%"
    case Broken(text) => text
    case Then(text, d, rest) => text + if Serves(d, args) then Shown(d, args[0]) + Played(rest, args[1..]) else ""
  }

  predicate Complete(s: Script, args: seq<Arg>) {
    match s
    case Last(_) => true
    case LastPercent(_) => true
    case Broken(_) => false
    case Then(_, d, rest) => Serves(d, args) && Complete(rest, args[1..])
  }

  lemma PlacelessShown(d: Directive, a: Arg)
    requires Takes(d.conv, a) && d.bytes in {1, 2, 4, 8}
    ensures Shown(Placeless(d), a) == Shown(d, a)
  {
  }

  /** A format prints what its pieces print. */
  lemma {:induction false} RenderedIsPlayed(fmt: string, i: nat, args: seq<Arg>, k: nat)
    requires i <= |fmt| && k <= |args|
    ensures Rendered(fmt, i, args, k) == Played(ScriptOf(StopAt, fmt, i), args[k..])
    decreases |fmt| - i
  {
    var s := NextStop(fmt, i);
    if s.Full? && Served(fmt, s.d, args, k) {
      assert args[k..][0] == args[k] && args[k..][1..] == args[k + 1..];
      PlacelessShown(s.d, args[k]);
      RenderedIsPlayed(fmt, s.d.next, args, k + 1);
    }
  }

  lemma {:induction false} SuppliedIsComplete(fmt: string, i: nat, args: seq<Arg>, k: nat)
    requires i <= |fmt| && k <= |args|
    ensures Supplied(fmt, i, args, k) <==> Complete(ScriptOf(StopAt, fmt, i), args[k..])
    decreases |fmt| - i
  {
    var s := NextStop(fmt, i);
    if s.Full? && Served(fmt, s.d, args, k) {
      assert args[k..][0] == args[k] && args[k..][1..] == args[k + 1..];
      SuppliedIsComplete(fmt, s.d.next, args, k + 1);
    }
  }

  lemma {:induction false} RunOver(fmt: string, i: nat, m: nat)
    requires i <= m < |fmt| && '%' !in fmt[i..m] && fmt[m] == '%'
    ensures RunEnd(fmt, i) == m
    decreases m - i
  {
    if i < m {
      assert fmt[i] in fmt[i..m] && fmt[i + 1..m] == fmt[i..m][1..];
      RunOver(fmt, i + 1, m);
    }
  }

  /** The first stop behind some text is the directive that follows it. */
  lemma StopBehind(fmt: string, text: string, g: string, d: Directive)
    requires '%' !in text && StandsAt(fmt, 0, text) && StandsAt(fmt, |text|, g)
    requires NextStop(g, 0) == Full(0, d) && d.next <= |g|
    ensures NextStop(fmt, 0) == Full(|text|, Moved(d, |text|)) && fmt[..|text|] == text
  {
    var n := |text|;
    assert fmt[n + 0] == g[0] == '%';
    SliceWithin(fmt, 0, text, 0, n);
    RunOver(fmt, 0, n);
    var e := FlagsEnd(g, 1);
    FlagsWithin(fmt, n, g, 1);
    ParsedWithin(fmt, n, g, 1, e);
  }

  lemma ScriptBehind(stops: Stops, fmt: string, text: string, d: Directive, rest: string)
    requires stops(fmt, 0) == Full(|text|, d) && 0 < d.next <= |fmt| && |text| <= |fmt| && fmt[..|text|] == text
    requires SameStops(stops, fmt, d.next, rest)
    ensures ScriptOf(stops, fmt, 0) == Then(text, Placeless(d), ScriptOf(stops, rest, 0))
  {
    ScriptWithin(stops, fmt, d.next, rest, 0);
  }

  lemma StopsSame(fmt: string, n: nat, g: string)
    requires StandsAt(fmt, n, g) && n + |g| == |fmt|
    ensures SameStops(StopAt, fmt, n, g)
  {
    forall i: nat | i <= |g| ensures StopAt(fmt, n + i) == MovedStop(StopAt(g, i), n) {
      StopWithin(fmt, n, g, i);
    }
  }

  ghost predicate IsJoined(fmt: string, text: string, g: string, rest: string) {
    && |fmt| == |text| + |g| + |rest|
    && StandsAt(fmt, 0, text) && StandsAt(fmt, |text|, g) && StandsAt(fmt, |text| + |g|, rest)
  }

  lemma Joined(text: string, g: string, rest: string)
    ensures IsJoined(text + g + rest, text, g, rest)
  {
  }

  /** The pieces of text, a directive, and more. */
  lemma ScriptParts(fmt: string, text: string, g: string, d: Directive, rest: string)
    requires '%' !in text && StopAt(g, 0) == Full(0, d) && d.next == |g| && IsJoined(fmt, text, g, rest)
    ensures ScriptOf(StopAt, fmt, 0) == Then(text, Placeless(d), ScriptOf(StopAt, rest, 0))
  {
    StopBehind(fmt, text, g, d);
    StopsSame(fmt, |text| + |g|, rest);
    ScriptBehind(StopAt, fmt, text, Moved(d, |text|), rest);
  }

  /** A format is printed piece by piece: the text before a directive, what the directive makes of the next
      argument, and then the rest with the other arguments. */
  lemma PieceByPiece(text: string, g: string, d: Directive, rest: string, a: Arg, args: seq<Arg>)
    requires '%' !in text && NextStop(g, 0) == Full(0, d) && d.next == |g| && Takes(d.conv, a)
    ensures var fmt := text + g + rest;
            && (Supplied(fmt, 0, [a] + args, 0) <==> Supplied(rest, 0, args, 0))
            && Rendered(fmt, 0, [a] + args, 0) == text + (Shown(d, a) + Rendered(rest, 0, args, 0))
  {
    var fmt, all := text + g + rest, [a] + args;
    Joined(text, g, rest);
    ScriptParts(fmt, text, g, d, rest);
    PlacelessShown(d, a);
    assert all[0..] == all && all[1..] == args && args[0..] == args;
    RenderedIsPlayed(fmt, 0, all, 0);
    RenderedIsPlayed(rest, 0, args, 0);
    SuppliedIsComplete(fmt, 0, all, 0);
    SuppliedIsComplete(rest, 0, args, 0);
  }

  /** A '%' that nothing but flags follows is printed for itself, and the flags are not. */
  lemma LonePercent(text: string, flags: string)
    requires '%' !in text && IsFlags(flags)
    ensures var fmt := text + "%" + flags; Supplied(fmt, 0, [], 0) && Rendered(fmt, 0, [], 0) == text + "%"
  {
    var fmt := text + "%" + flags;
    assert fmt[0..|text|] == text && fmt[|text|] == '%';
    RunOver(fmt, 0, |text|);
    forall k | |text| + 1 <= k < |fmt| ensures IsFlag(fmt[k]) {
      assert fmt[k] == flags[k - |text| - 1];
    }
    FlagsEndIs(fmt, |text| + 1, |fmt|);
  }

  // ---- What the conversions send -------------------------------------------------------------

  lemma OnlyOne(fmt: string, d: Directive, a: Arg)
    requires NextStop(fmt, 0) == Full(0, d) && d.next == |fmt| && d.width == -1 && Takes(d.conv, a)
    ensures Supplied(fmt, 0, [a], 0) && Rendered(fmt, 0, [a], 0) == Converted(d.conv, d.bytes, a)
  {
    assert NextStop(fmt, |fmt|) == End(|fmt|);
  }

  /** A directive by itself, without flags and width, sends what its conversion makes of the argument. */
  lemma AloneShown(letters: string, bytes: nat, conv: char, a: Arg)
    requires IsSize(letters, bytes) && IsConversion(conv) && Takes(conv, a)
    ensures var fmt := "%" + letters + [conv];
            Supplied(fmt, 0, [a], 0) && Rendered(fmt, 0, [a], 0) == Converted(conv, bytes, a)
  {
    var fmt := "%" + letters + [conv];
    DirectiveReads(fmt, "", 0, "", letters, bytes, conv);
    OnlyOne(fmt, NextStop(fmt, 0).d, a);
  }

  lemma TextShown(letters: string, bytes: nat, text: string)
    requires IsSize(letters, bytes) && '\0' !in text
    ensures var fmt := "%" + letters + "s"; Supplied(fmt, 0, [Text(text)], 0) && Rendered(fmt, 0, [Text(text)], 0) == text
  {
    AloneShown(letters, bytes, 's', Text(text));
  }

  /** The character is the argument's lowest byte. */
  lemma CharacterShown(letters: string, bytes: nat, bits: nat)
    requires IsSize(letters, bytes) && bits < TWO64
    ensures var fmt := "%" + letters + "c";
            Supplied(fmt, 0, [Bits(bits)], 0)
            && var s := Rendered(fmt, 0, [Bits(bits)], 0);
               if bits % 256 == 0 then s == "" else |s| == 1 && s[0] as int == bits % 256
  {
    AloneShown(letters, bytes, 'c', Bits(bits));
  }

  /** A digit that a hexadecimal conversion may print. */
  predicate IsHexDigit(c: char, caps: bool) {
    IsDecimal(c) || (if caps then 'A' <= c <= 'F' else 'a' <= c <= 'f')
  }

  lemma {:induction false} HexDigits(v: nat, base: nat, caps: bool)
    requires 2 <= base <= 16
    ensures forall k :: 0 <= k < |Numeral(v, base, caps)| ==> IsHexDigit(Numeral(v, base, caps)[k], caps)
    decreases v
  {
    NumeralNext(v, base, caps);
    var s := Numeral(v, base, caps);
    if v >= base {
      HexDigits(Quot(v, base), base, caps);
      forall k | 0 <= k < |s| ensures IsHexDigit(s[k], caps) {
        assert k < |s| - 1 ==> s[k] == s[..|s| - 1][k];
      }
    }
  }

  /** s is v in hexadecimal. */
  ghost predicate IsHex(s: string, v: nat, caps: bool) {
    && Value(s, |s|, 16) == v && (|s| > 1 ==> s[0] != '0')
    && forall k {:trigger s[k]} :: 0 <= k < |s| ==> IsHexDigit(s[k], caps)
  }

  lemma NumeralIsHex(v: nat, caps: bool)
    ensures IsHex(Numeral(v, 16, caps), v, caps)
  {
    NumeralValue(v, 16, caps);
    NumeralIsCanonical(v, 16, caps);
    HexDigits(v, 16, caps);
  }

  /** The hexadecimal digits stand for the argument, cut to the operand's size. */
  lemma HexShown(letters: string, bytes: nat, bits: nat, conv: char)
    requires IsSize(letters, bytes) && bits < TWO64 && (conv == 'x' || conv == 'X')
    ensures var fmt := "%" + letters + [conv];
            Supplied(fmt, 0, [Bits(bits)], 0) && IsHex(Rendered(fmt, 0, [Bits(bits)], 0), bits % Values(bytes), conv == 'X')
  {
    AloneShown(letters, bytes, conv, Bits(bits));
    ValuesAre(bytes);
    NumeralIsHex(bits % Size(bytes), conv == 'X');
  }

  lemma PointerShown(letters: string, bytes: nat, bits: nat)
    requires IsSize(letters, bytes) && bits < TWO64
    ensures var fmt := "%" + letters + "p";
            Supplied(fmt, 0, [Bits(bits)], 0)
            && var s := Rendered(fmt, 0, [Bits(bits)], 0);
               |s| > 2 && s[..2] == "0x" && IsHex(s[2..], bits % TWO32, false)
  {
    AloneShown(letters, bytes, 'p', Bits(bits));
    var t := Numeral(bits % TWO32, 16, false);
    NumeralIsHex(bits % TWO32, false);
    assert ("0x" + t)[2..] == t && ("0x" + t)[..2] == "0x";
  }

  /** s is v in that base, with a sign if it is negative. */
  ghost predicate IsSigned(s: string, v: int, base: nat) {
    if v >= 0 then Value(s, |s|, base) == v && (|s| > 1 ==> s[0] != '0')
    else |s| > 1 && s[0] == '-' && Value(s[1..], |s| - 1, base) == -v && s[1] != '0'
  }

  lemma NumeralIsSigned(v: int, base: nat)
    requires v >= 0 && 2 <= base <= 16
    ensures IsSigned(Numeral(v, base, false), v, base)
    ensures v > 0 ==> IsSigned("-" + Numeral(v, base, false), -v, base)
  {
    NumeralValue(v, base, false);
    NumeralIsCanonical(v, base, false);
    assert ("-" + Numeral(v, base, false))[1..] == Numeral(v, base, false);
  }

  lemma ConvertedSigned(conv: char, bytes: nat, bits: nat)
    requires bytes in {1, 2, 4, 8} && bits < TWO64 && (conv == 'd' || conv == 'i' || conv == 'o')
    ensures var v, base := bits % Size(bytes), if conv == 'o' then 8 else 10;
            IsSigned(Converted(conv, bytes, Bits(bits)), if v < Size(bytes) / 2 then v else v - Size(bytes), base)
  {
    var v, base := bits % Size(bytes), if conv == 'o' then 8 else 10;
    ExtendedIs(v, bytes);
    NumeralIsSigned(if v < Size(bytes) / 2 then v else Size(bytes) - v, base);
  }

  /** The digits stand for the argument, cut to the operand's size and read as a signed number. */
  lemma SignedShown(letters: string, bytes: nat, bits: nat, conv: char)
    requires IsSize(letters, bytes) && bits < TWO64 && (conv == 'd' || conv == 'i' || conv == 'o')
    ensures var fmt, v, base := "%" + letters + [conv], bits % Values(bytes), if conv == 'o' then 8 else 10;
            Supplied(fmt, 0, [Bits(bits)], 0)
            && IsSigned(Rendered(fmt, 0, [Bits(bits)], 0), if v < Values(bytes) / 2 then v else v - Values(bytes), base)
  {
    ValuesAre(bytes);
    ConvertedSigned(conv, bytes, bits);
    AloneShown(letters, bytes, conv, Bits(bits));
  }

  lemma ValuesAre(bytes: nat)
    requires bytes in {1, 2, 4, 8}
    ensures Values(bytes) == Size(bytes)
  {
    assert Values(2) == 0x1_0000;
    assert Values(4) == 256 * (256 * Values(2));
    assert Values(8) == 256 * (256 * (256 * (256 * Values(4))));
  }
}
