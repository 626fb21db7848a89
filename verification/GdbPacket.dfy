/** The debugger stub's serial protocol: hexadecimal encoding in place, and packets framed as
    $payload#checksum. */
module GdbPacket {
  type Byte = b: int | 0 <= b < 256

  const BUFMAX: nat := 400

  const DOLLAR: Byte := 36
  const HASH: Byte := 35
  const PLUS: Byte := 43
  const MINUS: Byte := 45

  // ---- Hexadecimal ---------------------------------------------------------------------------

  /** hex: -1 for anything but a digit. */
  function Hex(c: Byte): (d: int)
    ensures -1 <= d < 16
  {
    if 97 <= c <= 102 then c - 87 else if 48 <= c <= 57 then c - 48 else if 65 <= c <= 70 then c - 55 else -1
  }

  /** tohex of the low four bits. */
  function ToHex(c: Byte): Byte {
    var d := c % 16;
    if d < 10 then 48 + d else 87 + d
  }

  predicate IsDigit(c: Byte) {
    48 <= c <= 57 || 65 <= c <= 70 || 97 <= c <= 102
  }

  function Lower(c: Byte): Byte {
    if 65 <= c <= 70 then c + 32 else c
  }

  /** The low digit's value or-ed with the high digit's shifted by four; -1 sets every bit. */
  function Pair(high: Byte, low: Byte): Byte {
    if Hex(low) < 0 then 255 else 16 * Hex(high) % 256 + Hex(low)
  }

  /** Digit k of the text for mem. */
  function Digit(mem: seq<Byte>, k: nat): Byte
    requires k < 2 * |mem|
  {
    ToHex(if k % 2 == 0 then mem[k / 2] / 16 else mem[k / 2])
  }

  function Encode(mem: seq<Byte>): (h: seq<Byte>)
    ensures |h| == 2 * |mem| && forall k :: 0 <= k < |h| ==> h[k] == Digit(mem, k)
  {
    seq(2 * |mem|, k requires 0 <= k < 2 * |mem| => Digit(mem, k))
  }

  function Decode(h: seq<Byte>, count: nat): (mem: seq<Byte>)
    requires 2 * count <= |h|
    ensures |mem| == count && forall i :: 0 <= i < count ==> mem[i] == Pair(h[2 * i], h[2 * i + 1])
  {
    seq(count, i requires 0 <= i < count => Pair(h[2 * i], h[2 * i + 1]))
  }

  lemma PairOfDigits(b: Byte)
    ensures Pair(ToHex(b / 16), ToHex(b)) == b
  {
  }

  lemma DigitsOfPair(high: Byte, low: Byte)
    ensures ToHex(Pair(high, low) / 16) == Lower(high) && ToHex(Pair(high, low)) == Lower(low)
            <==> IsDigit(high) && IsDigit(low)
  {
  }

  /** gdb_hex2mem after gdb_mem2hex gives back the memory. */
  lemma DecodeEncode(mem: seq<Byte>)
    ensures Decode(Encode(mem), |mem|) == mem
  {
    forall i | 0 <= i < |mem| ensures Decode(Encode(mem), |mem|)[i] == mem[i] {
      PairOfDigits(mem[i]);
    }
  }

  /** The other way round: exactly the strings of digits come back, in lower case. */
  lemma EncodeDecode(h: seq<Byte>, count: nat)
    requires |h| == 2 * count
    ensures Encode(Decode(h, count)) == AllLower(h) <==> forall k :: 0 <= k < |h| ==> IsDigit(h[k])
  {
    var e, l := Encode(Decode(h, count)), AllLower(h);
    forall k | 0 <= k < |h| ensures e == l ==> IsDigit(h[k]) {
      DigitsAt(h, count, k / 2);
      assert e == l ==> e[2 * (k / 2)] == l[2 * (k / 2)] && e[2 * (k / 2) + 1] == l[2 * (k / 2) + 1];
    }
    if forall k :: 0 <= k < |h| ==> IsDigit(h[k]) {
      forall k | 0 <= k < |h| ensures e[k] == l[k] {
        DigitsAt(h, count, k / 2);
      }
    }
  }

  function AllLower(h: seq<Byte>): (l: seq<Byte>)
    ensures |l| == |h| && forall k :: 0 <= k < |h| ==> l[k] == Lower(h[k])
  {
    seq(|h|, k requires 0 <= k < |h| => Lower(h[k]))
  }

  lemma DigitsAt(h: seq<Byte>, count: nat, i: nat)
    requires |h| == 2 * count && i < count
    ensures var e := Encode(Decode(h, count));
            e[2 * i] == Lower(h[2 * i]) && e[2 * i + 1] == Lower(h[2 * i + 1]) <==>
              IsDigit(h[2 * i]) && IsDigit(h[2 * i + 1])
  {
    var m := Decode(h, count);
    assert Encode(m)[2 * i] == Digit(m, 2 * i) && Encode(m)[2 * i + 1] == Digit(m, 2 * i + 1);
    DigitsOfPair(h[2 * i], h[2 * i + 1]);
  }

  /** gdb_mem2hex, when no read faults. */
  method Mem2Hex(mem: seq<Byte>, buf: array<Byte>)
    requires 2 * |mem| < buf.Length
    modifies buf
    ensures buf[..2 * |mem|] == Encode(mem) && buf[2 * |mem|] == 0
    ensures buf[2 * |mem| + 1..] == old(buf[2 * |mem| + 1..])
  {
    for i := 0 to |mem|
      invariant forall k :: 0 <= k < 2 * i ==> buf[k] == Digit(mem, k)
      invariant forall k :: 2 * i <= k < buf.Length ==> buf[k] == old(buf[k])
    {
      buf[2 * i] := ToHex(mem[i] / 16);
      buf[2 * i + 1] := ToHex(mem[i]);
    }
    buf[2 * |mem|] := 0;
  }

  /** The decoding loop of gdb_hex2mem: it runs from the right end, and what it writes never reaches a
      digit it has yet to read. */
  method Hex2Mem(buf: array<Byte>, count: nat)
    requires 2 * count <= buf.Length
    modifies buf
    ensures buf[count..2 * count] == Decode(old(buf[..2 * count]), count)
    ensures buf[..count] == old(buf[..count]) && buf[2 * count..] == old(buf[2 * count..])
  {
    var raw := 2 * count;
    var digit := 2 * count - 1;
    while digit >= 0
      invariant -1 <= digit < 2 * count && (digit + 1) % 2 == 0 && raw == count + (digit + 1) / 2
      invariant forall k :: 0 <= k < raw || 2 * count <= k < buf.Length ==> buf[k] == old(buf[k])
      invariant forall i :: (digit + 1) / 2 <= i < count ==> buf[count + i] == Pair(old(buf[2 * i]), old(buf[2 * i + 1]))
    {
      raw := raw - 1;
      var low := Hex(buf[digit]);
      buf[raw] := if low < 0 then 255 else low;
      digit := digit - 1;
      buf[raw] := if buf[raw] == 255 then 255 else 16 * Hex(buf[digit]) % 256 + buf[raw];
      digit := digit - 1;
    }
  }

  // ---- Frames --------------------------------------------------------------------------------

  function Sum(p: seq<Byte>, n: nat): nat
    requires n <= |p|
  {
    if n == 0 then 0 else Sum(p, n - 1) + p[n - 1]
  }

  function Checksum(p: seq<Byte>): Byte {
    Sum(p, |p|) % 256
  }

  lemma ChecksumNext(p: seq<Byte>, c: Byte)
    ensures Checksum(p + [c]) == (Checksum(p) + c) % 256
  {
    SumOfPrefix(p, c, |p|);
  }

  lemma {:induction false} SumOfPrefix(p: seq<Byte>, c: Byte, n: nat)
    requires n <= |p|
    ensures Sum(p + [c], n) == Sum(p, n)
  {
    if n > 0 {
      SumOfPrefix(p, c, n - 1);
    }
  }

  /** What put_packet writes for a payload. */
  function Frame(p: seq<Byte>): seq<Byte> {
    [DOLLAR] + p + [HASH, ToHex(Checksum(p) / 16), ToHex(Checksum(p))]
  }

  /** The first start character at or after i. */
  function Start(input: seq<Byte>, i: nat): (s: nat)
    requires i <= |input|
    ensures i <= s <= |input|
    decreases |input| - i
  {
    if i == |input| || input[i] == DOLLAR then i else Start(input, i + 1)
  }

  /** How many bytes from i on get stored: up to a '#', at most n. */
  function Stored(input: seq<Byte>, i: nat, n: nat): (k: nat)
    requires i <= |input|
    ensures k <= n && i + k <= |input|
    decreases |input| - i
  {
    if n == 0 || i == |input| || input[i] == HASH then 0 else 1 + Stored(input, i + 1, n - 1)
  }

  /** What get_packet comes to: it waits for ever, or it returns a packet; and what it writes. */
  datatype Outcome = Blocked(written: seq<Byte>) | Packet(payload: seq<Byte>, next: nat, written: seq<Byte>)

  /** The same, after what has been written before. */
  function After(before: seq<Byte>, o: Outcome): Outcome {
    o.(written := before + o.written)
  }

  /** The checksum received for the payload that ends at h, if it is all there. */
  function Sent(input: seq<Byte>, h: nat): Byte
    requires h + 2 < |input|
  {
    (16 * Hex(input[h + 1]) + Hex(input[h + 2])) % 256
  }

  /** One round of the outer loop: not enough input, a packet, or another round. */
  datatype Round = Wait | Done(payload: seq<Byte>, next: nat, written: seq<Byte>) | Again(next: nat, written: seq<Byte>)

  function Attempt(input: seq<Byte>, i: nat): (r: Round)
    requires i <= |input|
    ensures !r.Wait? ==> i < r.next <= |input|
  {
    var s := Start(input, i);
    if s == |input| then Wait else
      var n := Stored(input, s + 1, BUFMAX - 1);
      var h := s + 1 + n;
      var p := input[s + 1..h];
      if n == BUFMAX - 1 then
        if Checksum(p) == 255 then Done(p, h, []) else Again(h, [])
      else if h + 2 >= |input| then Wait
      else if Sent(input, h) == Checksum(p) then Done(p, h + 3, [PLUS])
      else Again(h + 3, [MINUS])
  }

  function Receive(input: seq<Byte>, i: nat): (o: Outcome)
    requires i <= |input|
    ensures o.Packet? ==> o.next <= |input|
    decreases |input| - i
  {
    match Attempt(input, i)
    case Wait => Blocked([])
    case Done(p, next, w) => Packet(p, next, w)
    case Again(next, w) => After(w, Receive(input, next))
  }

  /** The first reply from i on that stops put_packet. */
  function Answer(replies: seq<Byte>, i: nat): (j: nat)
    requires i <= |replies|
    ensures i <= j <= |replies| && (j < |replies| ==> replies[j] == PLUS || replies[j] == DOLLAR)
    ensures forall k :: i <= k < j ==> replies[k] != PLUS && replies[k] != DOLLAR
    decreases |replies| - i
  {
    if i == |replies| || replies[i] == PLUS || replies[i] == DOLLAR then i else Answer(replies, i + 1)
  }

  lemma {:induction false} AnswerIs(replies: seq<Byte>, i: nat, j: nat)
    requires i <= j < |replies| && (replies[j] == PLUS || replies[j] == DOLLAR)
    requires forall k :: i <= k < j ==> replies[k] != PLUS && replies[k] != DOLLAR
    ensures Answer(replies, i) == j
    decreases j - i
  {
    if i < j {
      AnswerIs(replies, i + 1, j);
    }
  }

  predicate NoHash(p: seq<Byte>) {
    forall k :: 0 <= k < |p| ==> p[k] != HASH
  }

  predicate NoStart(p: seq<Byte>) {
    forall k :: 0 <= k < |p| ==> p[k] != DOLLAR
  }

  lemma {:induction false} StartIs(input: seq<Byte>, i: nat, s: nat)
    requires i <= s < |input| && input[s] == DOLLAR && forall k :: i <= k < s ==> input[k] != DOLLAR
    ensures Start(input, i) == s
    decreases s - i
  {
    if i < s {
      StartIs(input, i + 1, s);
    }
  }

  lemma {:induction false} StoredEnds(input: seq<Byte>, i: nat, n: nat)
    requires i <= |input|
    ensures var h := i + Stored(input, i, n); NoHash(input[i..h]) && (h < |input| && h < i + n ==> input[h] == HASH)
    decreases |input| - i
  {
    if n > 0 && i < |input| && input[i] != HASH {
      StoredEnds(input, i + 1, n - 1);
      var h := i + Stored(input, i, n);
      assert input[i..h] == [input[i]] + input[i + 1..h];
    }
  }

  lemma {:induction false} StoredIs(input: seq<Byte>, i: nat, h: nat, n: nat)
    requires i <= h < |input| && h - i < n && input[h] == HASH && forall k :: i <= k < h ==> input[k] != HASH
    ensures Stored(input, i, n) == h - i
    decreases h - i
  {
    if i < h {
      StoredIs(input, i + 1, h, n - 1);
    }
  }

  /** A frame whose payload is q but whose digits say c. */
  function Sealed(q: seq<Byte>, c: Byte): seq<Byte> {
    [DOLLAR] + q + [HASH, ToHex(c / 16), ToHex(c)]
  }

  lemma DigitsAdd(c: Byte)
    ensures (16 * Hex(ToHex(c / 16)) + Hex(ToHex(c))) % 256 == c
  {
  }

  /** A whole frame of q stands at s. */
  predicate FrameAt(input: seq<Byte>, s: nat, q: seq<Byte>) {
    && s + |q| + 4 <= |input|
    && input[s] == DOLLAR && input[s + 1..s + 1 + |q|] == q && input[s + 1 + |q|] == HASH
  }

  /** The next start character stands at s. */
  ghost predicate StartsAt(input: seq<Byte>, i: nat, s: nat) {
    i <= s < |input| && input[s] == DOLLAR && forall k :: i <= k < s ==> input[k] != DOLLAR
  }

  /** A start character with no '#' in as many bytes as the buffer takes: these are a packet if their sum
      happens to be 255, and otherwise are passed over; nothing is written for them. */
  lemma AttemptOverlong(input: seq<Byte>, i: nat, s: nat, q: seq<Byte>)
    requires StartsAt(input, i, s) && |q| == BUFMAX - 1 && s + BUFMAX <= |input|
    requires input[s + 1..s + BUFMAX] == q && NoHash(q)
    ensures Attempt(input, i) == if Checksum(q) == 255 then Done(q, s + BUFMAX, []) else Again(s + BUFMAX, [])
  {
    StartIs(input, i, s);
    forall k | s + 1 <= k < s + BUFMAX ensures input[k] != HASH {
      assert input[s + 1..s + BUFMAX][k - s - 1] == q[k - s - 1];
    }
    StoredAll(input, s + 1, BUFMAX - 1);
  }

  lemma {:induction false} StoredAll(input: seq<Byte>, i: nat, n: nat)
    requires i <= |input| && forall k :: i <= k < i + n && k < |input| ==> input[k] != HASH
    ensures Stored(input, i, n) == if i + n <= |input| then n else |input| - i
    decreases |input| - i
  {
    if n > 0 && i < |input| {
      StoredAll(input, i + 1, n - 1);
    }
  }

  lemma {:induction false} StartNone(input: seq<Byte>, i: nat)
    requires i <= |input| && forall k :: i <= k < |input| ==> input[k] != DOLLAR
    ensures Start(input, i) == |input|
    decreases |input| - i
  {
    if i < |input| {
      StartNone(input, i + 1);
    }
  }

  /** The payload that starts after s ends with the '#' at h. */
  ghost predicate HashAt(input: seq<Byte>, s: nat, h: nat) {
    s < h < |input| && h - s < BUFMAX && input[h] == HASH && forall k :: s < k < h ==> input[k] != HASH
  }

  /** The start character at s is followed by less than what get_packet reads after it. */
  ghost predicate CutShort(input: seq<Byte>, s: nat) {
    || (|input| < s + BUFMAX && forall k :: s < k < |input| ==> input[k] != HASH)
    || (exists h: nat {:trigger HashAt(input, s, h)} :: HashAt(input, s, h) && |input| < h + 3)
  }

  /** get_packet waits for more exactly when there is no start character, or the payload after it has not
      ended and leaves room, or its two digits are not there yet. */
  lemma AttemptWaits(input: seq<Byte>, i: nat)
    requires i <= |input|
    ensures Attempt(input, i).Wait? <==> forall s: nat :: StartsAt(input, i, s) ==> CutShort(input, s)
  {
    var s := Start(input, i);
    StartFirst(input, i);
    assert forall t: nat :: StartsAt(input, i, t) ==> t == s;
    if s < |input| {
      assert StartsAt(input, i, s);
      WaitsAfter(input, s);
    }
  }

  lemma WaitsAfter(input: seq<Byte>, s: nat)
    requires s < |input|
    ensures var n := Stored(input, s + 1, BUFMAX - 1);
            n < BUFMAX - 1 && s + n + 3 >= |input| <==> CutShort(input, s)
  {
    var n := Stored(input, s + 1, BUFMAX - 1);
    StoredEnds(input, s + 1, BUFMAX - 1);
    var h := s + 1 + n;
    forall k | s < k < h ensures input[k] != HASH {
      assert input[s + 1..h][k - s - 1] == input[k];
    }
    if n < BUFMAX - 1 && h < |input| {
      assert HashAt(input, s, h);
      assert forall t: nat :: HashAt(input, s, t) ==> t == h;
    } else if n == BUFMAX - 1 {
      assert forall t: nat :: HashAt(input, s, t) ==> t >= h;
    }
  }

  lemma {:induction false} StartFirst(input: seq<Byte>, i: nat)
    requires i <= |input|
    ensures var s := Start(input, i);
            (s < |input| ==> input[s] == DOLLAR) && forall k :: i <= k < s ==> input[k] != DOLLAR
    decreases |input| - i
  {
    if i < |input| && input[i] != DOLLAR {
      StartFirst(input, i + 1);
    }
  }

  /** What becomes of one frame, its digits right or wrong. */
  lemma AttemptFrame(input: seq<Byte>, i: nat, s: nat, q: seq<Byte>)
    requires i <= s && FrameAt(input, s, q) && NoHash(q) && |q| <= BUFMAX - 2 && forall k :: i <= k < s ==>
      input[k] != DOLLAR
    ensures Attempt(input, i)
            == if Sent(input, s + 1 + |q|) == Checksum(q) then Done(q, s + |q| + 4, [PLUS])
              else Again(s + |q| + 4, [MINUS])
  {
    StartIs(input, i, s);
    forall k | s + 1 <= k < s + 1 + |q| ensures input[k] != HASH {
      assert input[s + 1..s + 1 + |q|][k - s - 1] == q[k - s - 1];
    }
    StoredIs(input, s + 1, s + 1 + |q|, BUFMAX - 1);
  }

  lemma AttemptSealed(junk: seq<Byte>, q: seq<Byte>, c: Byte, rest: seq<Byte>)
    requires NoStart(junk) && NoHash(q) && |q| <= BUFMAX - 2
    ensures Attempt(junk + Sealed(q, c) + rest, 0)
            == if c == Checksum(q) then Done(q, |junk| + |q| + 4, [PLUS]) else Again(|junk| + |q| + 4, [MINUS])
  {
    var input := junk + Sealed(q, c) + rest;
    SealedAt(junk, q, c, rest);
    AttemptFrame(input, 0, |junk|, q);
  }

  lemma SealedAt(junk: seq<Byte>, q: seq<Byte>, c: Byte, rest: seq<Byte>)
    ensures var input := junk + Sealed(q, c) + rest;
            FrameAt(input, |junk|, q) && Sent(input, |junk| + 1 + |q|) == c
            && forall k :: 0 <= k < |junk| ==> input[k] == junk[k]
  {
    var input := junk + Sealed(q, c) + rest;
    var f := Sealed(q, c);
    assert forall k :: 0 <= k < |f| ==> input[|junk| + k] == f[k];
    assert f[1..1 + |q|] == q;
    assert input[|junk| + 1..|junk| + 1 + |q|] == f[1..1 + |q|];
    assert f[|q| + 1] == HASH && f[|q| + 2] == ToHex(c / 16) && f[|q| + 3] == ToHex(c);
    DigitsAdd(c);
  }

  /** big is d bytes and then input. */
  ghost predicate EndsWith(big: seq<Byte>, input: seq<Byte>, d: nat) {
    |big| == d + |input| && forall k {:trigger input[k]} :: 0 <= k < |input| ==> big[d + k] == input[k]
  }

  lemma {:induction false} StartSuffix(big: seq<Byte>, input: seq<Byte>, d: nat, i: nat)
    requires EndsWith(big, input, d) && i <= |input|
    ensures Start(big, d + i) == d + Start(input, i)
    decreases |input| - i
  {
    if i < |input| && input[i] != DOLLAR {
      StartSuffix(big, input, d, i + 1);
    }
  }

  lemma {:induction false} StoredSuffix(big: seq<Byte>, input: seq<Byte>, d: nat, i: nat, n: nat)
    requires EndsWith(big, input, d) && i <= |input|
    ensures Stored(big, d + i, n) == Stored(input, i, n)
    decreases |input| - i
  {
    if n > 0 && i < |input| && input[i] != HASH {
      StoredSuffix(big, input, d, i + 1, n - 1);
    }
  }

  lemma PartsSuffix(big: seq<Byte>, input: seq<Byte>, d: nat, i: nat, h: nat)
    requires EndsWith(big, input, d) && i <= h <= |input|
    ensures big[d + i..d + h] == input[i..h]
    ensures h + 2 < |input| ==> Sent(big, d + h) == Sent(input, h)
  {
  }

  function ShiftedRound(r: Round, d: nat): Round {
    if r.Wait? then r else r.(next := d + r.next)
  }

  function Shifted(o: Outcome, d: nat): Outcome {
    if o.Blocked? then o else o.(next := d + o.next)
  }

  lemma AttemptSuffix(big: seq<Byte>, input: seq<Byte>, d: nat, i: nat)
    requires EndsWith(big, input, d) && i <= |input|
    ensures Attempt(big, d + i) == ShiftedRound(Attempt(input, i), d)
  {
    StartSuffix(big, input, d, i);
    var s := Start(input, i);
    if s < |input| {
      StoredSuffix(big, input, d, s + 1, BUFMAX - 1);
      PartsSuffix(big, input, d, s + 1, s + 1 + Stored(input, s + 1, BUFMAX - 1));
    }
  }

  lemma ReceiveStep(input: seq<Byte>, i: nat, r: Round)
    requires i <= |input| && Attempt(input, i) == r
    ensures r.Again? ==> i < r.next <= |input| && Receive(input, i) == After(r.written, Receive(input, r.next))
    ensures r.Wait? ==> Receive(input, i) == Blocked([])
    ensures r.Done? ==> Receive(input, i) == Packet(r.payload, r.next, r.written)
  {
  }

  lemma AttemptShifted(big: seq<Byte>, input: seq<Byte>, d: nat, i: nat) returns (r: Round)
    requires EndsWith(big, input, d) && i <= |input|
    ensures r.Again? ==> i < r.next <= |input| && Receive(input, i) == After(r.written, Receive(input, r.next))
                         && Receive(big, d + i) == After(r.written, Receive(big, d + r.next))
    ensures !r.Again? ==> Receive(big, d + i) == Shifted(Receive(input, i), d)
  {
    AttemptSuffix(big, input, d, i);
    r := Attempt(input, i);
    ReceiveStep(input, i, r);
    ReceiveStep(big, d + i, ShiftedRound(r, d));
  }

  /** Where reading starts is all that matters of what came before. */
  lemma {:induction false} ReceiveSuffix(big: seq<Byte>, input: seq<Byte>, d: nat, i: nat)
    requires EndsWith(big, input, d) && i <= |input|
    ensures Receive(big, d + i) == Shifted(Receive(input, i), d)
    decreases |input| - i
  {
    var r := AttemptShifted(big, input, d, i);
    if r.Again? {
      ReceiveSuffix(big, input, d, r.next);
    }
  }

  /** get_packet acknowledges and returns any framed payload that fits, whatever comes before it and
      after it. */
  lemma FrameIsReceived(junk: seq<Byte>, p: seq<Byte>, rest: seq<Byte>)
    requires NoStart(junk) && NoHash(p) && |p| <= BUFMAX - 2
    ensures Receive(junk + Frame(p) + rest, 0) == Packet(p, |junk| + |Frame(p)|, [PLUS])
  {
    assert Frame(p) == Sealed(p, Checksum(p));
    AttemptSealed(junk, p, Checksum(p), rest);
  }

  lemma {:induction false} SumChanges(p: seq<Byte>, k: nat, x: Byte, n: nat)
    requires k < |p| && n <= |p|
    ensures Sum(p[k := x], n) == Sum(p, n) + if k < n then x - p[k] else 0
  {
    if n > 0 {
      SumChanges(p, k, x, n - 1);
    }
  }

  lemma ChecksumChanges(p: seq<Byte>, k: nat, x: Byte)
    requires k < |p| && x != p[k]
    ensures Checksum(p[k := x]) != Checksum(p)
  {
    SumChanges(p, k, x, |p|);
  }

  /** One byte of a payload changed on the way. */
  datatype Damage = Damage(at: nat, byte: Byte)

  predicate Harmful(p: seq<Byte>, d: Damage) {
    d.at < |p| && d.byte != p[d.at] && d.byte != HASH
  }

  /** The frame of p as it arrives: the digits are those of p itself. */
  function Damaged(p: seq<Byte>, d: Damage): seq<Byte>
    requires d.at < |p|
  {
    Sealed(p[d.at := d.byte], Checksum(p))
  }

  /** p sent once for each of the damages, and then as it is. */
  function Wire(p: seq<Byte>, ds: seq<Damage>, rest: seq<Byte>): (w: seq<Byte>)
    requires forall d :: d in ds ==> Harmful(p, d)
    ensures |w| == (|ds| + 1) * |Frame(p)| + |rest|
  {
    if ds == [] then Frame(p) + rest else
      assert Harmful(p, ds[0]);
      assert (|ds[1..]| + 1) * |Frame(p)| + |Frame(p)| == (|ds| + 1) * |Frame(p)|;
      Damaged(p, ds[0]) + Wire(p, ds[1..], rest)
  }

  function Naks(n: nat): (w: seq<Byte>)
    ensures |w| == n && AllNaks(w)
  {
    seq(n, _ => MINUS)
  }

  lemma GoesOn(big: seq<Byte>, tail: seq<Byte>, d: nat, w: seq<Byte>)
    requires EndsWith(big, tail, d) && Attempt(big, 0) == Again(d, w)
    ensures Receive(big, 0) == After(w, Shifted(Receive(tail, 0), d))
  {
    ReceiveStep(big, 0, Again(d, w));
    ReceiveSuffix(big, tail, d, 0);
  }

  lemma DamagedIsRefused(p: seq<Byte>, d: Damage, tail: seq<Byte>)
    requires NoHash(p) && |p| <= BUFMAX - 2 && Harmful(p, d)
    ensures Receive(Damaged(p, d) + tail, 0) == After([MINUS], Shifted(Receive(tail, 0), |Frame(p)|))
  {
    ChecksumChanges(p, d.at, d.byte);
    AttemptSealed([], p[d.at := d.byte], Checksum(p), tail);
    assert [] + Damaged(p, d) + tail == Damaged(p, d) + tail;
    GoesOn(Damaged(p, d) + tail, tail, |Frame(p)|, [MINUS]);
  }

  /** The whole exchange when frames get damaged, as long as no byte turns into a '#': get_packet
      refuses every damaged frame, acknowledges the first whole one and returns its payload; and
      put_packet, given just those replies, sends the frame exactly that often. */
  lemma {:induction false} Conversation(p: seq<Byte>, ds: seq<Damage>, rest: seq<Byte>)
    requires NoHash(p) && |p| <= BUFMAX - 2 && forall d :: d in ds ==> Harmful(p, d)
    ensures Receive(Wire(p, ds, rest), 0) == Packet(p, (|ds| + 1) * |Frame(p)|, Naks(|ds|) + [PLUS])
    ensures Answer(Naks(|ds|) + [PLUS], 0) == |ds|
  {
    AnswerIs(Naks(|ds|) + [PLUS], 0, |ds|);
    if ds == [] {
      FrameIsReceived([], p, rest);
      assert [] + Frame(p) + rest == Wire(p, ds, rest);
    } else {
      Conversation(p, ds[1..], rest);
      assert Harmful(p, ds[0]);
      DamagedIsRefused(p, ds[0], Wire(p, ds[1..], rest));
      NaksNext(p, |ds| - 1);
    }
  }

  lemma NaksNext(p: seq<Byte>, n: nat)
    ensures Naks(n + 1) + [PLUS] == [MINUS] + (Naks(n) + [PLUS])
    ensures (n + 1) * |Frame(p)| + |Frame(p)| == (n + 2) * |Frame(p)|
  {
  }

  predicate AllNaks(w: seq<Byte>) {
    forall k :: 0 <= k < |w| ==> w[k] == MINUS
  }

  /** The bytes just before next are a whole frame of p. */
  predicate EndsFrame(input: seq<Byte>, p: seq<Byte>, next: nat) {
    && |p| + 4 <= next <= |input|
    && input[next - |p| - 4] == DOLLAR && input[next - |p| - 3..next - 3] == p && input[next - 3] == HASH
    && Sent(input, next - 3) == Checksum(p)
  }

  /** Either a frame, or the first BUFMAX - 1 characters after a '$' with no '#' among them, whose sum
      happens to be 255. */
  predicate Framed(input: seq<Byte>, p: seq<Byte>, next: nat) {
    && NoHash(p)
    && if |p| <= BUFMAX - 2 then EndsFrame(input, p, next) else
         |p| == BUFMAX - 1 && Checksum(p) == 255
         && BUFMAX <= next <= |input| && input[next - BUFMAX] == DOLLAR && input[next - BUFMAX + 1..next] == p
  }

  /** Frames are acknowledged, the other packets are not. */
  predicate Acknowledged(p: seq<Byte>, w: seq<Byte>) {
    if |p| <= BUFMAX - 2 then w != [] && w[|w| - 1] == PLUS && AllNaks(w[..|w| - 1]) else AllNaks(w)
  }

  /** What get_packet returns is a frame that it has acknowledged, or else never ended. */
  lemma {:induction false} ReceivedIsFramed(input: seq<Byte>, i: nat)
    requires i <= |input| && Receive(input, i).Packet?
    ensures var o := Receive(input, i); Framed(input, o.payload, o.next) && Acknowledged(o.payload, o.written)
    decreases |input| - i
  {
    var r := Attempt(input, i);
    AttemptIsFramed(input, i);
    if r.Again? {
      ReceivedIsFramed(input, r.next);
      var o := Receive(input, r.next);
      Acknowledges(o.payload, r.written, o.written);
    }
  }

  lemma Acknowledges(p: seq<Byte>, naks: seq<Byte>, w: seq<Byte>)
    requires AllNaks(naks) && Acknowledged(p, w)
    ensures Acknowledged(p, naks + w)
  {
  }

  lemma AttemptIsFramed(input: seq<Byte>, i: nat)
    requires i <= |input|
    ensures var r := Attempt(input, i);
            (r.Done? ==> Framed(input, r.payload, r.next) && Acknowledged(r.payload, r.written)) &&
              (r.Again? ==> AllNaks(r.written))
  {
    var s := Start(input, i);
    StartFirst(input, i);
    if s < |input| {
      StoredEnds(input, s + 1, BUFMAX - 1);
    }
  }

  // ---- The serial line -----------------------------------------------------------------------

  /** The text in a buffer: what comes before the first NUL. */
  function Text(buffer: seq<Byte>): seq<Byte> {
    if buffer == [] || buffer[0] == 0 then [] else [buffer[0]] + Text(buffer[1..])
  }

  lemma {:induction false} TextIs(buffer: seq<Byte>, n: nat)
    requires n < |buffer| && buffer[n] == 0 && forall k :: 0 <= k < n ==> buffer[k] != 0
    ensures Text(buffer) == buffer[..n]
  {
    if n > 0 {
      TextIs(buffer[1..], n - 1);
      assert [buffer[0]] + buffer[1..][..n - 1] == buffer[..n];
    }
  }

  function Repeated(f: seq<Byte>, n: nat): seq<Byte> {
    if n == 0 then [] else Repeated(f, n - 1) + f
  }

  /** What the debugger will ever send, how much of it has been read, and what has been written. */
  class Line {
    const input: seq<Byte>
    var pos: nat
    var output: seq<Byte>

    ghost predicate Valid()
      reads this
    {
      pos <= |input|
    }

    /** The inner loop of put_packet. */
    method SendFrame(buffer: array<Byte>)
      requires Valid() && 0 in buffer[..]
      modifies this`output
      ensures output == old(output) + Frame(Text(buffer[..]))
    {
      var count: nat, sum: int := 0, 0;
      output := output + [DOLLAR];
      while buffer[count] != 0
        invariant count < buffer.Length && (forall k :: 0 <= k < count ==> buffer[k] != 0)
        invariant output == old(output) + [DOLLAR] + buffer[..count] && sum == Checksum(buffer[..count])
        decreases buffer.Length - count
      {
        output := output + [buffer[count]];
        sum := (sum + buffer[count]) % 256;
        ChecksumNext(buffer[..count], buffer[count]);
        assert buffer[..count + 1] == buffer[..count] + [buffer[count]];
        count := count + 1;
        var k :| 0 <= k < buffer.Length && buffer[k] == 0;
      }
      output := output + [HASH, ToHex(sum / 16), ToHex(sum)];
      TextIs(buffer[..], count);
      assert buffer[..][..count] == buffer[..count];
    }

    /** put_packet; it waits for ever when no answer comes. */
    method PutPacket(buffer: array<Byte>) returns (sent: bool)
      requires Valid() && 0 in buffer[..]
      modifies this`output, this`pos
      ensures Valid()
      ensures var j := Answer(input, old(pos));
              && (sent <==> j < |input|) && pos == (if sent then j + 1 else |input|)
              && output == old(output) + Repeated(Frame(Text(buffer[..])), j - old(pos) + 1)
                           + (if sent && input[j] == DOLLAR then [MINUS] else [])
    {
      ghost var f, start := Frame(Text(buffer[..])), output;
      while true
        invariant old(pos) <= pos <= |input| && Answer(input, old(pos)) == Answer(input, pos)
        invariant output == start + Repeated(f, pos - old(pos))
        decreases |input| - pos
      {
        SendFrame(buffer);
        assert output == start + Repeated(f, pos - old(pos) + 1);
        if pos == |input| {
          return false;
        }
        var ch := input[pos];
        pos := pos + 1;
        if ch == PLUS {
          return true;
        }
        if ch == DOLLAR {
          output := output + [MINUS];
          return true;
        }
      }
    }

    /** The search for the start character. */
    method SkipToStart() returns (found: bool)
      requires Valid()
      modifies this`pos
      ensures Valid() && (found <==> Start(input, old(pos)) < |input|) && (found ==> pos == Start(input, old(pos)) + 1)
    {
      while pos < |input|
        invariant pos <= |input| && Start(input, old(pos)) == Start(input, pos)
      {
        pos := pos + 1;
        if input[pos - 1] == DOLLAR {
          return true;
        }
      }
      found := false;
    }

    /** Characters are stored until a '#' has been read, or the buffer is full. */
    method StorePayload(buffer: array<Byte>) returns (ended: bool, starved: bool, count: nat, sum: Byte)
      requires Valid() && BUFMAX <= buffer.Length
      modifies this`pos, buffer
      ensures Valid() && count == Stored(input, old(pos), BUFMAX - 1)
      ensures var h := old(pos) + count;
              && (starved <==> count < BUFMAX - 1 && h == |input|) && (ended <==> count < BUFMAX - 1 && h < |input|)
              && pos == (if ended then h + 1 else h) && buffer[..count] == input[old(pos)..h] &&
                sum == Checksum(input[old(pos)..h])
    {
      ended, starved, count, sum := false, false, 0, 0;
      while count < BUFMAX - 1
        invariant count <= BUFMAX - 1 && pos == old(pos) + count <= |input|
        invariant Stored(input, old(pos), BUFMAX - 1) == count + Stored(input, pos, BUFMAX - 1 - count)
        invariant buffer[..count] == input[old(pos)..pos] && sum == Checksum(input[old(pos)..pos])
      {
        if pos == |input| {
          starved := true;
          return;
        }
        var ch := input[pos];
        pos := pos + 1;
        if ch == HASH {
          ended := true;
          return;
        }
        ChecksumNext(input[old(pos)..pos - 1], ch);
        assert input[old(pos)..pos] == input[old(pos)..pos - 1] + [ch];
        sum := (sum + ch) % 256;
        buffer[count] := ch;
        count := count + 1;
      }
    }

    /** One round of get_packet. */
    method TryPacket(buffer: array<Byte>) returns (starved: bool, done: bool, count: nat)
      requires Valid() && BUFMAX <= buffer.Length
      modifies this`pos, this`output, buffer
      ensures Valid() && count < BUFMAX
      ensures match Attempt(input, old(pos))
              case Wait => starved && !done && output == old(output)
              case Done(p, next, w) => !starved && done && pos == next && output == old(output) + w &&
                p == buffer[..count] && buffer[count] == 0
              case Again(next, w) => !starved && !done && pos == next && output == old(output) + w
    {
      starved, done, count := true, false, 0;
      var found := SkipToStart();
      if !found {
        return;
      }
      var ended, cut, sum;
      ended, cut, count, sum := StorePayload(buffer);
      buffer[count] := 0;
      if cut {
        return;
      }
      var xmit := 255;
      if ended {
        if |input| < pos + 2 {
          return;
        }
        xmit := (16 * Hex(input[pos]) + Hex(input[pos + 1])) % 256;
        pos := pos + 2;
        output := output + [if sum != xmit then MINUS else PLUS];
      }
      starved, done := false, sum == xmit;
    }

    /** The line and the buffer are as get_packet leaves them. */
    ghost predicate Finished(o: Outcome, before: seq<Byte>, buffer: array<Byte>, done: bool, count: nat)
      reads this, buffer
    {
      && count < buffer.Length && output == before + o.written && (done <==> o.Packet?)
      && (done ==> pos == o.next && o.payload == buffer[..count] && buffer[count] == 0)
    }

    /** get_packet is under way: what it comes to in all is what it has written and the rest. */
    ghost predicate Ahead(goal: Outcome, start: seq<Byte>, naks: seq<Byte>)
      reads this
    {
      pos <= |input| && output == start + naks && goal == After(naks, Receive(input, pos))
    }

    /** The same, seen from get_packet. */
    method OneRound(buffer: array<Byte>, ghost goal: Outcome, ghost start: seq<Byte>, ghost naks: seq<Byte>)
      returns (over: bool, done: bool, count: nat, ghost more: seq<Byte>)
      requires Ahead(goal, start, naks) && BUFMAX <= buffer.Length
      modifies this`pos, this`output, buffer
      ensures pos <= |input|
      ensures over ==> Finished(goal, start, buffer, done, count)
      ensures !over ==> old(pos) < pos && Ahead(goal, start, more)
    {
      ghost var r := Attempt(input, pos);
      ReceiveStep(input, pos, r);
      ghost var o := Receive(input, pos);
      var starved;
      starved, done, count := TryPacket(buffer);
      over, more := starved || done, naks;
      if over {
        assert start + naks + [] == start + naks;
        FinishedBefore(o, start, naks, buffer, done, count);
      } else {
        more := naks + r.written;
        AfterBoth(naks, r.written, Receive(input, pos));
        assert start + naks + r.written == start + more;
      }
    }

    lemma FinishedBefore(o: Outcome, before: seq<Byte>, naks: seq<Byte>, buffer: array<Byte>, done: bool, count: nat)
      requires Finished(o, before + naks, buffer, done, count)
      ensures Finished(After(naks, o), before, buffer, done, count)
    {
      assert before + naks + o.written == before + (naks + o.written);
    }

    /** get_packet; it waits for ever when the input ends first. */
    method GetPacket(buffer: array<Byte>) returns (done: bool, count: nat)
      requires Valid() && BUFMAX <= buffer.Length
      modifies this`pos, this`output, buffer
      ensures Valid() && Finished(Receive(input, old(pos)), old(output), buffer, done, count)
    {
      ghost var goal, start, naks: seq<Byte> := Receive(input, pos), output, [];
      AfterNothing(goal);
      var over := false;
      done, count := false, 0;
      while !over
        invariant pos <= |input|
        invariant if over then Finished(goal, start, buffer, done, count) else Ahead(goal, start, naks)
        decreases !over, |input| - pos
      {
        over, done, count, naks := OneRound(buffer, goal, start, naks);
      }
    }
  }

  lemma AfterNothing(o: Outcome)
    ensures After([], o) == o
  {
    assert [] + o.written == o.written;
  }

  lemma AfterBoth(v: seq<Byte>, w: seq<Byte>, o: Outcome)
    ensures After(v, After(w, o)) == After(v + w, o)
  {
    assert v + (w + o.written) == v + w + o.written;
  }
}
