/** The bitfield compiler's blocks: where fields lie in the words of a block, and what the generated
    accessors do. A word is the sequence of its bits, the lowest first. */
module Bitfield {
  type Word = seq<bool>

  /** A word size, how many bits of it a high-aligned value may use, and whether the others are copies
      of the highest of these. */
  datatype Base = Base(bits: nat, valueBits: nat, signExtend: bool) {
    predicate Valid() {
      1 <= valueBits <= bits
    }
  }

  datatype Option<T> = None | Some(value: T)

  /** A line of a block: a field or, without a name, padding. */
  datatype Line = Line(name: Option<string>, size: nat, high: bool)

  datatype Field = Field(name: string, offset: nat, size: nat, high: bool)

  // ---- Operations on words -----------------------------------------------------------------

  function And(x: Word, y: Word): Word
    requires |x| == |y|
  {
    seq(|x|, i requires 0 <= i < |x| => x[i] && y[i])
  }

  function Or(x: Word, y: Word): Word
    requires |x| == |y|
  {
    seq(|x|, i requires 0 <= i < |x| => x[i] || y[i])
  }

  function Not(x: Word): Word {
    seq(|x|, i requires 0 <= i < |x| => !x[i])
  }

  function Shl(x: Word, n: nat): Word {
    seq(|x|, i requires 0 <= i < |x| => i >= n && x[i - n])
  }

  function Shr(x: Word, n: nat): Word {
    seq(|x|, i requires 0 <= i < |x| => i + n < |x| && x[i + n])
  }

  function Zero(bits: nat): Word {
    seq(bits, i => false)
  }

  /** ((1 << size) - 1) << at. */
  function Ones(bits: nat, at: int, size: nat): Word {
    seq(bits, i => at <= i < at + size)
  }

  // ---- The layout of a block ---------------------------------------------------------------

  function TotalSize(lines: seq<Line>): nat {
    if lines == [] then 0 else lines[0].size + TotalSize(lines[1..])
  }

  /** The size of a block is the sum of the sizes of its lines, fields and padding alike. */
  lemma {:induction false} SizesAdd(lines: seq<Line>, others: seq<Line>)
    ensures TotalSize(lines + others) == TotalSize(lines) + TotalSize(others)
    ensures |lines| == 1 ==> TotalSize(lines) == lines[0].size
  {
    if lines == [] {
      assert lines + others == others;
    } else {
      SizesAdd(lines[1..], others);
      assert (lines + others)[1..] == lines[1..] + others;
      assert |lines| == 1 ==> lines[1..] == [];
    }
  }

  /** How many of the first n lines are fields. */
  function Named(lines: seq<Line>, n: nat): nat
    requires n <= |lines|
  {
    if n == 0 then 0 else Named(lines, n - 1) + if lines[n - 1].name.Some? then 1 else 0
  }

  /** The named lines are the fields, in order; below each lie all the lines that follow it, the padding
      among them. */
  ghost predicate LaidOut(lines: seq<Line>, fields: seq<Field>) {
    && |fields| == Named(lines, |lines|)
    && forall i {:trigger lines[i]} :: 0 <= i < |lines| && lines[i].name.Some? ==>
         Named(lines, i) < |fields|
         && fields[Named(lines, i)] == Field(lines[i].name.value, TotalSize(lines[i + 1..]), lines[i].size, lines[i].high)
  }

  /** Each field comes from a line. */
  lemma {:induction false} LineOf(lines: seq<Line>, n: nat, j: nat) returns (i: nat)
    requires n <= |lines| && j < Named(lines, n)
    ensures i < n && lines[i].name.Some? && Named(lines, i) == j
  {
    i := n - 1;
    if lines[i].name.None? || Named(lines, i) != j {
      i := LineOf(lines, n - 1, j);
    }
  }

  lemma {:induction false} NamedMore(lines: seq<Line>, m: nat, n: nat)
    requires m <= n <= |lines|
    ensures Named(lines, m) <= Named(lines, n)
  {
    if m < n {
      NamedMore(lines, m, n - 1);
    }
  }

  lemma SizesFrom(lines: seq<Line>, i: nat)
    requires i < |lines|
    ensures TotalSize(lines[i..]) == lines[i].size + TotalSize(lines[i + 1..])
  {
    assert lines[i..][1..] == lines[i + 1..];
  }

  lemma {:induction false} SizesBelow(lines: seq<Line>, i: nat, j: nat)
    requires i <= j <= |lines|
    ensures TotalSize(lines[j..]) <= TotalSize(lines[i..])
    decreases j - i
  {
    if i < j {
      SizesFrom(lines, i);
      SizesBelow(lines, i + 1, j);
    }
  }

  /** Fields lie in the block, each above those that follow. */
  lemma FieldsApart(lines: seq<Line>, fields: seq<Field>)
    requires LaidOut(lines, fields)
    ensures forall i :: 0 <= i < |fields| ==> fields[i].offset + fields[i].size <= TotalSize(lines)
    ensures forall i, j :: 0 <= i < j < |fields| ==> fields[j].offset + fields[j].size <= fields[i].offset
  {
    forall i | 0 <= i < |fields| ensures fields[i].offset + fields[i].size <= TotalSize(lines) {
      var x := LineOf(lines, |lines|, i);
      SizesFrom(lines, x);
      SizesBelow(lines, 0, x);
      assert lines[0..] == lines;
    }
    forall i, j | 0 <= i < j < |fields| ensures fields[j].offset + fields[j].size <= fields[i].offset {
      var x := LineOf(lines, |lines|, i);
      var y := LineOf(lines, |lines|, j);
      if y < x {
        NamedMore(lines, y, x);
      }
      SizesFrom(lines, y);
      SizesBelow(lines, x + 1, y);
    }
  }

  /** A field keeps within one word. */
  predicate InOneWord(b: Base, f: Field)
    requires b.Valid()
  {
    f.offset / b.bits == (f.offset + f.size - 1) / b.bits
  }

  class Block {
    var size: nat
    var fields: seq<Field>

    /** Block.__init__. */
    constructor (lines: seq<Line>)
      ensures size == TotalSize(lines) && LaidOut(lines, fields)
    {
      var total := 0;
      for i := 0 to |lines|
        invariant total + TotalSize(lines[i..]) == TotalSize(lines)
      {
        assert lines[i..][1..] == lines[i + 1..];
        total := total + lines[i].size;
      }
      var offset, placed := total, [];
      assert lines[0..] == lines;
      for i := 0 to |lines|
        invariant offset == TotalSize(lines[i..]) && |placed| == Named(lines, i)
        invariant forall k {:trigger lines[k]} :: 0 <= k < i && lines[k].name.Some? ==>
          Named(lines, k) < |placed|
          && placed[Named(lines, k)] == Field(lines[k].name.value, TotalSize(lines[k + 1..]), lines[k].size, lines[k].high)
      {
        assert lines[i..][1..] == lines[i + 1..];
        offset := offset - lines[i].size;
        if lines[i].name.Some? {
          placed := placed + [Field(lines[i].name.value, offset, lines[i].size, lines[i].high)];
        }
      }
      size, fields := total, placed;
    }

    /** set_base: the number of words, or nothing when the block does not fit the word size. */
    method SetBase(b: Base) returns (multiple: Option<nat>)
      requires b.Valid()
      ensures multiple == if size % b.bits == 0 && (forall i :: 0 <= i < |fields| ==> InOneWord(b, fields[i]))
        then Some(size / b.bits) else None
    {
      if size % b.bits != 0 {
        return None;
      }
      for i := 0 to |fields|
        invariant forall j :: 0 <= j < i ==> InOneWord(b, fields[j])
      {
        if fields[i].offset / b.bits != (fields[i].offset + fields[i].size - 1) / b.bits {
          return None;
        }
      }
      return Some(size / b.bits);
    }
  }

  // ---- The generated accessors -------------------------------------------------------------

  function Index(b: Base, f: Field): nat
    requires b.Valid()
  {
    f.offset / b.bits
  }

  function At(b: Base, f: Field): nat
    requires b.Valid()
  {
    f.offset % b.bits
  }

  /** How far a field's bits move when it is read. */
  function Shift(b: Base, f: Field): nat
    requires b.Valid()
  {
    var shift := if f.high then b.valueBits - f.size - At(b, f) else At(b, f);
    if shift < 0 then -shift else shift
  }

  /** Whether reading shifts to the left. */
  predicate ReadsLeft(b: Base, f: Field)
    requires b.Valid()
  {
    f.high && b.valueBits - f.size - At(b, f) >= 0
  }

  function Mask(b: Base, f: Field): (m: Word)
    requires b.Valid()
    ensures |m| == b.bits
  {
    Ones(b.bits, At(b, f), f.size)
  }

  /** The bits that a sign extension sets. */
  function HighBits(b: Base): (m: Word)
    requires b.Valid()
    ensures |m| == b.bits
  {
    Ones(b.bits, b.valueBits, b.bits - b.valueBits)
  }

  /** The words of a block with the field f in it. */
  predicate Holds(b: Base, f: Field, s: seq<Word>) {
    && b.Valid()
    && (forall i :: 0 <= i < |s| ==> |s[i]| == b.bits)
    && Index(b, f) < |s| && At(b, f) + f.size <= b.bits
  }

  predicate IsWord(b: Base, v: Word) {
    |v| == b.bits
  }

  function Moved(b: Base, f: Field, w: Word): Word
    requires b.Valid()
  {
    if ReadsLeft(b, f) then Shl(w, Shift(b, f)) else Shr(w, Shift(b, f))
  }

  function MovedBack(b: Base, f: Field, v: Word): Word
    requires b.Valid()
  {
    if ReadsLeft(b, f) then Shr(v, Shift(b, f)) else Shl(v, Shift(b, f))
  }

  function Get(b: Base, f: Field, s: seq<Word>): (v: Word)
    requires Holds(b, f, s)
    ensures IsWord(b, v)
  {
    var r := Moved(b, f, And(s[Index(b, f)], Mask(b, f)));
    if b.signExtend && f.high && r[b.valueBits - 1] then Or(r, HighBits(b)) else r
  }

  function Set(b: Base, f: Field, s: seq<Word>, v: Word): (t: seq<Word>)
    requires Holds(b, f, s) && IsWord(b, v)
    ensures Holds(b, f, t) && |t| == |s|
  {
    s[Index(b, f) := Or(And(s[Index(b, f)], Not(Mask(b, f))), And(MovedBack(b, f, v), Mask(b, f)))]
  }

  // ---- What the accessors mean -------------------------------------------------------------

  /** The distance from a bit's place in the word to its place in the value. */
  function Distance(b: Base, f: Field): int
    requires b.Valid()
  {
    if f.high then b.valueBits - f.size - At(b, f) else 0 - At(b, f)
  }

  /** Bit p of a value is kept in the field. */
  predicate Stored(b: Base, f: Field, p: int)
    requires b.Valid()
  {
    At(b, f) <= p - Distance(b, f) < At(b, f) + f.size
  }

  lemma MovedAt(b: Base, f: Field, s: seq<Word>, p: nat)
    requires Holds(b, f, s) && p < b.bits
    ensures Moved(b, f, And(s[Index(b, f)], Mask(b, f)))[p] <==> Stored(b, f, p) && s[Index(b, f)][p - Distance(b, f)]
  {
  }

  /** The value as it comes back: the stored bits, sign extended. */
  function Fit(b: Base, f: Field, v: Word): (u: Word)
    requires b.Valid() && IsWord(b, v)
    ensures IsWord(b, u)
  {
    seq(b.bits, p requires 0 <= p < b.bits =>
      (Stored(b, f, p) && v[p]) ||
        (b.signExtend && f.high && p >= b.valueBits && Stored(b, f, b.valueBits - 1) && v[b.valueBits - 1]))
  }

  /** The bits that are not stored are zero, or copies of the sign. */
  predicate Representable(b: Base, f: Field, v: Word)
    requires b.Valid() && IsWord(b, v)
  {
    forall p :: 0 <= p < b.bits && !Stored(b, f, p) ==>
      v[p] == (b.signExtend && f.high && p >= b.valueBits && v[b.valueBits - 1])
  }

  lemma FitExactly(b: Base, f: Field, v: Word)
    requires b.Valid() && IsWord(b, v) && At(b, f) + f.size <= b.bits
    ensures Fit(b, f, v) == v <==> Representable(b, f, v)
  {
  }

  lemma SetAt(b: Base, f: Field, s: seq<Word>, v: Word, p: nat)
    requires Holds(b, f, s) && IsWord(b, v) && p < b.bits && Stored(b, f, p)
    ensures Set(b, f, s, v)[Index(b, f)][p - Distance(b, f)] == v[p]
  {
    var q := p - Distance(b, f);
    MovedBackAt(b, f, v, q);
    assert Mask(b, f)[q];
  }

  lemma GetSetAt(b: Base, f: Field, s: seq<Word>, v: Word, p: nat)
    requires Holds(b, f, s) && IsWord(b, v) && p < b.bits
    ensures var t := Set(b, f, s, v); Moved(b, f, And(t[Index(b, f)], Mask(b, f)))[p] <==> Stored(b, f, p) && v[p]
  {
    var t := Set(b, f, s, v);
    MovedAt(b, f, t, p);
    if Stored(b, f, p) {
      SetAt(b, f, s, v, p);
    }
  }

  /** Reading what was written gives the value that fits the field. */
  lemma GetSet(b: Base, f: Field, s: seq<Word>, v: Word)
    requires Holds(b, f, s) && IsWord(b, v)
    ensures Get(b, f, Set(b, f, s, v)) == Fit(b, f, v)
    ensures Get(b, f, Set(b, f, s, v)) == v <==> Representable(b, f, v)
  {
    var t := Set(b, f, s, v);
    forall p | 0 <= p < b.bits ensures Moved(b, f, And(t[Index(b, f)], Mask(b, f)))[p] <==> Stored(b, f, p) && v[p] {
      GetSetAt(b, f, s, v, p);
    }
    FitExactly(b, f, v);
  }

  /** Two fields of one block: they do not share bits. */
  predicate Apart(f: Field, g: Field) {
    f.offset + f.size <= g.offset || g.offset + g.size <= f.offset
  }

  lemma ApartInWord(b: Base, f: Field, g: Field)
    requires b.Valid() && Apart(f, g) && Index(b, f) == Index(b, g)
    ensures At(b, f) + f.size <= At(b, g) || At(b, g) + g.size <= At(b, f)
  {
  }

  /** Writing one field leaves every other field as it was. */
  lemma GetOther(b: Base, f: Field, g: Field, s: seq<Word>, v: Word)
    requires Holds(b, f, s) && Holds(b, g, s) && IsWord(b, v) && Apart(f, g)
    ensures Get(b, g, Set(b, f, s, v)) == Get(b, g, s)
  {
    if Index(b, f) == Index(b, g) {
      ApartInWord(b, f, g);
      var t := Set(b, f, s, v);
      assert And(t[Index(b, g)], Mask(b, g)) == And(s[Index(b, g)], Mask(b, g));
    }
  }

  /** Writes of different fields commute. */
  lemma SetsCommute(b: Base, f: Field, g: Field, s: seq<Word>, v: Word, u: Word)
    requires Holds(b, f, s) && Holds(b, g, s) && IsWord(b, v) && IsWord(b, u) && Apart(f, g)
    ensures Set(b, g, Set(b, f, s, v), u) == Set(b, f, Set(b, g, s, u), v)
  {
    var x, y := Set(b, g, Set(b, f, s, v), u), Set(b, f, Set(b, g, s, u), v);
    if Index(b, f) == Index(b, g) {
      ApartInWord(b, f, g);
      assert x[Index(b, f)] == y[Index(b, f)];
    }
    assert x == y;
  }

  /** Only the last of two writes of one field counts. */
  lemma SetTwice(b: Base, f: Field, s: seq<Word>, v: Word, u: Word)
    requires Holds(b, f, s) && IsWord(b, v) && IsWord(b, u)
    ensures Set(b, f, Set(b, f, s, v), u) == Set(b, f, s, u)
  {
    var x, y := Set(b, f, Set(b, f, s, v), u), Set(b, f, s, u);
    assert x[Index(b, f)] == y[Index(b, f)];
    assert x == y;
  }

  lemma MovedBackAt(b: Base, f: Field, v: Word, q: nat)
    requires b.Valid() && IsWord(b, v) && q < b.bits && 0 <= q + Distance(b, f) < b.bits
    ensures MovedBack(b, f, v)[q] == v[q + Distance(b, f)]
  {
  }

  lemma MovedBackOut(b: Base, f: Field, v: Word, q: nat)
    requires b.Valid() && IsWord(b, v) && q < b.bits && !(0 <= q + Distance(b, f) < b.bits)
    ensures !MovedBack(b, f, v)[q]
  {
  }

  lemma GetAt(b: Base, f: Field, s: seq<Word>, q: nat)
    requires Holds(b, f, s) && At(b, f) <= q < At(b, f) + f.size && (f.high ==> f.size <= b.valueBits)
    ensures 0 <= q + Distance(b, f) < b.bits && Get(b, f, s)[q + Distance(b, f)] == s[Index(b, f)][q]
  {
    MovedAt(b, f, s, q + Distance(b, f));
  }

  lemma SetGetAt(b: Base, f: Field, s: seq<Word>, q: nat)
    requires Holds(b, f, s) && (f.high ==> f.size <= b.valueBits) && q < b.bits
    ensures Set(b, f, s, Get(b, f, s))[Index(b, f)][q] == s[Index(b, f)][q]
  {
    var v := Get(b, f, s);
    if At(b, f) <= q < At(b, f) + f.size {
      GetAt(b, f, s, q);
      MovedBackAt(b, f, v, q);
    }
  }

  /** Writing back what was read changes nothing. */
  lemma SetGet(b: Base, f: Field, s: seq<Word>)
    requires Holds(b, f, s) && (f.high ==> f.size <= b.valueBits)
    ensures Set(b, f, s, Get(b, f, s)) == s
  {
    var t := Set(b, f, s, Get(b, f, s));
    forall q | 0 <= q < b.bits ensures t[Index(b, f)][q] == s[Index(b, f)][q] {
      SetGetAt(b, f, s, q);
    }
    assert t[Index(b, f)] == s[Index(b, f)];
    assert t == s;
  }

  // ---- Construction ------------------------------------------------------------------------

  /** The value's own mask, in the value's place. */
  function ValueMask(b: Base, f: Field): (m: Word)
    requires b.Valid()
    ensures |m| == b.bits
  {
    Ones(b.bits, if f.high then b.valueBits - f.size else 0, f.size)
  }

  /** The generator's assertion on one argument; a field of a whole word has none. */
  predicate NewAccepts(b: Base, f: Field, v: Word)
    requires b.Valid() && IsWord(b, v)
  {
    f.size < b.bits ==>
      And(v, Not(ValueMask(b, f))) == if b.signExtend && v[b.valueBits - 1] && f.high then HighBits(b) else Zero(b.bits)
  }

  /** What of the value goes into the field; a field of a whole word has no mask. */
  function Part(b: Base, f: Field, v: Word): (w: Word)
    requires b.Valid() && IsWord(b, v)
    ensures IsWord(b, w)
  {
    if f.size < b.bits then And(v, ValueMask(b, f)) else v
  }

  /** The generator's line for one field: the words start out as zero. */
  function Put(b: Base, f: Field, s: seq<Word>, v: Word): (t: seq<Word>)
    requires Holds(b, f, s) && IsWord(b, v)
    ensures Holds(b, f, t) && |t| == |s|
  {
    s[Index(b, f) := Or(s[Index(b, f)], MovedBack(b, f, Part(b, f, v)))]
  }

  /** The generator's assertion accepts exactly the values that the field can represent. */
  lemma NewAcceptsExactly(b: Base, f: Field, v: Word)
    requires b.Valid() && IsWord(b, v) && f.size < b.bits && At(b, f) + f.size <= b.bits
             && (f.high ==> f.size <= b.valueBits)
    ensures NewAccepts(b, f, v) <==> Representable(b, f, v)
  {
    var rest := And(v, Not(ValueMask(b, f)));
    var want := if b.signExtend && v[b.valueBits - 1] && f.high then HighBits(b) else Zero(b.bits);
    forall p | 0 <= p < b.bits ensures rest[p] == (!Stored(b, f, p) && v[p]) {
    }
    if rest == want {
      forall p | 0 <= p < b.bits && !Stored(b, f, p)
        ensures v[p] == (b.signExtend && f.high && p >= b.valueBits && v[b.valueBits - 1]) {
        assert rest[p] == want[p];
      }
    }
    if Representable(b, f, v) {
      forall p | 0 <= p < b.bits ensures rest[p] == want[p] {
      }
      assert rest == want;
    }
  }

  predicate Takes(b: Base, f: Field, v: Word, s: seq<Word>) {
    Holds(b, f, s) && IsWord(b, v)
  }

  /** The arguments of the generator, one for each field. */
  predicate Arguments(b: Base, fields: seq<Field>, values: seq<Word>, s: seq<Word>) {
    && b.Valid() && |values| == |fields|
    && (forall i {:trigger Takes(b, fields[i], values[i], s)} :: 0 <= i < |fields| ==> Takes(b, fields[i], values[i], s))
    && (forall i, j {:trigger Apart(fields[i], fields[j])} :: 0 <= i < j < |fields| ==> Apart(fields[i], fields[j]))
  }

  function Cleared(b: Base, multiple: nat): seq<Word> {
    seq(multiple, i => Zero(b.bits))
  }

  /** The generator, up to its n-th line. */
  function NewUpTo(b: Base, multiple: nat, fields: seq<Field>, values: seq<Word>, n: nat): (s: seq<Word>)
    requires n <= |fields| && Arguments(b, fields, values, Cleared(b, multiple))
    ensures |s| == multiple && forall i :: 0 <= i < |s| ==> |s[i]| == b.bits
  {
    if n == 0 then Cleared(b, multiple)
    else
      var before := NewUpTo(b, multiple, fields, values, n - 1);
      assert Takes(b, fields[n - 1], values[n - 1], Cleared(b, multiple));
      Put(b, fields[n - 1], before, values[n - 1])
  }

  function New(b: Base, multiple: nat, fields: seq<Field>, values: seq<Word>): (s: seq<Word>)
    requires Arguments(b, fields, values, Cleared(b, multiple))
    ensures |s| == multiple && forall i :: 0 <= i < |s| ==> |s[i]| == b.bits
  {
    NewUpTo(b, multiple, fields, values, |fields|)
  }

  /** A field whose bits are still zero. */
  predicate Untouched(b: Base, f: Field, s: seq<Word>)
    requires Holds(b, f, s)
  {
    forall q :: At(b, f) <= q < At(b, f) + f.size ==> !s[Index(b, f)][q]
  }

  lemma PartAt(b: Base, f: Field, v: Word, p: nat)
    requires b.Valid() && IsWord(b, v) && At(b, f) + f.size <= b.bits && (f.high ==> f.size <= b.valueBits)
    requires f.size < b.bits || !f.high || b.valueBits == b.bits
    requires p < b.bits
    ensures Part(b, f, v)[p] == (v[p] && Stored(b, f, p))
  {
  }

  lemma PutAt(b: Base, f: Field, s: seq<Word>, v: Word, q: nat)
    requires Holds(b, f, s) && IsWord(b, v) && Untouched(b, f, s) && (f.high ==> f.size <= b.valueBits)
    requires f.size < b.bits || !f.high || b.valueBits == b.bits
    requires q < b.bits
    ensures Put(b, f, s, v)[Index(b, f)][q] == Set(b, f, s, v)[Index(b, f)][q]
  {
    var p := q + Distance(b, f);
    if 0 <= p < b.bits {
      MovedBackAt(b, f, v, q);
      MovedBackAt(b, f, Part(b, f, v), q);
      PartAt(b, f, v, p);
    } else {
      MovedBackOut(b, f, v, q);
      MovedBackOut(b, f, Part(b, f, v), q);
    }
    assert Mask(b, f)[q] <==> Stored(b, f, p);
  }

  /** On a field that is still zero, the generator's line is a write. */
  lemma PutIsSet(b: Base, f: Field, s: seq<Word>, v: Word)
    requires Holds(b, f, s) && IsWord(b, v) && Untouched(b, f, s) && Representable(b, f, v)
             && (f.high ==> f.size <= b.valueBits)
    requires f.size < b.bits || !f.high || b.valueBits == b.bits
    ensures Put(b, f, s, v) == Set(b, f, s, v)
  {
    var x, y := Put(b, f, s, v), Set(b, f, s, v);
    forall q | 0 <= q < b.bits ensures x[Index(b, f)][q] == y[Index(b, f)][q] {
      PutAt(b, f, s, v, q);
    }
    assert x[Index(b, f)] == y[Index(b, f)];
    assert x == y;
  }

  lemma UntouchedBySet(b: Base, f: Field, g: Field, s: seq<Word>, v: Word)
    requires Holds(b, f, s) && Holds(b, g, s) && IsWord(b, v) && Apart(f, g) && Untouched(b, g, s)
    ensures Untouched(b, g, Set(b, f, s, v))
  {
    if Index(b, f) == Index(b, g) {
      ApartInWord(b, f, g);
    }
  }

  /** The compiler and the assertions accept the fields with these values. */
  predicate AllRepresentable(b: Base, fields: seq<Field>, values: seq<Word>)
    requires b.Valid() && |values| == |fields|
  {
    forall i {:trigger Accepts(b, fields[i], values[i])} :: 0 <= i < |fields| ==> Accepts(b, fields[i], values[i])
  }

  predicate Accepts(b: Base, f: Field, v: Word)
    requires b.Valid()
  {
    && IsWord(b, v) && Representable(b, f, v) && (f.high ==> f.size <= b.valueBits)
    && (f.size < b.bits || !f.high || b.valueBits == b.bits)
  }

  lemma PutReads(b: Base, f: Field, s: seq<Word>, v: Word)
    requires Takes(b, f, v, s) && Accepts(b, f, v) && Untouched(b, f, s)
    ensures Get(b, f, Put(b, f, s, v)) == v
  {
    PutIsSet(b, f, s, v);
    GetSet(b, f, s, v);
  }

  lemma PutOther(b: Base, f: Field, g: Field, s: seq<Word>, v: Word)
    requires Takes(b, f, v, s) && Accepts(b, f, v) && Untouched(b, f, s) && Holds(b, g, s) && Apart(f, g)
    ensures Holds(b, g, Put(b, f, s, v)) && Get(b, g, Put(b, f, s, v)) == Get(b, g, s)
    ensures Untouched(b, g, s) ==> Untouched(b, g, Put(b, f, s, v))
  {
    PutIsSet(b, f, s, v);
    GetOther(b, f, g, s, v);
    if Untouched(b, g, s) {
      UntouchedBySet(b, f, g, s, v);
    }
  }

  /** In s, which n lines of the generator have made: the i-th field reads as given if it was among them,
      and is still zero otherwise. */
  ghost predicate FieldOk(b: Base, fields: seq<Field>, values: seq<Word>, s: seq<Word>, n: nat, i: nat)
    requires i < |fields| == |values|
  {
    && Holds(b, fields[i], s)
    && if i < n then Get(b, fields[i], s) == values[i] else Untouched(b, fields[i], s)
  }

  /** One line of the generator. */
  lemma NewNext(b: Base, multiple: nat, fields: seq<Field>, values: seq<Word>, s: seq<Word>, n: nat, i: nat)
    requires Arguments(b, fields, values, Cleared(b, multiple)) && AllRepresentable(b, fields, values)
    requires n < |fields| && i < |fields| && FieldOk(b, fields, values, s, n, n) && FieldOk(b, fields, values, s, n, i)
    ensures IsWord(b, values[n]) && FieldOk(b, fields, values, Put(b, fields[n], s, values[n]), n + 1, i)
  {
    assert Takes(b, fields[n], values[n], Cleared(b, multiple)) && Accepts(b, fields[n], values[n]);
    if i == n {
      PutReads(b, fields[n], s, values[n]);
    } else {
      assert if i < n then Apart(fields[i], fields[n]) else Apart(fields[n], fields[i]);
      PutOther(b, fields[n], fields[i], s, values[n]);
    }
  }

  lemma NewStart(b: Base, multiple: nat, fields: seq<Field>, values: seq<Word>, i: nat)
    requires Arguments(b, fields, values, Cleared(b, multiple)) && AllRepresentable(b, fields, values) && i < |fields|
    ensures FieldOk(b, fields, values, NewUpTo(b, multiple, fields, values, 0), 0, i)
  {
    assert Takes(b, fields[i], values[i], Cleared(b, multiple));
  }

  lemma NewStep(b: Base, multiple: nat, fields: seq<Field>, values: seq<Word>, n: nat, i: nat)
    requires Arguments(b, fields, values, Cleared(b, multiple)) && AllRepresentable(b, fields, values)
    requires n < |fields| && i < |fields|
    requires FieldOk(b, fields, values, NewUpTo(b, multiple, fields, values, n), n, n)
    requires FieldOk(b, fields, values, NewUpTo(b, multiple, fields, values, n), n, i)
    ensures FieldOk(b, fields, values, NewUpTo(b, multiple, fields, values, n + 1), n + 1, i)
  {
    NewNext(b, multiple, fields, values, NewUpTo(b, multiple, fields, values, n), n, i);
  }

  lemma {:induction false} NewSoFar(b: Base, multiple: nat, fields: seq<Field>, values: seq<Word>, n: nat, i: nat)
    requires Arguments(b, fields, values, Cleared(b, multiple)) && AllRepresentable(b, fields, values)
    requires n <= |fields| && i < |fields|
    ensures FieldOk(b, fields, values, NewUpTo(b, multiple, fields, values, n), n, i)
  {
    if n == 0 {
      NewStart(b, multiple, fields, values, i);
    } else {
      NewSoFar(b, multiple, fields, values, n - 1, n - 1);
      NewSoFar(b, multiple, fields, values, n - 1, i);
      NewStep(b, multiple, fields, values, n - 1, i);
    }
  }

  /** Every field of a new block reads as the value it was built with. */
  lemma GetNew(b: Base, multiple: nat, fields: seq<Field>, values: seq<Word>, i: nat)
    requires Arguments(b, fields, values, Cleared(b, multiple)) && AllRepresentable(b, fields, values) && i < |fields|
    ensures Holds(b, fields[i], New(b, multiple, fields, values))
            && Get(b, fields[i], New(b, multiple, fields, values)) == values[i]
  {
    NewSoFar(b, multiple, fields, values, |fields|, i);
  }

  lemma WordOf(b: Base, f: Field, size: nat)
    requires b.Valid() && InOneWord(b, f) && f.offset + f.size <= size && size % b.bits == 0
    ensures f.offset / b.bits < size / b.bits && f.offset % b.bits + f.size <= b.bits
  {
    var n, k := size / b.bits, f.offset / b.bits;
    DivBounds(size, b.bits);
    DivBounds(f.offset, b.bits);
    DivBounds(f.offset + f.size - 1, b.bits);
    if k >= n {
      MulGrows(n, k, b.bits);
    }
  }

  lemma DivBounds(y: int, bits: nat)
    requires bits > 0
    ensures y == (y / bits) * bits + y % bits && 0 <= y % bits < bits
  {
  }

  lemma MulGrows(n: nat, k: nat, bits: nat)
    requires n <= k
    ensures n * bits <= k * bits
  {
  }

  /** The fields of a block that set_base accepts lie inside its words and share no bits. */
  lemma LayoutHolds(b: Base, lines: seq<Line>, fields: seq<Field>, values: seq<Word>)
    requires b.Valid() && TotalSize(lines) % b.bits == 0 && LaidOut(lines, fields)
             && (forall i :: 0 <= i < |fields| ==> InOneWord(b, fields[i]))
    requires |values| == |fields| && forall i :: 0 <= i < |values| ==> IsWord(b, values[i])
    ensures Arguments(b, fields, values, Cleared(b, TotalSize(lines) / b.bits))
  {
    FieldsApart(lines, fields);
    FieldsHold(b, fields, TotalSize(lines), values);
  }

  lemma FieldsHold(b: Base, fields: seq<Field>, size: nat, values: seq<Word>)
    requires b.Valid() && size % b.bits == 0
             && (forall i :: 0 <= i < |fields| ==> InOneWord(b, fields[i]) && fields[i].offset + fields[i].size <= size)
    requires forall i, j :: 0 <= i < j < |fields| ==> fields[j].offset + fields[j].size <= fields[i].offset
    requires |values| == |fields| && forall i :: 0 <= i < |values| ==> IsWord(b, values[i])
    ensures Arguments(b, fields, values, Cleared(b, size / b.bits))
  {
    forall i | 0 <= i < |fields| ensures Holds(b, fields[i], Cleared(b, size / b.bits)) {
      HoldsInCleared(b, fields[i], size);
    }
  }

  lemma HoldsInCleared(b: Base, f: Field, size: nat)
    requires b.Valid() && InOneWord(b, f) && f.offset + f.size <= size && size % b.bits == 0
    ensures Holds(b, f, Cleared(b, size / b.bits))
  {
    WordOf(b, f, size);
  }

  // ---- The assertion of a write ------------------------------------------------------------

  /** The C type of the mask constant in the assertion: its width, and whether it is signed. */
  datatype Literal = Literal(width: nat, signed: bool)

  /** A hexadecimal constant without a suffix gets the first type that holds it, of int, unsigned int,
      and the 64-bit types; the mask's highest bit is the field's. */
  function Unsuffixed(b: Base, f: Field): Literal
    requires b.Valid()
  {
    var top := if f.size == 0 then 0 else At(b, f) + f.size;
    Literal(if top <= 32 then 32 else 64, top != 32 && top != 64)
  }

  /** With the compiler's suffix it is unsigned, of a width that holds a word. */
  function Suffixed(b: Base, longBits: nat): Literal {
    Literal(if b.bits == 64 then 64 else longBits, false)
  }

  /** The constant holds the mask, and is not negative. */
  predicate HoldsMask(b: Base, f: Field, lit: Literal)
    requires b.Valid()
  {
    0 < lit.width && (f.size > 0 ==> if lit.signed then At(b, f) + f.size < lit.width else At(b, f) + f.size <= lit.width)
  }

  predicate InMask(b: Base, f: Field, q: int)
    requires b.Valid()
  {
    At(b, f) <= q < At(b, f) + f.size
  }

  /** Bit p of ~mask shifted as when reading, in the constant's own width; a signed one is shifted right
      arithmetically. */
  predicate ShiftedNot(b: Base, f: Field, lit: Literal, p: int)
    requires b.Valid()
  {
    if ReadsLeft(b, f) then p >= Shift(b, f) && !InMask(b, f, p - Shift(b, f))
    else if p + Shift(b, f) < lit.width then !InMask(b, f, p + Shift(b, f))
    else lit.signed
  }

  /** Bit p of the same, widened to a word: by copies of the sign, or by zeros. A shift by the width or
      more is undefined, and gives any bits at all. */
  predicate Checked(b: Base, f: Field, lit: Literal, anything: Word, p: int)
    requires b.Valid() && IsWord(b, anything) && 0 <= p < b.bits
  {
    if Shift(b, f) >= lit.width then anything[p]
    else if p < lit.width then ShiftedNot(b, f, lit, p)
    else lit.signed && ShiftedNot(b, f, lit, lit.width - 1)
  }

  /** The assertion in a generated write. */
  predicate SetAccepts(b: Base, f: Field, lit: Literal, anything: Word, v: Word)
    requires b.Valid() && IsWord(b, anything) && IsWord(b, v)
  {
    forall p :: 0 <= p < b.bits ==>
      (Checked(b, f, lit, anything, p) && v[p]) == (b.signExtend && f.high && v[b.valueBits - 1] && p >= b.valueBits)
  }

  /** No bit of a value escapes the assertion: it is not shifted to the left, the shift is defined, and
      the constant is signed or wide enough. */
  predicate Covered(b: Base, f: Field, lit: Literal)
    requires b.Valid()
  {
    && (ReadsLeft(b, f) ==> Shift(b, f) == 0)
    && Shift(b, f) < lit.width && (lit.signed || b.bits + Shift(b, f) <= lit.width)
  }

  /** A value that is zero but for one bit. */
  function Bit(bits: nat, at: nat): Word {
    Ones(bits, at, 1)
  }

  lemma StoredIsMask(b: Base, f: Field, p: int)
    requires b.Valid()
    ensures ReadsLeft(b, f) ==> Distance(b, f) == Shift(b, f)
    ensures !ReadsLeft(b, f) ==> Distance(b, f) == 0 - Shift(b, f)
    ensures Stored(b, f, p) <==> InMask(b, f, p - Distance(b, f))
  {
  }

  lemma CheckedWhenCovered(b: Base, f: Field, lit: Literal, anything: Word, p: int)
    requires b.Valid() && At(b, f) + f.size <= b.bits && HoldsMask(b, f, lit) && Covered(b, f, lit)
    requires IsWord(b, anything) && 0 <= p < b.bits
    ensures Checked(b, f, lit, anything, p) <==> !Stored(b, f, p)
  {
    StoredIsMask(b, f, p);
  }

  /** The assertion of a write accepts exactly the representable values when it is covered. */
  lemma SetAcceptsWhenCovered(b: Base, f: Field, lit: Literal, anything: Word, v: Word)
    requires b.Valid() && At(b, f) + f.size <= b.bits && HoldsMask(b, f, lit) && Covered(b, f, lit)
    requires IsWord(b, anything) && IsWord(b, v)
    ensures SetAccepts(b, f, lit, anything, v) <==> Representable(b, f, v)
  {
    forall p | 0 <= p < b.bits ensures Checked(b, f, lit, anything, p) <==> !Stored(b, f, p) {
      CheckedWhenCovered(b, f, lit, anything, p);
    }
  }

  /** A bit that escapes the assertion. */
  function Escape(b: Base, f: Field): nat
    requires b.Valid()
  {
    if ReadsLeft(b, f) && Shift(b, f) > 0 then 0 else b.bits - 1
  }

  lemma EscapesAt(b: Base, f: Field, lit: Literal)
    requires b.Valid() && At(b, f) + f.size <= b.bits && HoldsMask(b, f, lit) && !Covered(b, f, lit)
    ensures Escape(b, f) < b.bits && !Checked(b, f, lit, Zero(b.bits), Escape(b, f)) && !Stored(b, f, Escape(b, f))
  {
    StoredIsMask(b, f, Escape(b, f));
  }

  /** When it is not covered, it lets a value through that the field cannot represent. */
  lemma SetAcceptsTooMuch(b: Base, f: Field, lit: Literal) returns (v: Word)
    requires b.Valid() && InOneWord(b, f) && At(b, f) + f.size <= b.bits && HoldsMask(b, f, lit) && !Covered(b, f, lit)
    ensures IsWord(b, v) && SetAccepts(b, f, lit, Zero(b.bits), v) && !Representable(b, f, v)
  {
    EscapesAt(b, f, lit);
    v := Bit(b.bits, Escape(b, f));
    StoredIsMask(b, f, b.valueBits - 1);
    assert v[Escape(b, f)];
    assert f.high && f.size > 0 ==> Stored(b, f, b.valueBits - 1);
  }

  /** The assertion of a write guarantees that the value can be read back if and only if it is covered. */
  lemma WriteAssertionSound(b: Base, f: Field, lit: Literal)
    requires b.Valid() && InOneWord(b, f) && At(b, f) + f.size <= b.bits && HoldsMask(b, f, lit)
    ensures (forall x, v :: IsWord(b, x) && IsWord(b, v) && SetAccepts(b, f, lit, x, v) ==> Representable(b, f, v))
            <==> Covered(b, f, lit)
  {
    if Covered(b, f, lit) {
      forall x, v | IsWord(b, x) && IsWord(b, v) && SetAccepts(b, f, lit, x, v) ensures Representable(b, f, v) {
        SetAcceptsWhenCovered(b, f, lit, x, v);
      }
    } else {
      var v := SetAcceptsTooMuch(b, f, lit);
      assert IsWord(b, Zero(b.bits));
    }
  }

  /** The constants that the compiler emits hold the mask: the bare one of plain blocks, and the suffixed
      one of blocks in unions. */
  lemma ConstantsHold(b: Base, f: Field, longBits: nat)
    requires b.Valid() && b.bits in {8, 16, 32, 64} && At(b, f) + f.size <= b.bits && 32 <= longBits
    ensures HoldsMask(b, f, Unsuffixed(b, f)) && HoldsMask(b, f, Suffixed(b, longBits))
  {
  }

  /** In a block of 64-bit words a field in the lower half that reaches bit 31 is not protected: its mask
      is a 32-bit constant, and the upper half of a value is never looked at. */
  lemma UpperHalfUnchecked(size: nat, v: Word)
    requires 0 < size <= 32 && |v| == 64 && forall p :: 0 <= p < 32 ==> !v[p]
    ensures var b, f := Base(64, 64, false), Field("f", 32 - size, size, false);
            SetAccepts(b, f, Unsuffixed(b, f), Zero(64), v) && (v[63] ==> !Representable(b, f, v))
  {
    var b, f := Base(64, 64, false), Field("f", 32 - size, size, false);
    assert v[63] ==> !Stored(b, f, 63);
  }
}
