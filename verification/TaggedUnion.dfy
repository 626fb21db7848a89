/** Tagged unions of the bitfield compiler: the checks on variable-width tags, and the decoder that is
    generated for a union that passes them. */
module TaggedUnion {
  import opened Bitfield

  /** A number, as the set of the places of its one bits. */
  type Bits = set<nat>

  function Up(x: Bits, n: nat): Bits {
    set i | i in x :: i + n
  }

  lemma UpHas(x: Bits, n: nat, j: nat)
    ensures j in Up(x, n) <==> j >= n && j - n in x
  {
    if j >= n && j - n in x {
      assert j == (j - n) + n;
    }
  }

  /** An element of a union: the value of its tag, and where its block keeps it. */
  datatype Tag = Tag(name: string, value: Bits, offset: nat, width: nat, high: bool, blockBase: nat, blockSize: nat)

  // ---- The word ----------------------------------------------------------------------------

  predicate BitAt(w: Word, i: nat) {
    i < |w| && w[i]
  }

  function WordBits(w: Word): Bits {
    set i: nat | i < |w| && BitAt(w, i)
  }

  predicate InField(w: Word, at: nat, i: nat) {
    BitAt(w, at + i)
  }

  /** (w >> at) & (2 ** width - 1). */
  function FieldBits(w: Word, at: nat, width: nat): Bits {
    set i: nat | i < width && InField(w, at, i)
  }

  // ---- What the checks establish -----------------------------------------------------------

  /** The encoding that make_classes settles on: the widths in ascending order, where the tag of each
      width lies, and the mask that sends the decoder on to the next width. Masks are relative to the
      lowest tag. */
  datatype Encoding = Encoding(widths: seq<nat>, tagOffset: map<nat, nat>, classOffset: nat, classes: map<nat, Bits>)

  predicate Total(e: Encoding) {
    && |e.widths| > 0
    && (forall i :: 0 <= i < |e.widths| ==> e.widths[i] in e.tagOffset && e.widths[i] in e.classes)
    && (forall i, j :: 0 <= i < j < |e.widths| ==> e.widths[i] < e.widths[j])
    && (forall w :: w in e.tagOffset ==> e.classOffset <= e.tagOffset[w])
  }

  /** The mask for a width keeps within the tag of that width. */
  predicate MaskInField(e: Encoding, w: nat)
    requires w in e.classes && w in e.tagOffset
  {
    forall i :: i in Up(e.classes[w], e.classOffset) ==> e.tagOffset[w] <= i < e.tagOffset[w] + w
  }

  predicate Nested(e: Encoding)
    requires Total(e)
  {
    forall i :: 1 <= i < |e.widths| ==> e.classes[e.widths[i - 1]] <= e.classes[e.widths[i]]
  }

  /** The sanity checks at the end of make_classes. */
  predicate Sane(e: Encoding)
    requires Total(e)
  {
    && (forall i :: 0 <= i < |e.widths| ==> MaskInField(e, e.widths[i]))
    && (|e.widths| > 1 ==> e.classes[e.widths[0]] != {})
    && (forall i :: 1 <= i < |e.widths| - 1 ==> e.classes[e.widths[i - 1]] != e.classes[e.widths[i]])
    && Nested(e)
  }

  /** A tag's value, relative to the lowest tag. */
  function ClassValue(e: Encoding, t: Tag): Bits
    requires t.width in e.tagOffset && e.classOffset <= e.tagOffset[t.width]
  {
    Up(t.value, e.tagOffset[t.width] - e.classOffset)
  }

  /** assert_value_in_class: the value fits its field, is in every earlier class, and is not in its
      own unless there is no wider tag. */
  predicate ValueInClass(e: Encoding, t: Tag)
    requires Total(e) && t.width in e.tagOffset
  {
    && (forall i :: i in t.value ==> i < t.width)
    && (forall k :: 0 <= k < |e.widths| && e.widths[k] < t.width ==> e.classes[e.widths[k]] <= ClassValue(e, t))
    && (t.width in e.widths && t.width != e.widths[|e.widths| - 1] ==> !(e.classes[t.width] <= ClassValue(e, t)))
  }

  /** What resolve and set_base demand of an element. */
  predicate TagAccepted(e: Encoding, t: Tag)
    requires Total(e)
  {
    && t.width in e.widths && t.width in e.tagOffset && t.offset == e.tagOffset[t.width] && !t.high
    && ValueInClass(e, t)
  }

  predicate OneWord(e: Encoding, base: nat)
    requires base > 0
  {
    forall v, w :: v in e.tagOffset && w in e.tagOffset ==> e.tagOffset[v] / base == e.tagOffset[w] / base
  }

  /** The lowest tag is one of the tags. */
  predicate Lowest(e: Encoding) {
    exists w :: w in e.tagOffset && e.tagOffset[w] == e.classOffset
  }

  predicate Accepted(e: Encoding, tags: seq<Tag>, base: nat) {
    && base > 0 && Total(e) && Sane(e) && Lowest(e) && OneWord(e, base)
    && (forall i :: 0 <= i < |tags| ==> TagAccepted(e, tags[i]))
  }

  // ---- The generated decoder ---------------------------------------------------------------

  function TagPlace(e: Encoding, base: nat, w: nat): nat
    requires base > 0 && w in e.tagOffset
  {
    e.tagOffset[w] % base
  }

  /** word_classmask: the mask in the word. */
  function WordMask(e: Encoding, base: nat, w: nat): Bits
    requires base > 0 && w in e.classes
  {
    Up(e.classes[w], e.classOffset % base)
  }

  /** The tag reader, from its k-th line on. */
  function ReadFrom(e: Encoding, base: nat, word: Word, k: nat): Bits
    requires base > 0 && Total(e) && k < |e.widths|
    decreases |e.widths| - k
  {
    var w := e.widths[k];
    var field := FieldBits(word, TagPlace(e, base, w), w);
    if k == |e.widths| - 1 || !(WordMask(e, base, w) <= WordBits(word)) then field else ReadFrom(e, base, word, k + 1)
  }

  function GetTag(e: Encoding, base: nat, word: Word): Bits
    requires base > 0 && Total(e)
  {
    ReadFrom(e, base, word, 0)
  }

  /** The comparison with a tag, from its k-th line on: the class test is made on the tag itself. */
  predicate EqualsFrom(e: Encoding, base: nat, word: Word, tag: Bits, k: nat)
    requires base > 0 && Total(e) && k < |e.widths|
    decreases |e.widths| - k
  {
    var w := e.widths[k];
    var field := FieldBits(word, TagPlace(e, base, w), w);
    if k == |e.widths| - 1 || !(WordMask(e, base, w) <= tag) then field == tag else EqualsFrom(e, base, word, tag, k + 1)
  }

  predicate TagEquals(e: Encoding, base: nat, word: Word, tag: Bits)
    requires base > 0 && Total(e)
  {
    EqualsFrom(e, base, word, tag, 0)
  }

  // ---- Decoding is exact -------------------------------------------------------------------

  /** The word has the tag t in t's field; its other bits are anything. */
  predicate Carries(e: Encoding, base: nat, word: Word, t: Tag)
    requires base > 0 && t.width in e.tagOffset
  {
    && TagPlace(e, base, t.width) + t.width <= |word|
    && forall i: nat :: i < t.width ==> (InField(word, TagPlace(e, base, t.width), i) <==> i in t.value)
  }

  /** Places in the word and places relative to the lowest tag differ by the same amount everywhere. */
  lemma SamePlace(e: Encoding, base: nat, w: nat)
    requires base > 0 && Total(e) && Lowest(e) && OneWord(e, base) && w in e.tagOffset
    ensures TagPlace(e, base, w) == e.classOffset % base + (e.tagOffset[w] - e.classOffset)
  {
    var v :| v in e.tagOffset && e.tagOffset[v] == e.classOffset;
    SameQuotient(e.tagOffset[w], e.classOffset, base);
  }

  lemma SameQuotient(x: nat, y: nat, base: nat)
    requires base > 0 && x / base == y / base
    ensures x % base - y % base == x - y
  {
    assert x == (x / base) * base + x % base;
    assert y == (y / base) * base + y % base;
  }

  /** A carried tag's bits are in the word, in place. */
  lemma CarriedBit(e: Encoding, base: nat, word: Word, t: Tag, i: nat)
    requires base > 0 && Total(e) && Lowest(e) && OneWord(e, base) && TagAccepted(e, t) && Carries(e, base, word, t)
    requires i in ClassValue(e, t)
    ensures i + e.classOffset % base in WordBits(word)
  {
    UpHas(t.value, e.tagOffset[t.width] - e.classOffset, i);
    SamePlace(e, base, t.width);
    var j := i - (e.tagOffset[t.width] - e.classOffset);
    assert InField(word, TagPlace(e, base, t.width), j);
    assert BitAt(word, i + e.classOffset % base);
  }

  /** A mask that the tag's value includes is in the word. */
  lemma MaskPasses(e: Encoding, base: nat, word: Word, t: Tag, w: nat)
    requires base > 0 && Total(e) && Lowest(e) && OneWord(e, base) && TagAccepted(e, t) && Carries(e, base, word, t)
    requires w in e.classes && e.classes[w] <= ClassValue(e, t)
    ensures WordMask(e, base, w) <= WordBits(word)
  {
    forall p | p in WordMask(e, base, w) ensures p in WordBits(word) {
      UpHas(e.classes[w], e.classOffset % base, p);
      CarriedBit(e, base, word, t, p - e.classOffset % base);
    }
  }

  /** A mask of the tag's own width that its value does not include is not in the word. */
  lemma MaskStops(e: Encoding, base: nat, word: Word, t: Tag)
    requires base > 0 && Total(e) && Lowest(e) && OneWord(e, base) && TagAccepted(e, t) && Carries(e, base, word, t)
    requires t.width in e.classes && MaskInField(e, t.width) && !(e.classes[t.width] <= ClassValue(e, t))
    ensures !(WordMask(e, base, t.width) <= WordBits(word))
  {
    var i :| i in e.classes[t.width] && i !in ClassValue(e, t);
    var d := e.tagOffset[t.width] - e.classOffset;
    UpHas(e.classes[t.width], e.classOffset, i + e.classOffset);
    assert i + e.classOffset in Up(e.classes[t.width], e.classOffset);
    UpHas(t.value, d, i);
    UpHas(e.classes[t.width], e.classOffset % base, i + e.classOffset % base);
    SamePlace(e, base, t.width);
    assert !InField(word, TagPlace(e, base, t.width), i - d);
    assert i + e.classOffset % base !in WordBits(word);
  }

  lemma FieldIsValue(e: Encoding, base: nat, word: Word, t: Tag)
    requires base > 0 && Total(e) && TagAccepted(e, t) && Carries(e, base, word, t)
    ensures FieldBits(word, TagPlace(e, base, t.width), t.width) == t.value
  {
    forall i: nat | i < t.width ensures InField(word, TagPlace(e, base, t.width), i) <==> i in t.value {
    }
  }

  lemma {:induction false} ReadReaches(e: Encoding, tags: seq<Tag>, base: nat, word: Word, t: Tag, k: nat)
    requires Accepted(e, tags, base) && TagAccepted(e, t) && Carries(e, base, word, t)
    requires k < |e.widths| && e.widths[k] <= t.width
    ensures ReadFrom(e, base, word, k) == t.value
    decreases |e.widths| - k
  {
    if e.widths[k] == t.width {
      FieldIsValue(e, base, word, t);
      if k < |e.widths| - 1 {
        assert e.widths[k] < e.widths[|e.widths| - 1];
        MaskStops(e, base, word, t);
      }
    } else {
      MaskPasses(e, base, word, t, e.widths[k]);
      var m :| 0 <= m < |e.widths| && e.widths[m] == t.width;
      assert k < m;
      assert e.widths[k + 1] <= e.widths[m];
      ReadReaches(e, tags, base, word, t, k + 1);
    }
  }

  /** The decoder returns exactly the tag that a word carries. */
  lemma DecodesTag(e: Encoding, tags: seq<Tag>, base: nat, word: Word, t: Tag)
    requires Accepted(e, tags, base) && t in tags && Carries(e, base, word, t)
    ensures GetTag(e, base, word) == t.value
  {
    var m :| 0 <= m < |e.widths| && e.widths[m] == t.width;
    assert e.widths[0] <= e.widths[m];
    ReadReaches(e, tags, base, word, t, 0);
  }

  /** Words that carry different tags never decode alike. */
  lemma TagsNeverMixUp(e: Encoding, tags: seq<Tag>, base: nat, word: Word, other: Word, t: Tag, u: Tag)
    requires Accepted(e, tags, base) && t in tags && u in tags && t.value != u.value
    requires Carries(e, base, word, t) && Carries(e, base, other, u)
    ensures GetTag(e, base, word) != GetTag(e, base, other) && word != other
  {
    DecodesTag(e, tags, base, word, t);
    DecodesTag(e, tags, base, other, u);
  }

  // ---- Building and decoding ---------------------------------------------------------------

  /** A block built by its generator, with the tag's value in the tag's field, decodes to that tag. */
  lemma BuiltDecodes(e: Encoding, tags: seq<Tag>, b: Base, multiple: nat, fields: seq<Field>, values: seq<Word>,
          i: nat, t: Tag)
    requires Arguments(b, fields, values, Cleared(b, multiple)) && AllRepresentable(b, fields, values)
    requires Accepted(e, tags, b.bits) && t in tags
    requires i < |fields| && fields[i].offset == t.offset && fields[i].size == t.width && !fields[i].high
             && WordBits(values[i]) == t.value
    ensures Index(b, fields[i]) < multiple
    ensures GetTag(e, b.bits, New(b, multiple, fields, values)[Index(b, fields[i])]) == t.value
  {
    var s := New(b, multiple, fields, values);
    var f := fields[i];
    GetNew(b, multiple, fields, values, i);
    var word := s[Index(b, f)];
    forall j: nat | j < t.width ensures InField(word, At(b, f), j) <==> j in t.value {
      BitRead(b, f, s, values[i], j);
    }
    assert TagPlace(e, b.bits, t.width) == At(b, f);
    DecodesTag(e, tags, b.bits, word, t);
  }

  lemma BitRead(b: Base, f: Field, s: seq<Word>, v: Word, j: nat)
    requires Holds(b, f, s) && Get(b, f, s) == v && !f.high && j < f.size
    ensures InField(s[Index(b, f)], At(b, f), j) <==> j in WordBits(v)
  {
    GetAt(b, f, s, At(b, f) + j);
    assert v[j] == s[Index(b, f)][At(b, f) + j];
    assert j in WordBits(v) <==> BitAt(v, j);
  }

  // ---- The comparison ----------------------------------------------------------------------

  /** All tags sit at the lowest bit of their word. */
  predicate AtBitZero(e: Encoding, base: nat)
    requires base > 0 && Total(e)
  {
    forall w :: w in e.tagOffset ==> TagPlace(e, base, w) == 0
  }

  lemma MaskBelow(e: Encoding, base: nat, w: nat)
    requires base > 0 && Total(e) && Lowest(e) && OneWord(e, base) && AtBitZero(e, base) && w in e.tagOffset
             && w in e.classes && MaskInField(e, w)
    ensures forall p :: p in WordMask(e, base, w) ==> p < w
  {
    SamePlace(e, base, w);
    forall p | p in WordMask(e, base, w) ensures p < w {
      UpHas(e.classes[w], e.classOffset % base, p);
      UpHas(e.classes[w], e.classOffset, p + e.classOffset);
    }
  }

  lemma FieldAtZero(word: Word, w: nat, p: nat)
    ensures p in FieldBits(word, 0, w) <==> p < w && p in WordBits(word)
  {
    assert InField(word, 0, p) <==> BitAt(word, p);
  }

  /** Whatever the reader finds from line k on keeps the bits below the k-th width. */
  lemma {:induction false} ReadKeeps(e: Encoding, base: nat, word: Word, k: nat, p: nat)
    requires base > 0 && Total(e) && AtBitZero(e, base) && k < |e.widths| && p < e.widths[k]
    ensures p in ReadFrom(e, base, word, k) <==> p in WordBits(word)
    decreases |e.widths| - k
  {
    FieldAtZero(word, e.widths[k], p);
    if k < |e.widths| - 1 {
      assert e.widths[k] < e.widths[k + 1];
      ReadKeeps(e, base, word, k + 1, p);
    }
  }

  lemma {:induction false} EqualsKeeps(e: Encoding, base: nat, word: Word, tag: Bits, k: nat, p: nat)
    requires base > 0 && Total(e) && AtBitZero(e, base) && k < |e.widths| && p < e.widths[k]
             && EqualsFrom(e, base, word, tag, k)
    ensures p in tag <==> p in WordBits(word)
    decreases |e.widths| - k
  {
    FieldAtZero(word, e.widths[k], p);
    if k < |e.widths| - 1 {
      assert e.widths[k] < e.widths[k + 1];
      if WordMask(e, base, e.widths[k]) <= tag {
        EqualsKeeps(e, base, word, tag, k + 1, p);
      }
    }
  }

  lemma {:induction false} EqualsFromAgrees(e: Encoding, tags: seq<Tag>, base: nat, word: Word, tag: Bits, k: nat)
    requires Accepted(e, tags, base) && AtBitZero(e, base) && k < |e.widths|
    ensures EqualsFrom(e, base, word, tag, k) <==> ReadFrom(e, base, word, k) == tag
    decreases |e.widths| - k
  {
    var mask := WordMask(e, base, e.widths[k]);
    MaskBelow(e, base, e.widths[k]);
    if k < |e.widths| - 1 && (mask <= tag || mask <= WordBits(word)) {
      if EqualsFrom(e, base, word, tag, k) {
        forall p | p in mask ensures p in tag <==> p in WordBits(word) {
          EqualsKeeps(e, base, word, tag, k, p);
        }
      }
      if ReadFrom(e, base, word, k) == tag {
        forall p | p in mask ensures p in tag <==> p in WordBits(word) {
          ReadKeeps(e, base, word, k, p);
        }
      }
      EqualsFromAgrees(e, tags, base, word, tag, k + 1);
    }
  }

  /** With the tags at bit 0 the comparison agrees with reading the tag and comparing, for every word
      and every tag. */
  lemma EqualsAgrees(e: Encoding, tags: seq<Tag>, base: nat, word: Word, tag: Bits)
    requires Accepted(e, tags, base) && AtBitZero(e, base)
    ensures TagEquals(e, base, word, tag) <==> GetTag(e, base, word) == tag
  {
    EqualsFromAgrees(e, tags, base, word, tag, 0);
  }

  // Otherwise the class test, made on the tag with a mask meant for the word, goes wrong somewhere.

  function WordOf(x: Bits, base: nat): Word {
    seq(base, i => i in x)
  }

  lemma WordOfBits(x: Bits, base: nat, i: nat)
    requires forall j :: j in x ==> j < base
    ensures i in WordBits(WordOf(x, base)) <==> i in x
  {
    assert BitAt(WordOf(x, base), i) <==> i in x;
  }

  lemma FieldOf(x: Bits, base: nat, at: nat, width: nat, i: nat)
    requires forall j :: j in x ==> j < base
    ensures i in FieldBits(WordOf(x, base), at, width) <==> i < width && at + i in x
  {
    assert InField(WordOf(x, base), at, i) <==> at + i in x;
  }

  lemma LeastOf(x: Bits) returns (m: nat)
    requires x != {}
    ensures m in x && forall i :: i in x ==> m <= i
  {
    var y :| y in x;
    if x == {y} {
      m := y;
    } else {
      m := LeastOf(x - {y});
      m := if y < m then y else m;
      assert forall i :: i in x ==> i == y || i in x - {y};
    }
  }

  lemma GreatestOf(x: Bits) returns (m: nat)
    requires x != {}
    ensures m in x && forall i :: i in x ==> i <= m
  {
    var y :| y in x;
    if x == {y} {
      m := y;
    } else {
      m := GreatestOf(x - {y});
      m := if y > m then y else m;
      assert forall i :: i in x ==> i == y || i in x - {y};
    }
  }

  lemma {:induction false} ClassesNest(e: Encoding, i: nat, j: nat)
    requires Total(e) && Nested(e) && i <= j < |e.widths|
    ensures e.classes[e.widths[i]] <= e.classes[e.widths[j]]
    decreases j - i
  {
    if i < j {
      ClassesNest(e, i, j - 1);
      assert e.classes[e.widths[j - 1]] <= e.classes[e.widths[j]];
    }
  }

  /** The fields of the tags do not cross the end of the word. */
  predicate InWord(e: Encoding, base: nat)
    requires base > 0
  {
    forall w :: w in e.tagOffset ==> TagPlace(e, base, w) + w <= base
  }

  /** A mask, in the word, lies in the fields of its own width and of every wider one. */
  lemma MaskInWiderField(e: Encoding, tags: seq<Tag>, base: nat, i: nat, j: nat, p: nat)
    requires Accepted(e, tags, base) && i <= j < |e.widths| && p in WordMask(e, base, e.widths[i])
    ensures TagPlace(e, base, e.widths[j]) <= p < TagPlace(e, base, e.widths[j]) + e.widths[j]
  {
    var c, w := e.classOffset % base, e.widths[j];
    ClassesNest(e, i, j);
    UpHas(e.classes[e.widths[i]], c, p);
    UpHas(e.classes[w], e.classOffset, p - c + e.classOffset);
    SamePlace(e, base, w);
    assert MaskInField(e, w) && p - c + e.classOffset in Up(e.classes[w], e.classOffset);
  }

  lemma {:induction false} ReadStops(e: Encoding, base: nat, word: Word, k: nat) returns (m: nat)
    requires base > 0 && Total(e) && k < |e.widths|
    ensures k <= m < |e.widths| &&
      ReadFrom(e, base, word, k) == FieldBits(word, TagPlace(e, base, e.widths[m]), e.widths[m])
    decreases |e.widths| - k
  {
    if k == |e.widths| - 1 || !(WordMask(e, base, e.widths[k]) <= WordBits(word)) {
      m := k;
    } else {
      m := ReadStops(e, base, word, k + 1);
    }
  }

  lemma FirstMask(e: Encoding, tags: seq<Tag>, base: nat) returns (p: nat)
    requires Accepted(e, tags, base) && |e.widths| > 1
    ensures WordMask(e, base, e.widths[0]) != {} && p in WordMask(e, base, e.widths[0])
    ensures forall q :: q in WordMask(e, base, e.widths[0]) ==> p <= q
  {
    var i :| i in e.classes[e.widths[0]];
    UpHas(e.classes[e.widths[0]], e.classOffset % base, i + e.classOffset % base);
    p := LeastOf(WordMask(e, base, e.widths[0]));
  }

  /** The mask of the narrowest width, and the bit behind that field if there is one. */
  function NarrowBits(e: Encoding, base: nat): Bits
    requires base > 0 && Total(e)
  {
    var end := TagPlace(e, base, e.widths[0]) + e.widths[0];
    WordMask(e, base, e.widths[0]) + if end < base then {end} else {}
  }

  lemma NarrowFits(e: Encoding, tags: seq<Tag>, base: nat)
    requires Accepted(e, tags, base) && InWord(e, base) && |e.widths| > 1
    ensures var at, w := TagPlace(e, base, e.widths[0]), e.widths[0];
            forall q :: q in NarrowBits(e, base) ==> at <= q < base && (q in WordMask(e, base, w) <==> q < at + w)
  {
    var at, w, mask := TagPlace(e, base, e.widths[0]), e.widths[0], WordMask(e, base, e.widths[0]);
    forall q | q in mask ensures at <= q < at + w {
      MaskInWiderField(e, tags, base, 0, 0, q);
    }
  }

  /** When the narrowest tag is not at bit 0, what its field holds then fails the class test. */
  lemma NarrowEquals(e: Encoding, tags: seq<Tag>, base: nat, word: Word, tag: Bits)
    requires Accepted(e, tags, base) && InWord(e, base) && |e.widths| > 1 && TagPlace(e, base, e.widths[0]) > 0
    requires word == WordOf(NarrowBits(e, base), base)
    requires tag == FieldBits(word, TagPlace(e, base, e.widths[0]), e.widths[0])
    ensures TagEquals(e, base, word, tag)
  {
    var first := FirstMask(e, tags, base);
    var most := GreatestOf(WordMask(e, base, e.widths[0]));
    NarrowFits(e, tags, base);
    FieldOf(NarrowBits(e, base), base, TagPlace(e, base, e.widths[0]), e.widths[0], most);
  }

  /** But the word is read as a wider tag. */
  lemma NarrowRead(e: Encoding, tags: seq<Tag>, base: nat, word: Word, m: nat)
    requires Accepted(e, tags, base) && InWord(e, base) && 0 < m < |e.widths|
    requires word == WordOf(NarrowBits(e, base), base)
    ensures FieldBits(word, TagPlace(e, base, e.widths[m]), e.widths[m]) != FieldBits(word,
      TagPlace(e, base, e.widths[0]), e.widths[0])
  {
    var x, at, w := NarrowBits(e, base), TagPlace(e, base, e.widths[0]), e.widths[0];
    var place, wider := TagPlace(e, base, e.widths[m]), e.widths[m];
    NarrowFits(e, tags, base);
    if place == at {
      assert w < wider && at + w < base;
      FieldOf(x, base, place, wider, w);
      FieldOf(x, base, at, w, w);
    } else {
      var least := FirstMask(e, tags, base);
      MaskInWiderField(e, tags, base, 0, 0, least);
      MaskInWiderField(e, tags, base, 0, m, least);
      LeastMoves(x, base, at, w, place, wider, least);
    }
  }

  /** The narrowest tag is not at bit 0: a word that matches its mask, read as a wider tag, also compares
      equal to what the narrow field holds. */
  lemma NarrowAway(e: Encoding, tags: seq<Tag>, base: nat) returns (word: Word, tag: Bits)
    requires Accepted(e, tags, base) && InWord(e, base) && |e.widths| > 1 && TagPlace(e, base, e.widths[0]) > 0
    ensures |word| == base && TagEquals(e, base, word, tag) && GetTag(e, base, word) != tag
  {
    word := WordOf(NarrowBits(e, base), base);
    tag := FieldBits(word, TagPlace(e, base, e.widths[0]), e.widths[0]);
    NarrowEquals(e, tags, base, word, tag);
    NarrowFits(e, tags, base);
    forall q | q in WordMask(e, base, e.widths[0]) ensures q in WordBits(word) {
      WordOfBits(NarrowBits(e, base), base, q);
    }
    var m := ReadStops(e, base, word, 1);
    NarrowRead(e, tags, base, word, m);
  }

  /** Two fields at different places of one word do not read alike when the word's lowest bit is in
      both. */
  lemma LeastMoves(x: Bits, base: nat, at: nat, w: nat, place: nat, wider: nat, least: nat)
    requires (forall q :: q in x ==> least <= q < base) && least in x && at != place
    requires at <= least < at + w && place <= least < place + wider
    ensures FieldBits(WordOf(x, base), at, w) != FieldBits(WordOf(x, base), place, wider)
  {
    FieldOf(x, base, at, w, least - at);
    FieldOf(x, base, place, wider, least - place);
    FieldOf(x, base, place, wider, least - at);
    FieldOf(x, base, at, w, least - place);
  }

  /** From the j-th line up to the k-th no comparison holds. */
  lemma {:induction false} NoneEqual(e: Encoding, base: nat, word: Word, tag: Bits, j: nat, k: nat)
    requires base > 0 && Total(e) && j < k < |e.widths| && !(WordMask(e, base, e.widths[k - 1]) <= tag)
    requires forall i :: 0 <= i < k ==> FieldBits(word, TagPlace(e, base, e.widths[i]), e.widths[i]) != tag
    ensures !EqualsFrom(e, base, word, tag, j)
    decreases k - j
  {
    if j < k - 1 && WordMask(e, base, e.widths[j]) <= tag {
      NoneEqual(e, base, word, tag, j + 1, k);
    }
  }

  lemma {:induction false} ReadPasses(e: Encoding, tags: seq<Tag>, base: nat, word: Word, j: nat, k: nat)
    requires Accepted(e, tags, base) && j <= k < |e.widths|
    requires k > 0 ==> WordMask(e, base, e.widths[k - 1]) <= WordBits(word)
    ensures ReadFrom(e, base, word, j) == ReadFrom(e, base, word, k)
    decreases k - j
  {
    if j < k {
      ClassesNest(e, j, k - 1);
      forall p | p in WordMask(e, base, e.widths[j]) ensures p in WordMask(e, base, e.widths[k - 1]) {
        UpHas(e.classes[e.widths[j]], e.classOffset % base, p);
        UpHas(e.classes[e.widths[k - 1]], e.classOffset % base, p);
      }
      ReadPasses(e, tags, base, word, j + 1, k);
    }
  }

  /** The tags before the k-th width are at bit 0, and that of the k-th is not: a word that holds just
      the mask before it is read as a tag that the comparison stops short of. */
  lemma WideAway(e: Encoding, tags: seq<Tag>, base: nat, k: nat) returns (word: Word, tag: Bits)
    requires Accepted(e, tags, base) && InWord(e, base) && 0 < k < |e.widths| && TagPlace(e, base, e.widths[k]) > 0
    requires forall i :: 0 <= i < k ==> TagPlace(e, base, e.widths[i]) == 0
    ensures |word| == base && !TagEquals(e, base, word, tag) && GetTag(e, base, word) == tag
  {
    var at, w, mask := TagPlace(e, base, e.widths[k]), e.widths[k], WordMask(e, base, e.widths[k - 1]);
    var first := FirstMask(e, tags, base);
    forall q | q in mask ensures at <= q < at + w && q < base {
      MaskInWiderField(e, tags, base, k - 1, k, q);
    }
    ClassesNest(e, 0, k - 1);
    UpHas(e.classes[e.widths[0]], e.classOffset % base, first);
    UpHas(e.classes[e.widths[k - 1]], e.classOffset % base, first);
    var least := LeastOf(mask);
    var most := GreatestOf(mask);
    word := WordOf(mask, base);
    tag := FieldBits(word, at, w);
    forall q ensures q in WordBits(word) <==> q in mask {
      WordOfBits(mask, base, q);
    }
    ReadPasses(e, tags, base, word, 0, k);
    if k < |e.widths| - 1 {
      StopsAt(e, tags, base, k);
    }
    FieldOf(mask, base, at, w, most);
    FieldOf(mask, base, at, w, least - at);
    forall i | 0 <= i < k ensures FieldBits(word, TagPlace(e, base, e.widths[i]), e.widths[i]) != tag {
      FieldOf(mask, base, 0, e.widths[i], least - at);
    }
    NoneEqual(e, base, word, tag, 0, k);
  }

  /** The mask of a width that is not the last is more than the one before it. */
  lemma StopsAt(e: Encoding, tags: seq<Tag>, base: nat, k: nat)
    requires Accepted(e, tags, base) && 0 < k < |e.widths| - 1
    ensures !(WordMask(e, base, e.widths[k]) <= WordMask(e, base, e.widths[k - 1]))
  {
    ClassesNest(e, k - 1, k);
    assert e.classes[e.widths[k - 1]] != e.classes[e.widths[k]];
    var i :| i in e.classes[e.widths[k]] && i !in e.classes[e.widths[k - 1]];
    UpHas(e.classes[e.widths[k]], e.classOffset % base, i + e.classOffset % base);
    UpHas(e.classes[e.widths[k - 1]], e.classOffset % base, i + e.classOffset % base);
  }

  lemma {:induction false} FirstAway(e: Encoding, base: nat, n: nat) returns (k: nat)
    requires base > 0 && Total(e) && n <= |e.widths|
    ensures k <= n && forall i :: 0 <= i < k ==> TagPlace(e, base, e.widths[i]) == 0
    ensures k < n ==> TagPlace(e, base, e.widths[k]) > 0
  {
    if n == 0 {
      k := 0;
    } else {
      k := FirstAway(e, base, n - 1);
      if k == n - 1 && TagPlace(e, base, e.widths[k]) == 0 {
        k := n;
      }
    }
  }

  lemma AllAtZero(e: Encoding, base: nat)
    requires base > 0 && Total(e) && forall w :: w in e.tagOffset ==> w in e.widths
    ensures (forall i :: 0 <= i < |e.widths| ==> TagPlace(e, base, e.widths[i]) == 0) ==> AtBitZero(e, base)
  {
    forall w | w in e.tagOffset ensures exists i :: 0 <= i < |e.widths| && e.widths[i] == w {
    }
  }

  /** The comparison agrees with reading the tag and comparing, for all words and tags, if and only if
      the tags have a single width or all sit at bit 0. */
  lemma EqualsAgreesExactly(e: Encoding, tags: seq<Tag>, base: nat)
    requires Accepted(e, tags, base) && InWord(e, base) && forall w :: w in e.tagOffset ==> w in e.widths
    ensures (forall word, tag :: |word| == base ==> (TagEquals(e, base, word, tag) <==> GetTag(e, base, word) == tag))
            <==> |e.widths| == 1 || AtBitZero(e, base)
  {
    if AtBitZero(e, base) {
      forall word, tag ensures TagEquals(e, base, word, tag) <==> GetTag(e, base, word) == tag {
        EqualsAgrees(e, tags, base, word, tag);
      }
    } else if |e.widths| > 1 {
      var k := FirstAway(e, base, |e.widths|);
      AllAtZero(e, base);
      var word, tag;
      if k == 0 {
        word, tag := NarrowAway(e, tags, base);
      } else {
        word, tag := WideAway(e, tags, base, k);
      }
    }
  }

  // A union with tags of two and four bits, both at bit 1, and a word that carries the wide one.

  const MISSED := Encoding([2, 4], map[2 := 1, 4 := 1], 1, map[2 := {1}, 4 := {1}])
  const WIDE := Tag("wide", {1, 3}, 1, 4, false, 8, 8)
  const WIDEWORD: Word := [false, false, true, false, true, false, false, false]

  lemma UpByZero(x: Bits)
    ensures Up(x, 0) == x
  {
    forall i ensures i in Up(x, 0) <==> i in x {
      UpHas(x, 0, i);
    }
  }

  lemma MissedAccepted()
    ensures Accepted(MISSED, [WIDE], 8)
  {
    assert Total(MISSED) && MISSED.tagOffset[2] == 1;
    forall i | i in Up({1}, 1) ensures i == 2 {
      UpHas({1}, 1, i);
    }
    UpByZero(WIDE.value);
    assert TagAccepted(MISSED, WIDE);
  }

  lemma WideCarried()
    ensures Carries(MISSED, 8, WIDEWORD, WIDE)
  {
    assert TagPlace(MISSED, 8, 4) == 1;
    assert InField(WIDEWORD, 1, 1) && InField(WIDEWORD, 1, 3) && !InField(WIDEWORD, 1, 0) && !InField(WIDEWORD, 1, 2);
  }

  /** Away from bit 0 it need not: here is a tag that the reader finds and the comparison misses. */
  lemma EqualsMisses()
    ensures Accepted(MISSED, [WIDE], 8) && Carries(MISSED, 8, WIDEWORD, WIDE)
    ensures GetTag(MISSED, 8, WIDEWORD) == WIDE.value && !TagEquals(MISSED, 8, WIDEWORD, WIDE.value)
  {
    MissedAccepted();
    WideCarried();
    DecodesTag(MISSED, [WIDE], 8, WIDEWORD, WIDE);
    UpHas({1}, 1, 2);
    assert WordMask(MISSED, 8, 2) == Up({1}, 1);
    assert 2 in WordMask(MISSED, 8, 2) && 2 !in WIDE.value;
    assert 3 !in FieldBits(WIDEWORD, 1, 2) && 3 in WIDE.value;
    assert !EqualsFrom(MISSED, 8, WIDEWORD, WIDE.value, 0);
  }

  // ---- The checks themselves ---------------------------------------------------------------

  function UsedWidths(tags: seq<Tag>): set<nat> {
    set t | t in tags :: t.width
  }

  /** The place of the last tag of that width. */
  function LastOffset(tags: seq<Tag>, w: nat): nat
    requires w in UsedWidths(tags)
  {
    if tags[|tags| - 1].width == w then tags[|tags| - 1].offset else LastOffset(tags[..|tags| - 1], w)
  }

  /** What make_classes computes, before its checks, from the tags and the declared masks. */
  ghost predicate Settles(e: Encoding, tags: seq<Tag>, declared: map<nat, Bits>) {
    && Total(e) && Lowest(e)
    && (forall w :: w in e.widths <==> w in UsedWidths(tags))
    && e.tagOffset.Keys == UsedWidths(tags)
    && (forall w :: w in UsedWidths(tags) ==> e.tagOffset[w] == LastOffset(tags, w))
    && (declared == map[] || UsedWidths(tags) <= declared.Keys)
    && e.classes == Relative(UsedWidths(tags), declared, e.tagOffset, e.classOffset)
  }

  /** Masks are declared for exactly the widths in use, or not at all for a single width. */
  predicate MasksDeclared(tags: seq<Tag>, declared: map<nat, Bits>) {
    tags != [] && if declared == map[] then |UsedWidths(tags)| == 1 else declared.Keys == UsedWidths(tags)
  }

  /** The elements' blocks have one word size and one size. */
  predicate SameBlocks(tags: seq<Tag>, n: nat)
    requires n <= |tags|
  {
    forall i, j :: 0 <= i < n && 0 <= j < n ==>
      tags[i].blockBase == tags[j].blockBase && tags[i].blockSize == tags[j].blockSize
  }

  class Union {
    const tags: seq<Tag>
    const declared: map<nat, Bits>
    var encoding: Encoding

    constructor (tags: seq<Tag>, declared: map<nat, Bits>)
      ensures this.tags == tags && this.declared == declared
    {
      this.tags, this.declared, encoding := tags, declared, Encoding([], map[], 0, map[]);
    }

    /** The checks of __init__: no two elements share a name or a value. */
    method CheckDuplicates() returns (ok: bool)
      ensures ok <==> forall i, j :: 0 <= i < j < |tags| ==>
        tags[i].name != tags[j].name && tags[i].value != tags[j].value
    {
      var names, values := {}, {};
      for i := 0 to |tags|
        invariant forall x :: x in names <==> exists k :: 0 <= k < i && tags[k].name == x
        invariant forall x :: x in values <==> exists k :: 0 <= k < i && tags[k].value == x
        invariant forall k, j :: 0 <= k < j < i ==> tags[k].name != tags[j].name && tags[k].value != tags[j].value
      {
        if tags[i].name in names || tags[i].value in values {
          return false;
        }
        names, values := names + {tags[i].name}, values + {tags[i].value};
      }
      ok := true;
    }

    /** The first loop of make_classes: the widths in use and where the tags of each width lie. */
    method CollectWidths() returns (used: set<nat>, tagOffset: map<nat, nat>)
      ensures used == UsedWidths(tags) && tagOffset.Keys == used
      ensures forall w :: w in used ==> tagOffset[w] == LastOffset(tags, w)
    {
      used, tagOffset := {}, map[];
      for i := 0 to |tags|
        invariant used == UsedWidths(tags[..i]) && tagOffset.Keys == used
        invariant forall w :: w in used ==> tagOffset[w] == LastOffset(tags[..i], w)
      {
        assert tags[..i + 1] == tags[..i] + [tags[i]];
        MoreWidths(tags[..i], tags[i]);
        used, tagOffset := used + {tags[i].width}, tagOffset[tags[i].width := tags[i].offset];
      }
      assert tags[..|tags|] == tags;
    }

    /** min(self.tag_offset.values()). */
    method LowestOffset(widths: seq<nat>, tagOffset: map<nat, nat>) returns (low: nat)
      requires |widths| > 0 && forall i :: 0 <= i < |widths| ==> widths[i] in tagOffset
      ensures forall k :: 0 <= k < |widths| ==> low <= tagOffset[widths[k]]
      ensures exists k :: 0 <= k < |widths| && low == tagOffset[widths[k]]
    {
      low := tagOffset[widths[0]];
      for i := 1 to |widths|
        invariant forall k :: 0 <= k < i ==> low <= tagOffset[widths[k]]
        invariant exists k :: 0 <= k < i && low == tagOffset[widths[k]]
      {
        if tagOffset[widths[i]] < low {
          low := tagOffset[widths[i]];
        }
      }
    }

    /** The part of make_classes before its checks. */
    method Settle(used: set<nat>, tagOffset: map<nat, nat>) returns (e: Encoding)
      requires used == UsedWidths(tags) != {} && tagOffset.Keys == used && (declared == map[] || declared.Keys == used)
      requires forall w :: w in used ==> tagOffset[w] == LastOffset(tags, w)
      ensures Settles(e, tags, declared)
    {
      var widths := Sorted(used);
      assert |widths| > 0 by {
        var w :| w in used;
        assert w in widths;
      }
      assert forall i :: 0 <= i < |widths| ==> widths[i] in used;
      var low := LowestOffset(widths, tagOffset);
      e := Encoding(widths, tagOffset, low, Relative(used, declared, tagOffset, low));
      Settled(e, tags, declared);
    }

    /** make_classes. */
    method MakeClasses() returns (ok: bool)
      modifies this
      ensures MasksDeclared(tags, declared) ==> Settles(encoding, tags, declared) && (ok <==> Sane(encoding))
      ensures !MasksDeclared(tags, declared) ==> !ok
    {
      var used, tagOffset := CollectWidths();
      if tags == [] || (declared == map[] && |used| != 1) || (declared != map[] && declared.Keys != used) {
        return false;
      }
      assert tags[0].width in used;
      encoding := Settle(used, tagOffset);
      ok := CheckMasks(encoding);
    }

    /** The sanity checks of make_classes. */
    method CheckMasks(e: Encoding) returns (ok: bool)
      requires Total(e)
      ensures ok <==> Sane(e)
    {
      for i := 0 to |e.widths|
        invariant forall j :: 0 <= j < i ==> MaskInField(e, e.widths[j])
      {
        var w := e.widths[i];
        var field := Range(e.tagOffset[w], w);
        InRange(e, w);
        if Up(e.classes[w], e.classOffset) + field != field {
          return false;
        }
      }
      if |e.widths| > 1 && e.classes[e.widths[0]] == {} {
        return false;
      }
      var n := 1;
      while n < |e.widths| - 1
        invariant forall j :: 1 <= j < n && j < |e.widths| ==> e.classes[e.widths[j - 1]] != e.classes[e.widths[j]]
      {
        if e.classes[e.widths[n - 1]] == e.classes[e.widths[n]] {
          return false;
        }
        n := n + 1;
      }
      var previous: Bits := {};
      for i := 0 to |e.widths|
        invariant i > 0 ==> previous == e.classes[e.widths[i - 1]]
        invariant forall j :: 1 <= j < i ==> e.classes[e.widths[j - 1]] <= e.classes[e.widths[j]]
      {
        var mask := e.classes[e.widths[i]];
        if i > 0 && mask * previous != previous {
          return false;
        }
        previous := mask;
      }
      ok := true;
    }

    /** assert_value_in_class, for a tag of one of the widths. */
    method CheckValue(e: Encoding, t: Tag) returns (ok: bool)
      requires Total(e) && t.width in e.widths
      ensures ok <==> ValueInClass(e, t)
    {
      var field := Range(0, t.width);
      if t.value + field != field {
        var i :| i in t.value && i !in field;
        return false;
      }
      assert forall i :: i in t.value ==> i in field;
      var value := ClassValue(e, t);
      for k := 0 to |e.widths|
        invariant forall j :: 0 <= j < k && e.widths[j] < t.width ==> e.classes[e.widths[j]] <= value
      {
        var mask := e.classes[e.widths[k]];
        if e.widths[k] < t.width && value * mask != mask {
          return false;
        }
      }
      ok := t.width == e.widths[|e.widths| - 1] || value * e.classes[t.width] != e.classes[t.width];
    }

    /** The tag fields of all widths lie in one word. */
    method CheckWord(e: Encoding, base: nat) returns (ok: bool)
      requires base > 0
      ensures ok <==> OneWord(e, base)
    {
      var rest := e.tagOffset.Keys;
      var index: Option<nat> := None;
      while rest != {}
        invariant rest <= e.tagOffset.Keys
        invariant index.None? ==> rest == e.tagOffset.Keys
        invariant index.Some? ==> (exists w :: w in e.tagOffset && e.tagOffset[w] / base == index.value)
        invariant forall w :: w in e.tagOffset && w !in rest ==> index.Some? && e.tagOffset[w] / base == index.value
        decreases |rest|
      {
        var w :| w in rest;
        if index.None? {
          index := Some(e.tagOffset[w] / base);
        }
        if e.tagOffset[w] / base != index.value {
          return false;
        }
        rest := rest - {w};
      }
      ok := true;
    }

    /** What resolve demands of one element, besides its block's word size and size. */
    method CheckElement(e: Encoding, t: Tag) returns (ok: bool)
      requires Total(e) && t.width in e.widths && t.width in e.tagOffset
      ensures ok <==> TagAccepted(e, t)
    {
      if t.offset != e.tagOffset[t.width] {
        return false;
      }
      ok := CheckValue(e, t);
      ok := ok && !t.high;
    }

    /** resolve: the blocks agree, and every element passes. */
    method CheckElements(e: Encoding) returns (ok: bool)
      requires Total(e) && forall i :: 0 <= i < |tags| ==> tags[i].width in e.widths && tags[i].width in e.tagOffset
      ensures ok <==> (forall i :: 0 <= i < |tags| ==> TagAccepted(e, tags[i])) && SameBlocks(tags, |tags|)
    {
      for i := 0 to |tags|
        invariant forall k :: 0 <= k < i ==> TagAccepted(e, tags[k])
        invariant forall k :: 0 <= k < i ==>
          tags[k].blockBase == tags[0].blockBase && tags[k].blockSize == tags[0].blockSize
      {
        if tags[i].blockBase != tags[0].blockBase || tags[i].blockSize != tags[0].blockSize {
          return false;
        }
        ok := CheckElement(e, tags[i]);
        if !ok {
          return;
        }
      }
      ok := true;
    }

    /** resolve and set_base, after make_classes: what is demanded of every element. */
    method Resolve(base: nat) returns (ok: bool)
      requires base > 0 && Settles(encoding, tags, declared)
      ensures ok <==> ((forall i :: 0 <= i < |tags| ==> TagAccepted(encoding, tags[i])) && OneWord(encoding, base) &&
        SameBlocks(tags, |tags|))
    {
      forall i | 0 <= i < |tags| ensures tags[i].width in encoding.widths && tags[i].width in encoding.tagOffset {
        WidthUsed(encoding, tags[i]);
      }
      ok := CheckElements(encoding);
      if ok {
        ok := CheckWord(encoding, base);
      }
    }

    lemma WidthUsed(e: Encoding, t: Tag)
      requires Settles(e, tags, declared) && t in tags
      ensures t.width in e.widths && t.width in e.tagOffset
    {
      assert t.width in UsedWidths(tags);
    }
  }

  /** (2 ** width - 1) << at. */
  function Range(at: nat, width: nat): Bits {
    set i: nat | i < at + width && Reaches(at, i)
  }

  predicate Reaches(at: nat, i: nat) {
    at <= i
  }

  lemma InRange(e: Encoding, w: nat)
    requires w in e.classes && w in e.tagOffset
    ensures var field := Range(e.tagOffset[w], w); Up(e.classes[w], e.classOffset) + field == field <==> MaskInField(e, w)
  {
    var x, field := Up(e.classes[w], e.classOffset), Range(e.tagOffset[w], w);
    if x + field == field {
      assert forall i :: i in x ==> i in field;
    }
    if MaskInField(e, w) {
      assert forall i :: i in x ==> i in field;
    }
  }

  /** The masks, moved from their own tags to the lowest one; a single width needs none. */
  function Relative(used: set<nat>, declared: map<nat, Bits>, tagOffset: map<nat, nat>,
          low: nat): (masks: map<nat, Bits>)
    requires used <= tagOffset.Keys && (declared == map[] || used <= declared.Keys)
    ensures masks.Keys == used
  {
    map w | w in used :: if declared == map[] || tagOffset[w] < low then {} else Up(declared[w], tagOffset[w] - low)
  }

  lemma Settled(e: Encoding, tags: seq<Tag>, declared: map<nat, Bits>)
    requires |e.widths| > 0 && (forall w :: w in e.widths <==> w in UsedWidths(tags))
    requires forall i, j :: 0 <= i < j < |e.widths| ==> e.widths[i] < e.widths[j]
    requires e.tagOffset.Keys == UsedWidths(tags) && e.classes.Keys == UsedWidths(tags)
    requires forall w :: w in UsedWidths(tags) ==> e.tagOffset[w] == LastOffset(tags, w)
    requires forall k :: 0 <= k < |e.widths| ==> e.classOffset <= e.tagOffset[e.widths[k]]
    requires exists k :: 0 <= k < |e.widths| && e.classOffset == e.tagOffset[e.widths[k]]
    requires declared == map[] || UsedWidths(tags) <= declared.Keys
    requires e.classes == Relative(UsedWidths(tags), declared, e.tagOffset, e.classOffset)
    ensures Settles(e, tags, declared)
  {
    forall w | w in e.tagOffset ensures e.classOffset <= e.tagOffset[w] {
      var k :| 0 <= k < |e.widths| && e.widths[k] == w;
    }
  }

  /** The mask of a width has its bits where they were declared, counted from where the tags of that width
      lie: at p of the block if and only if at p less that place in the declaration. */
  lemma DeclaredMasks(e: Encoding, tags: seq<Tag>, declared: map<nat, Bits>, w: nat, p: nat)
    requires Settles(e, tags, declared) && w in UsedWidths(tags)
    ensures p in Up(e.classes[w], e.classOffset) <==>
            declared != map[] && LastOffset(tags, w) <= p && p - LastOffset(tags, w) in declared[w]
  {
    UpHas(e.classes[w], e.classOffset, p);
    if declared != map[] && e.classOffset <= p {
      UpHas(declared[w], e.tagOffset[w] - e.classOffset, p - e.classOffset);
    }
  }

  lemma MoreWidths(tags: seq<Tag>, t: Tag)
    ensures UsedWidths(tags + [t]) == UsedWidths(tags) + {t.width}
    ensures forall w :: w in UsedWidths(tags + [t]) ==> LastOffset(tags + [t], w) == if w == t.width then t.offset
      else LastOffset(tags, w)
  {
    var more := tags + [t];
    assert more[..|more| - 1] == tags;
    assert t in more;
    assert forall x :: x in tags ==> x in more;
  }

  /** sorted(list(used)). */
  method Sorted(used: set<nat>) returns (widths: seq<nat>)
    ensures forall w :: w in widths <==> w in used
    ensures forall i, j :: 0 <= i < j < |widths| ==> widths[i] < widths[j]
  {
    widths := [];
    var rest := used;
    while rest != {}
      invariant rest <= used
      invariant forall w :: w in used <==> w in rest || w in widths
      invariant forall i, j :: 0 <= i < j < |widths| ==> widths[i] < widths[j]
      invariant forall w, i :: w in rest && 0 <= i < |widths| ==> widths[i] < w
      decreases |rest|
    {
      var w := Least(rest);
      widths, rest := widths + [w], rest - {w};
    }
  }

  method Least(rest: set<nat>) returns (least: nat)
    requires rest != {}
    ensures least in rest && forall w :: w in rest ==> least <= w
  {
    least :| least in rest;
    var others := rest - {least};
    while others != {}
      invariant least in rest && others <= rest
      invariant forall w :: w in rest && w !in others ==> least <= w
      decreases |others|
    {
      var w :| w in others;
      others := others - {w};
      if w < least {
        least := w;
      }
    }
  }
}
