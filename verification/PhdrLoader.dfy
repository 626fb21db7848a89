/** Placing the loadable segments of an ELF file in memory: the reserved range, the load bias modulo
    2^32, and what every byte of a segment reads afterwards. */
module PhdrLoader {
  const WORD := 0x1_0000_0000
  const PAGE := 4096

  type Word = x: int | 0 <= x < 0x1_0000_0000
  type Byte = x: int | 0 <= x < 256

  /** The process's memory: the bytes at the addresses that are mapped. */
  type Memory = map<int, Byte>

  datatype Phdr = Phdr(load: bool, vaddr: Word, filesz: Word, memsz: Word, offset: Word, writable: bool)

  function Add(x: int, y: int): Word {
    (x + y) % WORD
  }

  function Sub(x: int, y: int): Word {
    (x - y) % WORD
  }

  function PageOffset(x: int): int {
    x % PAGE
  }

  function PageStart(x: Word): Word {
    x - x % PAGE
  }

  function PageEnd(x: Word): Word {
    PageStart(Add(x, PAGE - 1))
  }

  // ---- The extent of a table ---------------------------------------------------------------

  function Min(x: int, y: int): int {
    if y < x then y else x
  }

  function Max(x: int, y: int): int {
    if y > x then y else x
  }

  function Lowest(table: seq<Phdr>): Word {
    if table == [] then 0xFFFF_FFFF
    else if table[|table| - 1].load then Min(Lowest(table[..|table| - 1]), table[|table| - 1].vaddr)
    else Lowest(table[..|table| - 1])
  }

  function Highest(table: seq<Phdr>): Word {
    if table == [] then 0
    else if table[|table| - 1].load then Max(Highest(table[..|table| - 1]),
      Add(table[|table| - 1].vaddr, table[|table| - 1].memsz))
    else Highest(table[..|table| - 1])
  }

  function LoadSize(table: seq<Phdr>): Word {
    if Lowest(table) > Highest(table) then 0 else Sub(PageEnd(Highest(table)), PageStart(Lowest(table)))
  }

  /** phdr_table_get_load_size. */
  method GetLoadSize(table: seq<Phdr>) returns (size: Word)
    ensures size == LoadSize(table)
  {
    var low: Word, high: Word := 0xFFFF_FFFF, 0;
    for i := 0 to |table|
      invariant low == Lowest(table[..i]) && high == Highest(table[..i])
    {
      assert table[..i + 1][..i] == table[..i];
      if table[i].load {
        if table[i].vaddr < low {
          low := table[i].vaddr;
        }
        if Add(table[i].vaddr, table[i].memsz) > high {
          high := Add(table[i].vaddr, table[i].memsz);
        }
      }
    }
    assert table[..|table|] == table;
    if low > high {
      return 0;
    }
    return Sub(PageEnd(high), PageStart(low));
  }

  // ---- Memory ------------------------------------------------------------------------------

  datatype Option<T> = None | Some(value: T)

  function FileByte(file: seq<Byte>, i: int): Byte {
    if 0 <= i < |file| then file[i] else 0
  }

  predicate In(a: int, at: int, n: int) {
    at <= a < at + n
  }

  function RoundUp(n: int): int {
    (n + PAGE - 1) / PAGE * PAGE
  }

  /** A private mapping of a file at a fixed address: whole pages, zero past the end of the file. */
  function MapFile(mem: Memory, at: Word, len: Word, file: seq<Byte>, offset: Word): Memory {
    mem + map a | at <= a < at + RoundUp(len) && In(a, at, RoundUp(len)) :: FileByte(file, offset + (a - at))
  }

  function MapZero(mem: Memory, at: Word, len: Word): Memory {
    mem + map a | at <= a < at + RoundUp(len) && In(a, at, RoundUp(len)) :: 0
  }

  /** A mapping that the kernel refuses: an empty one, or one that does not fit. */
  predicate Refused(at: Word, len: Word) {
    len == 0 || at + RoundUp(len) > WORD
  }

  predicate AllMapped(mem: Memory, at: Word, n: int) {
    forall a :: at <= a < at + n && In(a, at, n) ==> a in mem
  }

  function Zeroed(mem: Memory, at: Word, n: int): Memory {
    mem + map a | at <= a < at + n && In(a, at, n) :: 0
  }

  /** What is left of the memory, and whether loading went on, was refused, or faulted. */
  datatype Outcome = Loaded(mem: Memory) | Failed(mem: Memory) | Fault(mem: Memory)

  function SegStart(ph: Phdr, bias: Word): Word {
    Add(ph.vaddr, bias)
  }

  function FileEnd(ph: Phdr, bias: Word): Word {
    Add(SegStart(ph, bias), ph.filesz)
  }

  function SegEnd(ph: Phdr, bias: Word): Word {
    Add(SegStart(ph, bias), ph.memsz)
  }

  function Place(mem: Memory, ph: Phdr, bias: Word, file: seq<Byte>): Memory {
    MapFile(mem, PageStart(SegStart(ph, bias)), Sub(Add(ph.offset, ph.filesz), PageStart(ph.offset)), file,
      PageStart(ph.offset))
  }

  /** The zeroing, by memset, of the rest of a writable segment's last file page. */
  function Tail(mem: Memory, ph: Phdr, bias: Word): Memory {
    if ph.writable && PageOffset(FileEnd(ph, bias)) > 0
    then Zeroed(mem, FileEnd(ph, bias), PAGE - PageOffset(FileEnd(ph, bias)))
    else mem
  }

  /** One turn of the loop of phdr_table_load_segments; fileMap and zeroMap say whether the kernel
      grants the two mappings. */
  function LoadSegment(mem: Memory, ph: Phdr, bias: Word, file: seq<Byte>, fileMap: bool, zeroMap: bool): Outcome {
    var at := PageStart(SegStart(ph, bias));
    var len := Sub(Add(ph.offset, ph.filesz), PageStart(ph.offset));
    if !ph.load then Loaded(mem)
    else if !fileMap || Refused(at, len) then Failed(mem)
    else FinishSegment(Place(mem, ph, bias, file), ph, bias, zeroMap)
  }

  /** The rest of that turn, once the file is mapped. */
  function FinishSegment(placed: Memory, ph: Phdr, bias: Word, zeroMap: bool): Outcome {
    if ph.writable && PageOffset(FileEnd(ph, bias)) > 0 &&
      !AllMapped(placed, FileEnd(ph, bias), PAGE - PageOffset(FileEnd(ph, bias))) then Fault(placed)
    else FillSegment(Tail(placed, ph, bias), PageEnd(FileEnd(ph, bias)), PageEnd(SegEnd(ph, bias)), zeroMap)
  }

  function FillSegment(tailed: Memory, fileEnd: Word, segEnd: Word, zeroMap: bool): Outcome {
    if segEnd <= fileEnd then Loaded(tailed)
    else if !zeroMap || Refused(fileEnd, segEnd - fileEnd) then Failed(tailed)
    else Loaded(MapZero(tailed, fileEnd, segEnd - fileEnd))
  }

  /** The kernel's answers to the mappings asked for the i-th header. */
  datatype Kernel = Kernel(fileMaps: int -> bool, zeroMaps: int -> bool)

  function LoadFirst(mem: Memory, table: seq<Phdr>, n: nat, bias: Word, file: seq<Byte>, kernel: Kernel): Outcome
    requires n <= |table|
  {
    if n == 0 then Loaded(mem)
    else
      var before := LoadFirst(mem, table, n - 1, bias, file, kernel);
      if before.Loaded? then LoadSegment(before.mem, table[n - 1], bias, file, kernel.fileMaps(n - 1),
        kernel.zeroMaps(n - 1)) else before
  }

  /** phdr_table_reserve_memory, given where the kernel puts the range; nothing in it can be read yet. */
  method ReserveMemory(table: seq<Phdr>, granted: Option<Word>) returns (start: Option<Word>, size: Word, bias: Word)
    ensures size == LoadSize(table)
    ensures start == if size == 0 then None else granted
    ensures forall k :: 0 <= k < |table| && start.Some? && FirstLoad(table, k) ==>
      bias == Sub(start.value, PageStart(table[k].vaddr))
  {
    size := GetLoadSize(table);
    bias := 0;
    start := None;
    if size == 0 || granted.None? {
      return;
    }
    start := granted;
    for i := 0 to |table|
      invariant forall j :: 0 <= j < i ==> !table[j].load
    {
      if table[i].load {
        bias := Sub(start.value, PageStart(table[i].vaddr));
        return;
      }
    }
  }

  predicate FirstLoad(table: seq<Phdr>, k: nat)
    requires k < |table|
  {
    table[k].load && forall j :: 0 <= j < k ==> !table[j].load
  }

  class Process {
    var mem: Memory

    /** phdr_table_load_segments. */
    method LoadSegments(table: seq<Phdr>, bias: Word, file: seq<Byte>, kernel: Kernel) returns (result: Outcome)
      modifies this
      ensures result == LoadFirst(old(mem), table, |table|, bias, file, kernel) && mem == result.mem
    {
      for n := 0 to |table|
        invariant LoadFirst(old(mem), table, n, bias, file, kernel) == Loaded(mem)
      {
        var ph := table[n];
        result := LoadSegment(mem, ph, bias, file, kernel.fileMaps(n), kernel.zeroMaps(n));
        mem := result.mem;
        assert LoadFirst(old(mem), table, n + 1, bias, file, kernel) == result;
        if !result.Loaded? {
          LoadStops(old(mem), table, n + 1, |table|, bias, file, kernel);
          return;
        }
      }
      result := Loaded(mem);
    }
  }

  lemma {:induction false} LoadStops(mem: Memory, table: seq<Phdr>, n: nat, m: nat, bias: Word, file: seq<Byte>,
          kernel: Kernel)
    requires n <= m <= |table| && !LoadFirst(mem, table, n, bias, file, kernel).Loaded?
    ensures LoadFirst(mem, table, m, bias, file, kernel) == LoadFirst(mem, table, n, bias, file, kernel)
    decreases m
  {
    if n < m {
      LoadStops(mem, table, n, m - 1, bias, file, kernel);
    }
  }

  // ---- Where segments go -------------------------------------------------------------------

  /** A loadable segment as the ABI wants it: some file content, no wrap around, and a place in memory
      that agrees with the place in the file modulo the page size. */
  predicate SegmentOk(ph: Phdr, file: seq<Byte>) {
    && 0 < ph.filesz <= ph.memsz
    && ph.vaddr + ph.memsz + PAGE < WORD
    && ph.offset % PAGE == ph.vaddr % PAGE
    && ph.offset + ph.filesz <= |file| && ph.offset + ph.filesz + PAGE < WORD
  }

  function LastPage(ph: Phdr): int {
    RoundUp(ph.vaddr + ph.memsz)
  }

  /** Segments ascend and do not share pages. */
  predicate WellFormed(table: seq<Phdr>, file: seq<Byte>) {
    && (forall i :: 0 <= i < |table| && table[i].load ==> SegmentOk(table[i], file))
    && (forall i, j :: 0 <= i < j < |table| && table[i].load && table[j].load ==>
      LastPage(table[i]) <= PageStart(table[j].vaddr))
  }

  lemma PageFacts(x: Word)
    ensures PageStart(x) % PAGE == 0 && PageStart(x) <= x < PageStart(x) + PAGE
    ensures x + PAGE < WORD ==> PageEnd(x) == RoundUp(x) && x <= RoundUp(x) < x + PAGE
  {
  }

  lemma PageShift(x: Word, y: Word)
    requires (y - x) % PAGE == 0
    ensures y % PAGE == x % PAGE && PageStart(y) == PageStart(x) + (y - x)
    ensures RoundUp(y) == RoundUp(x) + (y - x)
  {
    var k := (y - x) / PAGE;
    assert y == x + k * PAGE;
  }

  lemma ExtentNext(table: seq<Phdr>, n: nat)
    requires 0 < n <= |table|
    ensures var ph := table[n - 1];
            && Lowest(table[..n]) == (if ph.load then Min(Lowest(table[..n - 1]), ph.vaddr) else Lowest(table[..n - 1]))
            && Highest(table[..n]) == if ph.load then Max(Highest(table[..n - 1]), Add(ph.vaddr, ph.memsz))
              else Highest(table[..n - 1])
  {
    assert table[..n][..n - 1] == table[..n - 1];
  }

  /** A segment of a well-formed table ends without wrapping around, before the next one begins. */
  lemma Ascends(table: seq<Phdr>, file: seq<Byte>, i: nat, j: nat)
    requires WellFormed(table, file) && i <= j < |table| && table[i].load && table[j].load
    ensures Add(table[i].vaddr, table[i].memsz) == table[i].vaddr + table[i].memsz > table[i].vaddr
    ensures i < j ==> table[i].vaddr + table[i].memsz <= table[j].vaddr
  {
    assert SegmentOk(table[i], file);
    if i < j {
      RoundFacts(table[i].vaddr + table[i].memsz);
      assert LastPage(table[i]) <= PageStart(table[j].vaddr);
    }
  }

  /** The range reserved for a well-formed table reaches from the first page of the first segment to
      the last page of the last. */
  lemma {:induction false} ExtentOf(table: seq<Phdr>, file: seq<Byte>, n: nat, first: nat, last: nat)
    requires WellFormed(table, file) && first <= last < n <= |table|
    requires FirstLoad(table, first) && table[last].load && forall j :: last < j < n ==> !table[j].load
    ensures Lowest(table[..n]) == table[first].vaddr && Highest(table[..n]) == table[last].vaddr + table[last].memsz
  {
    ExtentNext(table, n);
    Ascends(table, file, last, last);
    if last < n - 1 {
      ExtentOf(table, file, n - 1, first, last);
    } else if first < last {
      var p := PreviousLoad(table, first, last);
      ExtentOf(table, file, n - 1, first, p);
      Ascends(table, file, p, last);
      Ascends(table, file, first, last);
    } else {
      NoLoads(table, n - 1);
    }
  }

  lemma {:induction false} NoLoads(table: seq<Phdr>, n: nat)
    requires n <= |table| && forall j :: 0 <= j < n ==> !table[j].load
    ensures Lowest(table[..n]) == 0xFFFF_FFFF && Highest(table[..n]) == 0
  {
    if n > 0 {
      assert table[..n][..n - 1] == table[..n - 1];
      NoLoads(table, n - 1);
    }
  }

  function PreviousLoad(table: seq<Phdr>, first: nat, n: nat): (p: nat)
    requires first < n <= |table| && table[first].load
    ensures first <= p < n && table[p].load && forall j :: p < j < n ==> !table[j].load
    decreases n
  {
    if table[n - 1].load then n - 1 else PreviousLoad(table, first, n - 1)
  }

  /** The kernel has granted the range [start, start + size) for a well-formed table. */
  predicate Granted(table: seq<Phdr>, file: seq<Byte>, first: nat, start: Word) {
    && WellFormed(table, file) && first < |table| && FirstLoad(table, first)
    && start % PAGE == 0 && start + LoadSize(table) < WORD
  }

  function Bias(table: seq<Phdr>, first: nat, start: Word): Word
    requires first < |table|
  {
    Sub(start, PageStart(table[first].vaddr))
  }

  /** How far the program has moved; this may be negative. */
  function Moved(table: seq<Phdr>, first: nat, start: Word): int
    requires first < |table|
  {
    start - PageStart(table[first].vaddr)
  }

  /** The segment has been moved by a whole number of pages, into [low, high). */
  predicate MovedTo(ph: Phdr, bias: Word, shift: int, low: int, high: int) {
    && SegStart(ph, bias) == ph.vaddr + shift && shift % PAGE == 0
    && low <= PageStart(SegStart(ph, bias)) && RoundUp(SegStart(ph, bias) + ph.memsz) <= high
  }

  lemma AddBack(v: int, start: int, page: int)
    requires 0 <= start < WORD && 0 <= page < WORD && 0 <= v < WORD && 0 <= start + v - page < WORD
    ensures (v + (start - page) % WORD) % WORD == start + v - page
  {
  }

  lemma SizeOf(table: seq<Phdr>, file: seq<Byte>, first: nat, last: nat)
    requires WellFormed(table, file) && first <= last < |table| && FirstLoad(table, first)
    requires table[last].load && forall j :: last < j < |table| ==> !table[j].load
    ensures LoadSize(table) == LastPage(table[last]) - PageStart(table[first].vaddr) > 0
  {
    ExtentOf(table, file, |table|, first, last);
    assert table[..|table|] == table;
    assert first < last ==> LastPage(table[first]) <= PageStart(table[last].vaddr);
    PageFacts(table[last].vaddr + table[last].memsz);
  }

  /** Every segment lies in the reserved range, at its place relative to the first. */
  lemma InsideRange(table: seq<Phdr>, file: seq<Byte>, first: nat, start: Word, i: nat)
    requires Granted(table, file, first, start) && i < |table| && table[i].load
    ensures MovedTo(table[i], Bias(table, first, start), Moved(table, first, start), start, start + LoadSize(table))
  {
    var last := PreviousLoad(table, first, |table|);
    SizeOf(table, file, first, last);
    var ph := table[i];
    assert first < i ==> LastPage(table[first]) <= PageStart(ph.vaddr);
    assert i < last ==> LastPage(ph) <= PageStart(table[last].vaddr);
    RoundFacts(ph.vaddr + ph.memsz);
    RoundFacts(table[first].vaddr + table[first].memsz);
    RoundFacts(table[last].vaddr + table[last].memsz);
    MovesInto(ph, table[first].vaddr, start, LastPage(table[last]));
  }

  lemma MovesInto(ph: Phdr, base: Word, start: Word, top: int)
    requires start % PAGE == 0 && PageStart(base) <= ph.vaddr && 0 <= ph.memsz && RoundUp(ph.vaddr + ph.memsz) <= top
    requires start + (top - PageStart(base)) < WORD
    ensures MovedTo(ph, Sub(start, PageStart(base)), start - PageStart(base), start, start + (top - PageStart(base)))
  {
    var bias := Sub(start, PageStart(base));
    RoundFacts(ph.vaddr + ph.memsz);
    AddBack(ph.vaddr, start, PageStart(base));
    PageMultiple(base, start);
    PageShift(ph.vaddr, SegStart(ph, bias));
    ShiftRound(ph.vaddr + ph.memsz, start - PageStart(base));
    PageGrows(base, ph.vaddr);
  }

  lemma PageMultiple(base: Word, start: Word)
    requires start % PAGE == 0
    ensures (start - PageStart(base)) % PAGE == 0
  {
  }

  lemma PageGrows(base: Word, v: Word)
    requires PageStart(base) <= v
    ensures PageStart(base) <= PageStart(v)
  {
  }

  lemma ShiftRound(x: int, shift: int)
    requires shift % PAGE == 0
    ensures RoundUp(x + shift) == RoundUp(x) + shift
  {
    var k := shift / PAGE;
    assert shift == k * PAGE;
  }

  // ---- What memory holds -------------------------------------------------------------------

  /** What address a of the segment at s reads: the file up to filesz, then zero; but the last file
      page of a segment that is not writable goes on with whatever the file holds there. */
  function Expected(ph: Phdr, s: int, file: seq<Byte>, a: int): Byte {
    if a < s + ph.filesz || (!ph.writable && a < RoundUp(s + ph.filesz)) then FileByte(file, ph.offset + (a - s)) else 0
  }

  ghost predicate Reads(mem: Memory, ph: Phdr, s: int, file: seq<Byte>) {
    forall a :: s <= a < s + ph.memsz ==> a in mem && mem[a] == Expected(ph, s, file, a)
  }

  /** Nothing outside [low, high) differs. */
  ghost predicate SameOutside(m: Memory, k: Memory, low: int, high: int) {
    forall a :: a < low || high <= a ==> (a in k <==> a in m) && (a in k ==> k[a] == m[a])
  }

  lemma RoundFacts(x: int)
    ensures RoundUp(x) % PAGE == 0 && x <= RoundUp(x) < x + PAGE
    ensures x % PAGE == 0 ==> RoundUp(x) == x
    ensures x % PAGE > 0 ==> RoundUp(x) == x + (PAGE - x % PAGE)
  {
  }

  lemma RoundGrows(x: int, y: int)
    requires x <= y
    ensures RoundUp(x) <= RoundUp(y)
  {
  }

  lemma PageEndOf(x: int)
    requires 0 <= x && RoundUp(x) < WORD
    ensures x < WORD && PageEnd(x) == RoundUp(x)
  {
    RoundFacts(x);
    assert x + PAGE - 1 < WORD;
  }

  lemma Ends(ph: Phdr, bias: Word, s: int)
    requires s == SegStart(ph, bias) && 0 <= ph.filesz <= ph.memsz && RoundUp(s + ph.memsz) < WORD
    ensures FileEnd(ph, bias) == s + ph.filesz && SegEnd(ph, bias) == s + ph.memsz
    ensures RoundUp(s + ph.filesz) <= RoundUp(s + ph.memsz)
    ensures PageEnd(FileEnd(ph, bias)) == RoundUp(s + ph.filesz) && PageEnd(SegEnd(ph, bias)) == RoundUp(s + ph.memsz)
  {
    RoundFacts(s + ph.memsz);
    RoundGrows(s + ph.filesz, s + ph.memsz);
    PageEndOf(s + ph.filesz);
    PageEndOf(s + ph.memsz);
  }

  lemma FileSpan(ph: Phdr, file: seq<Byte>, s: int)
    requires SegmentOk(ph, file) && 0 <= s < WORD && s % PAGE == ph.vaddr % PAGE
    ensures Sub(Add(ph.offset, ph.filesz), PageStart(ph.offset)) == s % PAGE + ph.filesz
    ensures PageStart(s) + RoundUp(s % PAGE + ph.filesz) == RoundUp(s + ph.filesz)
    ensures PageStart(ph.offset) - PageStart(s) == ph.offset - s
  {
    ShiftRound(s % PAGE + ph.filesz, PageStart(s));
  }

  /** The turn of the loop, with its modular arithmetic worked out. */
  lemma SegmentSteps(mem: Memory, ph: Phdr, bias: Word, file: seq<Byte>, fileMap: bool, zeroMap: bool, s: int)
    requires SegmentOk(ph, file) && s == SegStart(ph, bias) && s % PAGE == ph.vaddr % PAGE
             && RoundUp(s + ph.memsz) < WORD
    requires ph.load
    ensures 0 <= RoundUp(s + ph.filesz) <= RoundUp(s + ph.memsz)
    ensures LoadSegment(mem, ph, bias, file, fileMap, zeroMap) ==
            if !fileMap then Failed(mem)
            else FillSegment(Tail(Place(mem, ph, bias, file), ph, bias), RoundUp(s + ph.filesz), RoundUp(s + ph.memsz),
              zeroMap)
  {
    Ends(ph, bias, s);
    Rest(s + ph.filesz, s + ph.memsz);
    FileGranted(ph, bias, file, s);
    Placed(mem, ph, bias, file, s);
    Tailed(Place(mem, ph, bias, file), ph, bias, file, s);
    assert LoadSegment(mem, ph, bias, file, fileMap, zeroMap) == if !fileMap then Failed(mem)
      else FinishSegment(Place(mem, ph, bias, file), ph, bias, zeroMap);
  }

  lemma FileGranted(ph: Phdr, bias: Word, file: seq<Byte>, s: int)
    requires SegmentOk(ph, file) && s == SegStart(ph, bias) && s % PAGE == ph.vaddr % PAGE
             && RoundUp(s + ph.filesz) < WORD
    ensures !Refused(PageStart(SegStart(ph, bias)), Sub(Add(ph.offset, ph.filesz), PageStart(ph.offset)))
  {
    FileSpan(ph, file, s);
  }

  lemma Rest(x: int, y: int)
    requires 0 < x <= y
    ensures 0 < RoundUp(x) <= RoundUp(y)
    ensures RoundUp(RoundUp(y) - RoundUp(x)) == RoundUp(y) - RoundUp(x)
    ensures RoundUp(x) < RoundUp(y) < WORD ==> !Refused(RoundUp(x), RoundUp(y) - RoundUp(x))
  {
    RoundFacts(x);
    RoundFacts(y);
    RoundGrows(x, y);
    Difference(RoundUp(x), RoundUp(y));
  }

  lemma Difference(x: int, y: int)
    requires x % PAGE == 0 && y % PAGE == 0
    ensures RoundUp(y - x) == y - x
  {
    var i, j := x / PAGE, y / PAGE;
    assert x == i * PAGE && y == j * PAGE;
    assert y - x == (j - i) * PAGE;
  }

  /** One granted turn of the loop leaves the segment in place and everything else alone. */
  lemma SegmentLoaded(mem: Memory, ph: Phdr, bias: Word, file: seq<Byte>, fileMap: bool, zeroMap: bool, s: int)
    requires SegmentOk(ph, file) && s == SegStart(ph, bias) && s % PAGE == ph.vaddr % PAGE
             && RoundUp(s + ph.memsz) < WORD
    requires ph.load
    ensures LoadSegment(mem, ph, bias, file, fileMap, zeroMap).Loaded? <==>
            fileMap && (zeroMap || RoundUp(s + ph.filesz) == RoundUp(s + ph.memsz))
    ensures var o := LoadSegment(mem, ph, bias, file, fileMap, zeroMap);
            !o.Fault? && (o.Loaded? ==> Reads(o.mem, ph, s, file)) &&
              SameOutside(mem, o.mem, PageStart(s), RoundUp(s + ph.memsz))
  {
    SegmentSteps(mem, ph, bias, file, fileMap, zeroMap, s);
    PlacedAndTailed(mem, ph, bias, file, s);
    Rest(s + ph.filesz, s + ph.memsz);
    Filled(mem, Tail(Place(mem, ph, bias, file), ph, bias), ph, file, s, zeroMap);
    RoundFacts(s + ph.memsz);
  }

  /** Before the mapping of zeros: as expected up to the end of the last file page. */
  lemma PlacedAndTailed(mem: Memory, ph: Phdr, bias: Word, file: seq<Byte>, s: int)
    requires SegmentOk(ph, file) && s == SegStart(ph, bias) && s % PAGE == ph.vaddr % PAGE
             && RoundUp(s + ph.memsz) < WORD
    ensures FilledTo(Tail(Place(mem, ph, bias, file), ph, bias), ph, s, file)
    ensures SameOutside(mem, Tail(Place(mem, ph, bias, file), ph, bias), PageStart(s), RoundUp(s + ph.filesz))
  {
    Ends(ph, bias, s);
    Placed(mem, ph, bias, file, s);
    Tailed(Place(mem, ph, bias, file), ph, bias, file, s);
  }

  ghost predicate FilledTo(mem: Memory, ph: Phdr, s: int, file: seq<Byte>) {
    forall a :: s <= a < RoundUp(s + ph.filesz) ==> a in mem && mem[a] == Expected(ph, s, file, a)
  }

  /** The mapping of zeros, if one is needed. */
  lemma Filled(mem: Memory, tailed: Memory, ph: Phdr, file: seq<Byte>, s: int, zeroMap: bool)
    requires 0 <= s < WORD && 0 < ph.filesz <= ph.memsz && RoundUp(s + ph.memsz) < WORD
    requires FilledTo(tailed, ph, s, file) && SameOutside(mem, tailed, PageStart(s), RoundUp(s + ph.filesz))
    requires 0 <= RoundUp(s + ph.filesz) <= RoundUp(s + ph.memsz)
    ensures var o := FillSegment(tailed, RoundUp(s + ph.filesz), RoundUp(s + ph.memsz), zeroMap);
            && !o.Fault? && (o.Loaded? <==> zeroMap || RoundUp(s + ph.filesz) == RoundUp(s + ph.memsz))
            && (o.Loaded? ==> Reads(o.mem, ph, s, file))
            && SameOutside(mem, o.mem, PageStart(s), RoundUp(s + ph.memsz))
  {
    Rest(s + ph.filesz, s + ph.memsz);
    Extended(tailed, ph, file, s);
  }

  /** After the mapping of zeros: as expected to the end. */
  lemma Extended(tailed: Memory, ph: Phdr, file: seq<Byte>, s: int)
    requires 0 <= RoundUp(s + ph.filesz) <= RoundUp(s + ph.memsz) < WORD && 0 <= ph.filesz <= ph.memsz && 0 <= s < WORD
    requires RoundUp(RoundUp(s + ph.memsz) - RoundUp(s + ph.filesz)) == RoundUp(s + ph.memsz) - RoundUp(s + ph.filesz)
    requires forall a :: s <= a < RoundUp(s + ph.filesz) ==> a in tailed && tailed[a] == Expected(ph, s, file, a)
    ensures var all := MapZero(tailed, RoundUp(s + ph.filesz), RoundUp(s + ph.memsz) - RoundUp(s + ph.filesz));
            Reads(all, ph, s, file) && SameOutside(tailed, all, PageStart(s), RoundUp(s + ph.memsz))
    ensures RoundUp(s + ph.filesz) == RoundUp(s + ph.memsz) ==> Reads(tailed, ph, s, file)
  {
    RoundFacts(s + ph.memsz);
    RoundFacts(s + ph.filesz);
    var from, n := RoundUp(s + ph.filesz), RoundUp(s + ph.memsz) - RoundUp(s + ph.filesz);
    var all := MapZero(tailed, from, n);
    forall a | s <= a < s + ph.memsz ensures a in all && all[a] == Expected(ph, s, file, a) {
      assert In(a, from, n) <==> from <= a;
    }
  }

  /** After the mapping of the file: the file's bytes up to the end of its last page. */
  lemma Placed(mem: Memory, ph: Phdr, bias: Word, file: seq<Byte>, s: int)
    requires SegmentOk(ph, file) && s == SegStart(ph, bias) && s % PAGE == ph.vaddr % PAGE
    ensures forall a :: PageStart(s) <= a < RoundUp(s + ph.filesz) ==>
      a in Place(mem, ph, bias, file) && Place(mem, ph, bias, file)[a] == FileByte(file, ph.offset + (a - s))
    ensures SameOutside(mem, Place(mem, ph, bias, file), PageStart(s), RoundUp(s + ph.filesz))
  {
    FileSpan(ph, file, s);
    var n := RoundUp(s % PAGE + ph.filesz);
    assert forall a :: In(a, PageStart(s), n) <==> PageStart(s) <= a < RoundUp(s + ph.filesz);
  }

  /** After the memset: as expected up to the end of the last file page. */
  lemma Tailed(placed: Memory, ph: Phdr, bias: Word, file: seq<Byte>, s: int)
    requires SegmentOk(ph, file) && s == SegStart(ph, bias) && FileEnd(ph, bias) == s + ph.filesz
    requires forall a :: PageStart(s) <= a < RoundUp(s + ph.filesz) ==>
      a in placed && placed[a] == FileByte(file, ph.offset + (a - s))
    ensures PageOffset(s + ph.filesz) > 0 ==> AllMapped(placed, s + ph.filesz, PAGE - PageOffset(s + ph.filesz))
    ensures forall a :: s <= a < RoundUp(s + ph.filesz) ==>
      a in Tail(placed, ph, bias) && Tail(placed, ph, bias)[a] == Expected(ph, s, file, a)
    ensures SameOutside(placed, Tail(placed, ph, bias), PageStart(s), RoundUp(s + ph.filesz))
  {
    RoundFacts(s + ph.filesz);
  }

  // ---- The whole table ---------------------------------------------------------------------

  /** The segments among the first n headers are in place. */
  ghost predicate InPlace(mem: Memory, table: seq<Phdr>, n: nat, bias: Word, file: seq<Byte>) {
    forall i :: 0 <= i < n && i < |table| && table[i].load ==> Reads(mem, table[i], SegStart(table[i], bias), file)
  }

  /** Loading the segment of a later header does not reach into an earlier one. */
  lemma Apart(table: seq<Phdr>, file: seq<Byte>, first: nat, start: Word, i: nat, j: nat, m: Memory, k: Memory)
    requires Granted(table, file, first, start) && i < j < |table| && table[i].load && table[j].load
    requires Reads(m, table[i], SegStart(table[i], Bias(table, first, start)), file)
    requires SameOutside(m, k, PageStart(SegStart(table[j], Bias(table, first, start))), WORD)
    ensures Reads(k, table[i], SegStart(table[i], Bias(table, first, start)), file)
  {
    var bias, shift := Bias(table, first, start), Moved(table, first, start);
    InsideRange(table, file, first, start, i);
    InsideRange(table, file, first, start, j);
    PageShift(table[j].vaddr, SegStart(table[j], bias));
    ShiftRound(table[i].vaddr + table[i].memsz, shift);
    RoundFacts(SegStart(table[i], bias) + table[i].memsz);
  }

  /** Nothing has faulted, nothing outside the reserved range has changed, and unless the kernel refused
      a mapping the segments among the first n headers read as they should. */
  ghost predicate InOrder(mem: Memory, o: Outcome, table: seq<Phdr>, n: nat, bias: Word, file: seq<Byte>, start: int,
          end: int) {
    !o.Fault? && SameOutside(mem, o.mem, start, end) && (o.Loaded? ==> InPlace(o.mem, table, n, bias, file))
  }

  /** The kernel gives the mapping of the file, and the one of zeros if there are pages without file content. */
  predicate Given(ph: Phdr, fileMap: bool, zeroMap: bool) {
    fileMap && (zeroMap || RoundUp(ph.vaddr + ph.filesz) == RoundUp(ph.vaddr + ph.memsz))
  }

  lemma SamePages(x: Word, y: Word, m: Word, n: Word)
    requires (y - x) % PAGE == 0
    ensures RoundUp(y + m) == RoundUp(y + n) <==> RoundUp(x + m) == RoundUp(x + n)
  {
    ShiftRound(x + m, y - x);
    ShiftRound(x + n, y - x);
  }

  ghost predicate AllGiven(table: seq<Phdr>, n: nat, kernel: Kernel)
    requires n <= |table|
  {
    forall i :: 0 <= i < n && table[i].load ==> Given(table[i], kernel.fileMaps(i), kernel.zeroMaps(i))
  }

  /** One more turn of the loop keeps it so. */
  lemma LoadedNext(mem: Memory, before: Memory, table: seq<Phdr>, file: seq<Byte>, first: nat, start: Word, i: nat,
                   fileMap: bool, zeroMap: bool)
    requires Granted(table, file, first, start) && i < |table| && table[i].load
    requires InOrder(mem, Loaded(before), table, i, Bias(table, first, start), file, start, start + LoadSize(table))
    ensures var o := LoadSegment(before, table[i], Bias(table, first, start), file, fileMap, zeroMap);
            && InOrder(mem, o, table, i + 1, Bias(table, first, start), file, start, start + LoadSize(table))
            && (o.Loaded? <==> Given(table[i], fileMap, zeroMap))
  {
    var bias, ph := Bias(table, first, start), table[i];
    InsideRange(table, file, first, start, i);
    PageShift(ph.vaddr, SegStart(ph, bias));
    SamePages(ph.vaddr, SegStart(ph, bias), ph.filesz, ph.memsz);
    SegmentLoaded(before, ph, bias, file, fileMap, zeroMap, SegStart(ph, bias));
    var o := LoadSegment(before, ph, bias, file, fileMap, zeroMap);
    forall k | 0 <= k < i && table[k].load ensures Reads(o.mem, table[k], SegStart(table[k], bias), file) {
      Apart(table, file, first, start, k, i, before, o.mem);
    }
  }

  /** After the first n turns of the loop. */
  lemma {:induction false} LoadedSoFar(mem: Memory, table: seq<Phdr>, file: seq<Byte>, first: nat, start: Word,
                                      n: nat, kernel: Kernel)
    requires Granted(table, file, first, start) && n <= |table|
    ensures var o := LoadFirst(mem, table, n, Bias(table, first, start), file, kernel);
            && InOrder(mem, o, table, n, Bias(table, first, start), file, start, start + LoadSize(table))
            && (o.Loaded? <==> AllGiven(table, n, kernel))
  {
    if n > 0 {
      LoadedSoFar(mem, table, file, first, start, n - 1, kernel);
      var before := LoadFirst(mem, table, n - 1, Bias(table, first, start), file, kernel);
      if before.Loaded? && table[n - 1].load {
        LoadedNext(mem, before.mem, table, file, first, start, n - 1, kernel.fileMaps(n - 1), kernel.zeroMaps(n - 1));
      }
    }
  }

  /** Loading a well-formed table into the range reserved for it succeeds if and only if the kernel gives
      every mapping that is needed, and then every byte of every segment is the
      file's byte up to filesz and what Expected says beyond, and all mappings lie in the range. */
  lemma SegmentsLoaded(mem: Memory, table: seq<Phdr>, file: seq<Byte>, first: nat, start: Word, kernel: Kernel)
    requires Granted(table, file, first, start)
    ensures var o := LoadFirst(mem, table, |table|, Bias(table, first, start), file, kernel);
            && !o.Fault? && SameOutside(mem, o.mem, start, start + LoadSize(table))
            && (o.Loaded? ==> InPlace(o.mem, table, |table|, Bias(table, first, start), file))
            && (o.Loaded? <==> AllGiven(table, |table|, kernel))
    ensures forall i :: 0 <= i < |table| && table[i].load ==>
              MovedTo(table[i], Bias(table, first, start), Moved(table, first, start), start, start + LoadSize(table))
  {
    LoadedSoFar(mem, table, file, first, start, |table|, kernel);
    forall i | 0 <= i < |table| && table[i].load
      ensures MovedTo(table[i], Bias(table, first, start), Moved(table, first, start), start, start + LoadSize(table))
    {
      InsideRange(table, file, first, start, i);
    }
  }

  /** The bytes between filesz and memsz all read as zero. */
  ghost predicate ZeroTail(mem: Memory, ph: Phdr, s: int) {
    forall a :: s + ph.filesz <= a < s + ph.memsz ==> a in mem && mem[a] == 0
  }

  /** What the file holds at the place that belongs to address a. */
  function InFile(ph: Phdr, s: int, file: seq<Byte>, a: int): Byte {
    FileByte(file, ph.offset + (a - s))
  }

  /** The file goes on with zeros to the end of the segment or of its last file page. */
  predicate FilePadded(ph: Phdr, s: int, file: seq<Byte>) {
    forall k :: s + ph.filesz <= k < s + ph.memsz && k < RoundUp(s + ph.filesz) ==> InFile(ph, s, file, k) == 0
  }

  /** The bytes beyond filesz are promised to be zero. They are if and only if the segment is writable
      or the file happens to be padded with zeros. */
  lemma ZeroFilledExactly(mem: Memory, ph: Phdr, s: int, file: seq<Byte>)
    requires Reads(mem, ph, s, file) && 0 <= ph.filesz <= ph.memsz
    ensures ZeroTail(mem, ph, s) <==> ph.writable || FilePadded(ph, s, file)
  {
    if ZeroTail(mem, ph, s) && !ph.writable {
      forall k | s + ph.filesz <= k < s + ph.memsz && k < RoundUp(s + ph.filesz) ensures InFile(ph, s, file, k) == 0 {
        assert mem[k] == Expected(ph, s, file, k);
      }
    }
    if ph.writable || FilePadded(ph, s, file) {
      forall a | s + ph.filesz <= a < s + ph.memsz ensures a in mem && mem[a] == 0 {
        assert mem[a] == Expected(ph, s, file, a);
        assert !ph.writable && a < RoundUp(s + ph.filesz) ==> InFile(ph, s, file, a) == 0;
      }
    }
  }

  /** A read-only segment of one byte whose file goes on: its second byte is not zero. */
  lemma NotZeroFilled(mem: Memory)
    ensures var ph := Phdr(true, 0x1000, 1, 2, 0, false);
            var o := LoadSegment(mem, ph, 0, [7, 9], true, true);
            SegmentOk(ph, [7, 9]) && o.Loaded? && !ZeroTail(o.mem, ph, 0x1000)
  {
    var ph := Phdr(true, 0x1000, 1, 2, 0, false);
    SegmentLoaded(mem, ph, 0, [7, 9], true, true, 0x1000);
    var o := LoadSegment(mem, ph, 0, [7, 9], true, true);
    assert o.mem[0x1001] == Expected(ph, 0x1000, [7, 9], 0x1001) == 9;
  }
}
