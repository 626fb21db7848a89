/** Interface flattening for reflection: the inheritance chains of all interfaces that a class
    implements become one table without duplicates, with method numbers. */
module InterfaceList {
  /** What the module's tables say of an interface; interface 0 is the root and has no parent. */
  datatype Interface = Interface(parent: nat, methods: nat)

  /** An interface that a class names, directly or as a callback interface. */
  datatype Implemented = Implemented(index: nat, callback: bool)

  /** A row of the table. */
  datatype Entry = Entry(index: nat, begin: nat, normal: bool, callback: bool)

  /** A callback method: its interface, its number there, and the event it is raised by. */
  datatype CallbackMethod = CallbackMethod(index: nat, number: nat, event: nat)

  const METHOD_START_NO: nat := 4

  // ---- Chains --------------------------------------------------------------------------------

  /** Parents are known interfaces, and no interface is its own ancestor: ranks fall towards the
      root. */
  ghost predicate Acyclic(dirs: seq<Interface>, rank: seq<nat>) {
    && |rank| == |dirs| > 0
    && forall x {:trigger dirs[x]} :: 0 < x < |dirs| ==> dirs[x].parent < |dirs| && rank[dirs[x].parent] < rank[x]
  }

  /** In chains laid end to end, an interface comes right after its parent. */
  ghost predicate Grounded(dirs: seq<Interface>, s: seq<nat>) {
    forall p :: 0 <= p < |s| ==> Grounds(dirs, s, p)
  }

  ghost predicate Grounds(dirs: seq<Interface>, s: seq<nat>, p: nat)
    requires p < |s|
  {
    s[p] < |dirs| && (s[p] != 0 ==> p > 0 && s[p - 1] == dirs[s[p]].parent)
  }

  lemma GroundedBoth(dirs: seq<Interface>, s: seq<nat>, t: seq<nat>)
    requires Grounded(dirs, s) && (forall p :: 0 < p < |t| ==> Grounds(dirs, t, p))
    requires t != [] ==> t[0] < |dirs| && (t[0] != 0 ==> s != [] && s[|s| - 1] == dirs[t[0]].parent)
    ensures Grounded(dirs, s + t)
  {
    forall p | 0 <= p < |s + t| ensures Grounds(dirs, s + t, p) {
      if p < |s| {
        assert Grounds(dirs, s, p);
      } else if p > |s| {
        assert Grounds(dirs, t, p - |s|);
      }
    }
  }

  /** An interface after all its ancestors. */
  ghost function Chain(dirs: seq<Interface>, rank: seq<nat>, x: nat): (c: seq<nat>)
    requires Acyclic(dirs, rank) && x < |dirs|
    ensures |c| > 0 && c[0] == 0 && c[|c| - 1] == x && Grounded(dirs, c)
    decreases rank[x]
  {
    if x == 0 then [0] else
      var d := Chain(dirs, rank, dirs[x].parent);
      GroundedBoth(dirs, d, [x]);
      d + [x]
  }

  /** The number of an interface's first method: those of its ancestors come before. */
  ghost function Begin(dirs: seq<Interface>, rank: seq<nat>, x: nat): nat
    requires Acyclic(dirs, rank) && x < |dirs|
    decreases rank[x]
  {
    if x == 0 then METHOD_START_NO else Begin(dirs, rank, dirs[x].parent) + dirs[dirs[x].parent].methods
  }

  lemma {:induction false} ChainLinks(dirs: seq<Interface>, rank: seq<nat>, x: nat, p: nat)
    requires Acyclic(dirs, rank) && x < |dirs| && p < |Chain(dirs, rank, x)|
    ensures var c := Chain(dirs, rank, x); c[p] < |dirs| && Chain(dirs, rank, c[p]) == c[..p + 1] && (p > 0 ==> c[p] != 0)
    decreases rank[x]
  {
    var c := Chain(dirs, rank, x);
    if p == |c| - 1 {
      assert c[..p + 1] == c;
    } else {
      var d := Chain(dirs, rank, dirs[x].parent);
      ChainLinks(dirs, rank, dirs[x].parent, p);
      assert c == d + [x] && c[..p + 1] == d[..p + 1];
    }
  }

  lemma {:induction false} ChainFalls(dirs: seq<Interface>, rank: seq<nat>, x: nat)
    requires Acyclic(dirs, rank) && x < |dirs|
    ensures var c := Chain(dirs, rank, x); Unrepeated(c) && forall p :: 0 <= p < |c| ==>
      c[p] < |dirs| && rank[c[p]] <= rank[x]
    decreases rank[x]
  {
    if x != 0 {
      var d := Chain(dirs, rank, dirs[x].parent);
      ChainFalls(dirs, rank, dirs[x].parent);
      assert Chain(dirs, rank, x) == d + [x];
    }
  }

  ghost predicate Unrepeated(s: seq<nat>) {
    forall i, j :: 0 <= i < j < |s| ==> s[i] != s[j]
  }

  /** So many different numbers do not fit below a smaller one. */
  lemma UnrepeatedFits(s: seq<nat>, n: nat)
    requires Unrepeated(s) && forall i :: 0 <= i < |s| ==> s[i] < n
    ensures |s| <= n
    decreases n
  {
    if s != [] {
      assert s[0] < n;
      if k :| 0 <= k < |s| && s[k] == n - 1 {
        UnrepeatedFits(s[..k] + s[k + 1..], n - 1);
      } else {
        UnrepeatedFits(s, n - 1);
      }
    }
  }

  /** Every ancestor's methods are numbered below the interface's own: an inherited method keeps its
      number, and no two methods of a chain share one. */
  lemma {:induction false} NumbersApart(dirs: seq<Interface>, rank: seq<nat>, x: nat, y: nat)
    requires Acyclic(dirs, rank) && x < |dirs| && y in Chain(dirs, rank, x) && y < |dirs| && y != x
    ensures METHOD_START_NO <= Begin(dirs, rank, y) && Begin(dirs, rank, y) + dirs[y].methods <= Begin(dirs, rank, x)
    decreases rank[x]
  {
    if x != 0 {
      var p := dirs[x].parent;
      BeginAtLeast(dirs, rank, p);
      if y != p {
        NumbersApart(dirs, rank, p, y);
      }
    }
  }

  lemma {:induction false} BeginAtLeast(dirs: seq<Interface>, rank: seq<nat>, x: nat)
    requires Acyclic(dirs, rank) && x < |dirs|
    ensures METHOD_START_NO <= Begin(dirs, rank, x)
    decreases rank[x]
  {
    if x != 0 {
      BeginAtLeast(dirs, rank, dirs[x].parent);
    }
  }

  // ---- What the table holds ------------------------------------------------------------------

  /** The members of s, each where it occurs first. */
  ghost function Firsts(s: seq<nat>): seq<nat> {
    if s == [] then [] else
      var f, x := Firsts(s[..|s| - 1]), s[|s| - 1];
      if x in f then f else f + [x]
  }

  lemma {:induction false} FirstsAre(s: seq<nat>)
    ensures Unrepeated(Firsts(s)) && Elements(Firsts(s)) == Elements(s)
  {
    if s != [] {
      var r, x := s[..|s| - 1], s[|s| - 1];
      FirstsAre(r);
      ElementsIn(Firsts(r), x);
      ElementsNext(Firsts(r), x);
    }
  }

  lemma ElementsNext(s: seq<nat>, x: nat)
    ensures Elements(s + [x]) == Elements(s) + {x}
  {
    assert (s + [x])[..|s|] == s;
  }

  ghost predicate Known(dirs: seq<Interface>, impl: seq<Implemented>) {
    forall i :: 0 <= i < |impl| ==> impl[i].index < |dirs|
  }

  /** The chains of the first n implemented interfaces, one after the other. */
  ghost function Chains(dirs: seq<Interface>, rank: seq<nat>, impl: seq<Implemented>, n: nat): seq<nat>
    requires Acyclic(dirs, rank) && Known(dirs, impl) && n <= |impl|
  {
    if n == 0 then [] else Chains(dirs, rank, impl, n - 1) + Chain(dirs, rank, impl[n - 1].index)
  }

  /** The interfaces on the chains of the normal, or of the callback, interfaces. */
  ghost function Reached(dirs: seq<Interface>, rank: seq<nat>, impl: seq<Implemented>, n: nat, callback: bool): set<nat>
    requires Acyclic(dirs, rank) && Known(dirs, impl) && n <= |impl|
  {
    if n == 0 then {}
    else Reached(dirs, rank, impl, n - 1, callback)
         + if impl[n - 1].callback == callback then Elements(Chain(dirs, rank, impl[n - 1].index)) else {}
  }

  ghost function Elements(s: seq<nat>): set<nat> {
    if s == [] then {} else Elements(s[..|s| - 1]) + {s[|s| - 1]}
  }

  lemma {:induction false} ElementsIn(s: seq<nat>, x: nat)
    ensures x in Elements(s) <==> x in s
  {
    if s != [] {
      ElementsIn(s[..|s| - 1], x);
      assert s == s[..|s| - 1] + [s[|s| - 1]];
    }
  }

  /** The interfaces that carry the mark of a normal interface, and of a callback interface. */
  datatype Marks = Marks(normals: set<nat>, callbacks: set<nat>)

  function Mark(m: Marks, x: nat, callback: bool): Marks {
    if callback then m.(callbacks := m.callbacks + {x}) else m.(normals := m.normals + {x})
  }

  /** The first n of c marked. */
  ghost function MarkAll(m: Marks, c: seq<nat>, n: nat, callback: bool): Marks
    requires n <= |c|
  {
    if n == 0 then m else Mark(MarkAll(m, c, n - 1, callback), c[n - 1], callback)
  }

  ghost function MarksOf(dirs: seq<Interface>, rank: seq<nat>, impl: seq<Implemented>, n: nat): Marks
    requires Acyclic(dirs, rank) && Known(dirs, impl) && n <= |impl|
  {
    if n == 0 then Marks({}, {}) else
      var c := Chain(dirs, rank, impl[n - 1].index);
      MarkAll(MarksOf(dirs, rank, impl, n - 1), c, |c|, impl[n - 1].callback)
  }

  lemma {:induction false} MarkAllIs(m: Marks, c: seq<nat>, n: nat, callback: bool)
    requires n <= |c|
    ensures MarkAll(m, c, n, callback)
            == if callback then m.(callbacks := m.callbacks + Elements(c[..n]))
              else m.(normals := m.normals + Elements(c[..n]))
  {
    if n == 0 {
      assert Elements(c[..n]) == {};
    } else {
      MarkAllIs(m, c, n - 1, callback);
      assert c[..n] == c[..n - 1] + [c[n - 1]];
      ElementsNext(c[..n - 1], c[n - 1]);
    }
  }

  /** What gets marked is the chains of the normal interfaces, and those of the callback ones. */
  lemma {:induction false} MarksAre(dirs: seq<Interface>, rank: seq<nat>, impl: seq<Implemented>, n: nat)
    requires Acyclic(dirs, rank) && Known(dirs, impl) && n <= |impl|
    ensures MarksOf(dirs, rank, impl, n) == Marks(Reached(dirs, rank, impl, n, false), Reached(dirs, rank, impl, n, true))
  {
    if n > 0 {
      MarksAre(dirs, rank, impl, n - 1);
      var c := Chain(dirs, rank, impl[n - 1].index);
      MarkAllIs(MarksOf(dirs, rank, impl, n - 1), c, |c|, impl[n - 1].callback);
      assert c[..|c|] == c;
    }
  }

  /** The table is right for the interfaces seen so far, in the order seen. */
  ghost predicate Right(dirs: seq<Interface>, rank: seq<nat>, list: seq<Entry>, seen: seq<nat>, m: Marks)
    requires Acyclic(dirs, rank)
  {
    && (forall x {:trigger MarkedIfSeen(seen, m, x)} :: MarkedIfSeen(seen, m, x))
    && |list| == |Firsts(seen)|
    && RowsOk(dirs, rank, list, Firsts(seen), m, |list|)
  }

  ghost predicate MarkedIfSeen(seen: seq<nat>, m: Marks, x: nat) {
    x in Elements(seen) <==> x in m.normals || x in m.callbacks
  }

  /** The first n rows are for the first n of these interfaces. */
  ghost predicate RowsOk(dirs: seq<Interface>, rank: seq<nat>, list: seq<Entry>, f: seq<nat>, m: Marks, n: nat)
    requires Acyclic(dirs, rank) && n <= |list| == |f|
  {
    n == 0 || (RowOk(dirs, rank, list[n - 1], f[n - 1], m) && RowsOk(dirs, rank, list, f, m, n - 1))
  }

  lemma {:induction false} RowsFrom(dirs: seq<Interface>, rank: seq<nat>, list: seq<Entry>, f: seq<nat>,
          m: Marks, n: nat)
    requires Acyclic(dirs, rank) && n <= |list| == |f| && forall k :: 0 <= k < n ==> RowOk(dirs, rank, list[k], f[k], m)
    ensures RowsOk(dirs, rank, list, f, m, n)
  {
    if n > 0 {
      RowsFrom(dirs, rank, list, f, m, n - 1);
    }
  }

  lemma {:induction false} RowIn(dirs: seq<Interface>, rank: seq<nat>, list: seq<Entry>, f: seq<nat>, m: Marks,
          n: nat, k: nat)
    requires Acyclic(dirs, rank) && k < n <= |list| == |f| && RowsOk(dirs, rank, list, f, m, n)
    ensures RowOk(dirs, rank, list[k], f[k], m)
  {
    if k < n - 1 {
      RowIn(dirs, rank, list, f, m, n - 1, k);
    }
  }

  lemma RowAt(dirs: seq<Interface>, rank: seq<nat>, list: seq<Entry>, seen: seq<nat>, m: Marks, k: nat)
    requires Acyclic(dirs, rank) && Right(dirs, rank, list, seen, m) && k < |list|
    ensures RowOk(dirs, rank, list[k], Firsts(seen)[k], m)
  {
    RowIn(dirs, rank, list, Firsts(seen), m, |list|, k);
  }

  ghost predicate RowOk(dirs: seq<Interface>, rank: seq<nat>, e: Entry, x: nat, m: Marks)
    requires Acyclic(dirs, rank)
  {
    && e.index == x < |dirs| && e.begin == Begin(dirs, rank, x)
    && (e.normal <==> x in m.normals) && (e.callback <==> x in m.callbacks)
  }

  lemma FirstsNext(s: seq<nat>, x: nat)
    ensures Firsts(s + [x]) == if x in Elements(s) then Firsts(s) else Firsts(s) + [x]
  {
    assert (s + [x])[..|s|] == s;
    FirstsAre(s);
    ElementsIn(Firsts(s), x);
  }

  lemma MarkedNext(seen: seq<nat>, m: Marks, x: nat, callback: bool)
    requires forall y {:trigger MarkedIfSeen(seen, m, y)} :: MarkedIfSeen(seen, m, y)
    ensures forall y {:trigger MarkedIfSeen(seen + [x], Mark(m, x, callback), y)} ::
      MarkedIfSeen(seen + [x], Mark(m, x, callback), y)
  {
    ElementsNext(seen, x);
    forall y ensures MarkedIfSeen(seen + [x], Mark(m, x, callback), y) {
      assert MarkedIfSeen(seen, m, y);
    }
  }

  lemma AllMarked(seen: seq<nat>, m: Marks)
    requires forall y {:trigger MarkedIfSeen(seen, m, y)} :: MarkedIfSeen(seen, m, y)
    ensures Elements(seen) == m.normals + m.callbacks
  {
    forall y ensures y in Elements(seen) <==> y in m.normals + m.callbacks {
      assert MarkedIfSeen(seen, m, y);
    }
  }

  /** The row of an interface seen again. */
  lemma RightAgain(dirs: seq<Interface>, rank: seq<nat>, list: seq<Entry>, seen: seq<nat>, m: Marks,
                   k: nat, x: nat, callback: bool, list': seq<Entry>)
    requires Acyclic(dirs, rank) && Right(dirs, rank, list, seen, m) && k < |list| && list[k].index == x
    requires list' == Touched(list, k, callback)
    ensures Right(dirs, rank, list', seen + [x], Mark(m, x, callback))
  {
    FirstsNext(seen, x);
    FirstsAre(seen);
    var f := Firsts(seen);
    RowAt(dirs, rank, list, seen, m, k);
    assert x in Elements(seen) by {
      ElementsIn(f, x);
    }
    MarkedNext(seen, m, x, callback);
    forall i: nat | i < |list'| ensures RowOk(dirs, rank, list'[i], f[i], Mark(m, x, callback)) {
      RowAt(dirs, rank, list, seen, m, i);
      if i != k {
        RowStays(dirs, rank, list, seen, m, i, x, callback);
      }
    }
    RowsFrom(dirs, rank, list', f, Mark(m, x, callback), |list'|);
  }

  lemma RowStays(dirs: seq<Interface>, rank: seq<nat>, list: seq<Entry>, seen: seq<nat>, m: Marks,
                 i: nat, x: nat, callback: bool)
    requires Acyclic(dirs, rank) && Right(dirs, rank, list, seen, m) && i < |list| && list[i].index != x
    ensures Firsts(seen)[i] != x
    ensures RowOk(dirs, rank, list[i], Firsts(seen)[i], Mark(m, x, callback))
  {
    RowAt(dirs, rank, list, seen, m, i);
  }

  lemma Unseen(dirs: seq<Interface>, rank: seq<nat>, list: seq<Entry>, seen: seq<nat>, m: Marks, x: nat)
    requires Acyclic(dirs, rank) && Right(dirs, rank, list, seen, m)
    requires forall k :: 0 <= k < |list| ==> list[k].index != x
    ensures x !in Elements(seen) && x !in m.normals && x !in m.callbacks
  {
    var f := Firsts(seen);
    FirstsAre(seen);
    assert MarkedIfSeen(seen, m, x);
    ElementsIn(f, x);
    if x in f {
      var k :| 0 <= k < |f| && f[k] == x;
      RowAt(dirs, rank, list, seen, m, k);
    }
  }

  /** The row of an interface seen for the first time. */
  lemma RightOnce(dirs: seq<Interface>, rank: seq<nat>, list: seq<Entry>, seen: seq<nat>, m: Marks,
                  x: nat, callback: bool)
    requires Acyclic(dirs, rank) && Right(dirs, rank, list, seen, m) && x < |dirs|
    requires forall k :: 0 <= k < |list| ==> list[k].index != x
    ensures x !in m.normals && x !in m.callbacks
    ensures Right(dirs, rank, list + [Entry(x, Begin(dirs, rank, x), !callback, callback)], seen + [x],
                  Mark(m, x, callback))
  {
    FirstsNext(seen, x);
    Unseen(dirs, rank, list, seen, m, x);
    MarkedNext(seen, m, x, callback);
    var list', f := list + [Entry(x, Begin(dirs, rank, x), !callback, callback)], Firsts(seen) + [x];
    forall i: nat | i < |list'| ensures RowOk(dirs, rank, list'[i], f[i], Mark(m, x, callback)) {
      if i < |list| {
        RowStays(dirs, rank, list, seen, m, i, x, callback);
      }
    }
    RowsFrom(dirs, rank, list', f, Mark(m, x, callback), |list'|);
  }

  // ---- Order ---------------------------------------------------------------------------------

  lemma {:induction false} ChainsGrounded(dirs: seq<Interface>, rank: seq<nat>, impl: seq<Implemented>, n: nat)
    requires Acyclic(dirs, rank) && Known(dirs, impl) && n <= |impl|
    ensures Grounded(dirs, Chains(dirs, rank, impl, n))
  {
    if n > 0 {
      ChainsGrounded(dirs, rank, impl, n - 1);
      GroundedBoth(dirs, Chains(dirs, rank, impl, n - 1), Chain(dirs, rank, impl[n - 1].index));
    }
  }

  /** Each interface comes after its parent. */
  ghost predicate ParentsFirst(dirs: seq<Interface>, f: seq<nat>) {
    forall k :: 0 <= k < |f| ==> ParentBefore(dirs, f, k)
  }

  ghost predicate ParentBefore(dirs: seq<Interface>, f: seq<nat>, k: nat)
    requires k < |f|
  {
    f[k] != 0 ==> f[k] < |dirs| && dirs[f[k]].parent in f[..k]
  }

  lemma ParentsFirstNext(dirs: seq<Interface>, f: seq<nat>, x: nat)
    requires ParentsFirst(dirs, f) && (x != 0 ==> x < |dirs| && dirs[x].parent in f)
    ensures ParentsFirst(dirs, f + [x])
  {
    forall k | 0 <= k < |f + [x]| ensures ParentBefore(dirs, f + [x], k) {
      assert (f + [x])[..k] == f[..k];
      assert f[..|f|] == f;
      assert k < |f| ==> ParentBefore(dirs, f, k);
    }
  }

  lemma {:induction false} FirstsInOrder(dirs: seq<Interface>, s: seq<nat>)
    requires Grounded(dirs, s)
    ensures ParentsFirst(dirs, Firsts(s))
  {
    if s != [] {
      var r, x := s[..|s| - 1], s[|s| - 1];
      assert s == r + [x];
      forall p | 0 <= p < |r| ensures Grounds(dirs, r, p) {
        assert Grounds(dirs, s, p);
      }
      FirstsInOrder(dirs, r);
      FirstsAre(r);
      ElementsIn(Firsts(r), x);
      FirstsNext(r, x);
      assert Grounds(dirs, s, |s| - 1);
      if x !in Firsts(r) {
        if x != 0 {
          assert s[|s| - 2] == r[|r| - 1] && r[|r| - 1] in r;
          ElementsIn(r, dirs[x].parent);
          ElementsIn(Firsts(r), dirs[x].parent);
        }
        ParentsFirstNext(dirs, Firsts(r), x);
      }
    }
  }

  // ---- The two lists -------------------------------------------------------------------------

  predicate Wanted(e: Entry, callback: bool) {
    if callback then e.callback else e.normal
  }

  /** The rows from the given one up to n that belong to the list. */
  function Picked(list: seq<Entry>, from: nat, n: nat, callback: bool): seq<Entry>
    requires from <= n <= |list|
    decreases n
  {
    if n == from then [] else
      Picked(list, from, n - 1, callback) + if Wanted(list[n - 1], callback) then [list[n - 1]] else []
  }

  /** These are rows of the table as they stand, each wanted one once and in the table's order. */
  lemma {:induction false} PickedRows(list: seq<Entry>, from: nat, n: nat, callback: bool) returns (rows: seq<nat>)
    requires from <= n <= |list|
    ensures |rows| == |Picked(list, from, n, callback)| && forall p, q :: 0 <= p < q < |rows| ==> rows[p] < rows[q]
    ensures forall p :: 0 <= p < |rows| ==> from <= rows[p] < n && Picked(list, from, n, callback)[p] == list[rows[p]]
    ensures forall k :: from <= k < n ==> (k in rows <==> Wanted(list[k], callback))
    decreases n
  {
    if n == from {
      rows := [];
    } else {
      rows := PickedRows(list, from, n - 1, callback);
      if Wanted(list[n - 1], callback) {
        rows := rows + [n - 1];
      }
    }
  }

  function Methods(dirs: seq<Interface>, list: seq<Entry>, n: nat): nat
    requires n <= |list|
  {
    if n == 0 then 0 else Methods(dirs, list, n - 1) + MethodsIn(dirs, list[n - 1].index)
  }

  function MethodsIn(dirs: seq<Interface>, x: nat): nat {
    if x < |dirs| then dirs[x].methods else 0
  }

  ghost function Chosen(f: seq<nat>, from: nat, n: nat, chosen: set<nat>): set<nat>
    requires from <= n <= |f|
    decreases n
  {
    if n == from then {} else Chosen(f, from, n - 1, chosen) + if f[n - 1] in chosen then {f[n - 1]} else {}
  }

  lemma {:induction false} ChosenWhere(f: seq<nat>, from: nat, n: nat, chosen: set<nat>, x: nat)
    requires from <= n <= |f|
    ensures x in Chosen(f, from, n, chosen) <==> x in chosen && exists k :: from <= k < n && f[k] == x
    decreases n
  {
    if n > from {
      ChosenWhere(f, from, n - 1, chosen, x);
    }
  }

  lemma ChosenNext(f: seq<nat>, from: nat, n: nat, chosen: set<nat>)
    requires from < n <= |f| && Unrepeated(f)
    ensures |Chosen(f, from, n, chosen)| == |Chosen(f, from, n - 1, chosen)| + if f[n - 1] in chosen then 1 else 0
  {
    ChosenWhere(f, from, n - 1, chosen, f[n - 1]);
  }

  /** The counters kept while the table was built are the lengths of the lists. */
  lemma {:induction false} PickedCount(list: seq<Entry>, f: seq<nat>, chosen: set<nat>, from: nat, n: nat,
          callback: bool)
    requires from <= n <= |list| == |f| && Unrepeated(f)
    requires forall k :: 0 <= k < |f| ==> (Wanted(list[k], callback) <==> f[k] in chosen)
    ensures |Picked(list, from, n, callback)| == |Chosen(f, from, n, chosen)|
    decreases n
  {
    if n > from {
      PickedCount(list, f, chosen, from, n - 1, callback);
      ChosenNext(f, from, n, chosen);
      PickedNext(list, from, n, callback);
    }
  }

  lemma PickedNext(list: seq<Entry>, from: nat, n: nat, callback: bool)
    requires from < n <= |list|
    ensures |Picked(list, from, n, callback)| == |Picked(list, from, n - 1, callback)| + if Wanted(list[n - 1],
      callback) then 1 else 0
  {
  }

  lemma WantedWhere(dirs: seq<Interface>, rank: seq<nat>, list: seq<Entry>, seen: seq<nat>, m: Marks)
    requires Acyclic(dirs, rank) && Right(dirs, rank, list, seen, m)
    ensures forall k :: 0 <= k < |list| ==> (Wanted(list[k], false) <==> Firsts(seen)[k] in m.normals)
    ensures forall k :: 0 <= k < |list| ==> (Wanted(list[k], true) <==> Firsts(seen)[k] in m.callbacks)
  {
    forall k | 0 <= k < |list|
      ensures (Wanted(list[k], false) <==> Firsts(seen)[k] in m.normals)
              && (Wanted(list[k], true) <==> Firsts(seen)[k] in m.callbacks)
    {
      RowAt(dirs, rank, list, seen, m, k);
    }
  }

  /** What the counters are worth at the end: every chain begins at the root, so the root's row comes
      first, and it is left out of the callback list. */
  lemma PickedAll(dirs: seq<Interface>, rank: seq<nat>, list: seq<Entry>, seen: seq<nat>, m: Marks)
    requires Acyclic(dirs, rank) && Right(dirs, rank, list, seen, m)
    requires list != [] ==> Firsts(seen)[0] == 0
    requires m.callbacks != {} ==> 0 in m.callbacks
    ensures |Picked(list, 0, |list|, false)| == |m.normals|
    ensures list != [] ==> |Picked(list, 1, |list|, true)| == if m.callbacks == {} then 0 else |m.callbacks| - 1
    ensures list == [] ==> m.callbacks == {}
  {
    var f := Firsts(seen);
    FirstsAre(seen);
    WantedWhere(dirs, rank, list, seen, m);
    PickedCount(list, f, m.normals, 0, |list|, false);
    AllMarked(seen, m);
    ChosenAll(f, m.normals, m.normals + m.callbacks);
    if list != [] {
      PickedCount(list, f, m.callbacks, 1, |list|, true);
      ChosenButRoot(f, m.callbacks, m.normals + m.callbacks);
    }
  }

  lemma ChosenAll(f: seq<nat>, chosen: set<nat>, all: set<nat>)
    requires Elements(f) == all && chosen <= all
    ensures Chosen(f, 0, |f|, chosen) == chosen
  {
    forall x ensures x in Chosen(f, 0, |f|, chosen) <==> x in chosen {
      ChosenWhere(f, 0, |f|, chosen, x);
      ElementsIn(f, x);
    }
  }

  lemma ChosenButRoot(f: seq<nat>, chosen: set<nat>, all: set<nat>)
    requires Elements(f) == all && chosen <= all && Unrepeated(f) && f != [] && f[0] == 0
    ensures Chosen(f, 1, |f|, chosen) == chosen - {0}
  {
    forall x ensures x in Chosen(f, 1, |f|, chosen) <==> x in chosen - {0} {
      ChosenWhere(f, 1, |f|, chosen, x);
      ElementsIn(f, x);
    }
  }

  // ---- Callback methods ----------------------------------------------------------------------

  /** The first event of the list's n-th interface: two numbers are left unused after each. */
  function FirstEvent(dirs: seq<Interface>, list: seq<Entry>, n: nat): nat
    requires n <= |list|
  {
    1 + Methods(dirs, list, n) + 2 * n
  }

  function MethodsOf(e: Entry, event: nat, m: nat): (r: seq<CallbackMethod>)
    ensures |r| == m && forall j :: 0 <= j < m ==> r[j] == CallbackMethod(e.index, e.begin + j, event + j)
  {
    seq(m, j requires 0 <= j < m => CallbackMethod(e.index, e.begin + j, event + j))
  }

  function Numbered(dirs: seq<Interface>, list: seq<Entry>, n: nat): (r: seq<CallbackMethod>)
    requires n <= |list|
    ensures |r| == Methods(dirs, list, n)
  {
    if n == 0 then [] else
      Numbered(dirs, list, n - 1) + MethodsOf(list[n - 1], FirstEvent(dirs, list, n - 1),
        MethodsIn(dirs, list[n - 1].index))
  }

  /** The j-th method of the i-th interface of the list: its number counts on from the interface's first, and
      its event from those of all methods before it, two left out after each interface. */
  lemma {:induction false} NumberedAt(dirs: seq<Interface>, list: seq<Entry>, n: nat, i: nat, j: nat)
    requires i < n <= |list| && j < MethodsIn(dirs, list[i].index)
    ensures var p := Methods(dirs, list, i) + j;
            p < |Numbered(dirs, list, n)|
            && Numbered(dirs, list, n)[p] == CallbackMethod(list[i].index, list[i].begin + j, 1 + p + 2 * i)
  {
    if i < n - 1 {
      NumberedAt(dirs, list, n - 1, i, j);
    }
  }

  lemma {:induction false} EventsBelow(dirs: seq<Interface>, list: seq<Entry>, n: nat, p: nat)
    requires n <= |list| && p < |Numbered(dirs, list, n)|
    ensures 1 <= Numbered(dirs, list, n)[p].event && Numbered(dirs, list, n)[p].event + 2 < FirstEvent(dirs, list, n)
    ensures exists i :: 0 <= i < n && Numbered(dirs, list, n)[p].index == list[i].index
  {
    if p < |Numbered(dirs, list, n - 1)| {
      EventsBelow(dirs, list, n - 1, p);
    } else {
      assert Numbered(dirs, list, n)[p].index == list[n - 1].index;
    }
  }

  /** Callback methods get event numbers that only rise, so no two share one; and with no interface
      listed twice no two are the same method. */
  lemma {:induction false} EventsDiffer(dirs: seq<Interface>, list: seq<Entry>, n: nat, p: nat, q: nat)
    requires n <= |list| && p < q < |Numbered(dirs, list, n)| && forall i, j :: 0 <= i < j < |list| ==>
      list[i].index != list[j].index
    ensures var r := Numbered(dirs, list, n);
            r[p].event < r[q].event && (r[p].index, r[p].number) != (r[q].index, r[q].number)
  {
    if q < |Numbered(dirs, list, n - 1)| {
      EventsDiffer(dirs, list, n - 1, p, q);
    } else if p < |Numbered(dirs, list, n - 1)| {
      EventsBelow(dirs, list, n - 1, p);
    }
  }

  // ---- CreateIFList --------------------------------------------------------------------------

  class ClassInfo {
    const dirs: seq<Interface>
    const impl: seq<Implemented>
    ghost const rank: seq<nat>
    var ifList: array?<Entry>
    var ifCount: nat
    var methodCount: nat
    var cbList: array?<Entry>
    var cbCount: nat
    var cbMethods: array?<CallbackMethod>
    var cbMethodCount: nat

    ghost predicate Sane() {
      Acyclic(dirs, rank) && Known(dirs, impl)
    }

    constructor (dirs: seq<Interface>, impl: seq<Implemented>, ghost rank: seq<nat>)
      ensures this.dirs == dirs && this.impl == impl && this.rank == rank && ifList == null
    {
      this.dirs, this.impl, this.rank := dirs, impl, rank;
      ifList, cbList, cbMethods := null, null, null;
      ifCount, methodCount, cbCount, cbMethodCount := 0, 0, 0, 0;
    }

    /** The way from x up to the root, which fits. */
    method Climb(x: nat, indexList: array<nat>) returns (iNo: nat)
      requires Sane() && x < |dirs| && indexList.Length == |dirs|
      modifies indexList
      ensures var c := Chain(dirs, rank, x); iNo < indexList.Length && |c| == iNo + 1 && forall p :: 0 <= p <= iNo ==>
        indexList[iNo - p] == c[p]
    {
      ghost var c := Chain(dirs, rank, x);
      ChainFalls(dirs, rank, x);
      UnrepeatedFits(c, |dirs|);
      var index := x;
      iNo := 0;
      while index != 0
        invariant iNo < |c| && index == c[|c| - 1 - iNo] && forall p :: 0 <= p < iNo ==> indexList[p] == c[|c| - 1 - p]
        decreases |c| - iNo
      {
        indexList[iNo] := index;
        assert Grounds(dirs, c, |c| - 1 - iNo);
        iNo := iNo + 1;
        index := dirs[index].parent;
      }
      ChainLinks(dirs, rank, x, |c| - 1 - iNo);
      indexList[iNo] := 0;
    }

    /** The first count rows are right for what has been seen, and the counters tell how many carry
        each mark. */
    ghost predicate Table(all: array<Entry>, count: nat, seen: seq<nat>, m: Marks)
      requires Sane()
      reads this, all
    {
      && count <= all.Length == |dirs| && Right(dirs, rank, all[..count], seen, m)
      && ifCount == |m.normals| && cbCount == |m.callbacks|
    }

    /** One interface of a chain: its row is marked, or it gets one. */
    method Record(all: array<Entry>, count: nat, x: nat, begin: nat, callback: bool, ghost seen: seq<nat>,
            ghost m: Marks)
      returns (count': nat, begin': nat)
      requires Sane() && x < |dirs| && Table(all, count, seen, m)
      requires x !in Elements(seen) ==> begin == Begin(dirs, rank, x)
      modifies this`ifCount, this`cbCount, all
      ensures begin' == Begin(dirs, rank, x) + dirs[x].methods && Table(all, count', seen + [x], Mark(m, x, callback))
    {
      var k := 0;
      while k < count && all[k].index != x
        invariant k <= count && forall j :: 0 <= j < k ==> all[j].index != x
      {
        k := k + 1;
      }
      if k < count {
        begin' := Again(all, count, k, x, callback, seen, m);
        count' := count;
      } else {
        count', begin' := Append(all, count, x, begin, callback, seen, m);
      }
    }

    method Again(all: array<Entry>, count: nat, k: nat, x: nat, callback: bool, ghost seen: seq<nat>,
            ghost m: Marks)
      returns (begin': nat)
      requires Sane() && x < |dirs| && Table(all, count, seen, m) && k < count && all[k].index == x
      modifies this`ifCount, this`cbCount, all
      ensures begin' == Begin(dirs, rank, x) + dirs[x].methods && Table(all, count, seen + [x], Mark(m, x, callback))
    {
      ghost var list := all[..count];
      RowAt(dirs, rank, list, seen, m, k);
      RightAgain(dirs, rank, list, seen, m, k, x, callback, Touched(list, k, callback));
      CountAgain(m, x, callback);
      begin' := all[k].begin + dirs[x].methods;
      if !callback {
        if !all[k].normal {
          ifCount := ifCount + 1;
          all[k] := all[k].(normal := true);
        }
      } else {
        if !all[k].callback {
          cbCount := cbCount + 1;
          all[k] := all[k].(callback := true);
        }
      }
      assert all[..count] == Touched(list, k, callback);
    }

    method Append(all: array<Entry>, count: nat, x: nat, begin: nat, callback: bool, ghost seen: seq<nat>,
            ghost m: Marks)
      returns (count': nat, begin': nat)
      requires Sane() && x < |dirs| && Table(all, count, seen, m) && forall j :: 0 <= j < count ==> all[j].index != x
      requires x !in Elements(seen) ==> begin == Begin(dirs, rank, x)
      modifies this`ifCount, this`cbCount, all
      ensures begin' == Begin(dirs, rank, x) + dirs[x].methods && Table(all, count', seen + [x], Mark(m, x, callback))
    {
      ghost var list := all[..count];
      forall j | 0 <= j < |list| ensures list[j].index != x {
        assert list[j] == all[j];
      }
      Unseen(dirs, rank, list, seen, m, x);
      RoomFor(list, seen, m, x);
      RightOnce(dirs, rank, list, seen, m, x, callback);
      CountAgain(m, x, callback);
      all[count] := Entry(x, begin, !callback, callback);
      if callback {
        cbCount := cbCount + 1;
      } else {
        ifCount := ifCount + 1;
      }
      begin' := begin + dirs[x].methods;
      count' := count + 1;
      assert all[..count'] == list + [Entry(x, begin, !callback, callback)];
    }

    /** There is room for another row. */
    lemma RoomFor(list: seq<Entry>, seen: seq<nat>, m: Marks, x: nat)
      requires Sane() && Right(dirs, rank, list, seen, m) && x < |dirs| && x !in Elements(seen)
      ensures |list| < |dirs|
    {
      var f := Firsts(seen);
      FirstsAre(seen);
      forall k | 0 <= k < |f| ensures f[k] < |dirs| && f[k] != x {
        RowAt(dirs, rank, list, seen, m, k);
        ElementsIn(f, f[k]);
      }
      UnrepeatedFits(f + [x], |dirs|);
    }

    /** The first n interfaces of the chain of x are in, and begin is where the next one's methods
        start. */
    ghost predicate ChainTable(all: array<Entry>, count: nat, begin: nat, c: seq<nat>, n: nat, callback: bool,
                               seen: seq<nat>, m: Marks)
      requires Sane() && n <= |c|
      reads this, all
    {
      && Table(all, count, seen + c[..n], MarkAll(m, c, n, callback))
      && if n == 0 then 0 in Elements(seen) || begin == METHOD_START_NO
         else c[n - 1] < |dirs| && begin == Begin(dirs, rank, c[n - 1]) + dirs[c[n - 1]].methods
    }

    method ChainStep(all: array<Entry>, count: nat, index: nat, begin: nat, callback: bool,
                     ghost x: nat, ghost c: seq<nat>, ghost n: nat, ghost seen: seq<nat>, ghost m: Marks)
      returns (count': nat, begin': nat)
      requires Sane() && x < |dirs| && c == Chain(dirs, rank, x) && n < |c| && index == c[n]
      requires ChainTable(all, count, begin, c, n, callback, seen, m)
      modifies this`ifCount, this`cbCount, all
      ensures ChainTable(all, count', begin', c, n + 1, callback, seen, m)
    {
      BeginNext(x, n);
      ghost var before := seen + c[..n];
      assert c[..n + 1] == c[..n] + [c[n]] && seen + c[..n + 1] == before + [c[n]];
      assert n == 0 ==> before == seen;
      count', begin' := Record(all, count, index, begin, callback, before, MarkAll(m, c, n, callback));
    }

    /** One chain, from the root down. */
    method AddChain(all: array<Entry>, count: nat, begin: nat, indexList: seq<nat>, iNo: nat, callback: bool,
                    ghost x: nat, ghost c: seq<nat>, ghost seen: seq<nat>, ghost m: Marks)
      returns (count': nat, begin': nat)
      requires Sane() && x < |dirs| && c == Chain(dirs, rank, x) && ChainTable(all, count, begin, c, 0, callback, seen, m)
      requires iNo < |indexList| && |c| == iNo + 1 && forall p :: 0 <= p <= iNo ==> indexList[iNo - p] == c[p]
      modifies this`ifCount, this`cbCount, all
      ensures ChainTable(all, count', begin', c, iNo + 1, callback, seen, m)
    {
      count', begin' := count, begin;
      var j: int := iNo;
      while j >= 0
        invariant -1 <= j <= iNo && ChainTable(all, count', begin', c, iNo - j, callback, seen, m)
      {
        count', begin' := ChainStep(all, count', indexList[j], begin', callback, x, c, iNo - j, seen, m);
        j := j - 1;
      }
    }

    lemma BeginNext(x: nat, n: nat)
      requires Sane() && x < |dirs| && n < |Chain(dirs, rank, x)|
      ensures var c := Chain(dirs, rank, x);
              c[n] < |dirs| && (n == 0 ==> c[n] == 0)
              && (n > 0 ==> c[n - 1] < |dirs| && Begin(dirs, rank, c[n]) == Begin(dirs, rank, c[n - 1]) + dirs[c[n - 1]].methods)
    {
      ChainLinks(dirs, rank, x, n);
      assert Grounds(dirs, Chain(dirs, rank, x), n);
    }

    /** The chains of the first i interfaces are in. */
    ghost predicate ChainsTable(all: array<Entry>, count: nat, begin: nat, i: nat)
      requires Sane() && i <= |impl|
      reads this, all
    {
      Table(all, count, Chains(dirs, rank, impl, i), MarksOf(dirs, rank, impl, i)) &&
        (i == 0 ==> begin == METHOD_START_NO)
    }

    method AddOne(all: array<Entry>, count: nat, begin: nat, i: nat) returns (count': nat, begin': nat)
      requires Sane() && i < |impl| && ChainsTable(all, count, begin, i)
      modifies this`ifCount, this`cbCount, all
      ensures ChainsTable(all, count', begin', i + 1)
    {
      var indexList := new nat[|dirs|];
      ghost var x, seen, m := impl[i].index, Chains(dirs, rank, impl, i), MarksOf(dirs, rank, impl, i);
      ghost var c := Chain(dirs, rank, x);
      var iNo := Climb(impl[i].index, indexList);
      RootSeen(i);
      assert c[..0] == [] && seen + [] == seen;
      count', begin' := AddChain(all, count, begin, indexList[..], iNo, impl[i].callback, x, c, seen, m);
      assert c[..|c|] == c;
    }

    method Clear(all: array<Entry>) returns (begin: nat)
      requires Sane() && all.Length == |dirs|
      modifies this`ifCount, this`cbCount
      ensures ChainsTable(all, 0, begin, 0)
    {
      ifCount, cbCount, begin := 0, 0, METHOD_START_NO;
      assert Firsts([]) == [];
    }

    /** All the chains. */
    method AddAll(all: array<Entry>) returns (count: nat)
      requires Sane() && all.Length == |dirs|
      modifies this`ifCount, this`cbCount, all
      ensures Table(all, count, Chains(dirs, rank, impl, |impl|), MarksOf(dirs, rank, impl, |impl|))
    {
      var begin := Clear(all);
      count := 0;
      for i := 0 to |impl|
        invariant ChainsTable(all, count, begin, i)
      {
        count, begin := AddOne(all, count, begin, i);
      }
    }

    lemma {:induction false} RootSeen(n: nat)
      requires Sane() && n <= |impl|
      ensures n > 0 ==> Chains(dirs, rank, impl, n) != [] && Chains(dirs, rank, impl, n)[0] == 0 && 0 in Elements(Chains(dirs, rank, impl, n))
    {
      if n > 1 {
        RootSeen(n - 1);
      }
      ElementsIn(Chains(dirs, rank, impl, n), 0);
    }

    /** The rows go into the list of normal interfaces, and all but the root's into the list of
        callback interfaces. */
    method Collect(all: array<Entry>, count: nat, normal: array<Entry>, callbacks: array<Entry>) returns (k: nat)
      requires count <= all.Length && all != normal && all != callbacks && normal != callbacks
      requires normal.Length == |NormalRows(all[..count], count)|
               && callbacks.Length == cbCount == |CallbackRows(all[..count], count)|
      modifies normal, callbacks, this`methodCount, this`cbMethodCount
      ensures normal[..] == NormalRows(all[..count], count) && callbacks[..] == CallbackRows(all[..count], count)
              && k == callbacks.Length
      ensures methodCount == Methods(dirs, normal[..], normal.Length)
              && cbMethodCount == Methods(dirs, callbacks[..], callbacks.Length)
    {
      ghost var list := all[..count];
      methodCount, cbMethodCount := 0, 0;
      var j := 0;
      k := 0;
      for i := 0 to count
        invariant all[..count] == list && j <= normal.Length && k <= callbacks.Length
        invariant normal[..j] == NormalRows(list, i) && methodCount == Methods(dirs, NormalRows(list, i), j)
        invariant callbacks[..k] == CallbackRows(list, i) && cbMethodCount == Methods(dirs, CallbackRows(list, i), k)
      {
        RowsGrow(list, i + 1, count);
        if all[i].normal {
          NextRow(dirs, NormalRows(list, i), list[i]);
          normal[j] := all[i];
          methodCount := methodCount + MethodsIn(dirs, all[i].index);
          assert normal[..j + 1] == normal[..j] + [all[i]];
          j := j + 1;
        }
        if i != 0 && cbCount != 0 && all[i].callback {
          NextRow(dirs, CallbackRows(list, i), list[i]);
          callbacks[k] := all[i];
          cbMethodCount := cbMethodCount + MethodsIn(dirs, all[i].index);
          assert callbacks[..k + 1] == callbacks[..k] + [all[i]];
          k := k + 1;
        }
      }
      assert normal[..j] == normal[..] && callbacks[..k] == callbacks[..];
    }

    /** The methods of one callback interface. */
    method NumberOne(e: Entry, table: array<CallbackMethod>, n: nat, event: nat) returns (n': nat, event': nat)
      requires n + MethodsIn(dirs, e.index) <= table.Length
      modifies table
      ensures n' == n + MethodsIn(dirs, e.index) && event' == event + MethodsIn(dirs, e.index)
      ensures table[..n'] == old(table[..n]) + MethodsOf(e, event, MethodsIn(dirs, e.index))
    {
      n', event' := n, event;
      for j := 0 to MethodsIn(dirs, e.index)
        invariant n' == n + j && event' == event + j
        invariant table[..n'] == old(table[..n]) + MethodsOf(e, event, j)
      {
        table[n'] := CallbackMethod(e.index, e.begin + j, event');
        assert table[..n' + 1] == table[..n'] + [table[n']];
        assert MethodsOf(e, event, j + 1) == MethodsOf(e, event, j) + [table[n']];
        event' := event' + 1;
        n' := n' + 1;
      }
    }

    /** The callback methods and their events. */
    method NumberAll(callbacks: array<Entry>) returns (table: array<CallbackMethod>)
      requires cbMethodCount == Methods(dirs, callbacks[..], callbacks.Length)
      ensures fresh(table) && table[..] == Numbered(dirs, callbacks[..], callbacks.Length)
    {
      ghost var list := callbacks[..];
      table := new CallbackMethod[cbMethodCount](_ => CallbackMethod(0, 0, 0));
      var n, event := 0, 1;
      for i := 0 to callbacks.Length
        invariant callbacks[..] == list && n <= table.Length && n == Methods(dirs, list, i)
                  && event == FirstEvent(dirs, list, i)
        invariant table[..n] == Numbered(dirs, list, i)
      {
        MethodsGrow(dirs, list, i + 1, |list|);
        n, event := NumberOne(callbacks[i], table, n, event);
        event := event + 2;
      }
      assert table[..n] == table[..];
    }

    /** The lists and the counts that belong to a table. */
    ghost predicate Lists(list: seq<Entry>, any: bool)
      reads this, ifList, cbList, cbMethods
    {
      var normal, callbacks := NormalRows(list, |list|), CallbackRows(list, |list|);
      && ifList != null && ifList[..] == normal && ifCount == |normal| && methodCount == Methods(dirs, normal, |normal|)
      && (cbList != null <==> any) && (if cbList != null then cbList[..] == callbacks else callbacks == [])
      && cbCount == |callbacks| && cbMethodCount == Methods(dirs, callbacks, |callbacks|)
      && cbMethods != null && cbMethods[..] == Numbered(dirs, callbacks, |callbacks|)
    }

    /** All that CreateIFList leaves behind. */
    ghost predicate Built()
      requires Sane()
      reads this, ifList, cbList, cbMethods
    {
      Lists(Rows(dirs, rank, impl), MarksOf(dirs, rank, impl, |impl|).callbacks != {})
    }

    /** The second half of CreateIFList. */
    method FillLists(all: array<Entry>, count: nat, any: bool)
      requires count <= all.Length && (!any ==> cbCount == 0)
      requires ifCount == |NormalRows(all[..count], count)| && cbCount == |CallbackRows(all[..count], count)|
      modifies this
      ensures Lists(old(all[..count]), any)
    {
      var normal := new Entry[ifCount](_ => Entry(0, 0, false, false));
      var callbacks := new Entry[cbCount](_ => Entry(0, 0, false, false));
      var k := Collect(all, count, normal, callbacks);
      var table := NumberAll(callbacks);
      ifList, cbMethods := normal, table;
      cbList := if any then callbacks else null;
    }

    /** CreateIFList, memory permitting; a second call does nothing. */
    method CreateIFList()
      requires Sane()
      modifies this
      ensures if old(ifList) != null then unchanged(this) else Built()
    {
      if ifList != null {
        return;
      }
      var all := new Entry[|dirs|](_ => Entry(0, 0, false, false));
      var count := AddAll(all);
      ListIs(all[..count], MarksOf(dirs, rank, impl, |impl|));
      var any := cbCount != 0;
      if any {
        cbCount := cbCount - 1;
      }
      FillLists(all, count, any);
    }

    lemma ListIs(list: seq<Entry>, m: Marks)
      requires Sane() && m == MarksOf(dirs, rank, impl, |impl|)
               && Right(dirs, rank, list, Chains(dirs, rank, impl, |impl|), m)
      ensures list == Rows(dirs, rank, impl)
      ensures |NormalRows(list, |list|)| == |m.normals|
      ensures |CallbackRows(list, |list|)| == if m.callbacks == {} then 0 else |m.callbacks| - 1
    {
      var seen := Chains(dirs, rank, impl, |impl|);
      forall k: nat | k < |list| ensures list[k] == Rows(dirs, rank, impl)[k] {
        RowAt(dirs, rank, list, seen, m, k);
      }
      RootSeen(|impl|);
      MarksAre(dirs, rank, impl, |impl|);
      RootReached(dirs, rank, impl, |impl|, true);
      RootFirst(seen);
      PickedAll(dirs, rank, list, seen, m);
    }
  }

  lemma {:induction false} RootReached(dirs: seq<Interface>, rank: seq<nat>, impl: seq<Implemented>, n: nat,
          callback: bool)
    requires Acyclic(dirs, rank) && Known(dirs, impl) && n <= |impl|
    ensures Reached(dirs, rank, impl, n, callback) != {} ==> 0 in Reached(dirs, rank, impl, n, callback)
  {
    if n > 0 {
      RootReached(dirs, rank, impl, n - 1, callback);
      ElementsIn(Chain(dirs, rank, impl[n - 1].index), 0);
    }
  }

  lemma {:induction false} RootFirst(s: seq<nat>)
    ensures s != [] ==> Firsts(s) != [] && Firsts(s)[0] == s[0]
  {
    if |s| > 1 {
      RootFirst(s[..|s| - 1]);
    }
  }

  /** The table: a row for each interface, where its chain first comes to it. */
  ghost function Rows(dirs: seq<Interface>, rank: seq<nat>, impl: seq<Implemented>): seq<Entry>
    requires Acyclic(dirs, rank) && Known(dirs, impl)
  {
    var f, m := Firsts(Chains(dirs, rank, impl, |impl|)), MarksOf(dirs, rank, impl, |impl|);
    seq(|f|, k requires 0 <= k < |f| => Entry(f[k], if f[k] < |dirs| then Begin(dirs, rank, f[k])
      else 0, f[k] in m.normals, f[k] in m.callbacks))
  }

  function NormalRows(list: seq<Entry>, i: nat): seq<Entry>
    requires i <= |list|
  {
    Picked(list, 0, i, false)
  }

  function CallbackRows(list: seq<Entry>, i: nat): seq<Entry>
    requires i <= |list|
  {
    if i == 0 then [] else Picked(list, 1, i, true)
  }

  lemma {:induction false} PickedGrows(list: seq<Entry>, from: nat, i: nat, n: nat, callback: bool)
    requires from <= i <= n <= |list|
    ensures |Picked(list, from, i, callback)| <= |Picked(list, from, n, callback)|
    decreases n
  {
    if i < n {
      PickedGrows(list, from, i, n - 1, callback);
    }
  }

  lemma RowsGrow(list: seq<Entry>, i: nat, n: nat)
    requires 0 < i <= n <= |list|
    ensures |NormalRows(list, i)| <= |NormalRows(list, n)| && |CallbackRows(list, i)| <= |CallbackRows(list, n)|
  {
    PickedGrows(list, 0, i, n, false);
    PickedGrows(list, 1, i, n, true);
  }

  lemma {:induction false} MethodsGrow(dirs: seq<Interface>, list: seq<Entry>, i: nat, n: nat)
    requires i <= n <= |list|
    ensures Methods(dirs, list, i) <= Methods(dirs, list, n)
  {
    if i < n {
      MethodsGrow(dirs, list, i, n - 1);
    }
  }

  lemma {:induction false} MethodsOfPrefix(dirs: seq<Interface>, list: seq<Entry>, e: Entry, n: nat)
    requires n <= |list|
    ensures Methods(dirs, list + [e], n) == Methods(dirs, list, n)
  {
    if n > 0 {
      MethodsOfPrefix(dirs, list, e, n - 1);
    }
  }

  lemma NextRow(dirs: seq<Interface>, list: seq<Entry>, e: Entry)
    ensures Methods(dirs, list + [e], |list| + 1) == Methods(dirs, list, |list|) + MethodsIn(dirs, e.index)
  {
    MethodsOfPrefix(dirs, list, e, |list|);
  }

  /** The table names each reached interface once, parents before children. */
  lemma EachOnce(dirs: seq<Interface>, rank: seq<nat>, impl: seq<Implemented>)
    requires Acyclic(dirs, rank) && Known(dirs, impl)
    ensures var f := Firsts(Chains(dirs, rank, impl, |impl|));
            Unrepeated(f) && ParentsFirst(dirs, f)
            && Elements(f) == Reached(dirs, rank, impl, |impl|, false) + Reached(dirs, rank, impl, |impl|, true)
  {
    FirstsAre(Chains(dirs, rank, impl, |impl|));
    ChainsGrounded(dirs, rank, impl, |impl|);
    FirstsInOrder(dirs, Chains(dirs, rank, impl, |impl|));
    ChainsReach(dirs, rank, impl, |impl|);
  }

  lemma {:induction false} ElementsBoth(s: seq<nat>, t: seq<nat>)
    ensures Elements(s + t) == Elements(s) + Elements(t)
  {
    if t == [] {
      assert s + t == s;
    } else {
      var r, x := t[..|t| - 1], t[|t| - 1];
      ElementsBoth(s, r);
      assert s + t == s + r + [x];
      ElementsNext(s + r, x);
    }
  }

  lemma {:induction false} ChainsReach(dirs: seq<Interface>, rank: seq<nat>, impl: seq<Implemented>, n: nat)
    requires Acyclic(dirs, rank) && Known(dirs, impl) && n <= |impl|
    ensures Elements(Chains(dirs, rank, impl, n)) == Reached(dirs, rank, impl, n, false) + Reached(dirs, rank, impl, n,
      true)
  {
    if n > 0 {
      ChainsReach(dirs, rank, impl, n - 1);
      ElementsBoth(Chains(dirs, rank, impl, n - 1), Chain(dirs, rank, impl[n - 1].index));
    }
  }

  function Touched(list: seq<Entry>, k: nat, callback: bool): seq<Entry>
    requires k < |list|
  {
    list[k := if callback then list[k].(callback := true) else list[k].(normal := true)]
  }

  lemma CountAgain(m: Marks, x: nat, callback: bool)
    ensures |Mark(m, x, callback).normals| == |m.normals| + if !callback && x !in m.normals then 1 else 0
    ensures |Mark(m, x, callback).callbacks| == |m.callbacks| + if callback && x !in m.callbacks then 1 else 0
  {
    assert x in m.normals ==> m.normals + {x} == m.normals;
    assert x in m.callbacks ==> m.callbacks + {x} == m.callbacks;
  }
}
