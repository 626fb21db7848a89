/** The bookkeeping of the dynamic linker: what its list of loaded libraries looks like between any
    two steps of loading, constructing and unloading, and why every step keeps it that way. */
module LinkerState {
  /** The name a library is known under: the file name without its directories. */
  datatype Name = Name(text: string)

  /** The entry the linker always has for itself. */
  const LIBDL := Name("libdl.so")

  /** A library's entry in the linker's list; `needed` are its DT_NEEDED entries as find_loaded_library reads them. */
  datatype Soinfo = Soinfo(needed: seq<Name>, linked: bool, failed: bool, refcount: int, constructed: bool)

  /** What accounts for a library's reference count. The library itself holds references on
      needed[lo..hi]; `users` are the libraries that hold references on it. The rank numbers the
      libraries in the order in which they were linked. */
  datatype Account = Account(lo: nat, hi: nat, rank: nat, opens: nat, pins: nat, users: multiset<Name>)

  /** The run of a library's constructors or destructors; libraries are told apart by their rank. */
  datatype Event = Ctor(rank: nat) | Dtor(rank: nat)

  /** `deps` remembers which libraries each linked library needed; `log` is the run so far. */
  datatype World = World(libs: map<Name, Soinfo>, accounts: map<Name, Account>, deps: map<nat, set<nat>>,
    log: seq<Event>, clock: nat)

  /** The calls in progress: libraries being linked, unloaded and constructed, the references that
      a caller of soinfo_unload is about to give up, and the libraries just loaded on which the
      caller has yet to take its reference. */
  datatype Calls = Calls(linking: set<Name>, leaving: set<Name>, extra: set<Name>, starting: set<Name>, loose: set<Name>)

  const IDLE := Calls({}, {}, {}, {}, {})

  /** The part of a path after its last '/'. */
  function Basename(path: string): (b: string)
    ensures '/' !in b && |b| <= |path| && path[|path| - |b|..] == b
    ensures |b| < |path| ==> path[|path| - |b| - 1] == '/'
  {
    if path == [] || path[|path| - 1] == '/' then [] else Basename(path[..|path| - 1]) + [path[|path| - 1]]
  }

  predicate Ready(s: Soinfo) {
    s.linked && !s.failed
  }

  // ---- The invariant -----------------------------------------------------------------------

  ghost predicate Known(w: World, n: Name) {
    n in w.libs && n in w.accounts && w.accounts[n].lo <= w.accounts[n].hi <= |w.libs[n].needed|
  }

  /** The references that the library n holds on others. */
  ghost function Holds(w: World, n: Name): seq<Name>
    requires Known(w, n)
  {
    w.libs[n].needed[w.accounts[n].lo..w.accounts[n].hi]
  }

  function One(b: bool): nat {
    if b then 1 else 0
  }

  /** A reference count is the outstanding opens, preloads and DT_NEEDED references. */
  ghost predicate Counted(w: World, c: Calls, n: Name)
    requires Known(w, n)
  {
    w.libs[n].refcount == w.accounts[n].opens + w.accounts[n].pins + |w.accounts[n].users| + One(n in c.extra)
  }

  /** The references that o holds on n are the ones that n has from o. */
  ghost predicate Matched(w: World, n: Name, o: Name)
    requires Known(w, n)
  {
    w.accounts[n].users[o] == if Known(w, o) then multiset(Holds(w, o))[n] else 0
  }

  ghost predicate AllMatched(w: World, n: Name)
    requires Known(w, n)
  {
    forall o :: Matched(w, n, o)
  }

  /** The library x is there for o to use. */
  ghost predicate Usable(w: World, c: Calls, o: Name, x: Name)
    requires Known(w, o)
  {
    && Known(w, x) && Ready(w.libs[x]) && x !in c.leaving &&
      (w.libs[o].linked ==> w.accounts[x].rank < w.accounts[o].rank)
    && (w.libs[o].constructed && o !in c.starting ==> w.libs[x].constructed && x !in c.starting)
  }

  ghost predicate UsesOk(w: World, c: Calls, o: Name)
    requires Known(w, o)
  {
    forall x :: x in Holds(w, o) ==> Usable(w, c, o, x)
  }

  ghost predicate FlagsOk(w: World, c: Calls, n: Name)
    requires Known(w, n)
  {
    var s, a := w.libs[n], w.accounts[n];
    && (n in c.linking <==> !s.linked && !s.failed)
    && (s.linked ==> a.rank < w.clock)
    && (s.linked && n !in c.leaving ==> a.lo == 0 && a.hi == |s.needed|)
    && (!s.linked ==> a.lo == 0)
    && (s.constructed ==> Ready(s))
    && (a.opens > 0 ==> Ready(s) && s.constructed)
    && (Ready(s) && n != LIBDL && n !in c.extra + c.loose ==> a.opens + a.pins + |a.users| > 0)
    && (n in c.leaving ==> n in c.extra && s.refcount == 1 && Ready(s) && s.constructed && n != LIBDL)
  }

  ghost predicate NodeOk(w: World, c: Calls, n: Name) {
    && Known(w, n)
    && Counted(w, c, n)
    && FlagsOk(w, c, n)
    && AllMatched(w, n)
    && UsesOk(w, c, n)
  }

  /** Different linked libraries have different ranks. */
  ghost predicate RanksDiffer(w: World) {
    forall m, n :: Distinct(w, m, n)
  }

  ghost predicate Distinct(w: World, m: Name, n: Name) {
    Known(w, m) && Known(w, n) && w.libs[m].linked && w.libs[n].linked && w.accounts[m].rank == w.accounts[n].rank ==>
      m == n
  }

  ghost predicate Before(log: seq<Event>, p: int, e: Event) {
    exists q :: 0 <= q < p && q < |log| && log[q] == e
  }

  /** Constructors run once and after those of every dependency; destructors run once, after the
      constructors, and after those of every library that depends on this one. */
  ghost predicate EventOk(deps: map<nat, set<nat>>, log: seq<Event>, p: nat)
    requires p < |log|
  {
    && log[p].rank in deps
    && !Before(log, p, log[p])
    && match log[p]
       case Ctor(i) => forall j :: j in deps[i] ==> Before(log, p, Ctor(j))
       case Dtor(j) => Before(log, p, Ctor(j)) && forall i :: i in deps && j in deps[i] ==> Before(log, p, Dtor(i))
  }

  ghost predicate LogOk(deps: map<nat, set<nat>>, log: seq<Event>) {
    forall p: nat :: p < |log| ==> EventOk(deps, log, p)
  }

  /** The ranks of the libraries that n needs. */
  ghost predicate DepsOf(w: World, n: Name)
    requires Known(w, n)
  {
    && w.accounts[n].rank in w.deps
    && (forall x :: x in w.libs[n].needed ==> Known(w, x) && w.accounts[x].rank in w.deps[w.accounts[n].rank])
    && (forall j :: j in w.deps[w.accounts[n].rank] ==>
      exists x :: x in w.libs[n].needed && Known(w, x) && w.accounts[x].rank == j)
  }

  /** The log agrees with the state of the library n. */
  ghost predicate LoggedOk(w: World, c: Calls, n: Name)
    requires Known(w, n)
  {
    w.libs[n].linked ==>
      && w.accounts[n].rank in w.deps
      && (n !in c.leaving ==> DepsOf(w, n))
      && (n in c.leaving <==> Dtor(w.accounts[n].rank) in w.log)
      && (w.libs[n].constructed && n !in c.starting <==> Ctor(w.accounts[n].rank) in w.log)
  }

  /** A library that was linked is still there or has had its destructors run. */
  ghost predicate LivesOrDied(w: World, i: nat) {
    Dtor(i) in w.log || exists n :: Known(w, n) && w.libs[n].linked && w.accounts[n].rank == i
  }

  ghost predicate HistoryOk(w: World, c: Calls) {
    && LogOk(w.deps, w.log)
    && (forall i :: i in w.deps ==> i < w.clock && LivesOrDied(w, i))
    && (forall i, j :: i in w.deps && j in w.deps[i] ==> j < i)
    && (forall n {:trigger LoggedOk(w, c, n)} :: Known(w, n) ==> LoggedOk(w, c, n))
  }

  ghost predicate Inv(w: World, c: Calls) {
    Core(w, c) && RanksDiffer(w) && HistoryOk(w, c)
  }

  ghost predicate Core(w: World, c: Calls) {
    && w.libs.Keys == w.accounts.Keys
    && LIBDL in w.libs && Ready(w.libs[LIBDL]) && w.libs[LIBDL].needed == []
    && c.linking <= w.libs.Keys && c.leaving <= c.extra <= w.libs.Keys && c.starting <= w.libs.Keys
    && (forall n {:trigger NodeOk(w, c, n)} :: n in w.libs ==> NodeOk(w, c, n))
  }

  // ---- The steps ---------------------------------------------------------------------------

  /** soinfo_alloc: a new entry, about to be linked. */
  ghost function Appear(w: World, n: Name, needed: seq<Name>): World {
    w.(libs := w.libs[n := Soinfo(needed, false, false, 0, false)],
      accounts := w.accounts[n := Account(0, 0, 0, 0, 0, multiset{})])
  }

  ghost function AddCount(w: World, x: Name, delta: int): map<Name, Soinfo>
    requires x in w.libs
  {
    w.libs[x := w.libs[x].(refcount := w.libs[x].refcount + delta)]
  }

  /** o takes a reference on x, its next needed library. */
  ghost function Take(w: World, o: Name, x: Name): World
    requires Known(w, o) && Known(w, x) && o != x
  {
    var a, b := w.accounts[o], w.accounts[x];
    w.(libs := AddCount(w, x, 1),
      accounts := w.accounts[o := a.(hi := a.hi + 1)][x := b.(users := b.users + multiset{o})])
  }

  /** The program takes a reference on x: a preload or an open. */
  ghost function Pin(w: World, x: Name): World
    requires Known(w, x)
  {
    w.(libs := AddCount(w, x, 1), accounts := w.accounts[x := w.accounts[x].(pins := w.accounts[x].pins + 1)])
  }

  ghost function Open(w: World, x: Name): World
    requires Known(w, x)
  {
    w.(libs := AddCount(w, x, 1), accounts := w.accounts[x := w.accounts[x].(opens := w.accounts[x].opens + 1)])
  }

  ghost function NeededRanks(w: World, o: Name): set<nat>
    requires Known(w, o)
  {
    set x | x in w.libs[o].needed && Known(w, x) :: w.accounts[x].rank
  }

  /** o has been linked. */
  ghost function Complete(w: World, o: Name): World
    requires Known(w, o)
  {
    World(w.libs[o := w.libs[o].(linked := true)], w.accounts[o := w.accounts[o].(rank := w.clock)],
          w.deps[w.clock := NeededRanks(w, o)], w.log, w.clock + 1)
  }

  ghost function Fail(w: World, o: Name): World
    requires o in w.libs
  {
    w.(libs := w.libs[o := w.libs[o].(failed := true)])
  }

  // ---- Steps that only move references -----------------------------------------------------

  /** Nothing that the log depends on has changed. */
  ghost predicate SameHistory(w: World, c: Calls, v: World, d: Calls) {
    && v.deps == w.deps && v.log == w.log && v.clock == w.clock
    && c.leaving == d.leaving && c.starting == d.starting
    && (forall n :: Known(w, n) && w.libs[n].linked <==> Known(v, n) && v.libs[n].linked)
    && (forall n :: Known(w, n) && w.libs[n].linked ==>
      v.accounts[n].rank == w.accounts[n].rank && v.libs[n].needed == w.libs[n].needed &&
        v.libs[n].constructed == w.libs[n].constructed)
    && (forall n :: Known(w, n) ==> Known(v, n))
  }

  lemma RanksKept(w: World, v: World)
    requires RanksDiffer(w)
    requires forall n :: Known(v, n) && v.libs[n].linked ==>
      Known(w, n) && w.libs[n].linked && w.accounts[n].rank == v.accounts[n].rank
    ensures RanksDiffer(v)
  {
    forall m, n ensures Distinct(v, m, n) {
      assert Distinct(w, m, n);
    }
  }

  lemma NeededUsable(w: World, c: Calls, n: Name)
    requires NodeOk(w, c, n) && w.libs[n].linked && n !in c.leaving
    ensures Holds(w, n) == w.libs[n].needed
    ensures forall x :: x in w.libs[n].needed ==> Usable(w, c, n, x)
  {
  }

  lemma HistoryKept(w: World, c: Calls, v: World, d: Calls)
    requires Inv(w, c) && SameHistory(w, c, v, d)
    ensures RanksDiffer(v) && HistoryOk(v, d)
  {
    RanksKept(w, v);
    forall n | n in v.libs && Known(v, n) ensures LoggedOk(v, d, n) {
      if v.libs[n].linked {
        assert LoggedOk(w, c, n);
        if n !in c.leaving {
          NeededUsable(w, c, n);
        }
      }
    }
    forall i | i in v.deps ensures LivesOrDied(v, i) {
      assert LivesOrDied(w, i);
    }
  }

  /** The libraries are the same ones in the same condition; only who refers to whom may differ. */
  ghost predicate OnlyCounts(w: World, v: World) {
    && v.deps == w.deps && v.log == w.log && v.clock == w.clock
    && v.libs.Keys == w.libs.Keys && v.accounts.Keys == w.accounts.Keys
    && (forall n :: n in w.libs && n in w.accounts ==> SameButCounts(w, v, n))
  }

  ghost predicate SameButCounts(w: World, v: World, n: Name)
    requires n in w.libs && n in v.libs && n in w.accounts && n in v.accounts
  {
    && v.libs[n] == w.libs[n].(refcount := v.libs[n].refcount)
    && v.accounts[n].rank == w.accounts[n].rank
    && v.accounts[n].lo <= v.accounts[n].hi <= |v.libs[n].needed|
  }

  lemma UsesKept(w: World, c: Calls, v: World, d: Calls, n: Name)
    requires Known(w, n) && UsesOk(w, c, n) && OnlyCounts(w, v) && d.leaving == c.leaving && d.starting == c.starting
    requires forall x :: x in Holds(w, n) ==> Known(w, x)
    ensures Known(v, n)
    ensures forall x :: x in Holds(v, n) && x in Holds(w, n) ==> Usable(v, d, n, x)
  {
    assert SameButCounts(w, v, n);
    forall x | x in Holds(v, n) && x in Holds(w, n) ensures Usable(v, d, n, x) {
      assert Usable(w, c, n, x) && SameButCounts(w, v, x);
    }
  }

  lemma CountsHistory(w: World, c: Calls, v: World, d: Calls)
    requires Inv(w, c) && OnlyCounts(w, v) && d.leaving == c.leaving && d.starting == c.starting
    ensures RanksDiffer(v) && HistoryOk(v, d)
  {
    forall n ensures (Known(w, n) <==> Known(v, n)) && (Known(w, n) ==> SameButCounts(w, v, n)) {
      if n in w.libs {
        assert NodeOk(w, c, n) && SameButCounts(w, v, n);
      }
    }
    HistoryKept(w, c, v, d);
  }

  /** A library that is not itself touched, by or through anyone's references, stays in order. */
  lemma NodeUntouched(w: World, c: Calls, v: World, d: Calls, n: Name)
    requires Core(w, c) && n in w.libs && OnlyCounts(w, v)
    requires d == c.(extra := d.extra, loose := d.loose) && (n in d.extra <==> n in c.extra)
             && (n in d.loose <==> n in c.loose)
    requires v.libs[n] == w.libs[n] && v.accounts[n] == w.accounts[n]
    requires forall m :: Known(w, m) && Known(v, m) ==> multiset(Holds(v, m))[n] == multiset(Holds(w, m))[n]
    ensures NodeOk(v, d, n)
  {
    assert NodeOk(w, c, n);
    UsesKept(w, c, v, d, n);
    assert Holds(v, n) == Holds(w, n);
    forall m ensures Matched(v, n, m) {
      assert Matched(w, n, m);
      if m in w.libs {
        assert NodeOk(w, c, m) && SameButCounts(w, v, m);
      }
    }
  }

  /** Only the reference of the caller on x comes or goes. */
  ghost predicate ExtraOnly(w: World, c: Calls, d: Calls, x: Name) {
    && d == c.(extra := d.extra, loose := d.loose) && c.leaving <= d.extra <= w.libs.Keys
    && (forall n :: n != x ==> (n in d.extra <==> n in c.extra) && (n in d.loose <==> n in c.loose))
  }

  lemma CoreFromNodes(w: World, c: Calls, v: World, d: Calls)
    requires Core(w, c) && OnlyCounts(w, v) && d == c.(extra := d.extra, loose := d.loose)
             && c.leaving <= d.extra <= w.libs.Keys
    requires forall n :: n in w.libs ==> NodeOk(v, d, n)
    ensures Core(v, d)
  {
    assert SameButCounts(w, v, LIBDL);
  }

  /** Only the count, the opens and the preloads of x change. */
  ghost predicate Recounts(w: World, v: World, x: Name) {
    && OnlyCounts(w, v) && x in w.libs && x in w.accounts
    && (forall n :: n in w.libs && n in w.accounts && n != x ==> v.libs[n] == w.libs[n] && v.accounts[n] == w.accounts[n])
    && v.accounts[x] == w.accounts[x].(opens := v.accounts[x].opens, pins := v.accounts[x].pins)
  }

  /** Changing how many references the program itself has on x. */
  lemma RecountKeeps(w: World, c: Calls, v: World, d: Calls, x: Name)
    requires Core(w, c) && ExtraOnly(w, c, d, x)
    requires Recounts(w, v, x) && Known(v, x) && Counted(v, d, x) && FlagsOk(v, d, x)
    ensures Core(v, d)
  {
    forall m | Known(w, m) ensures Known(v, m) && Holds(v, m) == Holds(w, m) {
      assert SameButCounts(w, v, m);
    }
    forall n | n in w.libs ensures NodeOk(v, d, n) {
      if n != x {
        NodeUntouched(w, c, v, d, n);
      } else {
        RecountTarget(w, c, v, d, x);
      }
    }
    CoreFromNodes(w, c, v, d);
  }

  lemma RecountTarget(w: World, c: Calls, v: World, d: Calls, x: Name)
    requires Core(w, c) && d == c.(extra := d.extra, loose := d.loose)
    requires Recounts(w, v, x) && Known(v, x) && Counted(v, d, x) && FlagsOk(v, d, x)
    requires forall m :: Known(w, m) ==> Known(v, m) && Holds(v, m) == Holds(w, m)
    ensures NodeOk(v, d, x)
  {
    assert NodeOk(w, c, x);
    UsesKept(w, c, v, d, x);
    forall m ensures Matched(v, x, m) {
      assert Matched(w, x, m);
      assert m in w.libs ==> NodeOk(w, c, m);
    }
  }

  /** Only o's references on x change. */
  ghost predicate Retargets(w: World, v: World, o: Name, x: Name) {
    && OnlyCounts(w, v) && Known(w, o) && Known(v, o) && Known(w, x) && Known(v, x) && o != x
    && (forall n :: n in w.libs && n in w.accounts && n != x ==> v.libs[n] == w.libs[n])
    && (forall n :: n in w.libs && n in w.accounts && n != x && n != o ==> v.accounts[n] == w.accounts[n])
    && v.accounts[o] == w.accounts[o].(lo := v.accounts[o].lo, hi := v.accounts[o].hi)
    && v.accounts[x] == w.accounts[x].(users := w.accounts[x].users[o := multiset(Holds(v, o))[x]])
    && (forall n :: n != x ==> multiset(Holds(v, o))[n] == multiset(Holds(w, o))[n])
  }

  lemma OthersHold(w: World, c: Calls, v: World, o: Name, x: Name)
    requires Core(w, c) && Retargets(w, v, o, x)
    ensures forall m :: Known(w, m) <==> Known(v, m)
    ensures forall m :: Known(w, m) && m != o ==> Known(v, m) && Holds(v, m) == Holds(w, m)
  {
    forall m | m in w.libs ensures Known(w, m) && Known(v, m) && (m != o ==> Holds(v, m) == Holds(w, m)) {
      assert NodeOk(w, c, m) && SameButCounts(w, v, m);
    }
  }

  lemma RetargetTarget(w: World, c: Calls, v: World, d: Calls, o: Name, x: Name)
    requires Core(w, c) && d == c.(extra := d.extra, loose := d.loose) && Retargets(w, v, o, x)
    requires Counted(v, d, x) && FlagsOk(v, d, x)
    ensures NodeOk(v, d, x)
  {
    OthersHold(w, c, v, o, x);
    assert NodeOk(w, c, x);
    UsesKept(w, c, v, d, x);
    forall m ensures Matched(v, x, m) {
      assert Matched(w, x, m);
    }
  }

  lemma RetargetOwner(w: World, c: Calls, v: World, d: Calls, o: Name, x: Name)
    requires Core(w, c) && ExtraOnly(w, c, d, x) && Retargets(w, v, o, x)
    requires FlagsOk(v, d, o)
    requires x in Holds(v, o) ==> x in Holds(w, o) || Usable(v, d, o, x)
    ensures NodeOk(v, d, o)
  {
    OthersHold(w, c, v, o, x);
    assert NodeOk(w, c, o);
    UsesKept(w, c, v, d, o);
    forall y | y in Holds(v, o) ensures Usable(v, d, o, y) {
      assert y in multiset(Holds(v, o));
      assert y != x ==> y in multiset(Holds(w, o));
    }
    forall m ensures Matched(v, o, m) {
      assert Matched(w, o, m);
    }
  }

  lemma RetargetKeeps(w: World, c: Calls, v: World, d: Calls, o: Name, x: Name)
    requires Core(w, c) && ExtraOnly(w, c, d, x)
    requires Retargets(w, v, o, x) && Counted(v, d, x) && FlagsOk(v, d, x) && FlagsOk(v, d, o)
    requires x in Holds(v, o) ==> x in Holds(w, o) || Usable(v, d, o, x)
    ensures Core(v, d)
  {
    OthersHold(w, c, v, o, x);
    forall n | n in w.libs ensures NodeOk(v, d, n) {
      if n == x {
        RetargetTarget(w, c, v, d, o, x);
      } else if n == o {
        RetargetOwner(w, c, v, d, o, x);
      } else {
        NodeUntouched(w, c, v, d, n);
      }
    }
    CoreFromNodes(w, c, v, d);
  }

  lemma AllKnown(w: World, c: Calls)
    requires Core(w, c)
    ensures forall n :: n in w.libs ==> Known(w, n)
  {
    forall n | n in w.libs ensures Known(w, n) {
      assert NodeOk(w, c, n);
    }
  }

  lemma TakeRetargets(w: World, c: Calls, o: Name, x: Name)
    requires Core(w, c) && o in c.linking && w.accounts[o].hi < |w.libs[o].needed|
             && x == w.libs[o].needed[w.accounts[o].hi]
    requires x in w.libs && Ready(w.libs[x])
    ensures Known(w, o) && Known(w, x) && o != x && Retargets(w, Take(w, o, x), o, x)
  {
    AllKnown(w, c);
    assert NodeOk(w, c, o) && Matched(w, x, o) by {
      assert NodeOk(w, c, x);
    }
    TakeShape(w, o, x);
  }

  lemma TakeShape(w: World, o: Name, x: Name)
    requires Known(w, o) && Known(w, x) && o != x && Matched(w, x, o)
    requires forall n :: n in w.libs ==> Known(w, n)
    requires w.libs.Keys == w.accounts.Keys
    requires w.accounts[o].hi < |w.libs[o].needed| && x == w.libs[o].needed[w.accounts[o].hi]
    ensures Retargets(w, Take(w, o, x), o, x)
  {
    TakeCounts(w, o, x);
    TakeHolds(w, o, x);
    TakeUsers(w, o, x);
  }

  lemma TakeUsers(w: World, o: Name, x: Name)
    requires Known(w, o) && Known(w, x) && o != x && Known(Take(w, o, x), o) && Matched(w, x, o)
    requires multiset(Holds(Take(w, o, x), o))[x] == multiset(Holds(w, o))[x] + 1
    ensures Take(w, o, x).accounts[x] == w.accounts[x].(users := w.accounts[x].users[o := multiset(Holds(Take(w, o, x),
      o))[x]])
  {
    AddOne(w.accounts[x].users, o);
  }

  lemma TakeCounts(w: World, o: Name, x: Name)
    requires Known(w, o) && Known(w, x) && o != x && w.accounts[o].hi < |w.libs[o].needed|
    requires (forall n :: n in w.libs ==> Known(w, n)) && w.libs.Keys == w.accounts.Keys
    ensures OnlyCounts(w, Take(w, o, x)) && Known(Take(w, o, x), o) && Known(Take(w, o, x), x)
  {
    forall n | n in w.libs ensures SameButCounts(w, Take(w, o, x), n) {
      assert Known(w, n);
    }
  }

  lemma TakeHolds(w: World, o: Name, x: Name)
    requires Known(w, o) && Known(w, x) && o != x && Known(Take(w, o, x), o)
    requires w.accounts[o].hi < |w.libs[o].needed| && x == w.libs[o].needed[w.accounts[o].hi]
    ensures forall n :: multiset(Holds(Take(w, o, x), o))[n] == multiset(Holds(w, o))[n] + One(n == x)
  {
    OneMore(w.libs[o].needed, w.accounts[o].lo, w.accounts[o].hi, x);
  }

  lemma AddOne(m: multiset<Name>, o: Name)
    ensures m + multiset{o} == m[o := m[o] + 1]
  {
  }

  lemma OneMore(needed: seq<Name>, lo: nat, hi: nat, x: Name)
    requires lo <= hi < |needed| && needed[hi] == x
    ensures needed[lo..hi + 1] == needed[lo..hi] + [x]
    ensures forall n :: multiset(needed[lo..hi + 1])[n] == multiset(needed[lo..hi])[n] + One(n == x)
  {
    assert needed[lo..hi + 1] == needed[lo..hi] + [x];
  }

  lemma TakeKeeps(w: World, c: Calls, o: Name, x: Name)
    requires Inv(w, c) && o in c.linking && w.accounts[o].hi < |w.libs[o].needed|
             && x == w.libs[o].needed[w.accounts[o].hi]
    requires x in w.libs && Ready(w.libs[x]) && x !in c.leaving
    ensures Known(w, o) && Known(w, x) && o != x && Inv(Take(w, o, x), Taken(c, x))
  {
    TakeRetargets(w, c, o, x);
    assert NodeOk(w, c, o) && NodeOk(w, c, x);
    RetargetKeeps(w, c, Take(w, o, x), Taken(c, x), o, x);
    CountsHistory(w, c, Take(w, o, x), Taken(c, x));
  }

  /** The caller has its reference on x now. */
  ghost function Taken(c: Calls, x: Name): Calls {
    c.(loose := c.loose - {x})
  }

  lemma PinKeeps(w: World, c: Calls, x: Name)
    requires Inv(w, c) && x in w.libs && x !in c.leaving
    ensures Known(w, x) && Inv(Pin(w, x), Taken(c, x))
  {
    AllKnown(w, c);
    assert NodeOk(w, c, x);
    RecountKeeps(w, c, Pin(w, x), Taken(c, x), x);
    CountsHistory(w, c, Pin(w, x), Taken(c, x));
  }

  lemma OpenKeeps(w: World, c: Calls, x: Name)
    requires Inv(w, c) && x in w.libs && x !in c.leaving && w.libs[x].constructed
    ensures Known(w, x) && Inv(Open(w, x), Taken(c, x))
  {
    AllKnown(w, c);
    assert NodeOk(w, c, x);
    RecountKeeps(w, c, Open(w, x), Taken(c, x), x);
    CountsHistory(w, c, Open(w, x), Taken(c, x));
  }

  /** The program gives up one of its opens of x, to soinfo_unload. */
  ghost function Unopen(w: World, x: Name): World
    requires Known(w, x) && w.accounts[x].opens > 0
  {
    w.(accounts := w.accounts[x := w.accounts[x].(opens := w.accounts[x].opens - 1)])
  }

  lemma UnopenKeeps(w: World, c: Calls, x: Name)
    requires Inv(w, c) && Known(w, x) && w.accounts[x].opens > 0 && x !in c.extra
    ensures Inv(Unopen(w, x), c.(extra := c.extra + {x}))
  {
    AllKnown(w, c);
    assert NodeOk(w, c, x);
    RecountKeeps(w, c, Unopen(w, x), c.(extra := c.extra + {x}), x);
    CountsHistory(w, c, Unopen(w, x), c.(extra := c.extra + {x}));
  }

  /** soinfo_unload of a library that others still use. */
  ghost function Drop(w: World, x: Name): World
    requires x in w.libs
  {
    w.(libs := AddCount(w, x, -1))
  }

  lemma DropKeeps(w: World, c: Calls, x: Name)
    requires Inv(w, c) && x in c.extra && x !in c.leaving && x in w.libs && w.libs[x].refcount != 1
    ensures Inv(Drop(w, x), c.(extra := c.extra - {x}))
  {
    AllKnown(w, c);
    assert NodeOk(w, c, x);
    RecountKeeps(w, c, Drop(w, x), c.(extra := c.extra - {x}), x);
    CountsHistory(w, c, Drop(w, x), c.(extra := c.extra - {x}));
  }

  /** o, on its way out, gives up its reference on the next library it needed, to soinfo_unload. */
  ghost function Release(w: World, o: Name, x: Name): World
    requires Known(w, o) && Known(w, x) && o != x
  {
    var a, b := w.accounts[o], w.accounts[x];
    w.(accounts := w.accounts[o := a.(lo := a.lo + 1)][x := b.(users := b.users - multiset{o})])
  }

  lemma OneLess(needed: seq<Name>, lo: nat, hi: nat, x: Name)
    requires lo < hi <= |needed| && needed[lo] == x
    ensures needed[lo..hi] == [x] + needed[lo + 1..hi]
    ensures forall n :: multiset(needed[lo..hi])[n] == multiset(needed[lo + 1..hi])[n] + One(n == x)
  {
    assert needed[lo..hi] == [x] + needed[lo + 1..hi];
  }

  lemma TakeAwayOne(m: multiset<Name>, o: Name)
    requires m[o] > 0
    ensures m - multiset{o} == m[o := m[o] - 1]
  {
  }

  lemma ReleaseShape(w: World, o: Name, x: Name)
    requires Known(w, o) && Known(w, x) && o != x && Matched(w, x, o)
    requires forall n :: n in w.libs ==> Known(w, n)
    requires w.libs.Keys == w.accounts.Keys
    requires w.accounts[o].lo < w.accounts[o].hi && x == w.libs[o].needed[w.accounts[o].lo]
    ensures w.accounts[x].users[o] > 0
    ensures Retargets(w, Release(w, o, x), o, x)
  {
    var v := Release(w, o, x);
    OneLess(w.libs[o].needed, w.accounts[o].lo, w.accounts[o].hi, x);
    assert Holds(w, o)[0] == x;
    TakeAwayOne(w.accounts[x].users, o);
    assert Known(v, o) && Known(v, x);
    assert Holds(v, o) == w.libs[o].needed[w.accounts[o].lo + 1..w.accounts[o].hi];
    assert OnlyCounts(w, v);
  }

  lemma ReleaseFlags(w: World, c: Calls, o: Name, x: Name)
    requires NodeOk(w, c, o) && NodeOk(w, c, x) && o in c.leaving && x !in c.extra && x !in c.leaving && o != x
    requires w.accounts[o].lo < w.accounts[o].hi && w.accounts[x].users[o] > 0
    ensures Known(Release(w, o, x), o) && Known(Release(w, o, x), x)
    ensures FlagsOk(Release(w, o, x), c.(extra := c.extra + {x}), o)
    ensures FlagsOk(Release(w, o, x), c.(extra := c.extra + {x}), x)
    ensures Counted(Release(w, o, x), c.(extra := c.extra + {x}), x)
  {
  }

  lemma ReleaseKeeps(w: World, c: Calls, o: Name, x: Name)
    requires Inv(w, c) && o in c.leaving && Known(w, o) && w.accounts[o].lo < w.accounts[o].hi
             && x == w.libs[o].needed[w.accounts[o].lo]
    requires x !in c.extra
    ensures Known(w, x) && o != x && Inv(Release(w, o, x), c.(extra := c.extra + {x}))
  {
    AllKnown(w, c);
    assert NodeOk(w, c, o);
    assert Usable(w, c, o, x) by {
      assert Holds(w, o)[0] == x;
    }
    assert NodeOk(w, c, x);
    ReleaseShape(w, o, x);
    ReleaseFlags(w, c, o, x);
    var v, d := Release(w, o, x), c.(extra := c.extra + {x});
    assert x in Holds(w, o) by {
      assert Holds(w, o)[0] == x;
    }
    RetargetKeeps(w, c, v, d, o, x);
    CountsHistory(w, c, v, d);
  }
}
