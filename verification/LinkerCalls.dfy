/** How one call of the linker may change its list: what loading, unloading, constructing, opening and
    closing keep, and how these changes add up. */
module LinkerCalls {
  import opened LinkerState
  import opened LinkerLife

  /** The size of the pool of list entries, and of the name in an entry. */
  const SO_MAX: nat := 128
  const SOINFO_NAME_LEN: nat := 128

  datatype Option<T> = None | Some(value: T)

  /** What is found under a path: the DT_NEEDED entries, and whether the dynamic section has its
      tables, whether all relocations succeed, and whether the segments can be protected again. */
  datatype Image = Image(needed: seq<string>, tables: bool, relocates: bool, protects: bool)

  type Files = string -> Option<Image>

  /** How a path names a library. */
  type Names = string -> Name

  /** By its last component. */
  function Key(path: string): Name {
    Name(Basename(path))
  }

  function Keys(key: Names, paths: seq<string>): (keys: seq<Name>)
    ensures |keys| == |paths|
  {
    seq(|paths|, i requires 0 <= i < |paths| => key(paths[i]))
  }

  // ---- How a call may change the list ------------------------------------------------------

  /** The library m is what it was; only who uses it may have changed. */
  ghost predicate Kept(w: World, v: World, m: Name) {
    && Known(w, m) && Known(v, m)
    && v.libs[m] == w.libs[m].(refcount := v.libs[m].refcount)
    && v.accounts[m] == w.accounts[m].(users := v.accounts[m].users)
  }

  /** A library that is being linked: what it needs and the program's own references stay. */
  ghost predicate Still(w: World, v: World, n: Name) {
    && Known(w, n) && Known(v, n) && v.libs[n].needed == w.libs[n].needed &&
      v.libs[n].constructed == w.libs[n].constructed
    && v.accounts[n].opens == w.accounts[n].opens && v.accounts[n].pins == w.accounts[n].pins
  }

  ghost predicate Newcomer(v: World, m: Name) {
    Known(v, m) && !v.libs[m].constructed && v.accounts[m].opens == 0 && v.accounts[m].pins == 0
  }

  /** Loading keeps every library but the ones listed, and runs nothing. */
  ghost predicate Grows(w: World, v: World, but: set<Name>) {
    && v.log == w.log
    && (forall m {:trigger Kept(w, v, m)} :: m in w.libs && m !in but ==> Kept(w, v, m))
    && (forall m {:trigger Newcomer(v, m)} :: m in v.libs && m !in w.libs && m !in but ==> Newcomer(v, m))
    && (forall m :: m in but && m in w.libs ==> m in v.libs)
  }

  lemma GrowsOn(w: World, u: World, v: World, but: set<Name>)
    requires Grows(w, u, but) && Grows(u, v, but)
    ensures Grows(w, v, but)
  {
    forall m | m in w.libs && m !in but ensures Kept(w, v, m) {
      assert Kept(w, u, m) && Kept(u, v, m);
    }
    forall m | m in v.libs && m !in w.libs && m !in but ensures Newcomer(v, m) {
      assert m in u.libs ==> Kept(u, v, m) && Newcomer(u, m);
      if m in u.libs {
        assert Newcomer(u, m) && Kept(u, v, m);
      }
    }
  }

  /** The linker's list holds the static entry first and every library once. */
  ghost predicate Listed(names: seq<Name>, libs: map<Name, Soinfo>) {
    && |names| > 0 && names[0] == LIBDL
    && (forall n :: n in names <==> n in libs)
    && (forall i, j :: 0 <= i < j < |names| ==> names[i] != names[j])
  }

  lemma ListedMore(names: seq<Name>, libs: map<Name, Soinfo>, n: Name, s: Soinfo)
    requires Listed(names, libs) && n !in libs
    ensures Listed(names + [n], libs[n := s])
  {
    var more := names + [n];
    forall i, j | 0 <= i < j < |more| ensures more[i] != more[j] {
      assert names[i] in names;
    }
  }

  lemma ListedSame(names: seq<Name>, libs: map<Name, Soinfo>, n: Name, s: Soinfo)
    requires Listed(names, libs) && n in libs
    ensures Listed(names, libs[n := s])
  {
  }

  lemma ListedLess(names: seq<Name>, libs: map<Name, Soinfo>, k: nat)
    requires Listed(names, libs) && 0 < k < |names|
    ensures Listed(names[..k] + names[k + 1..], libs - {names[k]})
  {
    var less := names[..k] + names[k + 1..];
    forall n ensures n in less <==> n in libs && n != names[k] {
      if n in libs && n != names[k] {
        var i :| 0 <= i < |names| && names[i] == n;
        assert less[if i < k then i else i - 1] == n;
      }
    }
  }

  lemma GrowsAround(w: World, v: World, n: Name)
    requires Grows(w, v, {}) && Known(w, n)
    ensures Grows(w, v, {n}) && Still(w, v, n) && v.accounts[n].hi == w.accounts[n].hi
  {
    assert Kept(w, v, n);
    forall m | m in w.libs && m != n ensures Kept(w, v, m) {
    }
    forall m | m in v.libs && m !in w.libs && m != n ensures Newcomer(v, m) {
    }
  }

  lemma GrowsNot(w: World, c: Calls, but: set<Name>)
    requires Inv(w, c)
    ensures Grows(w, w, but)
  {
    forall m | m in w.libs ensures Kept(w, w, m) {
      assert NodeOk(w, c, m);
    }
  }

  lemma AppearGrows(w: World, c: Calls, n: Name, needed: seq<Name>)
    requires Inv(w, c) && n !in w.libs
    ensures Grows(w, Appear(w, n, needed), {n})
  {
    forall m | m in w.libs ensures Kept(w, Appear(w, n, needed), m) {
      assert NodeOk(w, c, m);
    }
  }

  lemma TakeGrows(w: World, c: Calls, o: Name, x: Name)
    requires Inv(w, c) && Known(w, o) && Known(w, x) && o != x && Known(Take(w, o, x), o)
    ensures Grows(w, Take(w, o, x), {o}) && Still(w, Take(w, o, x), o)
  {
    forall m | m in w.libs && m != o ensures Kept(w, Take(w, o, x), m) {
      assert NodeOk(w, c, m);
    }
  }

  lemma StatusGrows(w: World, c: Calls, v: World, n: Name)
    requires Inv(w, c) && StatusOnly(w, v, n) && v.log == w.log && v.libs[n].constructed == w.libs[n].constructed
    ensures Grows(w, v, {n}) && Still(w, v, n)
  {
    StatusKnown(w, v, n);
    forall m | m in w.libs && m != n ensures Kept(w, v, m) {
      assert NodeOk(w, c, m);
    }
  }

  /** Libraries are being linked, and the caller is about to take a reference on the loose one. */
  ghost function Loading(linking: set<Name>, loose: set<Name>): Calls {
    Calls(linking, {}, {}, {}, loose)
  }

  lemma InList(w: World, c: Calls, n: Name)
    requires Inv(w, c) && n in w.libs
    ensures NodeOk(w, c, n)
    ensures n in c.linking ==> MayFail(w, c, n)
  {
    assert NodeOk(w, c, n);
  }

  /** What holds when a library that is not linked yet has taken all its references. */
  lemma Completed(w: World, linking: set<Name>, n: Name)
    requires Inv(w, Loading(linking, {})) && n in linking && Known(w, n) && w.accounts[n].hi == |w.libs[n].needed|
    ensures Inv(Complete(w, n), Loading(linking - {n}, {n})) && Ready(Complete(w, n).libs[n])
    ensures MayFail(Complete(w, n), Loading(linking - {n}, {n}), n)
    ensures Grows(w, Complete(w, n), {n}) && Still(w, Complete(w, n), n)
  {
    var c := Loading(linking, {});
    Completes(w, c, n);
    assert {} + {n} == {n};
    assert NodeOk(w, c, n);
    UnusedUnready(w, c, n);
    StatusGrows(w, c, Complete(w, n), n);
  }

  lemma Taking(w: World, linking: set<Name>, o: Name, x: Name) returns (v: World)
    requires Inv(w, Loading(linking, {x})) && o in linking && Known(w, o) && w.accounts[o].hi < |w.libs[o].needed|
             && x == w.libs[o].needed[w.accounts[o].hi]
    requires x in w.libs && Ready(w.libs[x])
    ensures v.libs == w.libs[x := w.libs[x].(refcount := w.libs[x].refcount + 1)]
    ensures Inv(v, Loading(linking, {})) && Grows(w, v, {o}) && Still(w, v, o)
    ensures v.accounts[o].hi == w.accounts[o].hi + 1
  {
    TakeKeeps(w, Loading(linking, {x}), o, x);
    assert {x} - {x} == {};
    InList(w, Loading(linking, {x}), o);
    TakeGrows(w, Loading(linking, {x}), o, x);
    v := Take(w, o, x);
  }

  /** The library n, which has just come, is all that the call added. */
  lemma LoadGrows(w: World, u: World, v: World, n: Name)
    requires n !in w.libs && Grows(w, u, {n}) && Grows(u, v, {n}) && Newcomer(u, n) && Still(u, v, n)
    ensures Grows(w, v, {})
  {
    GrowsOn(w, u, v, {n});
    forall m | m in v.libs && m !in w.libs ensures Newcomer(v, m) {
    }
  }

  // ---- Unloading ---------------------------------------------------------------------------

  /** Libraries are on their way out, and the callers are about to give up the extra references. */
  ghost function Unloading(leaving: set<Name>, extra: set<Name>): Calls {
    Calls({}, leaving, extra, {}, {})
  }

  /** Unloading takes away only libraries that the program itself does not hold; the others, but the
      one listed, are kept, and so is what has happened so far. */
  ghost predicate Shrinks(w: World, v: World, but: set<Name>) {
    && w.log <= v.log && v.deps == w.deps
    && (forall m {:trigger Kept(w, v, m)} :: m in v.libs && m !in but ==> Kept(w, v, m))
    && (forall m {:trigger Expendable(w, m)} :: m in w.libs && m !in v.libs ==> Expendable(w, m))
    && v.libs.Keys <= w.libs.Keys
  }

  ghost predicate Expendable(w: World, m: Name) {
    Known(w, m) && w.accounts[m].opens == 0 && w.accounts[m].pins == 0 && Ready(w.libs[m]) && m != LIBDL
  }

  lemma ShrinksOn(w: World, u: World, v: World, but: set<Name>)
    requires Shrinks(w, u, but) && Shrinks(u, v, but) && but <= v.libs.Keys
    ensures Shrinks(w, v, but)
  {
    forall m | m in v.libs && m !in but ensures Kept(w, v, m) {
      assert Kept(w, u, m) && Kept(u, v, m);
    }
    forall m | m in w.libs && m !in v.libs ensures Expendable(w, m) {
      assert Expendable(w, m) || (Expendable(u, m) && Kept(w, u, m));
    }
  }

  lemma ShrinksNot(w: World, c: Calls)
    requires Inv(w, c)
    ensures Shrinks(w, w, {})
  {
    forall m | m in w.libs ensures Kept(w, w, m) {
      assert NodeOk(w, c, m);
    }
  }

  /** A library that is on its way out, with the references up to `lo` given up. */
  ghost predicate Fading(w: World, v: World, x: Name, lo: nat) {
    && Known(w, x) && Known(v, x)
    && v.libs[x] == w.libs[x].(refcount := v.libs[x].refcount)
    && v.accounts[x] == w.accounts[x].(lo := lo, users := v.accounts[x].users)
  }

  lemma FadingOn(w: World, u: World, v: World, x: Name, lo: nat, more: nat)
    requires Fading(w, u, x, lo) && Fading(u, v, x, more)
    ensures Fading(w, v, x, more)
  {
  }

  /** The program itself has no reference on n. */
  ghost predicate Unheld(w: World, n: Name) {
    Known(w, n) && w.accounts[n].opens == 0 && w.accounts[n].pins == 0
  }

  /** The only reference that libdl has left is the one being given up. */
  ghost predicate Exhausted(w: World) {
    Unheld(w, LIBDL) && w.libs[LIBDL].refcount == 1 && |w.accounts[LIBDL].users| == 0
  }

  lemma UnheldBefore(w: World, u: World, x: Name, lo: nat)
    requires Shrinks(w, u, {x}) && Fading(w, u, x, lo) && Unheld(u, LIBDL)
    ensures Unheld(w, LIBDL)
  {
    assert LIBDL != x ==> Kept(w, u, LIBDL);
  }

  lemma ShrinksThrough(w: World, u: World, v: World, x: Name, lo: nat)
    requires Shrinks(w, u, {x}) && Fading(w, u, x, lo) && Shrinks(u, v, {}) && x in v.libs
    ensures Shrinks(w, v, {x}) && Fading(w, v, x, lo)
  {
    assert Kept(u, v, x);
    forall m | m in v.libs && m != x ensures Kept(w, v, m) {
      assert Kept(w, u, m) && Kept(u, v, m);
    }
    forall m | m in w.libs && m !in v.libs ensures Expendable(w, m) {
      assert Expendable(w, m) || (Expendable(u, m) && Kept(w, u, m));
    }
  }

  /** x has faded, and is now gone. */
  lemma Freed(w: World, u: World, v: World, x: Name)
    requires Shrinks(w, u, {x}) && Shrinks(u, v, {}) && x !in v.libs && Expendable(w, x)
    ensures Shrinks(w, v, {})
  {
    forall m | m in v.libs ensures Kept(w, v, m) {
      assert Kept(w, u, m) && Kept(u, v, m);
    }
    forall m | m in w.libs && m !in v.libs ensures Expendable(w, m) {
      assert Expendable(w, m) || (Expendable(u, m) && Kept(w, u, m));
    }
  }

  lemma LeavingNow(w: World, leaving: set<Name>, x: Name) returns (v: World)
    requires Inv(w, Unloading(leaving, leaving + {x})) && MayLeave(w, Unloading(leaving, leaving + {x}), x)
    ensures v.libs == w.libs && Inv(v, Unloading(leaving + {x}, leaving + {x}))
    ensures Shrinks(w, v, {x}) && Fading(w, v, x, 0) && v.accounts[x].hi == |w.libs[x].needed|
  {
    var c := Unloading(leaving, leaving + {x});
    Leaves(w, c, x);
    v := Leave(w, x);
    assert NodeOk(w, c, x);
    forall m | m in w.libs ensures Kept(w, v, m) {
      assert NodeOk(w, c, m);
    }
  }

  lemma Releasing(w: World, leaving: set<Name>, x: Name, y: Name) returns (v: World)
    requires Inv(w, Unloading(leaving, leaving)) && x in leaving && Known(w, x)
    requires w.accounts[x].lo < w.accounts[x].hi && y == w.libs[x].needed[w.accounts[x].lo]
    ensures v.libs == w.libs && Inv(v, Unloading(leaving, leaving + {y}))
    ensures Shrinks(w, v, {x}) && Fading(w, v, x, w.accounts[x].lo + 1)
    ensures Known(v, y) && y !in leaving && v.libs[y].constructed && v.accounts[y].rank < w.accounts[x].rank
  {
    var c := Unloading(leaving, leaving);
    assert NodeOk(w, c, x) && Holds(w, x)[0] == y && Usable(w, c, x, y);
    ReleaseKeeps(w, c, x, y);
    v := Release(w, x, y);
    forall m | m in w.libs && m != x ensures Kept(w, v, m) {
      assert NodeOk(w, c, m);
    }
  }

  lemma Freeing(w: World, leaving: set<Name>, x: Name) returns (v: World)
    requires Inv(w, Unloading(leaving + {x}, leaving + {x})) && x !in leaving && Known(w, x)
             && w.accounts[x].lo == w.accounts[x].hi
    ensures v.libs == w.libs - {x} && Inv(v, Unloading(leaving, leaving))
    ensures Shrinks(w, v, {}) && x != LIBDL
  {
    var c := Unloading(leaving + {x}, leaving + {x});
    Goes(w, c, x);
    v := Gone(w, x);
    assert leaving + {x} - {x} == leaving;
    assert NodeOk(w, c, x);
    forall m | m in v.libs ensures Kept(w, v, m) {
      assert NodeOk(w, c, m);
    }
  }

  lemma Dropping(w: World, leaving: set<Name>, x: Name) returns (v: World)
    requires Inv(w, Unloading(leaving, leaving + {x})) && x in w.libs && x !in leaving && w.libs[x].refcount != 1
    ensures v.libs == w.libs[x := w.libs[x].(refcount := w.libs[x].refcount - 1)] && Inv(v, Unloading(leaving, leaving))
    ensures Shrinks(w, v, {})
  {
    var c := Unloading(leaving, leaving + {x});
    DropKeeps(w, c, x);
    assert leaving + {x} - {x} == leaving;
    v := Drop(w, x);
    forall m | m in w.libs ensures Kept(w, v, m) {
      assert NodeOk(w, c, m);
    }
  }

  // ---- Constructing ------------------------------------------------------------------------

  ghost function Constructing(starting: set<Name>, loose: set<Name>): Calls {
    Calls({}, {}, {}, starting, loose)
  }

  /** Constructors only set flags and run constructors. */
  ghost predicate Builds(w: World, v: World) {
    && v.accounts == w.accounts && v.deps == w.deps && w.log <= v.log && v.libs.Keys == w.libs.Keys
    && (forall m {:trigger Flagged(w, v, m)} :: m in w.libs ==> Flagged(w, v, m))
  }

  ghost predicate Flagged(w: World, v: World, m: Name) {
    && m in w.libs && m in v.libs
    && v.libs[m] == w.libs[m].(constructed := v.libs[m].constructed)
    && (w.libs[m].constructed ==> v.libs[m].constructed)
  }

  lemma BuildsOn(w: World, u: World, v: World)
    requires Builds(w, u) && Builds(u, v)
    ensures Builds(w, v)
  {
    forall m | m in w.libs ensures Flagged(w, v, m) {
      assert Flagged(w, u, m) && Flagged(u, v, m);
    }
  }

  lemma BuildsNot(w: World)
    ensures Builds(w, w)
  {
    forall m | m in w.libs ensures Flagged(w, w, m) {
    }
  }

  lemma Beginning(w: World, starting: set<Name>, loose: set<Name>, x: Name) returns (v: World)
    requires Inv(w, Constructing(starting, loose)) && Known(w, x) && Ready(w.libs[x]) && !w.libs[x].constructed
    ensures v.libs == w.libs[x := w.libs[x].(constructed := true)] && Inv(v, Constructing(starting + {x}, loose))
            && Builds(w, v) && v == Begin(w, x)
  {
    Begins(w, Constructing(starting, loose), x);
    v := Begin(w, x);
    forall m | m in w.libs ensures Flagged(w, v, m) {
    }
  }

  /** The libraries needed by x, up to the k-th, have been constructed. */
  ghost predicate StartedUpTo(w: World, starting: set<Name>, x: Name, k: int) {
    Known(w, x) && forall i :: 0 <= i < k && i < |w.libs[x].needed| ==> Constructed(w, starting, w.libs[x].needed[i])
  }

  ghost predicate Constructed(w: World, starting: set<Name>, y: Name) {
    y in w.libs && w.libs[y].constructed && y !in starting
  }

  lemma StartedOn(w: World, v: World, starting: set<Name>, x: Name, k: int)
    requires StartedUpTo(w, starting, x, k) && Builds(w, v)
    ensures StartedUpTo(v, starting, x, k)
  {
    assert Flagged(w, v, x);
    forall i | 0 <= i < k && i < |w.libs[x].needed| ensures Constructed(v, starting, w.libs[x].needed[i]) {
      assert Constructed(w, starting, w.libs[x].needed[i]) && Flagged(w, v, w.libs[x].needed[i]);
    }
  }

  lemma Completing(w: World, starting: set<Name>, loose: set<Name>, x: Name) returns (v: World)
    requires Inv(w, Constructing(starting + {x}, loose)) && Known(w, x) && x !in starting
    requires w.libs[x].constructed && StartedUpTo(w, starting + {x}, x, |w.libs[x].needed|)
    ensures v.libs == w.libs && Inv(v, Constructing(starting, loose)) && Builds(w, v)
    ensures x in w.accounts && v == Construct(w, x)
  {
    var c := Constructing(starting + {x}, loose);
    assert NodeOk(w, c, x);
    forall y | y in Holds(w, x) ensures Known(w, y) && w.libs[y].constructed && y !in c.starting {
      assert Usable(w, c, x, y);
      var i :| 0 <= i < |w.libs[x].needed| && w.libs[x].needed[i] == y;
      assert Constructed(w, starting + {x}, w.libs[x].needed[i]);
    }
    Constructs(w, c, x);
    assert starting + {x} - {x} == starting;
    v := Construct(w, x);
    forall m | m in w.libs ensures Flagged(w, v, m) {
    }
  }

  /** A library that is still to be constructed stands below all that are being constructed. */
  ghost predicate BelowAll(w: World, starting: set<Name>, x: Name) {
    Known(w, x) && forall s :: s in starting ==> Known(w, s) && w.accounts[x].rank < w.accounts[s].rank
  }

  lemma NextBelow(w: World, starting: set<Name>, loose: set<Name>, x: Name, i: nat)
    requires Inv(w, Constructing(starting + {x}, loose)) && BelowAll(w, starting, x) && Known(w, x)
             && Ready(w.libs[x]) && i < |w.libs[x].needed|
    ensures BelowAll(w, starting + {x}, w.libs[x].needed[i]) && Ready(w.libs[w.libs[x].needed[i]])
    ensures w.accounts[w.libs[x].needed[i]].rank < w.accounts[x].rank
  {
    var c := Constructing(starting + {x}, loose);
    assert NodeOk(w, c, x) && Holds(w, x)[i] == w.libs[x].needed[i] && Usable(w, c, x, w.libs[x].needed[i]);
  }

  lemma BelowOn(w: World, v: World, starting: set<Name>, x: Name)
    requires BelowAll(w, starting, x) && Builds(w, v)
    ensures BelowAll(v, starting, x)
  {
    forall s | s in starting ensures Known(v, s) && v.accounts[x].rank < v.accounts[s].rank {
      assert Flagged(w, v, s);
    }
    assert Flagged(w, v, x);
  }

  // ---- What constructors run, and in which order -------------------------------------------

  /** Calling the constructors of x does nothing a second time; otherwise those of the libraries that x
      needs are called, in the order of its list, and then its own. n bounds the depth. */
  ghost predicate Runs(w: World, v: World, x: Name, n: nat)
    decreases n, 0
  {
    Known(w, x) && if w.libs[x].constructed then v == w else n > 0 && RunsAnew(w, v, x, n - 1)
  }

  ghost predicate RunsAnew(w: World, v: World, x: Name, n: nat)
    requires Known(w, x)
    decreases n, |w.libs[x].needed| + 2
  {
    exists u :: RunsVia(w, u, v, x, n)
  }

  ghost predicate RunsVia(w: World, u: World, v: World, x: Name, n: nat)
    requires Known(w, x)
    decreases n, |w.libs[x].needed| + 1
  {
    RunInTurn(Begin(w, x), u, w.libs[x].needed, n) && x in u.accounts && v == Construct(u, x)
  }

  /** The constructors of these libraries are called one after the other. */
  ghost predicate RunInTurn(w: World, v: World, xs: seq<Name>, n: nat)
    decreases n, |xs|
  {
    if xs == [] then v == w
    else exists u {:trigger Runs(u, v, xs[|xs| - 1], n)} ::
      RunInTurn(w, u, xs[..|xs| - 1], n) && Runs(u, v, xs[|xs| - 1], n)
  }

  lemma {:induction false} RunsDeeper(w: World, v: World, x: Name, m: nat, n: nat)
    requires Runs(w, v, x, m) && m <= n
    ensures Runs(w, v, x, n)
    decreases m, 0
  {
    if !w.libs[x].constructed {
      var u :| RunsVia(w, u, v, x, m - 1);
      TurnsDeeper(Begin(w, x), u, w.libs[x].needed, m - 1, n - 1);
      assert RunsVia(w, u, v, x, n - 1);
    }
  }

  lemma {:induction false} TurnsDeeper(w: World, v: World, xs: seq<Name>, m: nat, n: nat)
    requires RunInTurn(w, v, xs, m) && m <= n
    ensures RunInTurn(w, v, xs, n)
    decreases m, |xs|
  {
    if xs != [] {
      var u :| RunInTurn(w, u, xs[..|xs| - 1], m) && Runs(u, v, xs[|xs| - 1], m);
      TurnsDeeper(w, u, xs[..|xs| - 1], m, n);
      RunsDeeper(u, v, xs[|xs| - 1], m, n);
    }
  }

  lemma NoTurns(w: World, xs: seq<Name>, n: nat)
    ensures RunInTurn(w, w, xs[..0], n) && RunAll(w, w, xs[..0])
  {
    assert RunInTurn(w, w, xs[..0], n);
  }

  lemma NextTurn(w: World, u: World, v: World, xs: seq<Name>, k: nat, n: nat)
    requires k < |xs| && RunInTurn(w, u, xs[..k], n) && Runs(u, v, xs[k], n)
    ensures RunInTurn(w, v, xs[..k + 1], n)
  {
    var more := xs[..k + 1];
    assert more[..|more| - 1] == xs[..k] && Runs(u, v, more[|more| - 1], n);
  }

  lemma AllTurns(w: World, v: World, xs: seq<Name>, n: nat)
    requires RunInTurn(w, v, xs[..|xs|], n)
    ensures RunInTurn(w, v, xs, n)
  {
    assert xs[..|xs|] == xs;
  }

  ghost predicate RunAll(w: World, v: World, xs: seq<Name>) {
    exists n: nat :: RunInTurn(w, v, xs, n)
  }

  lemma RunAllNext(w: World, u: World, v: World, xs: seq<Name>, k: nat, n: nat)
    requires k < |xs| && RunAll(w, u, xs[..k]) && Runs(u, v, xs[k], n)
    ensures RunAll(w, v, xs[..k + 1])
  {
    var m: nat :| RunInTurn(w, u, xs[..k], m);
    var most := if m < n then n else m;
    TurnsDeeper(w, u, xs[..k], m, most);
    RunsDeeper(u, v, xs[k], n, most);
    NextTurn(w, u, v, xs, k, most);
  }

  lemma ProgramLast(w: World, u: World, v: World, xs: seq<Name>, x: Name, n: nat)
    requires RunAll(w, u, xs[..|xs|]) && Runs(u, v, x, n)
    ensures RunAll(w, v, xs + [x])
  {
    var all := xs + [x];
    assert all[..|xs|] == xs[..|xs|] && all[..|xs| + 1] == all;
    RunAllNext(w, u, v, all, |xs|, n);
  }

  /** From w libraries were linked, and then the constructors of x were called: that is all that has run. */
  ghost predicate LinkedAndRun(w: World, v: World, x: Name) {
    exists u: World, t: World, n: nat :: Grows(w, u, {}) && Runs(u, t, x, n) && t.log == v.log
  }

  // ---- Opening and closing -----------------------------------------------------------------

  function Opens(w: World, n: Name): nat {
    if n in w.accounts then w.accounts[n].opens else 0
  }

  function Pins(w: World, n: Name): nat {
    if n in w.accounts then w.accounts[n].pins else 0
  }

  /** A library that an open does not touch, but to count, construct or use it. */
  ghost predicate Remains(w: World, v: World, m: Name) {
    && Known(w, m) && Known(v, m)
    && v.libs[m] == w.libs[m].(refcount := v.libs[m].refcount, constructed := v.libs[m].constructed)
    && (w.libs[m].constructed ==> v.libs[m].constructed)
    && v.accounts[m] == w.accounts[m].(users := v.accounts[m].users, opens := v.accounts[m].opens)
  }

  /** A dlopen that opens h, if it succeeds: no library goes, and only h is open once more. */
  ghost predicate OpensOnly(w: World, v: World, h: Option<Name>) {
    && w.log <= v.log
    && (forall m {:trigger Remains(w, v, m)} :: m in w.libs ==> Remains(w, v, m))
    && (forall n :: Opens(v, n) == Opens(w, n) + One(h == Some(n)))
    && (forall n :: Pins(v, n) == Pins(w, n))
  }

  lemma GrownAndBuilt(w: World, c: Calls, u: World, t: World)
    requires Grows(w, u, {}) && Builds(u, t) && w.libs.Keys == w.accounts.Keys && u.libs.Keys == u.accounts.Keys
    ensures OpensOnly(w, t, None)
  {
    forall m | m in w.libs ensures Remains(w, t, m) {
      assert Kept(w, u, m) && Flagged(u, t, m);
    }
    forall n ensures Opens(t, n) == Opens(w, n) && Pins(t, n) == Pins(w, n) {
      if n in w.libs {
        assert Kept(w, u, n);
      } else if n in u.libs {
        assert Newcomer(u, n);
      }
    }
  }

  lemma Opening(w: World, h: Name) returns (v: World)
    requires Inv(w, Constructing({}, {h})) && Constructed(w, {}, h)
    ensures v.libs == w.libs[h := w.libs[h].(refcount := w.libs[h].refcount + 1)]
    ensures Inv(v, IDLE) && OpensOnly(w, v, Some(h)) && v.log == w.log
  {
    AllKnown(w, Constructing({}, {h}));
    OpenKeeps(w, Constructing({}, {h}), h);
    assert {h} - {h} == {};
    v := Open(w, h);
    OpensOne(w, h);
  }

  lemma OpensOne(w: World, h: Name)
    requires Known(w, h) && forall m :: m in w.libs ==> Known(w, m)
    ensures OpensOnly(w, Open(w, h), Some(h))
  {
    forall m | m in w.libs ensures Remains(w, Open(w, h), m) {
      assert Known(w, m);
    }
  }

  lemma OpensOn(w: World, u: World, v: World, h: Option<Name>)
    requires OpensOnly(w, u, None) && OpensOnly(u, v, h)
    ensures OpensOnly(w, v, h)
  {
    forall m | m in w.libs ensures Remains(w, v, m) {
      assert Remains(w, u, m) && Remains(u, v, m);
    }
  }

  /** The main program: constructed, and never without the reference it has from the start. */
  ghost predicate MainOk(w: World, somain: Option<Name>) {
    somain.Some? && Known(w, somain.value) && Ready(w.libs[somain.value]) && w.libs[somain.value].constructed &&
      w.accounts[somain.value].pins > 0
  }

  lemma Unopening(w: World, h: Name) returns (v: World)
    requires Inv(w, IDLE) && Opens(w, h) > 0
    ensures v.libs == w.libs && Inv(v, Unloading({}, {} + {h})) && Known(v, h) && v.libs[h].constructed
    ensures forall n :: Opens(v, n) == Opens(w, n) - One(n == h) && Pins(v, n) == Pins(w, n)
    ensures w.log == v.log
    ensures forall m :: m in w.libs ==> Remains(w, v, m)
  {
    assert NodeOk(w, IDLE, h);
    UnopenKeeps(w, IDLE, h);
    v := Unopen(w, h);
    forall m | m in w.libs ensures Remains(w, v, m) {
      assert NodeOk(w, IDLE, m);
    }
  }

  /** What dlclose(h) does when it returns: only h is open once less, and nothing that failed to load goes. */
  ghost predicate ClosesOnly(w: World, v: World, h: Name) {
    && v.libs.Keys <= w.libs.Keys
    && (forall n :: Opens(v, n) == Opens(w, n) - One(n == h) && Pins(v, n) == Pins(w, n))
    && (forall m :: m in v.libs ==> Remains(w, v, m))
    && (forall m :: m in w.libs && (w.libs[m].failed || m == LIBDL) ==> m in v.libs)
  }

  lemma MainStays(w: World, v: World, h: Option<Name>, somain: Option<Name>)
    requires MainOk(w, somain) && OpensOnly(w, v, h)
    ensures MainOk(v, somain)
  {
    assert Remains(w, v, somain.value);
  }

  lemma CloseRemains(w: World, u: World, v: World, h: Name, somain: Option<Name>)
    requires MainOk(w, somain) && v.libs.Keys <= u.libs.Keys == w.libs.Keys
    requires forall m :: m in w.libs ==> Remains(w, u, m)
    requires forall m :: m in v.libs ==> Remains(u, v, m)
    requires forall n :: Opens(v, n) == Opens(u, n) && Pins(v, n) == Pins(u, n)
    requires forall n :: Opens(u, n) == Opens(w, n) - One(n == h) && Pins(u, n) == Pins(w, n)
    requires forall m :: m in u.libs && (u.libs[m].failed || m == LIBDL) ==> m in v.libs
    requires v.libs.Keys == v.accounts.Keys
    ensures MainOk(v, somain) && ClosesOnly(w, v, h)
  {
    assert Remains(w, u, somain.value) && Pins(v, somain.value) > 0;
    assert Remains(u, v, somain.value);
    forall m | m in w.libs && (w.libs[m].failed || m == LIBDL) ensures m in v.libs {
      assert Remains(w, u, m);
    }
    forall m | m in v.libs ensures Remains(w, v, m) {
      assert Remains(u, v, m) && Remains(w, u, m);
    }
  }

  lemma Closed(w: World, v: World)
    requires Shrinks(w, v, {}) && w.libs.Keys == w.accounts.Keys && v.libs.Keys == v.accounts.Keys
    ensures forall n :: Opens(v, n) == Opens(w, n) && Pins(v, n) == Pins(w, n)
    ensures forall m :: m in v.libs ==> Remains(w, v, m)
    ensures forall m :: m in w.libs && (Opens(w, m) > 0 || Pins(w, m) > 0 || !Ready(w.libs[m]) || m == LIBDL) ==>
      m in v.libs
  {
    forall n ensures Opens(v, n) == Opens(w, n) && Pins(v, n) == Pins(w, n) && (n in v.libs ==> Remains(w, v, n)) {
      if n in v.libs {
        assert Kept(w, v, n);
      } else if n in w.libs {
        assert Expendable(w, n);
      }
    }
    forall m | m in w.libs && m !in v.libs ensures Expendable(w, m) {
    }
  }

  // ---- Starting a program ------------------------------------------------------------------

  /** The list as it is compiled in: the linker's own entry, linked, without dependencies. */
  ghost function InitialWorld(): World {
    World(map[LIBDL := Soinfo([], true, false, 0, false)], map[LIBDL := Account(0, 0, 0, 0, 0, multiset{})],
      map[0 := {}], [], 1)
  }

  lemma InitialOk()
    ensures Inv(InitialWorld(), IDLE)
  {
    var w := InitialWorld();
    assert Known(w, LIBDL) && Holds(w, LIBDL) == [];
    assert NodeOk(w, IDLE, LIBDL);
    assert LoggedOk(w, IDLE, LIBDL);
    assert LivesOrDied(w, 0);
    forall m, n ensures Distinct(w, m, n) {
    }
  }

  lemma Pinning(w: World, linking: set<Name>, loose: set<Name>, x: Name) returns (v: World)
    requires Inv(w, Loading(linking, loose)) && x in w.libs && loose <= {x}
    ensures v.libs == w.libs[x := w.libs[x].(refcount := w.libs[x].refcount + 1)] && Known(w, x)
    ensures v.accounts == w.accounts[x := w.accounts[x].(pins := w.accounts[x].pins + 1)] && v.log == w.log
    ensures Inv(v, Loading(linking, {}))
  {
    PinKeeps(w, Loading(linking, loose), x);
    assert loose - {x} == {};
    v := Pin(w, x);
  }

  /** The program itself holds a reference on x. */
  lemma Tightened(w: World, x: Name)
    requires Inv(w, Constructing({}, {x})) && Pins(w, x) > 0
    ensures Inv(w, IDLE)
  {
    forall m | m in w.libs ensures NodeOk(w, IDLE, m) {
      assert NodeOk(w, Constructing({}, {x}), m);
      forall y | y in Holds(w, m) ensures Usable(w, IDLE, m, y) {
        assert Usable(w, Constructing({}, {x}), m, y);
      }
    }
    forall n | Known(w, n) ensures LoggedOk(w, IDLE, n) {
      assert LoggedOk(w, Constructing({}, {x}), n);
    }
  }

  /** The main program before it is linked. */
  ghost predicate Booting(w: World, exe: Name, needed: seq<Name>) {
    Known(w, exe) && w.accounts[exe].hi == 0 && w.accounts[exe].pins > 0 && !w.libs[exe].constructed &&
      w.libs[exe].needed == needed && !w.libs[exe].linked
  }

  function Times(keys: seq<Name>, k: nat, n: Name): nat
    requires k <= |keys|
  {
    if k == 0 then 0 else Times(keys, k - 1, n) + One(keys[k - 1] == n)
  }

  /** Since w the program has taken its own reference and one for each of the first k preloads, and
      nothing has run. */
  ghost predicate Preloaded(w: World, v: World, exe: Name, keys: seq<Name>, k: nat)
    requires k <= |keys|
  {
    && v.log == w.log
    && (forall n :: Pins(v, n) == Pins(w, n) + One(n == exe) + Times(keys, k, n))
    && (forall n :: Opens(v, n) == Opens(w, n))
  }

  lemma PreloadedOn(w: World, u: World, v: World, exe: Name, keys: seq<Name>, k: nat, but: set<Name>)
    requires k <= |keys| && Preloaded(w, u, exe, keys, k) && Grows(u, v, but)
    requires u.libs.Keys == u.accounts.Keys && v.libs.Keys == v.accounts.Keys
    requires forall m :: m in but ==> Still(u, v, m)
    ensures Preloaded(w, v, exe, keys, k)
  {
    forall n ensures Pins(v, n) == Pins(u, n) && Opens(v, n) == Opens(u, n) {
      if n in but {
        assert Still(u, v, n);
      } else if n in u.libs {
        assert Kept(u, v, n);
      } else if n in v.libs {
        assert Newcomer(v, n);
      }
    }
  }

  lemma PreloadedOneMore(w: World, u: World, v: World, exe: Name, keys: seq<Name>, k: nat)
    requires k < |keys| && Preloaded(w, u, exe, keys, k) && Known(u, keys[k])
    requires v.accounts == u.accounts[keys[k] := u.accounts[keys[k]].(pins := u.accounts[keys[k]].pins + 1)] &&
      v.log == u.log
    ensures Preloaded(w, v, exe, keys, k + 1)
  {
  }

  ghost predicate AllReady(w: World, keys: seq<Name>, k: nat) {
    forall i :: 0 <= i < k && i < |keys| ==> IsReady(w, keys[i])
  }

  /** The first k of these have been constructed. */
  ghost predicate AllBuilt(w: World, keys: seq<Name>, k: nat) {
    forall i {:trigger IsBuilt(w, keys[i])} :: 0 <= i < k && i < |keys| ==> IsBuilt(w, keys[i])
  }

  ghost predicate IsBuilt(w: World, n: Name) {
    n in w.libs && w.libs[n].constructed
  }

  lemma BuiltOn(w: World, v: World, keys: seq<Name>, k: nat)
    requires AllBuilt(w, keys, k) && Builds(w, v)
    ensures AllBuilt(v, keys, k)
  {
    forall i | 0 <= i < k && i < |keys| ensures IsBuilt(v, keys[i]) {
      assert IsBuilt(w, keys[i]) && Flagged(w, v, keys[i]);
    }
  }

  /** What decides whether the main program, with its preloads, can be started. */
  ghost predicate Startable(w: World, exe: Name, image: Image, keys: seq<Name>) {
    exe in w.libs && image.tables && AllReady(w, keys, |keys|) && image.relocates && image.protects && NeedsReady(w, exe)
  }

  ghost predicate IsReady(w: World, n: Name) {
    n in w.libs && Ready(w.libs[n])
  }

  lemma ReadyGrown(w: World, v: World, keys: seq<Name>, k: nat, exe: Name)
    requires AllReady(w, keys, k) && exe in w.libs && !w.libs[exe].linked && Grows(w, v, {exe})
    ensures AllReady(v, keys, k)
  {
    forall i | 0 <= i < k && i < |keys| ensures IsReady(v, keys[i]) {
      assert IsReady(w, keys[i]) && Kept(w, v, keys[i]);
    }
  }

  lemma ReadyBuilt(w: World, v: World, keys: seq<Name>, k: nat)
    requires AllReady(w, keys, k) && Builds(w, v)
    ensures AllReady(v, keys, k)
  {
    forall i | 0 <= i < k && i < |keys| ensures IsReady(v, keys[i]) {
      assert IsReady(w, keys[i]) && Flagged(w, v, keys[i]);
    }
  }

  lemma BootingOn(w: World, v: World, exe: Name, keys: seq<Name>, i: nat)
    requires exe in w.libs && Booting(w, exe, w.libs[exe].needed) && AllReady(w, keys, i) && Grows(w, v, {})
    ensures Booting(v, exe, w.libs[exe].needed) && AllReady(v, keys, i)
  {
    assert Kept(w, v, exe);
    forall k | 0 <= k < i && k < |keys| ensures IsReady(v, keys[k]) {
      assert IsReady(w, keys[k]) && Kept(w, v, keys[k]);
    }
  }

  lemma PinnedOn(w: World, v: World, x: Name, exe: Name, keys: seq<Name>, i: nat)
    requires i < |keys| && keys[i] == x && exe in w.libs && Booting(w, exe, w.libs[exe].needed)
             && AllReady(w, keys, i) && IsReady(w, x) && Known(w, x)
    requires v.libs == w.libs[x := w.libs[x].(refcount := w.libs[x].refcount + 1)]
    requires v.accounts == w.accounts[x := w.accounts[x].(pins := w.accounts[x].pins + 1)]
    ensures Booting(v, exe, w.libs[exe].needed) && AllReady(v, keys, i + 1)
  {
    forall k | 0 <= k < i + 1 && k < |keys| ensures IsReady(v, keys[k]) {
      assert IsReady(w, keys[k]);
    }
  }

  /** No library that came failed to link. */
  ghost predicate NewReady(w: World, v: World) {
    forall m :: ReadyIfNew(w, v, m)
  }

  ghost predicate ReadyIfNew(w: World, v: World, m: Name) {
    m in v.libs && m !in w.libs ==> Ready(v.libs[m])
  }

  lemma NewReadyOn(w: World, u: World, v: World, n: Name)
    requires NewReady(w, u) && NewReady(u, v) && Grows(u, v, {n}) && n in w.libs
    ensures NewReady(w, v)
  {
    forall m ensures ReadyIfNew(w, v, m) {
      assert ReadyIfNew(w, u, m) && ReadyIfNew(u, v, m);
      assert m in u.libs && m != n ==> Kept(u, v, m);
    }
  }

  /** n has taken some of its references, and whatever that loaded is ready. */
  ghost predicate Progress(w: World, v: World, n: Name, hi: nat) {
    Grows(w, v, {n}) && Still(w, v, n) && NewReady(w, v) && v.accounts[n].hi == hi
  }

  lemma ProgressOn(w: World, u: World, v: World, n: Name, hi: nat)
    requires Grows(w, u, {n}) && Still(w, u, n) && NewReady(w, u) && Progress(u, v, n, hi)
    ensures Progress(w, v, n, hi)
  {
    GrowsOn(w, u, v, {n});
    NewReadyOn(w, u, v, n);
  }

  lemma NoProgress(w: World, c: Calls, n: Name)
    requires Inv(w, c) && Known(w, n)
    ensures Progress(w, w, n, w.accounts[n].hi)
  {
    GrowsNot(w, c, {n});
    NothingNew(w, w);
  }

  lemma NewReadyWith(w: World, u: World, v: World, n: Name)
    requires u.libs.Keys == w.libs.Keys + {n} && NewReady(u, v) && n in v.libs && Ready(v.libs[n])
    ensures NewReady(w, v)
  {
    forall m ensures ReadyIfNew(w, v, m) {
      assert ReadyIfNew(u, v, m);
    }
  }

  lemma NewReadyOpened(w: World, u: World, v: World, h: Option<Name>)
    requires NewReady(w, u) && OpensOnly(u, v, h) && v.libs.Keys == u.libs.Keys
    ensures NewReady(w, v)
  {
    forall m ensures ReadyIfNew(w, v, m) {
      assert ReadyIfNew(w, u, m);
      assert m in u.libs ==> Remains(u, v, m);
    }
  }

  lemma NothingNew(w: World, v: World)
    requires v.libs.Keys <= w.libs.Keys
    ensures NewReady(w, v)
  {
    forall m ensures ReadyIfNew(w, v, m) {
    }
  }

  // ---- When loading succeeds ---------------------------------------------------------------

  ghost predicate NeedsReady(w: World, n: Name)
    requires n in w.libs
  {
    forall i :: 0 <= i < |w.libs[n].needed| ==> IsReady(w, w.libs[n].needed[i])
  }

  /** A library links exactly when its file is in order and everything it needs is ready. */
  ghost predicate Outcome(w: World, n: Name, image: Image) {
    n in w.libs && (Ready(w.libs[n]) <==> image.tables && image.relocates && image.protects && NeedsReady(w, n))
  }

  lemma ReadyNeeds(w: World, c: Calls, n: Name)
    requires Inv(w, c) && n in w.libs && w.libs[n].linked && n !in c.leaving
    ensures NeedsReady(w, n)
  {
    assert NodeOk(w, c, n);
    NeededUsable(w, c, n);
    forall i | 0 <= i < |w.libs[n].needed| ensures IsReady(w, w.libs[n].needed[i]) {
      assert Usable(w, c, n, w.libs[n].needed[i]);
    }
  }

  /** A failed search stays failed when n is given up. */
  lemma StillMissing(w: World, v: World, n: Name)
    requires Grows(w, v, {n}) && v.libs.Keys == w.libs.Keys && Still(w, v, n) && !Ready(v.libs[n])
    requires !NeedsReady(w, n)
    ensures !NeedsReady(v, n)
  {
    var i :| 0 <= i < |w.libs[n].needed| && !IsReady(w, w.libs[n].needed[i]);
    var x := w.libs[n].needed[i];
    assert x in w.libs && x != n ==> Kept(w, v, x);
    assert !IsReady(v, v.libs[n].needed[i]);
  }

  /** A started program: what it needs is ready, its preloads are constructed as well, and besides the
      references among libraries there is one for the program itself and one for each preload. All that
      has run are the constructors of the preloads, in their order, and then of the program. */
  ghost predicate Running(w: World, v: World, exe: Name, needed: seq<Name>, keys: seq<Name>) {
    && exe in v.libs && v.libs[exe].needed == needed
    && AllReady(v, keys, |keys|) && AllBuilt(v, keys, |keys|) && NeedsReady(v, exe) && w.log <= v.log
    && (forall n :: Pins(v, n) == Pins(w, n) + One(n == exe) + Times(keys, |keys|, n))
    && (forall n :: Opens(v, n) == Opens(w, n))
    && exists u: World {:trigger RunAll(u, v, keys + [exe])} :: u.log == w.log && RunAll(u, v, keys + [exe])
  }

  lemma RunningNow(w0: World, u: World, v: World, exe: Name, needed: seq<Name>, keys: seq<Name>, image: Image)
    requires Startable(u, exe, image, keys) && u.libs[exe].needed == needed && Preloaded(w0, u, exe, keys, |keys|)
    requires Builds(u, v) && AllBuilt(v, keys, |keys|) && u.log == w0.log && RunAll(u, v, keys + [exe])
    ensures Running(w0, v, exe, needed, keys) && Startable(v, exe, image, keys)
  {
    ReadyBuilt(u, v, keys, |keys|);
    assert Flagged(u, v, exe);
    forall i | 0 <= i < |needed| ensures IsReady(v, needed[i]) {
      assert IsReady(u, u.libs[exe].needed[i]) && Flagged(u, v, needed[i]);
    }
    forall n ensures Pins(v, n) == Pins(u, n) && Opens(v, n) == Opens(u, n) {
    }
  }
}
