/** What the linker's invariant means for the programs it serves. */
module LinkerTheorems {
  import opened LinkerState
  import opened LinkerCalls

  // ---- Reference counts --------------------------------------------------------------------

  /** How many references the listed libraries hold on n, repetitions included. */
  ghost function References(w: World, names: seq<Name>, n: Name): nat {
    if names == [] then 0
    else (if Known(w, names[0]) then multiset(Holds(w, names[0]))[n] else 0) + References(w, names[1..], n)
  }

  /** The size of m, when its elements are among the names. */
  lemma {:induction false} UsersAddUp(w: World, names: seq<Name>, n: Name, m: multiset<Name>)
    requires forall i, j :: 0 <= i < j < |names| ==> names[i] != names[j]
    requires forall o :: o in m ==> o in names
    requires forall o :: o in names ==> m[o] == if Known(w, o) then multiset(Holds(w, o))[n] else 0
    ensures |m| == References(w, names, n)
    decreases |names|
  {
    if names == [] {
      assert m == multiset{};
    } else {
      var rest := m[names[0] := 0];
      assert names == [names[0]] + names[1..];
      UsersAddUp(w, names[1..], n, rest);
    }
  }

  /** The reference count of every library is the number of its outstanding opens and preloads and of
      the DT_NEEDED references on it, those of libraries that failed to load included. */
  lemma CountIsReferences(w: World, names: seq<Name>, n: Name)
    requires Inv(w, IDLE) && Listed(names, w.libs) && n in w.libs
    ensures w.libs[n].refcount == w.accounts[n].opens + w.accounts[n].pins + References(w, names, n)
  {
    assert NodeOk(w, IDLE, n);
    forall o ensures w.accounts[n].users[o] == if Known(w, o) then multiset(Holds(w, o))[n] else 0 {
      assert Matched(w, n, o);
    }
    UsersAddUp(w, names, n, w.accounts[n].users);
  }

  // ---- The DT_NEEDED graph -----------------------------------------------------------------

  /** Each library holds a reference on the next. */
  ghost predicate Chain(w: World, path: seq<Name>) {
    forall i :: 0 <= i < |path| - 1 ==> Known(w, path[i]) && path[i + 1] in Holds(w, path[i])
  }

  /** The DT_NEEDED graph of the linked libraries has no cycles. */
  lemma {:induction false} Acyclic(w: World, path: seq<Name>)
    requires Inv(w, IDLE) && |path| > 1 && path[0] in w.libs && w.libs[path[0]].linked
    requires Chain(w, path)
    ensures path[|path| - 1] in w.libs && Ready(w.libs[path[|path| - 1]])
    ensures w.accounts[path[|path| - 1]].rank < w.accounts[path[0]].rank
    ensures path[0] != path[|path| - 1]
    decreases |path|
  {
    assert NodeOk(w, IDLE, path[0]) && Usable(w, IDLE, path[0], path[1]);
    if |path| > 2 {
      assert forall i :: 0 <= i < |path| - 1 ==> path[1..][i] == path[i + 1];
      Acyclic(w, path[1..]);
    }
  }

  /** A library that the program holds, or that failed to load and keeps what it had taken. */
  ghost predicate Root(w: World, n: Name) {
    n in w.libs && n in w.accounts && (w.accounts[n].opens > 0 || w.accounts[n].pins > 0 || w.libs[n].failed)
  }

  ghost predicate ReachedBy(w: World, path: seq<Name>, n: Name) {
    |path| > 0 && Root(w, path[0]) && Chain(w, path) && path[|path| - 1] == n
  }

  /** Between calls, everything ready is there because a root needs it: unloading leaves nothing behind. */
  lemma {:induction false} NoLeaks(w: World, n: Name) returns (path: seq<Name>)
    requires Inv(w, IDLE) && n in w.libs && Ready(w.libs[n]) && n != LIBDL && n in w.accounts
    ensures ReachedBy(w, path, n)
    decreases w.clock - w.accounts[n].rank
  {
    assert NodeOk(w, IDLE, n);
    if Root(w, n) {
      path := [n];
    } else {
      var o :| o in w.accounts[n].users;
      assert Matched(w, n, o);
      assert n in multiset(Holds(w, o));
      assert NodeOk(w, IDLE, o) && Usable(w, IDLE, o, n);
      if Root(w, o) {
        path := [o, n];
      } else {
        var before := NoLeaks(w, o);
        path := before + [n];
        forall i | 0 <= i < |path| - 1 ensures Known(w, path[i]) && path[i + 1] in Holds(w, path[i]) {
          assert i < |before| - 1 ==> Known(w, before[i]) && before[i + 1] in Holds(w, before[i]);
        }
      }
    }
  }

  /** And everything that a root needs is there and ready: nothing is unloaded too early. */
  lemma {:induction false} NoneLost(w: World, path: seq<Name>, n: Name)
    requires Inv(w, IDLE) && ReachedBy(w, path, n)
    ensures n in w.libs && (|path| > 1 ==> Ready(w.libs[n]))
    decreases |path|
  {
    if |path| > 1 {
      var before := path[..|path| - 1];
      assert forall i :: 0 <= i < |before| ==> before[i] == path[i];
      NoneLost(w, before, before[|before| - 1]);
      var o := path[|path| - 2];
      assert path[|path| - 2 + 1] in Holds(w, path[|path| - 2]);
      assert NodeOk(w, IDLE, o) && Usable(w, IDLE, o, n);
    }
  }

  // ---- Constructors and destructors --------------------------------------------------------

  /** Every library was linked against the next; libraries are named by their ranks. */
  ghost predicate DepPath(deps: map<nat, set<nat>>, path: seq<nat>) {
    |path| > 1 && forall i :: 0 <= i < |path| - 1 ==> path[i] in deps && path[i + 1] in deps[path[i]]
  }

  /** Nothing runs twice. */
  lemma RunsOnce(w: World, p: nat, q: nat)
    requires Inv(w, IDLE) && p < |w.log| && q < |w.log| && w.log[p] == w.log[q]
    ensures p == q
  {
    assert EventOk(w.deps, w.log, p) && EventOk(w.deps, w.log, q);
  }

  /** The constructors of a library run after those of everything it depends on, however remotely. */
  lemma {:induction false} ConstructorsInOrder(w: World, path: seq<nat>, p: nat)
    requires Inv(w, IDLE) && DepPath(w.deps, path) && p < |w.log| && w.log[p] == Ctor(path[0])
    ensures Before(w.log, p, Ctor(path[|path| - 1]))
    decreases |path|
  {
    assert EventOk(w.deps, w.log, p);
    assert Before(w.log, p, Ctor(path[1]));
    if |path| > 2 {
      var q :| 0 <= q < p && q < |w.log| && w.log[q] == Ctor(path[1]);
      assert forall i :: 0 <= i < |path| - 1 ==> path[1..][i] == path[i + 1];
      ConstructorsInOrder(w, path[1..], q);
      var r :| 0 <= r < q && r < |w.log| && w.log[r] == Ctor(path[1..][|path| - 2]);
      assert 0 <= r < p && w.log[r] == Ctor(path[|path| - 1]);
    }
  }

  /** The destructors of a library run after those of everything that depends on it, however remotely,
      and after its own constructors. */
  lemma {:induction false} DestructorsInOrder(w: World, path: seq<nat>, p: nat)
    requires Inv(w, IDLE) && DepPath(w.deps, path) && p < |w.log| && w.log[p] == Dtor(path[|path| - 1])
    ensures Before(w.log, p, Dtor(path[0])) && Before(w.log, p, Ctor(path[0]))
    decreases |path|
  {
    assert EventOk(w.deps, w.log, p);
    var o := path[|path| - 2];
    assert path[|path| - 2 + 1] in w.deps[path[|path| - 2]];
    assert Before(w.log, p, Dtor(o));
    var q :| 0 <= q < p && q < |w.log| && w.log[q] == Dtor(o);
    assert EventOk(w.deps, w.log, q);
    assert Before(w.log, q, Ctor(o));
    if |path| > 2 {
      var before := path[..|path| - 1];
      assert forall i :: 0 <= i < |before| ==> before[i] == path[i];
      assert DepPath(w.deps, before);
      DestructorsInOrder(w, before, q);
    }
  }

  ghost predicate IsListed(w: World, n: Name, i: nat) {
    Known(w, n) && w.libs[n].linked && w.accounts[n].rank == i
  }

  /** Between calls, of the libraries ever linked exactly those that are gone have had their destructors
      run. */
  lemma DestroyedExactly(w: World, i: nat)
    requires Inv(w, IDLE) && i in w.deps
    ensures Dtor(i) in w.log <==> !exists n :: IsListed(w, n, i)
  {
    assert LivesOrDied(w, i);
    if n :| Known(w, n) && w.libs[n].linked && w.accounts[n].rank == i {
      assert LoggedOk(w, IDLE, n) && IsListed(w, n, i);
    }
    if n :| IsListed(w, n, i) {
      assert LoggedOk(w, IDLE, n);
    }
  }

  /** Everything that an open library holds on to, however remotely, has been constructed and has not
      been destroyed. */
  lemma {:induction false} OpenIsUsable(w: World, path: seq<Name>)
    requires Inv(w, IDLE) && |path| > 0 && path[0] in w.libs && w.libs[path[0]].constructed && path[0] in w.accounts
             && Chain(w, path)
    ensures path[|path| - 1] in w.libs && path[|path| - 1] in w.accounts
    ensures Ctor(w.accounts[path[|path| - 1]].rank) in w.log && Dtor(w.accounts[path[|path| - 1]].rank) !in w.log
    decreases |path|
  {
    assert NodeOk(w, IDLE, path[0]) && LoggedOk(w, IDLE, path[0]);
    if |path| > 1 {
      assert path[0 + 1] in Holds(w, path[0]);
      assert Usable(w, IDLE, path[0], path[1]);
      assert forall i :: 0 <= i < |path| - 1 ==> path[1..][i] == path[i + 1];
      OpenIsUsable(w, path[1..]);
    }
  }

  // ---- Opening and closing again -----------------------------------------------------------

  /** dlopen(h) and then dlclose(h). */
  ghost predicate OpenedAndClosed(w: World, v: World, z: World, h: Name) {
    Inv(w, IDLE) && Inv(v, IDLE) && Inv(z, IDLE) && OpensOnly(w, v, Some(h)) && NewReady(w, v) && ClosesOnly(v, z, h)
  }

  lemma RootsBack(w: World, v: World, z: World, h: Name, n: Name)
    requires OpenedAndClosed(w, v, z, h)
    ensures Root(w, n) <==> Root(z, n)
  {
    assert Opens(z, n) == Opens(w, n) && Pins(z, n) == Pins(w, n);
    if Root(w, n) {
      assert Remains(w, v, n);
      assert n in z.libs ==> Remains(v, z, n);
    }
    if Root(z, n) {
      assert Remains(v, z, n) && ReadyIfNew(w, v, n);
      assert n in w.libs ==> Remains(w, v, n);
    }
  }

  lemma SameHolds(w: World, v: World, z: World, h: Name, n: Name)
    requires OpenedAndClosed(w, v, z, h) && n in w.libs && n in z.libs
    ensures Known(w, n) && Known(z, n) && Holds(z, n) == Holds(w, n)
  {
    assert Remains(w, v, n) && Remains(v, z, n);
  }

  lemma StepBack(w: World, v: World, z: World, h: Name, o: Name, n: Name)
    requires OpenedAndClosed(w, v, z, h) && o in w.libs && o in z.libs
    requires (Known(w, o) && n in Holds(w, o)) || (Known(z, o) && n in Holds(z, o))
    ensures n in w.libs && n in z.libs && Known(w, o) && n in Holds(w, o) && Known(z, o) && n in Holds(z, o)
  {
    SameHolds(w, v, z, h, o);
    assert NodeOk(w, IDLE, o) && NodeOk(z, IDLE, o);
    assert Usable(w, IDLE, o, n) && Usable(z, IDLE, o, n);
  }

  lemma ChainExtends(w: World, path: seq<Name>, o: Name, n: Name)
    requires |path| > 1 && o == path[|path| - 2] && n == path[|path| - 1]
    ensures Chain(w, path) <==> Chain(w, path[..|path| - 1]) && Known(w, o) && n in Holds(w, o)
  {
    var before := path[..|path| - 1];
    if Chain(w, path) {
      assert path[|path| - 2 + 1] in Holds(w, path[|path| - 2]);
      forall i | 0 <= i < |before| - 1 ensures Known(w, before[i]) && before[i + 1] in Holds(w, before[i]) {
        assert path[i + 1] in Holds(w, path[i]);
      }
    }
    if Chain(w, before) && Known(w, o) && n in Holds(w, o) {
      forall i | 0 <= i < |path| - 1 ensures Known(w, path[i]) && path[i + 1] in Holds(w, path[i]) {
        assert i < |before| - 1 ==> Known(w, before[i]) && before[i + 1] in Holds(w, before[i]);
      }
    }
  }

  /** A path from a root in one world is one in the other. */
  lemma {:induction false} ReachedBack(w: World, v: World, z: World, h: Name, path: seq<Name>, n: Name)
    requires OpenedAndClosed(w, v, z, h)
    requires ReachedBy(w, path, n) || ReachedBy(z, path, n)
    ensures ReachedBy(w, path, n) && ReachedBy(z, path, n)
    ensures n in w.libs && n in z.libs
    decreases |path|
  {
    RootsBack(w, v, z, h, path[0]);
    if |path| > 1 {
      var o := path[|path| - 2];
      ChainExtends(w, path, o, n);
      ChainExtends(z, path, o, n);
      ReachedBack(w, v, z, h, path[..|path| - 1], o);
      StepBack(w, v, z, h, o, n);
    }
  }

  lemma SameLibraries(w: World, v: World, z: World, h: Name)
    requires OpenedAndClosed(w, v, z, h)
    ensures z.libs.Keys == w.libs.Keys
  {
    forall n | n in w.libs ensures n in z.libs {
      assert NodeOk(w, IDLE, n) && Remains(w, v, n);
      if Ready(w.libs[n]) && n != LIBDL {
        var path := NoLeaks(w, n);
        ReachedBack(w, v, z, h, path, n);
      }
    }
    forall n | n in z.libs ensures n in w.libs {
      assert NodeOk(z, IDLE, n) && Remains(v, z, n) && ReadyIfNew(w, v, n);
      if Ready(z.libs[n]) && n != LIBDL {
        var path := NoLeaks(z, n);
        ReachedBack(w, v, z, h, path, n);
      }
    }
  }

  /** Opening a library and closing it again leaves the list of libraries as it was, with the same
      reference counts; all that may differ is which constructors have run. */
  lemma CloseUndoesOpen(w: World, v: World, z: World, h: Name, n: Name)
    requires OpenedAndClosed(w, v, z, h)
    ensures z.libs.Keys == w.libs.Keys
    ensures n in w.libs ==> z.libs[n] == w.libs[n].(constructed := z.libs[n].constructed)
  {
    SameLibraries(w, v, z, h);
    if n in w.libs {
      assert NodeOk(w, IDLE, n) && NodeOk(z, IDLE, n) && Remains(w, v, n) && Remains(v, z, n);
      forall o ensures w.accounts[n].users[o] == z.accounts[n].users[o] {
        assert Matched(w, n, o) && Matched(z, n, o);
        if o in w.libs {
          SameHolds(w, v, z, h, o);
        }
      }
      assert w.accounts[n].users == z.accounts[n].users;
      assert Opens(z, n) == Opens(w, n) && Pins(z, n) == Pins(w, n);
    }
  }
}
