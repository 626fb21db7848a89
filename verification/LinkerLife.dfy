/** The steps by which a library comes, becomes usable, is constructed, and goes. */
module LinkerLife {
  import opened LinkerState

  /** No one holds a reference on n. */
  lemma Unused(w: World, c: Calls, n: Name)
    requires Core(w, c) && n in w.libs && n in w.accounts && |w.accounts[n].users| == 0
    ensures forall o :: Known(w, o) ==> n !in Holds(w, o)
  {
    assert NodeOk(w, c, n);
    forall o | Known(w, o) ensures n !in Holds(w, o) {
      var held := Holds(w, o);
      assert n in held <==> multiset(held)[n] > 0;
      assert Matched(w, n, o);
    }
  }

  lemma UnusedStranger(w: World, c: Calls, n: Name)
    requires Core(w, c) && n !in w.libs
    ensures forall o :: Known(w, o) ==> n !in Holds(w, o)
    ensures forall m :: Known(w, m) ==> w.accounts[m].users[n] == 0
  {
    forall o | Known(w, o) ensures n !in Holds(w, o) && w.accounts[o].users[n] == 0 {
      assert NodeOk(w, c, o) && Matched(w, o, n);
      assert n in Holds(w, o) ==> Usable(w, c, o, n);
    }
  }

  ghost predicate SameCalls(c: Calls, d: Calls, k: Name) {
    (k in d.linking <==> k in c.linking) && (k in d.leaving <==> k in c.leaving) && (k in d.extra <==> k in c.extra) &&
      (k in d.starting <==> k in c.starting) && (k in d.loose <==> k in c.loose)
  }

  /** Only the library n comes, goes or changes its state, and no one refers to it. */
  ghost predicate OnlyOne(w: World, c: Calls, v: World, d: Calls, n: Name) {
    && w.clock <= v.clock
    && (forall k :: k != n ==> SameCalls(c, d, k))
    && (forall k :: k != n ==> (Known(w, k) <==> Known(v, k)))
    && (forall k :: k != n && Known(w, k) ==> Known(v, k) && v.libs[k] == w.libs[k] && v.accounts[k] == w.accounts[k])
    && (forall k :: k != n && Known(w, k) ==>
      n !in Holds(w, k) && w.accounts[k].users[n] == if Known(v, n) then multiset(Holds(v, n))[k] else 0)
  }

  lemma OtherNode(w: World, c: Calls, v: World, d: Calls, n: Name, m: Name)
    requires NodeOk(w, c, m) && m != n && OnlyOne(w, c, v, d, n)
    ensures NodeOk(v, d, m)
  {
    assert SameCalls(c, d, m);
    assert Holds(v, m) == Holds(w, m);
    forall o ensures Matched(v, m, o) {
      assert Matched(w, m, o);
    }
    forall x | x in Holds(v, m) ensures Usable(v, d, m, x) {
      assert Usable(w, c, m, x) && SameCalls(c, d, x);
    }
  }

  ghost predicate CallsBounded(v: World, d: Calls) {
    && v.libs.Keys == v.accounts.Keys
    && LIBDL in v.libs && Ready(v.libs[LIBDL]) && v.libs[LIBDL].needed == []
    && d.linking <= v.libs.Keys && d.leaving <= d.extra <= v.libs.Keys && d.starting <= v.libs.Keys
  }

  lemma CoreFromOne(w: World, c: Calls, v: World, d: Calls, n: Name)
    requires Core(w, c) && OnlyOne(w, c, v, d, n) && CallsBounded(v, d)
    requires n in v.libs ==> NodeOk(v, d, n)
    requires forall k :: k != n && k in v.libs ==> k in w.libs
    ensures Core(v, d)
  {
    forall m | m in v.libs ensures NodeOk(v, d, m) {
      if m != n {
        assert NodeOk(w, c, m);
        OtherNode(w, c, v, d, n, m);
      }
    }
  }

  lemma AppearsNode(w: World, c: Calls, n: Name, needed: seq<Name>)
    requires n !in w.libs && n !in c.extra && n !in c.leaving
    requires forall o :: Known(w, o) ==> n !in Holds(w, o)
    ensures NodeOk(Appear(w, n, needed), c.(linking := c.linking + {n}), n)
  {
    var v, d := Appear(w, n, needed), c.(linking := c.linking + {n});
    assert Known(v, n) && Holds(v, n) == [];
    forall o ensures Matched(v, n, o) {
      if o != n && Known(v, o) {
        var held := Holds(w, o);
        assert Holds(v, o) == held && n !in held;
        assert multiset(held)[n] == 0;
      }
    }
  }

  lemma AppearsOne(w: World, c: Calls, n: Name, needed: seq<Name>)
    requires n !in w.libs
    requires forall o :: Known(w, o) ==> n !in Holds(w, o) && w.accounts[o].users[n] == 0
    ensures OnlyOne(w, c, Appear(w, n, needed), c.(linking := c.linking + {n}), n)
  {
    var v := Appear(w, n, needed);
    assert Known(v, n) && Holds(v, n) == [];
  }

  lemma AppearsCore(w: World, c: Calls, n: Name, needed: seq<Name>)
    requires Core(w, c) && n !in w.libs
    ensures Core(Appear(w, n, needed), c.(linking := c.linking + {n}))
    ensures forall k :: Known(w, k) ==> k != n
  {
    UnusedStranger(w, c, n);
    var v, d := Appear(w, n, needed), c.(linking := c.linking + {n});
    AppearsNode(w, c, n, needed);
    AppearsOne(w, c, n, needed);
    CoreFromOne(w, c, v, d, n);
  }

  lemma Appears(w: World, c: Calls, n: Name, needed: seq<Name>)
    requires Inv(w, c) && n !in w.libs
    ensures Inv(Appear(w, n, needed), c.(linking := c.linking + {n}))
  {
    AppearsCore(w, c, n, needed);
    HistoryKept(w, c, Appear(w, n, needed), c.(linking := c.linking + {n}));
  }

  lemma UnusedUnready(w: World, c: Calls, n: Name)
    requires Core(w, c) && n in w.libs && !Ready(w.libs[n])
    ensures forall o :: Known(w, o) ==> n !in Holds(w, o)
    ensures Known(w, n) && w.accounts[n].users == multiset{} && w.accounts[n].opens == 0
  {
    assert NodeOk(w, c, n);
    forall o ensures w.accounts[n].users[o] == 0 && (Known(w, o) ==> n !in Holds(w, o)) {
      assert Matched(w, n, o);
      if Known(w, o) {
        var held := Holds(w, o);
        assert NodeOk(w, c, o);
        assert n in held ==> Usable(w, c, o, n);
        assert n !in held ==> multiset(held)[n] == 0;
      }
    }
  }

  /** The state of n changes, but not its references. */
  ghost predicate StatusOnly(w: World, v: World, n: Name) {
    && Known(w, n) && n in v.libs && n in v.accounts && w.clock <= v.clock
    && v.libs == w.libs[n := v.libs[n]] && v.libs[n].needed == w.libs[n].needed
    && v.accounts == w.accounts[n := w.accounts[n].(rank := v.accounts[n].rank)]
  }

  lemma MatchedWith(w: World, c: Calls, n: Name)
    requires Core(w, c)
    ensures forall k :: Known(w, k) ==> Matched(w, k, n)
  {
    forall k | Known(w, k) ensures Matched(w, k, n) {
      assert NodeOk(w, c, k);
    }
  }

  lemma StatusOne(w: World, c: Calls, v: World, d: Calls, n: Name)
    requires StatusOnly(w, v, n) && forall k :: Known(w, k) ==> Matched(w, k, n)
    requires forall o :: Known(w, o) ==> n !in Holds(w, o)
    requires forall k :: k != n ==> SameCalls(c, d, k)
    ensures OnlyOne(w, c, v, d, n)
  {
    StatusKnown(w, v, n);
    forall k | k != n && Known(w, k) ensures w.accounts[k].users[n] == multiset(Holds(v, n))[k] {
      assert Matched(w, k, n);
    }
  }

  lemma StatusKnown(w: World, v: World, n: Name)
    requires StatusOnly(w, v, n)
    ensures forall k :: Known(w, k) <==> Known(v, k)
    ensures forall k :: Known(w, k) ==> Known(v, k) && Holds(v, k) == Holds(w, k)
    ensures v.libs.Keys == w.libs.Keys && v.accounts.Keys == w.accounts.Keys
  {
  }

  lemma StatusMatched(w: World, c: Calls, v: World, n: Name)
    requires NodeOk(w, c, n) && StatusOnly(w, v, n)
    ensures AllMatched(v, n)
  {
    StatusKnown(w, v, n);
    forall o ensures Matched(v, n, o) {
      assert Matched(w, n, o);
    }
  }

  // ---- Linking ends ------------------------------------------------------------------------

  ghost function Linked(c: Calls, o: Name): Calls {
    c.(linking := c.linking - {o}, loose := c.loose + {o})
  }

  lemma CompletesNode(w: World, c: Calls, o: Name)
    requires NodeOk(w, c, o) && o in c.linking && w.accounts[o].hi == |w.libs[o].needed|
    requires forall x :: x in Holds(w, o) ==> NodeOk(w, c, x) && x != o
    requires o !in c.extra
    ensures NodeOk(Complete(w, o), Linked(c, o), o)
  {
    var v, d := Complete(w, o), Linked(c, o);
    StatusMatched(w, c, v, o);
    forall x | x in Holds(v, o) ensures Usable(v, d, o, x) {
      assert Usable(w, c, o, x);
    }
  }

  lemma CompletesItself(w: World, c: Calls, o: Name)
    requires Core(w, c) && o in c.linking && o in w.accounts && w.accounts[o].hi == |w.libs[o].needed| && o !in c.extra
    ensures Known(w, o) && NodeOk(Complete(w, o), Linked(c, o), o)
  {
    assert NodeOk(w, c, o);
    UnusedUnready(w, c, o);
    forall x | x in Holds(w, o) ensures NodeOk(w, c, x) && x != o {
      assert Usable(w, c, o, x);
    }
    CompletesNode(w, c, o);
  }

  lemma CompletesCore(w: World, c: Calls, o: Name)
    requires Core(w, c) && o in c.linking && o in w.accounts && w.accounts[o].hi == |w.libs[o].needed| && o !in c.extra
    ensures Known(w, o) && Core(Complete(w, o), Linked(c, o))
  {
    assert NodeOk(w, c, o);
    UnusedUnready(w, c, o);
    CompletesItself(w, c, o);
    MatchedWith(w, c, o);
    var v, d := Complete(w, o), Linked(c, o);
    StatusOne(w, c, v, d, o);
    assert CallsBounded(v, d);
    CoreFromOne(w, c, v, d, o);
  }

  /** A new rank is no one's, and no one has died at the libraries that the new one needs. */
  lemma FreshRank(w: World, c: Calls, o: Name)
    requires Inv(w, c) && o in c.linking && Known(w, o) && w.accounts[o].hi == |w.libs[o].needed|
    ensures w.clock !in w.deps
    ensures forall j :: j in NeededRanks(w, o) ==> j < w.clock && Dtor(j) !in w.log
    ensures forall x :: x in w.libs[o].needed ==>
      Known(w, x) && w.accounts[x].rank in NeededRanks(w, o) && w.libs[x].linked && x != o
  {
    assert NodeOk(w, c, o);
    assert Holds(w, o) == w.libs[o].needed;
    forall x | x in w.libs[o].needed
      ensures Known(w, x) && w.accounts[x].rank < w.clock && Dtor(w.accounts[x].rank) !in w.log && w.libs[x].linked
              && x != o
    {
      assert Usable(w, c, o, x) && NodeOk(w, c, x) && LoggedOk(w, c, x);
    }
  }

  lemma CompletesLog(w: World, clock: nat, ranks: set<nat>)
    requires LogOk(w.deps, w.log) && clock !in w.deps
    requires forall j :: j in ranks ==> Dtor(j) !in w.log
    ensures LogOk(w.deps[clock := ranks], w.log)
    ensures Ctor(clock) !in w.log && Dtor(clock) !in w.log
  {
    forall p: nat | p < |w.log| ensures EventOk(w.deps[clock := ranks], w.log, p) && w.log[p].rank != clock {
      assert EventOk(w.deps, w.log, p);
    }
  }

  lemma CompletesLogged(w: World, c: Calls, o: Name, n: Name)
    requires Known(w, n) && Known(w, o) && n != o && w.libs[n].linked && LoggedOk(w, c, n) && NodeOk(w, c, n)
             && w.clock !in w.deps
    requires forall x :: Known(w, x) ==> Known(Complete(w, o), x)
    requires !w.libs[o].linked
    ensures Known(Complete(w, o), n) && LoggedOk(Complete(w, o), Linked(c, o), n)
  {
    var v := Complete(w, o);
    if n !in c.leaving {
      NeededUsable(w, c, n);
      assert DepsOf(w, n);
      forall j | j in v.deps[v.accounts[n].rank]
        ensures exists x :: x in v.libs[n].needed && Known(v, x) && v.accounts[x].rank == j {
        var x :| x in w.libs[n].needed && Known(w, x) && w.accounts[x].rank == j;
        assert Usable(w, c, n, x);
        assert x in v.libs[n].needed && Known(v, x) && v.accounts[x].rank == j;
      }
      forall x | x in v.libs[n].needed ensures Known(v, x) && v.accounts[x].rank in v.deps[v.accounts[n].rank] {
        assert Usable(w, c, n, x);
      }
    }
  }

  lemma CompletesRanks(w: World, o: Name)
    requires RanksDiffer(w) && Known(w, o)
    requires forall m :: Known(w, m) && w.libs[m].linked ==> w.accounts[m].rank < w.clock
    ensures RanksDiffer(Complete(w, o))
  {
    StatusKnown(w, Complete(w, o), o);
    forall m, n ensures Distinct(Complete(w, o), m, n) {
      assert Distinct(w, m, n);
    }
  }

  lemma CompletesLives(w: World, o: Name, i: nat)
    requires Known(w, o) && !w.libs[o].linked && LivesOrDied(w, i)
    ensures LivesOrDied(Complete(w, o), i)
  {
    StatusKnown(w, Complete(w, o), o);
    if Dtor(i) !in w.log {
      var n :| Known(w, n) && w.libs[n].linked && w.accounts[n].rank == i;
      assert Known(Complete(w, o), n);
    }
  }

  lemma CompletesAllLogged(w: World, c: Calls, o: Name)
    requires Inv(w, c) && o in c.linking && Known(w, o) && w.accounts[o].hi == |w.libs[o].needed|
    ensures forall n :: Known(Complete(w, o), n) ==> LoggedOk(Complete(w, o), Linked(c, o), n)
  {
    var v, d := Complete(w, o), Linked(c, o);
    FreshRank(w, c, o);
    CompletesLog(w, w.clock, NeededRanks(w, o));
    StatusKnown(w, v, o);
    assert NodeOk(w, c, o);
    forall n | Known(v, n) ensures LoggedOk(v, d, n) {
      if n == o {
        assert DepsOf(v, o);
      } else if v.libs[n].linked {
        assert NodeOk(w, c, n) && LoggedOk(w, c, n);
        CompletesLogged(w, c, o, n);
      }
    }
  }

  lemma CompletesAlive(w: World, c: Calls, o: Name)
    requires Inv(w, c) && o in c.linking && Known(w, o)
    ensures RanksDiffer(Complete(w, o))
    ensures forall i :: i in w.deps || i == w.clock ==> LivesOrDied(Complete(w, o), i)
  {
    var v := Complete(w, o);
    assert NodeOk(w, c, o);
    forall m | Known(w, m) && w.libs[m].linked ensures w.accounts[m].rank < w.clock {
      assert NodeOk(w, c, m);
    }
    CompletesRanks(w, o);
    forall i | i in w.deps ensures LivesOrDied(v, i) {
      CompletesLives(w, o, i);
    }
    assert Known(v, o) && v.libs[o].linked && v.accounts[o].rank == w.clock;
    assert LivesOrDied(v, w.clock);
  }

  lemma Completes(w: World, c: Calls, o: Name)
    requires Inv(w, c) && o in c.linking && Known(w, o) && w.accounts[o].hi == |w.libs[o].needed| && o !in c.extra
    ensures Inv(Complete(w, o), Linked(c, o))
  {
    CompletesCore(w, c, o);
    FreshRank(w, c, o);
    CompletesLog(w, w.clock, NeededRanks(w, o));
    CompletesAllLogged(w, c, o);
    CompletesAlive(w, c, o);
  }

  ghost function Failed(c: Calls, o: Name): Calls {
    c.(linking := c.linking - {o}, loose := c.loose - {o})
  }

  /** A library may be given up while it is being linked, or just afterwards. */
  ghost predicate MayFail(w: World, c: Calls, o: Name) {
    Known(w, o) && o != LIBDL && o !in c.leaving &&
    (o in c.linking || (|w.accounts[o].users| == 0 && w.accounts[o].opens == 0 && !w.libs[o].constructed))
  }

  lemma FailsItself(w: World, c: Calls, o: Name)
    requires Core(w, c) && MayFail(w, c, o)
    ensures forall k :: Known(w, k) ==> o !in Holds(w, k)
    ensures NodeOk(Fail(w, o), Failed(c, o), o)
  {
    assert NodeOk(w, c, o);
    if o in c.linking {
      UnusedUnready(w, c, o);
    } else {
      Unused(w, c, o);
    }
    var v, d := Fail(w, o), Failed(c, o);
    StatusMatched(w, c, v, o);
    StatusKnown(w, v, o);
    forall x | x in Holds(v, o) ensures Usable(v, d, o, x) {
      assert Usable(w, c, o, x);
    }
  }

  lemma Fails(w: World, c: Calls, o: Name)
    requires Inv(w, c) && MayFail(w, c, o)
    ensures Inv(Fail(w, o), Failed(c, o))
  {
    FailsItself(w, c, o);
    MatchedWith(w, c, o);
    var v, d := Fail(w, o), Failed(c, o);
    StatusOne(w, c, v, d, o);
    assert CallsBounded(v, d);
    CoreFromOne(w, c, v, d, o);
    StatusKnown(w, v, o);
    HistoryKept(w, c, v, d);
  }

  // ---- Unloading ---------------------------------------------------------------------------

  /** call_destructors: x is on its way out. */
  ghost function Leave(w: World, x: Name): World
    requires x in w.accounts
  {
    w.(log := w.log + [Dtor(w.accounts[x].rank)])
  }

  ghost function Leaving(c: Calls, x: Name): Calls {
    c.(leaving := c.leaving + {x})
  }

  ghost predicate MayLeave(w: World, c: Calls, x: Name) {
    && Known(w, x) && x in c.extra && x !in c.leaving && w.libs[x].refcount == 1 && Ready(w.libs[x]) && x != LIBDL
    && w.libs[x].constructed && x !in c.starting
  }

  lemma LeavesCore(w: World, c: Calls, x: Name)
    requires Core(w, c) && MayLeave(w, c, x)
    ensures Core(Leave(w, x), Leaving(c, x))
  {
    assert NodeOk(w, c, x);
    Unused(w, c, x);
    var v, d := Leave(w, x), Leaving(c, x);
    forall m | m in v.libs ensures NodeOk(v, d, m) {
      assert NodeOk(w, c, m);
      forall o ensures Matched(v, m, o) {
        assert Matched(w, m, o) && (Known(w, o) <==> Known(v, o));
        assert Known(w, o) ==> Holds(v, o) == Holds(w, o);
      }
      assert Holds(v, m) == Holds(w, m);
      forall y | y in Holds(v, m) ensures Usable(v, d, m, y) {
        assert Usable(w, c, m, y) && y != x;
      }
    }
  }

  /** A linked library does not depend on one that it holds no reference on. */
  lemma NeedsOthers(w: World, c: Calls, x: Name, m: Name)
    requires Inv(w, c) && Known(w, x) && w.libs[x].linked && Known(w, m) && w.libs[m].linked && m !in c.leaving
             && x !in Holds(w, m)
    ensures w.accounts[m].rank in w.deps && w.accounts[x].rank !in w.deps[w.accounts[m].rank]
  {
    assert NodeOk(w, c, m) && LoggedOk(w, c, m);
    NeededUsable(w, c, m);
    forall j | j in w.deps[w.accounts[m].rank] ensures j != w.accounts[x].rank {
      var y :| y in w.libs[m].needed && Known(w, y) && w.accounts[y].rank == j;
      assert Usable(w, c, m, y) && Distinct(w, x, y);
    }
  }

  /** By the time x goes, everyone that was linked against it has gone. */
  lemma UsersGone(w: World, c: Calls, x: Name, i: nat)
    requires Inv(w, c) && Known(w, x) && w.libs[x].linked && |w.accounts[x].users| == 0
    requires i in w.deps && w.accounts[x].rank in w.deps[i]
    ensures Dtor(i) in w.log
  {
    Unused(w, c, x);
    assert LivesOrDied(w, i);
    forall m | Known(w, m) && w.libs[m].linked ensures w.accounts[m].rank != i || Dtor(i) in w.log {
      assert LoggedOk(w, c, m);
      if m !in c.leaving {
        NeedsOthers(w, c, x, m);
      }
    }
  }

  lemma LogGrows(deps: map<nat, set<nat>>, log: seq<Event>, e: Event)
    requires LogOk(deps, log) && e !in log && e.rank in deps
    requires match e
             case Ctor(i) => forall j :: j in deps[i] ==> Ctor(j) in log
             case Dtor(j) => Ctor(j) in log && forall i :: i in deps && j in deps[i] ==> Dtor(i) in log
    ensures LogOk(deps, log + [e])
  {
    var more := log + [e];
    forall p: nat, f | p <= |log| ensures Before(more, p, f) <==> Before(log, p, f) {
      assert forall q :: 0 <= q < |log| ==> more[q] == log[q];
    }
    forall f ensures Before(log, |log|, f) <==> f in log {
    }
    forall p: nat | p < |more| ensures EventOk(deps, more, p) {
      if p < |log| {
        assert EventOk(deps, log, p) && more[p] == log[p];
      }
    }
  }

  lemma LeavesHistory(w: World, c: Calls, x: Name)
    requires Inv(w, c) && MayLeave(w, c, x)
    ensures RanksDiffer(Leave(w, x)) && HistoryOk(Leave(w, x), Leaving(c, x))
  {
    var v, d := Leave(w, x), Leaving(c, x);
    assert NodeOk(w, c, x) && LoggedOk(w, c, x);
    forall i | i in w.deps && w.accounts[x].rank in w.deps[i] ensures Dtor(i) in w.log {
      UsersGone(w, c, x, i);
    }
    LogGrows(w.deps, w.log, Dtor(w.accounts[x].rank));
    RanksKept(w, v);
    forall n | Known(v, n) ensures LoggedOk(v, d, n) {
      assert LoggedOk(w, c, n) && Known(w, n) && Distinct(w, x, n);
    }
    forall i | i in v.deps ensures LivesOrDied(v, i) {
      LeavesLives(w, x, i);
    }
  }

  lemma LeavesLives(w: World, x: Name, i: nat)
    requires Known(w, x) && LivesOrDied(w, i)
    ensures LivesOrDied(Leave(w, x), i)
  {
    if Dtor(i) !in w.log {
      var n :| Known(w, n) && w.libs[n].linked && w.accounts[n].rank == i;
      assert Known(Leave(w, x), n);
    }
  }

  lemma Leaves(w: World, c: Calls, x: Name)
    requires Inv(w, c) && MayLeave(w, c, x)
    ensures Inv(Leave(w, x), Leaving(c, x))
  {
    LeavesCore(w, c, x);
    LeavesHistory(w, c, x);
  }

  /** soinfo_free. */
  ghost function Gone(w: World, x: Name): World {
    w.(libs := w.libs - {x}, accounts := w.accounts - {x})
  }

  ghost function Left(c: Calls, x: Name): Calls {
    c.(leaving := c.leaving - {x}, extra := c.extra - {x})
  }

  ghost predicate MayGo(w: World, c: Calls, x: Name) {
    Known(w, x) && x in c.leaving && w.accounts[x].lo == w.accounts[x].hi && x !in c.linking && x !in c.starting
  }

  lemma GoneOne(w: World, c: Calls, x: Name)
    requires MayGo(w, c, x) && forall k :: Known(w, k) ==> x !in Holds(w, k) && Matched(w, k, x)
    ensures OnlyOne(w, c, Gone(w, x), Left(c, x), x)
  {
    var v := Gone(w, x);
    assert Holds(w, x) == [];
    forall k | k != x ensures Known(w, k) <==> Known(v, k) {
    }
  }

  lemma GoesCore(w: World, c: Calls, x: Name)
    requires Core(w, c) && MayGo(w, c, x)
    ensures Core(Gone(w, x), Left(c, x))
    ensures forall k :: Known(w, k) ==> x !in Holds(w, k)
  {
    assert NodeOk(w, c, x);
    Unused(w, c, x);
    MatchedWith(w, c, x);
    GoneOne(w, c, x);
    CoreFromOne(w, c, Gone(w, x), Left(c, x), x);
  }

  lemma GoesLogged(w: World, c: Calls, x: Name, n: Name)
    requires NodeOk(w, c, n) && LoggedOk(w, c, n) && n != x && x !in Holds(w, n)
    ensures Known(Gone(w, x), n) && LoggedOk(Gone(w, x), Left(c, x), n)
  {
    var v := Gone(w, x);
    if w.libs[n].linked && n !in c.leaving {
      NeededUsable(w, c, n);
      assert DepsOf(w, n);
      forall y | y in w.libs[n].needed ensures Known(v, y) {
        assert Usable(w, c, n, y);
      }
    }
  }

  lemma GoesLives(w: World, c: Calls, x: Name, i: nat)
    requires LivesOrDied(w, i) && Known(w, x) && (w.libs[x].linked ==> Dtor(w.accounts[x].rank) in w.log)
    ensures LivesOrDied(Gone(w, x), i)
  {
    if Dtor(i) !in w.log {
      var n :| Known(w, n) && w.libs[n].linked && w.accounts[n].rank == i;
      assert Known(Gone(w, x), n);
    }
  }

  lemma Goes(w: World, c: Calls, x: Name)
    requires Inv(w, c) && MayGo(w, c, x)
    ensures Inv(Gone(w, x), Left(c, x))
  {
    GoesCore(w, c, x);
    var v, d := Gone(w, x), Left(c, x);
    assert NodeOk(w, c, x) && LoggedOk(w, c, x);
    RanksKept(w, v);
    forall n | Known(v, n) ensures Known(w, n) && LoggedOk(v, d, n) {
      assert NodeOk(w, c, n) && LoggedOk(w, c, n);
      GoesLogged(w, c, x, n);
    }
    forall i | i in v.deps ensures LivesOrDied(v, i) {
      GoesLives(w, c, x, i);
    }
  }

  // ---- Constructors ------------------------------------------------------------------------

  /** soinfo_call_constructors begins: the flag is set first. */
  ghost function Begin(w: World, x: Name): World
    requires x in w.libs
  {
    w.(libs := w.libs[x := w.libs[x].(constructed := true)])
  }

  ghost function Starting(c: Calls, x: Name): Calls {
    c.(starting := c.starting + {x})
  }

  /** Its own constructors run. */
  ghost function Construct(w: World, x: Name): World
    requires x in w.accounts
  {
    w.(log := w.log + [Ctor(w.accounts[x].rank)])
  }

  ghost function Started(c: Calls, x: Name): Calls {
    c.(starting := c.starting - {x})
  }

  lemma BeginsCore(w: World, c: Calls, x: Name)
    requires Core(w, c) && x in w.libs && Ready(w.libs[x]) && !w.libs[x].constructed && x !in c.leaving
    ensures Core(Begin(w, x), Starting(c, x))
  {
    var v, d := Begin(w, x), Starting(c, x);
    assert NodeOk(w, c, x);
    StatusKnown(w, v, x);
    forall m | m in v.libs ensures NodeOk(v, d, m) {
      assert NodeOk(w, c, m);
      forall o ensures Matched(v, m, o) {
        assert Matched(w, m, o);
      }
      forall y | y in Holds(v, m) ensures Usable(v, d, m, y) {
        assert Usable(w, c, m, y);
      }
    }
  }

  lemma Begins(w: World, c: Calls, x: Name)
    requires Inv(w, c) && x in w.libs && Ready(w.libs[x]) && !w.libs[x].constructed && x !in c.leaving
    ensures Inv(Begin(w, x), Starting(c, x))
  {
    BeginsCore(w, c, x);
    var v, d := Begin(w, x), Starting(c, x);
    assert NodeOk(w, c, x);
    StatusKnown(w, v, x);
    RanksKept(w, v);
    forall n | Known(v, n) ensures LoggedOk(v, d, n) {
      assert LoggedOk(w, c, n);
      if w.libs[n].linked && n !in c.leaving {
        assert DepsOf(w, n);
      }
    }
    forall i | i in v.deps ensures LivesOrDied(v, i) {
      assert LivesOrDied(w, i);
    }
  }

  /** Every library that x needs has been constructed. */
  ghost predicate DepsStarted(w: World, c: Calls, x: Name)
    requires Known(w, x)
  {
    forall y :: y in Holds(w, x) ==> Known(w, y) && w.libs[y].constructed && y !in c.starting
  }

  lemma ConstructsCore(w: World, c: Calls, x: Name)
    requires Core(w, c) && Known(w, x) && x in c.starting && DepsStarted(w, c, x)
    ensures Core(Construct(w, x), Started(c, x))
  {
    var v, d := Construct(w, x), Started(c, x);
    forall m | m in v.libs ensures NodeOk(v, d, m) {
      assert NodeOk(w, c, m);
      assert Known(v, m) && Holds(v, m) == Holds(w, m);
      forall o ensures Matched(v, m, o) {
        assert Matched(w, m, o) && (Known(w, o) <==> Known(v, o));
        assert Known(w, o) ==> Holds(v, o) == Holds(w, o);
      }
      forall y | y in Holds(v, m) ensures Usable(v, d, m, y) {
        assert Usable(w, c, m, y);
      }
    }
  }

  lemma Constructs(w: World, c: Calls, x: Name)
    requires Inv(w, c) && Known(w, x) && x in c.starting && x !in c.leaving && w.libs[x].constructed
             && DepsStarted(w, c, x)
    ensures Inv(Construct(w, x), Started(c, x))
  {
    ConstructsCore(w, c, x);
    var v, d := Construct(w, x), Started(c, x);
    assert NodeOk(w, c, x) && LoggedOk(w, c, x);
    NeededUsable(w, c, x);
    forall j | j in w.deps[w.accounts[x].rank] ensures Ctor(j) in w.log {
      assert DepsOf(w, x);
      var y :| y in w.libs[x].needed && Known(w, y) && w.accounts[y].rank == j;
      assert Usable(w, c, x, y) && LoggedOk(w, c, y);
    }
    LogGrows(w.deps, w.log, Ctor(w.accounts[x].rank));
    RanksKept(w, v);
    forall n | Known(v, n) ensures LoggedOk(v, d, n) {
      assert LoggedOk(w, c, n) && Known(w, n) && Distinct(w, x, n);
    }
    forall i | i in v.deps ensures LivesOrDied(v, i) {
      ConstructsLives(w, x, i);
    }
  }

  lemma ConstructsLives(w: World, x: Name, i: nat)
    requires Known(w, x) && LivesOrDied(w, i)
    ensures LivesOrDied(Construct(w, x), i)
  {
    if Dtor(i) !in w.log {
      var n :| Known(w, n) && w.libs[n].linked && w.accounts[n].rank == i;
      assert Known(Construct(w, x), n);
    }
  }

  /** Allowing one more library to go without references asks for less. */
  lemma Loosened(w: World, c: Calls, x: Name)
    requires Inv(w, c)
    ensures Inv(w, c.(loose := c.loose + {x}))
  {
    var d := c.(loose := c.loose + {x});
    forall m | m in w.libs ensures NodeOk(w, d, m) {
      assert NodeOk(w, c, m);
      forall y | y in Holds(w, m) ensures Usable(w, d, m, y) {
        assert Usable(w, c, m, y);
      }
    }
    forall n | Known(w, n) ensures LoggedOk(w, d, n) {
      assert LoggedOk(w, c, n);
    }
  }
}
