/** Loading, opening, closing and unloading shared libraries. */
module Linker {
  import opened LinkerState
  import opened LinkerLife
  import opened LinkerCalls
  import opened LinkerPlans

  class Linker {
    /** find_loaded_library's reading of a path. Nothing but the constructor depends on what it is. */
    const key: Names
    /** solist. */
    var names: seq<Name>
    var libs: map<Name, Soinfo>
    var somain: Option<Name>
    /** soinfo_unload has followed the null dynamic section of the linker's own entry. */
    var crashed: bool
    ghost var w: World

    ghost predicate Consistent(c: Calls)
      reads this
    {
      Inv(w, c) && w.libs == libs && Listed(names, libs) && |names| <= SO_MAX + 1
    }

    /** find_loaded_library. */
    method FindLoaded(name: Name) returns (found: bool)
      requires Listed(names, libs)
      ensures found <==> name in libs
    {
      found := false;
      for i := 0 to |names|
        invariant name !in names[..i]
      {
        if names[i] == name {
          return true;
        }
      }
    }

    /** find_library: an entry in the list is used if it is linked and did not fail; one still being linked
        is a recursive link. */
    method FindLibrary(path: string, files: Files, ghost linking: set<Name>, ghost plan: seq<string>, ghost m: nat)
      returns (r: Option<Name>, ghost steps: seq<string>)
      requires Consistent(Loading(linking, {}))
      modifies this`names, this`libs, this`w
      ensures old(names) <= names
      ensures Consistent(Loading(linking, if r.Some? then {key(path)} else {})) && Grows(old(w), w, {})
      ensures r == if key(path) in libs && Ready(libs[key(path)]) then Some(key(path)) else None
      ensures r.Some? ==> NewReady(old(w), w)
      ensures key(path) in old(libs) ==> libs == old(libs) && names == old(names) && w == old(w)
      ensures key(path) !in old(libs) ==>
                if files(path).Some? && |key(path).text| < SOINFO_NAME_LEN && |old(names)| <= SO_MAX
                then key(path) in libs && libs[key(path)].needed == Keys(key, files(path).value.needed)
                     && Outcome(w, key(path), files(path).value)
                else libs == old(libs)
      ensures Told(key, old(libs), libs, files, plan, m, [path], steps, r.Some?)
      ensures r.Some? ==> LastIs(key, old(libs), steps, path)
      decreases SO_MAX + 1 - |names|, 1
    {
      var n := key(path);
      GrowsNot(w, Loading(linking, {}), {});
      steps := [];
      var loaded := FindLoaded(n);
      if loaded {
        ToldPresent(key, libs, files, plan, m, path);
        if libs[n].failed || !libs[n].linked {
          return None, [];
        }
        Loosened(w, Loading(linking, {}), n);
        NothingNew(w, w);
        assert {} + {n} == {n};
        return Some(n), [];
      }
      if files(path).None? || |n.text| >= SOINFO_NAME_LEN || |names| - 1 == SO_MAX {
        ToldRefused(key, libs, names, files, plan, m, path);
        return None, [];
      }
      var linked;
      linked, steps := Load(path, files, linking, plan, m);
      r := if linked then Some(n) else None;
    }

    /** soinfo_alloc and init_library. */
    method Load(path: string, files: Files, ghost linking: set<Name>, ghost plan: seq<string>, ghost m: nat)
      returns (linked: bool, ghost steps: seq<string>)
      requires Consistent(Loading(linking, {})) && files(path).Some? && |key(path).text| < SOINFO_NAME_LEN
      requires |names| < SO_MAX + 1 && key(path) !in libs
      modifies this`names, this`libs, this`w
      ensures old(names) <= names
      ensures Consistent(Loading(linking, if linked then {key(path)} else {})) && Grows(old(w), w, {})
      ensures key(path) in libs && (linked <==> Ready(libs[key(path)]))
      ensures linked ==> NewReady(old(w), w)
      ensures libs[key(path)].needed == Keys(key, files(path).value.needed) && Outcome(w, key(path), files(path).value)
      ensures Told(key, old(libs), libs, files, plan, m, [path], steps, linked)
      ensures steps != [] && steps[|steps| - 1] == path
      decreases SO_MAX + 1 - |names|, 0
    {
      var n, image := key(path), files(path).value;
      var s := Soinfo(Keys(key, image.needed), false, false, 0, false);
      ghost var l0, before := libs, names;
      Appears(w, Loading(linking, {}), n, s.needed);
      ListedMore(names, libs, n, s);
      AppearGrows(w, Loading(linking, {}), n, s.needed);
      assert n !in linking && linking + {n} - {n} == linking;
      names, libs := names + [n], libs[n := s];
      w := Appear(w, n, s.needed);
      ghost var u, had, l;
      u := w;
      linked, steps, had, l := LinkImage(n, image, files, linking + {n}, plan, Below(key, files, plan, m, path));
      LoadGrows(old(w), u, w, n);
      ToldLoaded(key, l0, before, n, s, l, libs, files, plan, m, path, steps, had);
      steps := steps + [path];
      if linked {
        NewReadyWith(old(w), u, w, n);
      }
    }

    /** soinfo_link_image, of a shared library. */
    method LinkImage(n: Name, image: Image, files: Files, ghost linking: set<Name>, ghost plan: seq<string>, ghost m: nat)
      returns (ok: bool, ghost steps: seq<string>, ghost had: bool, ghost l: Libs)
      requires Consistent(Loading(linking, {})) && n in linking && Known(w, n)
      requires libs[n].needed == Keys(key, image.needed) && w.accounts[n].hi == 0
      modifies this`names, this`libs, this`w
      ensures old(names) <= names
      ensures Consistent(Loading(linking - {n}, if ok then {n} else {})) && Grows(old(w), w, {n})
      ensures Still(old(w), w, n) && (ok <==> Ready(libs[n])) && Outcome(w, n, image)
      ensures ok ==> NewReady(old(w), w)
      ensures LinkTold(key, old(libs), l, libs, n, image, image.needed, files, plan, m, steps, had)
      ensures ok <==> Finished(l, libs, n)
      decreases SO_MAX + 1 - |names|, 5
    {
      if image.tables {
        ok, steps, had, l := LinkNeeded(n, image, files, linking, plan, m);
      } else {
        MarkFailed(n, linking, {});
        FinishedIs(old(libs), libs, n);
        ok, steps, had, l := false, [], false, old(libs);
      }
    }

    /** The rest of soinfo_link_image: take a reference on every needed library, relocate, and
        protect the segments again. */
    method LinkNeeded(n: Name, image: Image, files: Files, ghost linking: set<Name>, ghost plan: seq<string>, ghost m: nat)
      returns (ok: bool, ghost steps: seq<string>, ghost had: bool, ghost l: Libs)
      requires Consistent(Loading(linking, {})) && n in linking && Known(w, n) && image.tables
      requires libs[n].needed == Keys(key, image.needed) && w.accounts[n].hi == 0
      modifies this`names, this`libs, this`w
      ensures old(names) <= names
      ensures Consistent(Loading(linking - {n}, if ok then {n} else {})) && Grows(old(w), w, {n})
      ensures Still(old(w), w, n) && (ok <==> Ready(libs[n]))
      ensures Outcome(w, n, image)
      ensures ok ==> NewReady(old(w), w)
      ensures LinkTold(key, old(libs), l, libs, n, image, image.needed, files, plan, m, steps, had)
      ensures ok <==> Finished(l, libs, n)
      decreases SO_MAX + 1 - |names|, 4
    {
      ok, steps := NeedAll(n, image, files, linking, plan, m);
      ghost var u := w;
      had, l := ok, libs;
      if ok {
        ok := Finish(n, image, linking);
        NothingNew(u, w);
        NewReadyOn(old(w), u, w, n);
      } else {
        MarkFailed(n, linking, {});
        StillMissing(u, w, n);
      }
      FinishedIs(l, libs, n);
      GrowsOn(old(w), u, w, {n});
    }

    /** All DT_NEEDED entries, up to the first that cannot be had. */
    method NeedAll(n: Name, image: Image, files: Files, ghost linking: set<Name>, ghost plan: seq<string>, ghost m: nat)
      returns (ok: bool, ghost steps: seq<string>)
      requires Consistent(Loading(linking, {})) && n in linking && Known(w, n)
      requires libs[n].needed == Keys(key, image.needed) && w.accounts[n].hi == 0
      modifies this`names, this`libs, this`w
      ensures old(names) <= names
      ensures Consistent(Loading(linking, {}))
      ensures if ok then Progress(old(w), w, n, |image.needed|)
        else Grows(old(w), w, {n}) && Still(old(w), w, n) && !NeedsReady(w, n)
      ensures Told(key, old(libs), libs, files, plan, m, image.needed, steps, ok)
      decreases SO_MAX + 1 - |names|, 3
    {
      NoProgress(w, Loading(linking, {}), n);
      ToldNothing(key, libs, files, plan, m);
      steps := [];
      for i := 0 to |image.needed|
        invariant old(names) <= names
        invariant Consistent(Loading(linking, {})) && Progress(old(w), w, n, i)
        invariant Told(key, old(libs), libs, files, plan, m, image.needed[..i], steps, true)
      {
        ghost var u, l, more := w, libs, [];
        ok, more := Need(n, image.needed[i], files, linking, plan, m);
        ToldNext(key, old(libs), l, libs, files, plan, m, image.needed, i, steps, more, ok);
        steps := steps + more;
        if !ok {
          GrowsOn(old(w), u, w, {n});
          return;
        }
        ProgressOn(old(w), u, w, n, i + 1);
      }
      assert image.needed[..|image.needed|] == image.needed;
      ok := true;
    }

    /** Everything that n needs is there. */
    method Finish(n: Name, image: Image, ghost linking: set<Name>) returns (ok: bool)
      requires Consistent(Loading(linking, {})) && n in linking && Known(w, n)
      requires w.accounts[n].hi == |libs[n].needed|
      modifies this`libs, this`w
      ensures Consistent(Loading(linking - {n}, if ok then {n} else {})) && Grows(old(w), w, {n})
      ensures Still(old(w), w, n) && (ok <==> Ready(libs[n])) && (ok <==> image.relocates && image.protects)
      ensures (ok ==> NeedsReady(w, n)) && w.libs.Keys == old(w.libs.Keys)
      ensures OthersSame(old(libs), libs, n)
    {
      if !image.relocates {
        MarkFailed(n, linking, {});
        return false;
      }
      MarkLinked(n, linking);
      ghost var u, l := w, libs;
      if !image.protects {
        assert linking - {n} - {n} == linking - {n};
        MarkFailed(n, linking - {n}, {n});
        OthersSameOn(old(libs), l, libs, n);
        GrowsOn(old(w), u, w, {n});
        return false;
      }
      ReadyNeeds(w, Loading(linking - {n}, {n}), n);
      return true;
    }

    /** si->flags |= FLAG_LINKED */
    method MarkLinked(n: Name, ghost linking: set<Name>)
      requires Consistent(Loading(linking, {})) && n in linking && Known(w, n)
      requires w.accounts[n].hi == |libs[n].needed|
      modifies this`libs, this`w
      ensures Consistent(Loading(linking - {n}, {n})) && Grows(old(w), w, {n}) && Still(old(w), w, n)
      ensures Ready(libs[n]) && MayFail(w, Loading(linking - {n}, {n}), n) && w.libs.Keys == old(w.libs.Keys)
      ensures OthersSame(old(libs), libs, n)
    {
      Completed(w, linking, n);
      libs := libs[n := libs[n].(linked := true)];
      w := Complete(w, n);
    }

    /** One DT_NEEDED entry. */
    method Need(n: Name, path: string, files: Files, ghost linking: set<Name>, ghost plan: seq<string>, ghost m: nat)
      returns (ok: bool, ghost steps: seq<string>)
      requires Consistent(Loading(linking, {})) && n in linking && Known(w, n)
      requires w.accounts[n].hi < |libs[n].needed| && libs[n].needed[w.accounts[n].hi] == key(path)
      modifies this`names, this`libs, this`w
      ensures old(names) <= names
      ensures Consistent(Loading(linking, {}))
      ensures if ok then Progress(old(w), w, n, old(w.accounts[n].hi) + 1)
        else Grows(old(w), w, {n}) && Still(old(w), w, n) && !IsReady(w, key(path))
      ensures Told(key, old(libs), libs, files, plan, m, [path], steps, ok)
      decreases SO_MAX + 1 - |names|, 2
    {
      var r;
      r, steps := FindLibrary(path, files, linking, plan, m);
      GrowsAround(old(w), w, n);
      if r.None? {
        return false, steps;
      }
      ghost var u, l := w, libs;
      TakeReference(n, key(path), linking);
      ToldSame(key, old(libs), l, libs, files, plan, m, [path], steps, true);
      GrowsOn(old(w), u, w, {n});
      NothingNew(u, w);
      NewReadyOn(old(w), u, w, n);
      return true, steps;
    }

    method TakeReference(n: Name, x: Name, ghost linking: set<Name>)
      requires Consistent(Loading(linking, {x})) && n in linking && Known(w, n)
      requires w.accounts[n].hi < |libs[n].needed| && libs[n].needed[w.accounts[n].hi] == x && x in libs
               && Ready(libs[x])
      modifies this`libs, this`w
      ensures Consistent(Loading(linking, {})) && Grows(old(w), w, {n}) && Still(old(w), w, n)
      ensures w.accounts[n].hi == old(w.accounts[n].hi) + 1 && w.libs.Keys == old(w.libs.Keys)
      ensures SameHad(old(libs), libs)
    {
      ghost var v := Taking(w, linking, n, x);
      ListedSame(names, libs, x, libs[x].(refcount := libs[x].refcount + 1));
      libs := libs[x := libs[x].(refcount := libs[x].refcount + 1)];
      w := v;
    }

    /** The end of a failed soinfo_link_image. */
    method MarkFailed(n: Name, ghost linking: set<Name>, ghost loose: set<Name>)
      requires Consistent(Loading(linking, loose)) && loose <= {n}
      requires Known(w, n) && (n in linking || MayFail(w, Loading(linking, loose), n))
      modifies this`libs, this`w
      ensures Consistent(Loading(linking - {n}, {})) && Grows(old(w), w, {n}) && Still(old(w), w, n) && !Ready(libs[n])
      ensures w.libs.Keys == old(w.libs.Keys)
      ensures OthersSame(old(libs), libs, n)
    {
      InList(w, Loading(linking, loose), n);
      Fails(w, Loading(linking, loose), n);
      assert loose - {n} == {};
      StatusGrows(w, Loading(linking, loose), Fail(w, n), n);
      libs := libs[n := libs[n].(failed := true)];
      w := Fail(w, n);
    }

    /** soinfo_unload: the caller gives up one reference on x. */
    method Unload(x: Name, ghost leaving: set<Name>)
      requires Consistent(Unloading(leaving, leaving + {x})) && !crashed
      requires Known(w, x) && x !in leaving && libs[x].constructed
      modifies this`names, this`libs, this`w, this`crashed
      ensures !crashed ==> Consistent(Unloading(leaving, leaving)) && Shrinks(old(w), w, {})
      ensures crashed ==> Unheld(old(w), LIBDL) && Exhausted(w)
      decreases w.accounts[x].rank, 2
    {
      if libs[x].refcount != 1 {
        ghost var v := Dropping(w, leaving, x);
        ListedSame(names, libs, x, libs[x].(refcount := libs[x].refcount - 1));
        libs := libs[x := libs[x].(refcount := libs[x].refcount - 1)];
        w := v;
      } else {
        assert NodeOk(w, Unloading(leaving, leaving + {x}), x);
        if x == LIBDL {
          crashed := true;
          return;
        }
        ghost var v := LeavingNow(w, leaving, x);
        w := v;
        ReleaseNeeded(x, leaving + {x});
        if crashed {
          UnheldBefore(old(w), v, x, 0);
        } else {
          ShrinksOn(old(w), v, w, {x});
          ghost var u := w;
          Free(x, leaving);
          Freed(old(w), u, w, x);
        }
      }
    }

    /** Every DT_NEEDED entry of x, in order. */
    method ReleaseNeeded(x: Name, ghost leaving: set<Name>)
      requires Consistent(Unloading(leaving, leaving)) && !crashed && x in leaving
      requires Known(w, x) && w.accounts[x].lo == 0 && w.accounts[x].hi == |libs[x].needed|
      modifies this`names, this`libs, this`w, this`crashed
      ensures !crashed ==> Consistent(Unloading(leaving, leaving)) && Shrinks(old(w), w, {x})
      ensures !crashed ==> Fading(old(w), w, x, |old(w.libs[x].needed)|)
      ensures crashed ==> Unheld(old(w), LIBDL) && Exhausted(w)
      decreases w.accounts[x].rank, 1
    {
      var needed := libs[x].needed;
      var k := 0;
      ShrinksNot(w, Unloading(leaving, leaving));
      while k < |needed|
        invariant 0 <= k <= |needed| && !crashed
        invariant Consistent(Unloading(leaving, leaving)) && Shrinks(old(w), w, {x}) && Fading(old(w), w, x, k)
      {
        ghost var u := w;
        ReleaseNext(x, needed[k], leaving);
        if crashed {
          UnheldBefore(old(w), u, x, k);
          return;
        }
        ShrinksOn(old(w), u, w, {x});
        FadingOn(old(w), u, w, x, k, k + 1);
        k := k + 1;
      }
    }

    method ReleaseNext(x: Name, y: Name, ghost leaving: set<Name>)
      requires Consistent(Unloading(leaving, leaving)) && !crashed && x in leaving
      requires Known(w, x) && w.accounts[x].lo < w.accounts[x].hi && y == libs[x].needed[w.accounts[x].lo]
      modifies this`names, this`libs, this`w, this`crashed
      ensures !crashed ==> Consistent(Unloading(leaving, leaving)) && Shrinks(old(w), w, {x})
      ensures !crashed ==> Fading(old(w), w, x, old(w.accounts[x].lo) + 1)
      ensures crashed ==> Unheld(old(w), LIBDL) && Exhausted(w)
      decreases w.accounts[x].rank, 0
    {
      ghost var v := Releasing(w, leaving, x, y);
      w := v;
      var loaded := FindLoaded(y);
      if loaded {
        Unload(y, leaving);
        if crashed {
          UnheldBefore(old(w), v, x, old(w.accounts[x].lo) + 1);
        } else {
          ShrinksThrough(old(w), v, w, x, old(w.accounts[x].lo) + 1);
        }
      }
    }

    /** soinfo_free: take x out of the list. */
    method Free(x: Name, ghost leaving: set<Name>)
      requires Consistent(Unloading(leaving + {x}, leaving + {x})) && x !in leaving
      requires Known(w, x) && w.accounts[x].lo == w.accounts[x].hi
      modifies this`names, this`libs, this`w
      ensures Consistent(Unloading(leaving, leaving)) && Shrinks(old(w), w, {}) && x !in w.libs
    {
      ghost var v := Freeing(w, leaving, x);
      Erase(x);
      w := v;
    }

    /** The entry of x leaves the list. */
    method Erase(x: Name)
      requires Listed(names, libs) && x in names && x != LIBDL
      modifies this`names, this`libs
      ensures Listed(names, libs) && libs == old(libs) - {x} && |names| == |old(names)| - 1
    {
      var k := 0;
      while names[k] != x
        invariant 0 <= k < |names| && x in names[k..]
        decreases |names| - k
      {
        k := k + 1;
      }
      ListedLess(names, libs, k);
      names, libs := names[..k] + names[k + 1..], libs - {x};
    }

    /** soinfo_call_constructors: the libraries that x needs come first. */
    method CallConstructors(x: Name, ghost starting: set<Name>, ghost loose: set<Name>)
      requires Consistent(Constructing(starting, loose)) && BelowAll(w, starting, x) && Ready(libs[x])
      modifies this`libs, this`w
      ensures Consistent(Constructing(starting, loose)) && Builds(old(w), w) && Constructed(w, starting, x)
      ensures Runs(old(w), w, x, w.accounts[x].rank + 1)
      decreases w.accounts[x].rank, 2
    {
      if libs[x].constructed {
        BuildsNot(w);
        return;
      }
      ghost var v := Beginning(w, starting, loose, x);
      ListedSame(names, libs, x, libs[x].(constructed := true));
      libs := libs[x := libs[x].(constructed := true)];
      w := v;
      BelowOn(old(w), v, starting, x);
      ConstructNeeded(x, starting, loose);
      ghost var u := w;
      BuildsOn(old(w), v, u);
      v := Completing(w, starting, loose, x);
      w := v;
      BuildsOn(old(w), u, w);
      assert RunsVia(old(w), u, w, x, w.accounts[x].rank) && RunsAnew(old(w), w, x, w.accounts[x].rank);
    }

    method ConstructNeeded(x: Name, ghost starting: set<Name>, ghost loose: set<Name>)
      requires Consistent(Constructing(starting + {x}, loose)) && BelowAll(w, starting, x) && Ready(libs[x])
               && libs[x].constructed
      modifies this`libs, this`w
      ensures Consistent(Constructing(starting + {x}, loose)) && Builds(old(w), w)
      ensures StartedUpTo(w, starting + {x}, x, |w.libs[x].needed|) && libs[x].constructed
      ensures RunInTurn(old(w), w, old(libs[x].needed), w.accounts[x].rank)
      decreases w.accounts[x].rank, 1
    {
      BuildsNot(w);
      ghost var needed := libs[x].needed;
      NoTurns(w, needed, w.accounts[x].rank);
      for k := 0 to |libs[x].needed|
        invariant Consistent(Constructing(starting + {x}, loose)) && Builds(old(w), w)
        invariant Flagged(old(w), w, x) && StartedUpTo(w, starting + {x}, x, k)
        invariant RunInTurn(old(w), w, needed[..k], w.accounts[x].rank)
      {
        ghost var u := w;
        BelowOn(old(w), w, starting, x);
        ConstructNext(x, k, starting, loose);
        BuildsOn(old(w), u, w);
        assert Flagged(old(w), w, x);
        NextTurn(old(w), u, w, needed, k, w.accounts[x].rank);
      }
      AllTurns(old(w), w, needed, w.accounts[x].rank);
    }

    method ConstructNext(x: Name, k: nat, ghost starting: set<Name>, ghost loose: set<Name>)
      requires Consistent(Constructing(starting + {x}, loose)) && BelowAll(w, starting, x) && Ready(libs[x])
               && libs[x].constructed
      requires k < |libs[x].needed| && StartedUpTo(w, starting + {x}, x, k)
      modifies this`libs, this`w
      ensures Consistent(Constructing(starting + {x}, loose)) && Builds(old(w), w)
              && StartedUpTo(w, starting + {x}, x, k + 1)
      ensures Runs(old(w), w, old(libs[x].needed[k]), w.accounts[x].rank)
      decreases w.accounts[x].rank, 0
    {
      NextBelow(w, starting, loose, x, k);
      var y := libs[x].needed[k];
      var loaded := FindLoaded(y);
      if loaded {
        CallConstructors(y, starting + {x}, loose);
        StartedOn(old(w), w, starting + {x}, x, k);
        assert Flagged(old(w), w, x);
        RunsDeeper(old(w), w, y, w.accounts[y].rank + 1, w.accounts[x].rank);
      }
    }

    // ---- The interface to programs ---------------------------------------------------------

    ghost predicate Valid()
      reads this
    {
      Consistent(IDLE) && !crashed && MainOk(w, somain)
    }

    /** dlopen; without a path it opens the main program. */
    method DlOpen(path: Option<string>, files: Files) returns (h: Option<Name>)
      requires Valid()
      modifies this
      ensures Valid() && somain == old(somain) && OpensOnly(old(w), w, h)
      ensures h == if path.None? then somain
        else if key(path.value) in libs && Ready(libs[key(path.value)]) then Some(key(path.value)) else None
      ensures h.Some? ==> libs[h.value].constructed && NewReady(old(w), w)
      ensures if h.Some? then LinkedAndRun(old(w), w, h.value) else w.log == old(w.log)
      ensures path.Some? && Loadable(key, old(libs), files, path.value) ==> h.Some?
      ensures path.Some? && h.Some? ==> Fetched(key, old(libs), libs, files, path.value)
      ensures path.Some? && OnePerName(key, files) ==> (h.Some? <==> Loadable(key, old(libs), files, path.value))
    {
      if path.None? {
        h := somain;
        OpenMain();
      } else {
        h := OpenPath(path.value, files);
      }
    }

    /** dlopen of the main program: it is in the list and constructed. */
    method OpenMain()
      requires Valid()
      modifies this`libs, this`w
      ensures Valid() && OpensOnly(old(w), w, somain) && libs[somain.value].constructed && NewReady(old(w), w)
      ensures LinkedAndRun(old(w), w, somain.value)
    {
      ghost var u := w;
      var n := somain.value;
      GrowsNot(w, IDLE, {});
      Loosened(w, Loading({}, {}), n);
      assert {} + {n} == {n};
      ConstructAndCount(n);
      NothingNew(u, w);
      MainStays(old(w), w, somain, somain);
    }

    method OpenPath(path: string, files: Files) returns (h: Option<Name>)
      requires Valid()
      modifies this`names, this`libs, this`w
      ensures Valid() && OpensOnly(old(w), w, h)
      ensures h == if key(path) in libs && Ready(libs[key(path)]) then Some(key(path)) else None
      ensures h.Some? ==> libs[key(path)].constructed && NewReady(old(w), w)
      ensures if h.Some? then LinkedAndRun(old(w), w, h.value) else w.log == old(w.log)
      ensures Loadable(key, old(libs), files, path) ==> h.Some?
      ensures h.Some? ==> Fetched(key, old(libs), libs, files, path)
      ensures OnePerName(key, files) ==> (h.Some? <==> Loadable(key, old(libs), files, path))
    {
      ghost var plan := AnyPlan(key, libs, files, path);
      ghost var steps;
      h, steps := OpenNamed(path, files, plan);
      PlanAnswered(key, old(libs), libs, names, files, path, plan, steps, h.Some?);
    }

    method OpenNamed(path: string, files: Files, ghost plan: seq<string>) returns (h: Option<Name>, ghost steps: seq<string>)
      requires Valid()
      modifies this`names, this`libs, this`w
      ensures Valid() && OpensOnly(old(w), w, h)
      ensures h == if key(path) in libs && Ready(libs[key(path)]) then Some(key(path)) else None
      ensures h.Some? ==> libs[key(path)].constructed && NewReady(old(w), w)
      ensures if h.Some? then LinkedAndRun(old(w), w, h.value) else w.log == old(w.log)
      ensures Told(key, old(libs), libs, files, plan, |plan|, [path], steps, h.Some?)
      ensures h.Some? ==> LastIs(key, old(libs), steps, path)
    {
      h, steps := FindLibrary(path, files, {}, plan, |plan|);
      if h.None? {
        BuildsNot(w);
        GrownAndBuilt(old(w), IDLE, w, w);
        MainStays(old(w), w, h, somain);
        return;
      }
      ghost var u, l := w, libs;
      BuildsNot(w);
      GrownAndBuilt(old(w), IDLE, w, w);
      ConstructAndCount(key(path));
      ToldSame(key, old(libs), l, libs, files, plan, |plan|, [path], steps, true);
      OpensOn(old(w), u, w, h);
      NewReadyOpened(old(w), u, w, h);
      MainStays(old(w), w, h, somain);
    }

    method ConstructAndCount(n: Name)
      requires Consistent(Constructing({}, {n})) && n in libs && Ready(libs[n])
      modifies this`libs, this`w
      ensures Consistent(IDLE) && OpensOnly(old(w), w, Some(n)) && n in libs && Ready(libs[n]) && libs[n].constructed
      ensures forall w0: World :: Grows(w0, old(w), {}) ==> LinkedAndRun(w0, w, n)
      ensures w.libs.Keys == old(w.libs.Keys) && SameHad(old(libs), libs)
    {
      ConstructOne(n);
      ghost var u := w;
      CountOpen(n);
      OpensOn(old(w), u, w, Some(n));
      SameHadOn(old(w).libs, u.libs, libs);
    }

    method ConstructOne(n: Name)
      requires Consistent(Constructing({}, {n})) && n in libs && Ready(libs[n])
      modifies this`libs, this`w
      ensures Consistent(Constructing({}, {n})) && Constructed(w, {}, n) && OpensOnly(old(w), w, None)
      ensures Ready(libs[n]) && libs[n].constructed && w.libs.Keys == old(w.libs.Keys) && SameHad(old(libs), libs)
      ensures Runs(old(w), w, n, w.accounts[n].rank + 1)
    {
      ghost var u := w;
      GrowsNot(w, Constructing({}, {n}), {});
      InList(w, Constructing({}, {n}), n);
      CallConstructors(n, {}, {n});
      assert Flagged(u, w, n);
      GrownAndBuilt(u, IDLE, u, w);
      BuildsSame(u, w);
    }

    /** ret->refcount++ */
    method CountOpen(n: Name)
      requires Consistent(Constructing({}, {n})) && Constructed(w, {}, n) && n in libs
      modifies this`libs, this`w
      ensures Consistent(IDLE) && OpensOnly(old(w), w, Some(n)) && w.libs.Keys == old(w.libs.Keys) && w.log == old(w.log)
      ensures n in libs && libs[n] == old(libs[n]).(refcount := old(libs[n].refcount) + 1) && SameHad(old(libs), libs)
    {
      ghost var v := Opening(w, n);
      ListedSame(names, libs, n, libs[n].(refcount := libs[n].refcount + 1));
      libs := libs[n := libs[n].(refcount := libs[n].refcount + 1)];
      w := v;
    }

    /** dlclose, of a library that is open. */
    method DlClose(h: Name)
      requires Valid() && Opens(w, h) > 0
      modifies this`names, this`libs, this`w, this`crashed
      ensures !crashed ==> Valid()
      ensures !crashed ==> ClosesOnly(old(w), w, h) && old(w.log) <= w.log
      ensures crashed ==> Pins(old(w), LIBDL) == 0 && Opens(old(w), LIBDL) <= One(h == LIBDL) && Exhausted(w)
    {
      ghost var v := Unopening(w, h);
      w := v;
      Unload(h, {});
      if !crashed {
        Closed(v, w);
        CloseRemains(old(w), v, w, h, somain);
      }
    }

    // ---- Program start ---------------------------------------------------------------------

    constructor ()
      ensures Consistent(IDLE) && !crashed && names == [LIBDL] && somain.None?
      ensures key == Key
    {
      key := Key;
      names, libs, somain, crashed := [LIBDL], map[LIBDL := Soinfo([], true, false, 0, false)], None, false;
      w := InitialWorld();
      new;
      InitialOk();
    }

    /** __linker_init_post_relocation: on failure the process exits, before any constructor has run. */
    method Start(argv0: string, image: Image, preloads: seq<string>, files: Files) returns (ok: bool)
      requires Consistent(IDLE) && !crashed && names == [LIBDL] && Name(argv0) != LIBDL
      modifies this
      ensures w.libs == libs
      ensures ok <==> |argv0| < SOINFO_NAME_LEN && Startable(w, Name(argv0), image, Keys(key, preloads))
      ensures ok ==> Valid() && somain == Some(Name(argv0))
                     && Running(old(w), w, Name(argv0), Keys(key, image.needed), Keys(key, preloads))
      ensures !ok ==> w.log == old(w.log)
      ensures |argv0| < SOINFO_NAME_LEN ==>
                StartTold(key, Entered(key, old(libs), Name(argv0), image), libs, image, preloads + image.needed, files, ok)
    {
      if |argv0| >= SOINFO_NAME_LEN {
        return false;
      }
      ok := Boot(Name(argv0), image, preloads, files);
    }

    method Boot(exe: Name, image: Image, preloads: seq<string>, files: Files)
      returns (ok: bool)
      requires Consistent(IDLE) && !crashed && names == [LIBDL] && exe != LIBDL
      modifies this
      ensures w.libs == libs && (ok <==> Startable(w, exe, image, Keys(key, preloads)))
      ensures ok ==> Valid() && somain == Some(exe) && Running(old(w), w, exe, Keys(key, image.needed), Keys(key, preloads))
      ensures !ok ==> w.log == old(w.log)
      ensures StartTold(key, Entered(key, old(libs), exe, image), libs, image, preloads + image.needed, files, ok)
    {
      ghost var w0 := w;
      Enter(exe, Keys(key, image.needed));
      assert libs == Entered(key, old(libs), exe, image);
      ok := BootEntered(exe, image, preloads, files, w0);
    }

    /** The main program is in the list; now it is linked. */
    method BootEntered(exe: Name, image: Image, preloads: seq<string>, files: Files, ghost w0: World)
      returns (ok: bool)
      requires Consistent(Loading({exe}, {})) && !crashed && exe in libs && libs[exe].needed == Keys(key, image.needed)
      requires Booting(w, exe, libs[exe].needed) && Preloaded(w0, w, exe, Keys(key, preloads), 0)
      modifies this
      ensures w.libs == libs && (ok <==> Startable(w, exe, image, Keys(key, preloads)))
      ensures ok ==> Valid() && somain == Some(exe) && Running(w0, w, exe, Keys(key, image.needed), Keys(key, preloads))
      ensures !ok ==> w.log == w0.log
      ensures StartTold(key, old(libs), libs, image, preloads + image.needed, files, ok)
    {
      ghost var plan := AnyPlanAll(key, libs, files, preloads + image.needed);
      ghost var steps, had, l;
      ok, steps, had, l := LinkExecutable(exe, image, preloads, files, w0, plan);
      if ok {
        ghost var v := libs;
        Launch(exe, image, preloads, w0);
        StartAnswered(key, old(libs), l, v, libs, names, exe, image, preloads + image.needed, files, plan, steps, had);
      } else {
        StartRefused(key, old(libs), l, libs, exe, image, preloads + image.needed, files, plan, steps, had);
      }
    }

    /** What follows a successful link: the constructors. */
    method Launch(exe: Name, image: Image, preloads: seq<string>, ghost w0: World)
      requires Consistent(Constructing({}, {exe})) && IsReady(w, exe) && Pins(w, exe) > 0 && !crashed
      requires w.libs[exe].needed == Keys(key, image.needed) && Preloaded(w0, w, exe, Keys(key, preloads), |preloads|)
      requires Startable(w, exe, image, Keys(key, preloads)) && w.log == w0.log
      modifies this`libs, this`w, this`somain
      ensures Valid() && somain == Some(exe) && Startable(w, exe, image, Keys(key, preloads))
      ensures Running(w0, w, exe, Keys(key, image.needed), Keys(key, preloads))
      ensures forall n :: n in libs <==> n in old(libs)
    {
      ghost var u := w;
      RunConstructors(exe, Keys(key, preloads));
      somain := Some(exe);
      RunningNow(w0, u, w, exe, Keys(key, image.needed), Keys(key, preloads), image);
    }

    /** soinfo_link_image, of the main program: the preloads come before what it needs. */
    method LinkExecutable(exe: Name, image: Image, preloads: seq<string>, files: Files, ghost w0: World,
            ghost plan: seq<string>)
      returns (ok: bool, ghost steps: seq<string>, ghost had: bool, ghost l: Libs)
      requires Consistent(Loading({exe}, {})) && exe in libs && libs[exe].needed == Keys(key, image.needed)
      requires Booting(w, exe, libs[exe].needed) && Preloaded(w0, w, exe, Keys(key, preloads), 0)
      modifies this`names, this`libs, this`w
      ensures w.libs == libs && w.log == w0.log && (ok <==> Startable(w, exe, image, Keys(key, preloads)))
      ensures ok ==> Consistent(Constructing({}, {exe})) && IsReady(w, exe) && Pins(w, exe) > 0
                     && w.libs[exe].needed == old(libs[exe].needed) && Preloaded(w0, w, exe, Keys(key, preloads), |preloads|)
      ensures LinkTold(key, old(libs), l, libs, exe, image, preloads + image.needed, files, plan, |plan|, steps, had)
              && (ok <==> Finished(l, libs, exe))
    {
      var keys := Keys(key, preloads);
      steps, had, l := [], false, libs;
      FinishedIs(libs, libs, exe);
      if !image.tables {
        return false, steps, had, l;
      }
      ok, steps := LoadPreloads(exe, preloads, files, w0, plan);
      if ok {
        ghost var u, l1, more := w, libs, [];
        ok, more, had, l := LinkNeeded(exe, image, files, {exe}, plan, |plan|);
        ReadyGrown(u, w, keys, |keys|, exe);
        PreloadedOn(w0, u, w, exe, keys, |keys|, {exe});
        assert {exe} - {exe} == {};
        ToldOn(key, old(libs), l1, l, files, plan, |plan|, preloads, steps, image.needed, more, had);
        steps := steps + more;
      } else {
        l := libs;
        FinishedIs(libs, libs, exe);
        ToldFailed(key, old(libs), libs, files, plan, |plan|, preloads, steps, image.needed);
      }
    }

    /** The main program's own entry, with its first reference. */
    method Enter(exe: Name, needed: seq<Name>)
      requires Consistent(IDLE) && names == [LIBDL] && exe != LIBDL
      modifies this`names, this`libs, this`w
      ensures Consistent(Loading({exe}, {})) && Booting(w, exe, needed)
      ensures libs == old(libs)[exe := Soinfo(needed, false, false, 1, false)]
      ensures forall keys: seq<Name> :: Preloaded(old(w), w, exe, keys, 0)
    {
      var s := Soinfo(needed, false, false, 1, false);
      Appears(w, IDLE, exe, needed);
      assert {} + {exe} == {exe};
      ghost var v := Pinning(Appear(w, exe, needed), {exe}, {}, exe);
      ListedMore(names, libs, exe, s);
      names, libs := names + [exe], libs[exe := s];
      w := v;
    }

    method LoadPreloads(exe: Name, preloads: seq<string>, files: Files, ghost w0: World, ghost plan: seq<string>)
      returns (ok: bool, ghost steps: seq<string>)
      requires Consistent(Loading({exe}, {})) && exe in libs
               && Booting(w, exe, libs[exe].needed) && Preloaded(w0, w, exe, Keys(key, preloads), 0)
      modifies this`names, this`libs, this`w
      ensures ok ==> Consistent(Loading({exe}, {})) && Booting(w, exe, old(libs[exe].needed))
                     && Preloaded(w0, w, exe, Keys(key, preloads), |preloads|)
      ensures w.libs == libs && w.log == w0.log && (ok <==> AllReady(w, Keys(key, preloads), |preloads|))
      ensures exe in libs && !libs[exe].linked
      ensures Told(key, old(libs), libs, files, plan, |plan|, preloads, steps, ok)
    {
      var keys := Keys(key, preloads);
      ToldNothing(key, libs, files, plan, |plan|);
      steps := [];
      for i := 0 to |keys|
        invariant Consistent(Loading({exe}, {})) && Booting(w, exe, old(libs[exe].needed)) && AllReady(w, keys, i)
        invariant Preloaded(w0, w, exe, keys, i)
        invariant Told(key, old(libs), libs, files, plan, |plan|, preloads[..i], steps, true)
      {
        ghost var l, more := libs, [];
        ok, more := PreloadOne(exe, preloads, i, files, w0, plan);
        ToldNext(key, old(libs), l, libs, files, plan, |plan|, preloads, i, steps, more, ok);
        steps := steps + more;
        if !ok {
          assert keys[i] == key(preloads[i]);
          return;
        }
      }
      assert preloads[..|preloads|] == preloads;
      ok := true;
    }

    method PreloadOne(exe: Name, preloads: seq<string>, i: nat, files: Files, ghost w0: World, ghost plan: seq<string>)
      returns (ok: bool, ghost steps: seq<string>)
      requires Consistent(Loading({exe}, {})) && i < |preloads| && exe in libs && Booting(w, exe, libs[exe].needed)
               && AllReady(w, Keys(key, preloads), i) && Preloaded(w0, w, exe, Keys(key, preloads), i)
      modifies this`names, this`libs, this`w
      ensures ok ==> Consistent(Loading({exe}, {})) && Booting(w, exe, old(libs[exe].needed))
                     && AllReady(w, Keys(key, preloads), i + 1) && Preloaded(w0, w, exe, Keys(key, preloads), i + 1)
      ensures !ok ==> w.libs == libs && w.log == w0.log && !IsReady(w, key(preloads[i]))
      ensures exe in libs && !libs[exe].linked
      ensures Told(key, old(libs), libs, files, plan, |plan|, [preloads[i]], steps, ok)
    {
      ghost var u := w;
      var r;
      r, steps := FindLibrary(preloads[i], files, {exe}, plan, |plan|);
      BootingOn(u, w, exe, Keys(key, preloads), i);
      PreloadedOn(w0, u, w, exe, Keys(key, preloads), i, {});
      if r.None? {
        return false, steps;
      }
      ghost var l := libs;
      CountPreload(exe, Keys(key, preloads), i, w0);
      ToldSame(key, old(libs), l, libs, files, plan, |plan|, [preloads[i]], steps, true);
      return true, steps;
    }

    /** The program's own reference on a preload. */
    method CountPreload(exe: Name, keys: seq<Name>, i: nat, ghost w0: World)
      requires i < |keys| && Consistent(Loading({exe}, {keys[i]})) && exe in libs && Booting(w, exe, libs[exe].needed)
      requires AllReady(w, keys, i) && Preloaded(w0, w, exe, keys, i) && IsReady(w, keys[i])
      modifies this`libs, this`w
      ensures Consistent(Loading({exe}, {})) && Booting(w, exe, old(libs[exe].needed)) && AllReady(w, keys, i + 1)
      ensures Preloaded(w0, w, exe, keys, i + 1) && SameHad(old(libs), libs)
    {
      ghost var u := w;
      ghost var v := Pinning(w, {exe}, {keys[i]}, keys[i]);
      CountSame(libs, libs, keys[i]);
      ListedSame(names, libs, keys[i], libs[keys[i]].(refcount := libs[keys[i]].refcount + 1));
      libs := libs[keys[i] := libs[keys[i]].(refcount := libs[keys[i]].refcount + 1)];
      w := v;
      PinnedOn(u, w, keys[i], exe, keys, i);
      PreloadedOneMore(w0, u, w, exe, keys, i);
    }

    /** The constructors of the preloads, and then of the program. */
    method RunConstructors(exe: Name, keys: seq<Name>)
      requires Consistent(Constructing({}, {exe})) && AllReady(w, keys, |keys|) && IsReady(w, exe) && Pins(w, exe) > 0
      modifies this`libs, this`w
      ensures Consistent(IDLE) && MainOk(w, Some(exe)) && Builds(old(w), w) && AllBuilt(w, keys, |keys|)
      ensures RunAll(old(w), w, keys + [exe])
    {
      ConstructPreloads(exe, keys);
      ghost var u := w;
      InList(w, Constructing({}, {exe}), exe);
      CallConstructors(exe, {}, {exe});
      BuiltOn(u, w, keys, |keys|);
      BuildsOn(old(w), u, w);
      ProgramLast(old(w), u, w, keys, exe, w.accounts[exe].rank + 1);
      assert Flagged(u, w, exe);
      Tightened(w, exe);
    }

    method ConstructPreloads(exe: Name, keys: seq<Name>)
      requires Consistent(Constructing({}, {exe})) && AllReady(w, keys, |keys|) && IsReady(w, exe) && Pins(w, exe) > 0
      modifies this`libs, this`w
      ensures Consistent(Constructing({}, {exe})) && IsReady(w, exe) && Pins(w, exe) > 0
      ensures Builds(old(w), w) && AllBuilt(w, keys, |keys|) && RunAll(old(w), w, keys[..|keys|])
    {
      BuildsNot(w);
      NoTurns(w, keys, 0);
      for i := 0 to |keys|
        invariant Consistent(Constructing({}, {exe})) && AllReady(w, keys, |keys|) && IsReady(w, exe)
                  && Pins(w, exe) > 0
        invariant Builds(old(w), w) && AllBuilt(w, keys, i) && RunAll(old(w), w, keys[..i])
      {
        ghost var u := w;
        ConstructPreload(exe, keys, i);
        BuildsOn(old(w), u, w);
        RunAllNext(old(w), u, w, keys, i, w.accounts[keys[i]].rank + 1);
      }
    }

    method ConstructPreload(exe: Name, keys: seq<Name>, i: nat)
      requires Consistent(Constructing({}, {exe})) && AllReady(w, keys, |keys|) && IsReady(w, exe) && Pins(w, exe) > 0
      requires i < |keys| && AllBuilt(w, keys, i)
      modifies this`libs, this`w
      ensures Consistent(Constructing({}, {exe})) && AllReady(w, keys, |keys|) && IsReady(w, exe) && Pins(w, exe) > 0
      ensures Builds(old(w), w) && AllBuilt(w, keys, i + 1) && keys[i] in w.accounts
      ensures Runs(old(w), w, keys[i], w.accounts[keys[i]].rank + 1)
    {
      ghost var u := w;
      assert IsReady(w, keys[i]);
      InList(w, Constructing({}, {exe}), keys[i]);
      CallConstructors(keys[i], {}, {exe});
      ReadyBuilt(u, w, keys, |keys|);
      BuiltOn(u, w, keys, i);
      assert Flagged(u, w, exe);
    }
  }
}
