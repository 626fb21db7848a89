/** Which libraries can be loaded, said of the list and the files before the call: an order in which the
    missing ones can be linked, each in order by itself and after everything it needs. */
module LinkerPlans {
  import opened LinkerState
  import opened LinkerCalls

  type Libs = map<Name, Soinfo>

  /** The library is in the list and usable. */
  ghost predicate Had(libs: Libs, n: Name) {
    n in libs && Ready(libs[n])
  }

  /** Every library is as usable as before, and all that came are usable. */
  ghost predicate Extends(l0: Libs, l1: Libs) {
    && (forall k {:trigger Had(l0, k)} {:trigger Had(l1, k)} :: k in l0 ==> k in l1 && (Had(l1, k) <==> Had(l0, k)))
    && (forall k {:trigger Had(l1, k)} :: k in l1 && k !in l0 ==> Had(l1, k))
  }

  /** The library n is one of the first m of the plan. */
  ghost predicate Early(key: Names, plan: seq<string>, m: nat, n: Name) {
    exists j {:trigger plan[j]} :: 0 <= j < m <= |plan| && key(plan[j]) == n
  }

  ghost predicate NamesDiffer(key: Names, plan: seq<string>) {
    forall i, j {:trigger plan[i], plan[j]} :: 0 <= i < j < |plan| ==> key(plan[i]) != key(plan[j])
  }

  /** The file under that path is in order, and its name fits. */
  predicate Orderly(key: Names, files: Files, path: string) {
    && files(path).Some? && files(path).value.tables && files(path).value.relocates && files(path).value.protects
    && |key(path).text| < SOINFO_NAME_LEN
  }

  /** The DT_NEEDED entries of the file under that path. */
  function Needs(files: Files, path: string): seq<string> {
    if files(path).Some? then files(path).value.needed else []
  }

  // ---- What has been loaded ----------------------------------------------------------------

  /** Number i of the plan was missing and can be linked once those before it have been. */
  ghost predicate GoodStep(key: Names, l0: Libs, files: Files, plan: seq<string>, i: nat)
    requires i < |plan|
  {
    key(plan[i]) !in l0 && Orderly(key, files, plan[i]) && GoodNeeds(key, l0, plan, i, Needs(files, plan[i]))
  }

  ghost predicate GoodNeeds(key: Names, l0: Libs, plan: seq<string>, m: nat, needs: seq<string>) {
    forall k {:trigger GoodNeed(key, l0, plan, m, needs[k])} :: 0 <= k < |needs| ==> GoodNeed(key, l0, plan, m, needs[k])
  }

  ghost predicate GoodNeed(key: Names, l0: Libs, plan: seq<string>, m: nat, need: string) {
    Had(l0, key(need)) || Early(key, plan, m, key(need))
  }

  ghost predicate GoodPlan(key: Names, l0: Libs, files: Files, plan: seq<string>) {
    && NamesDiffer(key, plan)
    && forall i: nat {:trigger GoodStep(key, l0, files, plan, i)} :: i < |plan| ==> GoodStep(key, l0, files, plan, i)
  }

  /** The list grew from l0 to l1 by exactly the libraries of the plan. */
  ghost predicate LoadedBy(key: Names, l0: Libs, l1: Libs, files: Files, plan: seq<string>) {
    GoodPlan(key, l0, files, plan) && forall n {:trigger n in l1} :: n in l1 <==> n in l0 || Early(key, plan, |plan|, n)
  }

  lemma ExtendsOn(l0: Libs, u: Libs, v: Libs)
    requires Extends(l0, u) && Extends(u, v)
    ensures Extends(l0, v)
  {
    forall k | k in v ensures (k in l0 ==> (Had(v, k) <==> Had(l0, k))) && (k !in l0 ==> Had(v, k)) {
      assert k in l0 ==> (Had(u, k) <==> Had(l0, k));
      assert k in u ==> (Had(v, k) <==> Had(u, k));
    }
    forall k | k in l0 ensures k in v {
      assert Had(u, k) <==> Had(l0, k);
      assert Had(v, k) <==> Had(u, k);
    }
  }

  lemma EarlyInFront(key: Names, plan: seq<string>, more: seq<string>, m: nat, n: Name)
    requires m <= |plan| && Early(key, plan, m, n)
    ensures Early(key, plan + more, m, n)
  {
    var j :| 0 <= j < m && key(plan[j]) == n;
    assert key((plan + more)[j]) == n;
  }

  lemma EarlyBehind(key: Names, plan: seq<string>, more: seq<string>, m: nat, n: Name)
    requires m <= |more| && Early(key, more, m, n)
    ensures Early(key, plan + more, |plan| + m, n)
  {
    var j :| 0 <= j < m && key(more[j]) == n;
    assert key((plan + more)[|plan| + j]) == n;
  }

  lemma EarlyMore(key: Names, plan: seq<string>, m: nat, k: nat, n: Name)
    requires m <= k <= |plan| && Early(key, plan, m, n)
    ensures Early(key, plan, k, n)
  {
    var j :| 0 <= j < m && key(plan[j]) == n;
  }

  lemma EarlyConcat(key: Names, plan: seq<string>, more: seq<string>, n: Name)
    ensures Early(key, plan + more, |plan + more|, n) <==> Early(key, plan, |plan|, n) || Early(key, more, |more|, n)
  {
    if Early(key, plan + more, |plan + more|, n) {
      var j :| 0 <= j < |plan + more| && key((plan + more)[j]) == n;
      if j < |plan| {
        assert key(plan[j]) == n;
      } else {
        assert key(more[j - |plan|]) == n;
      }
    }
    if Early(key, plan, |plan|, n) {
      EarlyInFront(key, plan, more, |plan|, n);
      EarlyMore(key, plan + more, |plan|, |plan + more|, n);
    }
    if Early(key, more, |more|, n) {
      EarlyBehind(key, plan, more, |more|, n);
    }
  }

  /** A step of the second plan, after the first. */
  lemma StepBehind(key: Names, l0: Libs, u: Libs, files: Files, plan: seq<string>, more: seq<string>, i: nat)
    requires LoadedBy(key, l0, u, files, plan) && Extends(l0, u) && i < |more| && GoodStep(key, u, files, more, i)
    ensures GoodStep(key, l0, files, plan + more, |plan| + i)
  {
    var all, needs := plan + more, Needs(files, more[i]);
    assert all[|plan| + i] == more[i];
    forall k | 0 <= k < |needs| ensures GoodNeed(key, l0, all, |plan| + i, needs[k]) {
      NeedBehind(key, l0, u, files, plan, more, i, needs[k]);
    }
  }

  lemma NeedBehind(key: Names, l0: Libs, u: Libs, files: Files, plan: seq<string>, more: seq<string>, i: nat, need: string)
    requires LoadedBy(key, l0, u, files, plan) && Extends(l0, u) && i <= |more| && GoodNeed(key, u, more, i, need)
    ensures GoodNeed(key, l0, plan + more, |plan| + i, need)
  {
    var n := key(need);
    if Early(key, more, i, n) {
      EarlyBehind(key, plan, more, i, n);
    } else if n in l0 {
      assert Had(u, n) <==> Had(l0, n);
    } else {
      EarlyInFront(key, plan, more, |plan|, n);
      EarlyMore(key, plan + more, |plan|, |plan| + i, n);
    }
  }

  lemma StepInFront(key: Names, l0: Libs, files: Files, plan: seq<string>, more: seq<string>, i: nat)
    requires i < |plan| && GoodStep(key, l0, files, plan, i)
    ensures GoodStep(key, l0, files, plan + more, i)
  {
    assert (plan + more)[i] == plan[i];
    var needs := Needs(files, plan[i]);
    forall k | 0 <= k < |needs| ensures GoodNeed(key, l0, plan + more, i, needs[k]) {
      assert GoodNeed(key, l0, plan, i, needs[k]);
      if Early(key, plan, i, key(needs[k])) {
        EarlyInFront(key, plan, more, i, key(needs[k]));
      }
    }
  }

  lemma NamesConcat(key: Names, l0: Libs, u: Libs, v: Libs, files: Files, plan: seq<string>, more: seq<string>)
    requires LoadedBy(key, l0, u, files, plan) && LoadedBy(key, u, v, files, more)
    ensures NamesDiffer(key, plan + more)
  {
    var all := plan + more;
    forall i, j | 0 <= i < j < |all| ensures key(all[i]) != key(all[j]) {
      if i < |plan| <= j {
        assert all[i] == plan[i] && all[j] == more[j - |plan|];
        assert Early(key, plan, |plan|, key(plan[i]));
        assert GoodStep(key, u, files, more, j - |plan|);
      } else if j < |plan| {
        assert all[i] == plan[i] && all[j] == plan[j];
      } else {
        assert all[i] == more[i - |plan|] && all[j] == more[j - |plan|];
      }
    }
  }

  /** Two loads one after the other. */
  lemma LoadedOn(key: Names, l0: Libs, u: Libs, v: Libs, files: Files, plan: seq<string>, more: seq<string>)
    requires LoadedBy(key, l0, u, files, plan) && LoadedBy(key, u, v, files, more) && Extends(l0, u)
    ensures LoadedBy(key, l0, v, files, plan + more)
  {
    NamesConcat(key, l0, u, v, files, plan, more);
    forall n ensures n in v <==> n in l0 || Early(key, plan + more, |plan + more|, n) {
      EarlyConcat(key, plan, more, n);
      assert n in u <==> n in l0 || Early(key, plan, |plan|, n);
    }
    forall i: nat | i < |plan + more| ensures GoodStep(key, l0, files, plan + more, i) {
      if i < |plan| {
        assert GoodStep(key, l0, files, plan, i);
        StepInFront(key, l0, files, plan, more, i);
      } else {
        assert GoodStep(key, u, files, more, i - |plan|);
        StepBehind(key, l0, u, files, plan, more, i - |plan|);
      }
    }
  }

  lemma NothingLoaded(key: Names, l: Libs, files: Files)
    ensures LoadedBy(key, l, l, files, []) && Extends(l, l)
  {
  }

  /** v is u but for the entry of n, which is now usable. */
  ghost predicate Finished(u: Libs, v: Libs, n: Name) {
    && Had(v, n)
    && forall k {:trigger Had(v, k)} {:trigger Had(u, k)} :: k != n ==> (k in v <==> k in u) && (Had(v, k) <==> Had(u, k))
  }

  /** Only the entry of n has changed. */
  ghost predicate OthersSame(u: Libs, v: Libs, n: Name) {
    && (forall k {:trigger k in v} {:trigger k in u} :: k in v <==> k in u)
    && (forall k {:trigger Had(v, k)} {:trigger Had(u, k)} :: k != n ==> (Had(v, k) <==> Had(u, k)))
  }

  lemma FinishedIs(u: Libs, v: Libs, n: Name)
    requires OthersSame(u, v, n)
    ensures Finished(u, v, n) <==> Had(v, n)
    ensures forall k {:trigger k in v} :: k in v ==> k in u
  {
  }

  lemma OthersSameOn(l: Libs, u: Libs, v: Libs, n: Name)
    requires OthersSame(l, u, n) && OthersSame(u, v, n)
    ensures OthersSame(l, v, n)
  {
    forall k ensures (k in v <==> k in l) && (k != n ==> (Had(v, k) <==> Had(l, k))) {
      assert k != n ==> (Had(u, k) <==> Had(l, k));
      assert k in u <==> k in l;
    }
  }

  ghost predicate AllHad(key: Names, l: Libs, needs: seq<string>) {
    forall k {:trigger needs[k]} :: 0 <= k < |needs| ==> Had(l, key(needs[k]))
  }

  /** The library itself comes last, after everything it needs. */
  lemma LoadedTop(key: Names, l0: Libs, n: Name, s: Soinfo, u: Libs, v: Libs, files: Files, plan: seq<string>, path: string)
    requires n !in l0 && n == key(path) && !Ready(s) && Orderly(key, files, path)
    requires Extends(l0[n := s], u) && LoadedBy(key, l0[n := s], u, files, plan)
    requires AllHad(key, u, Needs(files, path)) && Finished(u, v, n)
    ensures Extends(l0, v) && LoadedBy(key, l0, v, files, plan + [path])
  {
    TopExtends(l0, n, s, u, v);
    TopPlan(key, l0, n, s, u, files, plan, path);
    forall k ensures k in v <==> k in l0 || Early(key, plan + [path], |plan + [path]|, k) {
      EarlyConcat(key, plan, [path], k);
      assert Early(key, [path], 1, k) <==> k == n by {
        assert [path][0] == path;
      }
      assert Had(v, k) <==> (if k == n then true else Had(u, k));
      assert k in u <==> k in l0[n := s] || Early(key, plan, |plan|, k);
    }
  }

  lemma TopExtends(l0: Libs, n: Name, s: Soinfo, u: Libs, v: Libs)
    requires n !in l0 && !Ready(s) && Extends(l0[n := s], u) && Finished(u, v, n)
    ensures Extends(l0, v)
  {
    var l1 := l0[n := s];
    forall k ensures k in l0 ==> k in v && (Had(v, k) <==> Had(l0, k)) {
      assert k in l0 ==> k in l1 && (Had(l1, k) <==> Had(l0, k));
      assert k in l1 ==> (Had(u, k) <==> Had(l1, k));
    }
    forall k | k in v && k !in l0 ensures Had(v, k) {
      assert k != n ==> (Had(v, k) <==> Had(u, k));
    }
  }

  lemma TopPlan(key: Names, l0: Libs, n: Name, s: Soinfo, u: Libs, files: Files, plan: seq<string>, path: string)
    requires n !in l0 && n == key(path) && !Ready(s) && Orderly(key, files, path)
    requires Extends(l0[n := s], u) && LoadedBy(key, l0[n := s], u, files, plan) && AllHad(key, u, Needs(files, path))
    ensures GoodPlan(key, l0, files, plan + [path])
  {
    var l1, all := l0[n := s], plan + [path];
    forall i: nat | i < |all| ensures GoodStep(key, l0, files, all, i) {
      if i < |plan| {
        assert GoodStep(key, l1, files, plan, i);
        StepInFront(key, l1, files, plan, [path], i);
        StepWithout(key, l0, n, s, files, all, i);
      } else {
        TopStep(key, l0, n, s, u, files, plan, path);
      }
    }
    forall i, j | 0 <= i < j < |all| ensures key(all[i]) != key(all[j]) {
      assert GoodStep(key, l1, files, plan, i);
    }
  }

  lemma StepWithout(key: Names, l0: Libs, n: Name, s: Soinfo, files: Files, plan: seq<string>, i: nat)
    requires n !in l0 && !Ready(s) && i < |plan| && GoodStep(key, l0[n := s], files, plan, i)
    ensures GoodStep(key, l0, files, plan, i)
  {
    var needs := Needs(files, plan[i]);
    forall k | 0 <= k < |needs| ensures GoodNeed(key, l0, plan, i, needs[k]) {
      assert GoodNeed(key, l0[n := s], plan, i, needs[k]);
    }
  }

  lemma TopStep(key: Names, l0: Libs, n: Name, s: Soinfo, u: Libs, files: Files, plan: seq<string>, path: string)
    requires n !in l0 && n == key(path) && !Ready(s) && Orderly(key, files, path)
    requires Extends(l0[n := s], u) && LoadedBy(key, l0[n := s], u, files, plan) && AllHad(key, u, Needs(files, path))
    ensures GoodStep(key, l0, files, plan + [path], |plan|)
  {
    var l1, needs := l0[n := s], Needs(files, path);
    assert (plan + [path])[|plan|] == path;
    forall k | 0 <= k < |needs| ensures GoodNeed(key, l0, plan + [path], |plan|, needs[k]) {
      var x := key(needs[k]);
      assert Had(u, x) && !Had(l1, n);
      if x in l1 {
        assert Had(u, x) <==> Had(l1, x);
      } else {
        EarlyInFront(key, plan, [path], |plan|, x);
      }
    }
  }

  // ---- What can be loaded ------------------------------------------------------------------

  /** The path `need` names a library that is usable already, or the same file as one of the first m of the
      plan. */
  ghost predicate Reach(key: Names, l: Libs, files: Files, plan: seq<string>, m: nat, need: string) {
    Had(l, key(need)) || InPlan(key, files, plan, m, need)
  }

  ghost predicate InPlan(key: Names, files: Files, plan: seq<string>, m: nat, need: string) {
    exists j {:trigger plan[j]} :: 0 <= j < m <= |plan| && key(plan[j]) == key(need) && files(plan[j]) == files(need)
  }

  ghost predicate ReachAll(key: Names, l: Libs, files: Files, plan: seq<string>, m: nat, needs: seq<string>) {
    forall k {:trigger Reach(key, l, files, plan, m, needs[k])} :: 0 <= k < |needs| ==> Reach(key, l, files, plan, m, needs[k])
  }

  /** Number i of the plan is usable already, or can be loaded when those before it have been. */
  ghost predicate StepFor(key: Names, l: Libs, files: Files, plan: seq<string>, i: nat)
    requires i < |plan|
  {
    if key(plan[i]) in l then Had(l, key(plan[i]))
    else Orderly(key, files, plan[i]) && ReachAll(key, l, files, plan, i, Needs(files, plan[i]))
  }

  /** There are entries in the list for all of l and the first m of the plan. */
  ghost predicate Room(key: Names, l: Libs, plan: seq<string>, m: nat) {
    exists entries :: Covers(key, entries, l, plan, m)
  }

  ghost predicate Covers(key: Names, entries: seq<Name>, l: Libs, plan: seq<string>, m: nat) {
    && |entries| <= SO_MAX + 1
    && (forall n {:trigger n in l} :: n in l ==> n in entries)
    && (forall j {:trigger plan[j]} :: 0 <= j < m && j < |plan| ==> key(plan[j]) in entries)
  }

  /** The first m libraries of the plan can all be loaded into the list, one after the other. */
  ghost predicate PlanFor(key: Names, l: Libs, files: Files, plan: seq<string>, m: nat) {
    && m <= |plan| && NamesDiffer(key, plan) && Room(key, l, plan, m)
    && (forall i: nat {:trigger StepFor(key, l, files, plan, i)} :: i < m ==> StepFor(key, l, files, plan, i))
  }

  /** What came is in the plan. */
  ghost predicate Within(key: Names, l0: Libs, l1: Libs, plan: seq<string>, m: nat) {
    forall n {:trigger n in l1} :: n in l1 ==> n in l0 || Early(key, plan, m, n)
  }

  lemma ReachKept(key: Names, l0: Libs, u: Libs, files: Files, plan: seq<string>, m: nat, need: string)
    requires Extends(l0, u) && Reach(key, l0, files, plan, m, need)
    ensures Reach(key, u, files, plan, m, need)
  {
    if Had(l0, key(need)) {
      assert Had(u, key(need));
    }
  }

  lemma ReachAllKept(key: Names, l0: Libs, u: Libs, files: Files, plan: seq<string>, m: nat, needs: seq<string>)
    requires Extends(l0, u) && ReachAll(key, l0, files, plan, m, needs)
    ensures ReachAll(key, u, files, plan, m, needs)
  {
    forall k | 0 <= k < |needs| ensures Reach(key, u, files, plan, m, needs[k]) {
      ReachKept(key, l0, u, files, plan, m, needs[k]);
    }
  }

  lemma RoomKept(key: Names, l0: Libs, u: Libs, plan: seq<string>, m: nat)
    requires Room(key, l0, plan, m) && Within(key, l0, u, plan, m)
    ensures Room(key, u, plan, m)
  {
    var entries :| Covers(key, entries, l0, plan, m);
    assert Covers(key, entries, u, plan, m);
  }

  /** Loading part of a plan leaves the rest of it possible. */
  lemma PlanKept(key: Names, l0: Libs, u: Libs, files: Files, plan: seq<string>, m: nat)
    requires PlanFor(key, l0, files, plan, m) && Extends(l0, u) && Within(key, l0, u, plan, m)
    ensures PlanFor(key, u, files, plan, m)
  {
    RoomKept(key, l0, u, plan, m);
    forall i: nat | i < m ensures StepFor(key, u, files, plan, i) {
      assert StepFor(key, l0, files, plan, i);
      var n := key(plan[i]);
      assert n in l0 ==> (Had(u, n) <==> Had(l0, n));
      if n !in l0 {
        ReachAllKept(key, l0, u, files, plan, i, Needs(files, plan[i]));
        assert n in u ==> Had(u, n);
      }
    }
  }

  lemma {:induction false} Fewer(names: seq<Name>, entries: seq<Name>)
    requires forall n :: n in names ==> n in entries
    requires forall i, j :: 0 <= i < j < |names| ==> names[i] != names[j]
    ensures |names| <= |entries|
  {
    if names != [] {
      var last := names[|names| - 1];
      assert last in names;
      var k :| 0 <= k < |entries| && entries[k] == last;
      var rest := entries[..k] + entries[k + 1..];
      forall n | n in names[..|names| - 1] ensures n in rest {
        assert n in names;
        var i :| 0 <= i < |entries| && entries[i] == n;
        assert rest[if i < k then i else i - 1] == n;
      }
      Fewer(names[..|names| - 1], rest);
    }
  }

  /** A missing library of the plan gets an entry. */
  lemma RoomBelow(key: Names, l0: Libs, names: seq<Name>, n: Name, s: Soinfo, plan: seq<string>, m: nat, j: nat)
    requires Room(key, l0, plan, m) && j < m <= |plan| && n == key(plan[j]) && n !in l0 && Listed(names, l0)
    ensures |names| < SO_MAX + 1 && Room(key, l0[n := s], plan, j)
  {
    var entries :| Covers(key, entries, l0, plan, m);
    assert Covers(key, entries, l0[n := s], plan, j);
    ListedMore(names, l0, n, s);
    Fewer(names + [n], entries);
  }

  lemma StepBelow(key: Names, l0: Libs, n: Name, s: Soinfo, files: Files, plan: seq<string>, i: nat)
    requires i < |plan| && n != key(plan[i]) && n !in l0 && StepFor(key, l0, files, plan, i)
    ensures StepFor(key, l0[n := s], files, plan, i)
  {
    if key(plan[i]) !in l0 {
      ReachBelow(key, l0, n, s, files, plan, i, Needs(files, plan[i]));
    }
  }

  lemma ReachBelow(key: Names, l0: Libs, n: Name, s: Soinfo, files: Files, plan: seq<string>, m: nat, needs: seq<string>)
    requires n !in l0 && ReachAll(key, l0, files, plan, m, needs)
    ensures ReachAll(key, l0[n := s], files, plan, m, needs)
  {
    forall k | 0 <= k < |needs| ensures Reach(key, l0[n := s], files, plan, m, needs[k]) {
      assert Reach(key, l0, files, plan, m, needs[k]);
    }
  }

  /** And what it needs can be loaded before it. */
  lemma PlanBelow(key: Names, l0: Libs, names: seq<Name>, n: Name, s: Soinfo, files: Files, plan: seq<string>, m: nat, j: nat)
    requires PlanFor(key, l0, files, plan, m) && j < m && n == key(plan[j]) && n !in l0 && Listed(names, l0)
    ensures |names| < SO_MAX + 1 && Orderly(key, files, plan[j])
    ensures PlanFor(key, l0[n := s], files, plan, j) && ReachAll(key, l0[n := s], files, plan, j, Needs(files, plan[j]))
  {
    assert StepFor(key, l0, files, plan, j);
    RoomBelow(key, l0, names, n, s, plan, m, j);
    ReachBelow(key, l0, n, s, files, plan, j, Needs(files, plan[j]));
    forall i: nat {:trigger StepFor(key, l0, files, plan, i)} | i < j ensures StepFor(key, l0[n := s], files, plan, i) {
      assert StepFor(key, l0, files, plan, i);
      StepBelow(key, l0, n, s, files, plan, i);
    }
  }

  // ---- What a call tells -------------------------------------------------------------------

  /** The libraries named by `needs` were asked for, and the list went from l0 to l1. If they were had, the
      list grew by the plan `steps`; and they were had if the first m of `plan` are a plan for them. */
  ghost predicate Told(key: Names, l0: Libs, l1: Libs, files: Files, plan: seq<string>, m: nat, needs: seq<string>,
          steps: seq<string>, ok: bool)
  {
    && (ok ==> Extends(l0, l1) && LoadedBy(key, l0, l1, files, steps) && AllHad(key, l1, needs))
    && (PlanFor(key, l0, files, plan, m) && ReachAll(key, l0, files, plan, m, needs) ==> ok && Within(key, l0, l1, plan, m))
  }

  lemma ToldNothing(key: Names, l: Libs, files: Files, plan: seq<string>, m: nat)
    ensures Told(key, l, l, files, plan, m, [], [], true)
  {
    NothingLoaded(key, l, files);
  }

  lemma ReachOne(key: Names, l: Libs, files: Files, plan: seq<string>, m: nat, need: string)
    ensures ReachAll(key, l, files, plan, m, [need]) <==> Reach(key, l, files, plan, m, need)
  {
    assert [need][0] == need;
    if ReachAll(key, l, files, plan, m, [need]) {
      assert Reach(key, l, files, plan, m, [need][0]);
    }
  }

  lemma InListHad(key: Names, l: Libs, files: Files, plan: seq<string>, m: nat, need: string)
    requires key(need) in l && PlanFor(key, l, files, plan, m) && Reach(key, l, files, plan, m, need)
    ensures Had(l, key(need))
  {
    if InPlan(key, files, plan, m, need) {
      var j :| 0 <= j < m && key(plan[j]) == key(need);
      assert StepFor(key, l, files, plan, j);
    }
  }

  /** A library in the list. */
  lemma ToldPresent(key: Names, l: Libs, files: Files, plan: seq<string>, m: nat, need: string)
    requires key(need) in l
    ensures Told(key, l, l, files, plan, m, [need], [], Ready(l[key(need)]))
  {
    NothingLoaded(key, l, files);
    ReachOne(key, l, files, plan, m, need);
    if PlanFor(key, l, files, plan, m) && Reach(key, l, files, plan, m, need) {
      InListHad(key, l, files, plan, m, need);
    }
  }

  lemma NotInListFits(key: Names, l: Libs, names: seq<Name>, files: Files, plan: seq<string>, m: nat, need: string)
    requires key(need) !in l && Listed(names, l) && PlanFor(key, l, files, plan, m) && Reach(key, l, files, plan, m, need)
    ensures files(need).Some? && |key(need).text| < SOINFO_NAME_LEN && |names| < SO_MAX + 1
  {
    var j :| 0 <= j < m && key(plan[j]) == key(need) && files(plan[j]) == files(need);
    PlanBelow(key, l, names, key(need), Soinfo([], false, false, 0, false), files, plan, m, j);
  }

  /** A library that is not, and that cannot be given an entry. */
  lemma ToldRefused(key: Names, l: Libs, names: seq<Name>, files: Files, plan: seq<string>, m: nat, need: string)
    requires key(need) !in l && Listed(names, l)
    requires files(need).None? || |key(need).text| >= SOINFO_NAME_LEN || |names| >= SO_MAX + 1
    ensures Told(key, l, l, files, plan, m, [need], [], false)
  {
    ReachOne(key, l, files, plan, m, need);
    if PlanFor(key, l, files, plan, m) && Reach(key, l, files, plan, m, need) {
      NotInListFits(key, l, names, files, plan, m, need);
    }
  }

  lemma AllHadMore(key: Names, u: Libs, v: Libs, needs: seq<string>, others: seq<string>)
    requires AllHad(key, u, needs) && AllHad(key, v, others) && Extends(u, v)
    ensures AllHad(key, v, needs + others)
  {
    var all := needs + others;
    forall k | 0 <= k < |all| ensures Had(v, key(all[k])) {
      if k < |needs| {
        assert all[k] == needs[k];
        assert Had(v, key(needs[k])) <==> Had(u, key(needs[k]));
      } else {
        assert all[k] == others[k - |needs|];
      }
    }
  }

  lemma WithinOn(key: Names, l0: Libs, u: Libs, v: Libs, plan: seq<string>, m: nat)
    requires Within(key, l0, u, plan, m) && Within(key, u, v, plan, m)
    ensures Within(key, l0, v, plan, m)
  {
    forall n | n in v ensures n in l0 || Early(key, plan, m, n) {
      assert n in u ==> n in l0 || Early(key, plan, m, n);
    }
  }

  lemma ReachSplit(key: Names, l: Libs, files: Files, plan: seq<string>, m: nat, needs: seq<string>, others: seq<string>)
    requires ReachAll(key, l, files, plan, m, needs + others)
    ensures ReachAll(key, l, files, plan, m, needs) && ReachAll(key, l, files, plan, m, others)
  {
    var all := needs + others;
    forall k | 0 <= k < |needs| ensures Reach(key, l, files, plan, m, needs[k]) {
      assert all[k] == needs[k];
      assert Reach(key, l, files, plan, m, all[k]);
    }
    forall k | 0 <= k < |others| ensures Reach(key, l, files, plan, m, others[k]) {
      assert all[|needs| + k] == others[k];
      assert Reach(key, l, files, plan, m, all[|needs| + k]);
    }
  }

  /** More libraries are asked for, when all so far have been had. */
  lemma ToldOn(key: Names, l0: Libs, u: Libs, v: Libs, files: Files, plan: seq<string>, m: nat, needs: seq<string>,
          steps: seq<string>, others: seq<string>, more: seq<string>, ok: bool)
    requires Told(key, l0, u, files, plan, m, needs, steps, true) && Told(key, u, v, files, plan, m, others, more, ok)
    ensures Told(key, l0, v, files, plan, m, needs + others, steps + more, ok)
  {
    if ok {
      ExtendsOn(l0, u, v);
      LoadedOn(key, l0, u, v, files, steps, more);
      AllHadMore(key, u, v, needs, others);
    }
    if PlanFor(key, l0, files, plan, m) && ReachAll(key, l0, files, plan, m, needs + others) {
      ReachSplit(key, l0, files, plan, m, needs, others);
      PlanKept(key, l0, u, files, plan, m);
      ReachAllKept(key, l0, u, files, plan, m, others);
      WithinOn(key, l0, u, v, plan, m);
    }
  }

  /** Giving up early. */
  lemma ToldFailed(key: Names, l0: Libs, v: Libs, files: Files, plan: seq<string>, m: nat, needs: seq<string>,
          steps: seq<string>, others: seq<string>)
    requires Told(key, l0, v, files, plan, m, needs, steps, false)
    ensures Told(key, l0, v, files, plan, m, needs + others, steps, false)
  {
    if ReachAll(key, l0, files, plan, m, needs + others) {
      ReachSplit(key, l0, files, plan, m, needs, others);
    }
  }

  /** The same libraries, as usable as before. */
  ghost predicate SameHad(u: Libs, v: Libs) {
    forall k {:trigger Had(u, k)} {:trigger Had(v, k)} {:trigger k in v} ::
      (k in u <==> k in v) && (Had(u, k) <==> Had(v, k))
  }

  lemma SameHadOn(l: Libs, u: Libs, v: Libs)
    requires SameHad(l, u) && SameHad(u, v)
    ensures SameHad(l, v)
  {
    forall k ensures (k in l <==> k in v) && (Had(l, k) <==> Had(v, k)) {
      assert Had(l, k) <==> Had(u, k);
      assert k in l <==> k in u;
    }
  }

  lemma ToldSame(key: Names, l0: Libs, u: Libs, v: Libs, files: Files, plan: seq<string>, m: nat, needs: seq<string>,
          steps: seq<string>, ok: bool)
    requires Told(key, l0, u, files, plan, m, needs, steps, ok) && SameHad(u, v)
    ensures Told(key, l0, v, files, plan, m, needs, steps, ok)
  {
    if ok {
      forall k ensures k in l0 ==> k in v && (Had(v, k) <==> Had(l0, k)) {
        assert k in l0 ==> k in u && (Had(u, k) <==> Had(l0, k));
      }
      forall k | k in v && k !in l0 ensures Had(v, k) {
        assert Had(u, k) <==> Had(v, k);
      }
      forall k | 0 <= k < |needs| ensures Had(v, key(needs[k])) {
        assert Had(u, key(needs[k]));
      }
      forall k ensures k in v <==> k in l0 || Early(key, steps, |steps|, k) {
        assert k in u <==> k in l0 || Early(key, steps, |steps|, k);
        assert Had(u, k) <==> Had(v, k);
      }
    }
    if Within(key, l0, u, plan, m) {
      forall k | k in v ensures k in l0 || Early(key, plan, m, k) {
        assert Had(u, k) <==> Had(v, k);
        assert k in u;
      }
    }
  }

  /** One more of a list of needs. */
  lemma ToldNext(key: Names, l0: Libs, u: Libs, v: Libs, files: Files, plan: seq<string>, m: nat, needs: seq<string>,
          i: nat, steps: seq<string>, more: seq<string>, ok: bool)
    requires i < |needs| && Told(key, l0, u, files, plan, m, needs[..i], steps, true)
    requires Told(key, u, v, files, plan, m, [needs[i]], more, ok)
    ensures ok ==> Told(key, l0, v, files, plan, m, needs[..i + 1], steps + more, true)
    ensures !ok ==> Told(key, l0, v, files, plan, m, needs, steps + more, false)
  {
    ToldOn(key, l0, u, v, files, plan, m, needs[..i], steps, [needs[i]], more, ok);
    assert needs[..i] + [needs[i]] == needs[..i + 1];
    if !ok {
      ToldFailed(key, l0, v, files, plan, m, needs[..i + 1], steps + more, needs[i + 1..]);
      assert needs[..i + 1] + needs[i + 1..] == needs;
    }
  }

  /** Constructors change no library's usability. */
  lemma BuildsSame(w: World, v: World)
    requires Builds(w, v)
    ensures SameHad(w.libs, v.libs)
  {
    forall k ensures (k in w.libs <==> k in v.libs) && (Had(w.libs, k) <==> Had(v.libs, k)) {
      assert k in w.libs ==> Flagged(w, v, k);
    }
  }

  /** Nor does a reference. */
  lemma CountSame(l: Libs, u: Libs, n: Name)
    requires SameHad(l, u) && n in u
    ensures SameHad(l, u[n := u[n].(refcount := u[n].refcount + 1)])
  {
    var v := u[n := u[n].(refcount := u[n].refcount + 1)];
    forall k ensures (k in l <==> k in v) && (Had(l, k) <==> Had(v, k)) {
      assert Had(l, k) <==> Had(u, k);
    }
  }

  /** The library n, in the list l1 but not linked yet, was asked to link: the list went to u while its needs
      were asked for, and then to v, where n is usable if everything was in order. */
  ghost predicate LinkTold(key: Names, l1: Libs, u: Libs, v: Libs, n: Name, image: Image, needs: seq<string>,
          files: Files, plan: seq<string>, m: nat, steps: seq<string>, had: bool)
  {
    && (image.tables ==> Told(key, l1, u, files, plan, m, needs, steps, had))
    && (Finished(u, v, n) <==> had && image.tables && image.relocates && image.protects)
    && (forall k {:trigger k in v} :: k in v ==> k in u)
  }

  /** The part of a plan that comes before the library under the path. */
  ghost function Below(key: Names, files: Files, plan: seq<string>, m: nat, path: string): (j: nat)
    ensures InPlan(key, files, plan, m, path) ==> j < m && key(plan[j]) == key(path) && files(plan[j]) == files(path)
  {
    if InPlan(key, files, plan, m, path)
    then var j :| 0 <= j < m <= |plan| && key(plan[j]) == key(path) && files(plan[j]) == files(path); j
    else m
  }

  /** A missing library was given the entry s and asked for its needs; then the list was u, and is now v,
      which differs in its own entry only. */
  lemma ToldLoaded(key: Names, l0: Libs, names: seq<Name>, n: Name, s: Soinfo, u: Libs, v: Libs, files: Files,
          plan: seq<string>, m: nat, path: string, steps: seq<string>, had: bool)
    requires n !in l0 && n == key(path) && !Ready(s) && Listed(names, l0) && files(path).Some?
             && |n.text| < SOINFO_NAME_LEN
    requires LinkTold(key, l0[n := s], u, v, n, files(path).value, Needs(files, path), files, plan,
      Below(key, files, plan, m, path), steps, had)
    ensures Told(key, l0, v, files, plan, m, [path], steps + [path], Finished(u, v, n))
  {
    ReachOne(key, l0, files, plan, m, path);
    if Finished(u, v, n) {
      LoadedTop(key, l0, n, s, u, v, files, steps, path);
      assert [path][0] == path;
    }
    if PlanFor(key, l0, files, plan, m) && Reach(key, l0, files, plan, m, path) {
      var j := Below(key, files, plan, m, path);
      PlanBelow(key, l0, names, n, s, files, plan, m, j);
      forall k | k in v ensures k in l0 || Early(key, plan, m, k) {
        assert k in u ==> k in l0[n := s] || Early(key, plan, j, k);
        if Early(key, plan, j, k) {
          EarlyMore(key, plan, j, m, k);
        }
      }
    }
  }

  // ---- The answers -------------------------------------------------------------------------

  /** What the path names is usable, or can be loaded: there is a plan for it, and room. */
  ghost predicate Loadable(key: Names, l: Libs, files: Files, path: string) {
    exists plan :: PlanFor(key, l, files, plan, |plan|) && Reach(key, l, files, plan, |plan|, path)
  }

  ghost predicate LoadableAll(key: Names, l: Libs, files: Files, paths: seq<string>) {
    exists plan :: PlanFor(key, l, files, plan, |plan|) && ReachAll(key, l, files, plan, |plan|, paths)
  }

  /** One library has one file, whatever path names it. */
  ghost predicate OnePerName(key: Names, files: Files) {
    forall p, q {:trigger key(p), key(q)} :: key(p) == key(q) ==> files(p) == files(q)
  }

  lemma StepsFit(key: Names, l0: Libs, files: Files, plan: seq<string>, m: nat, needs: seq<string>)
    requires OnePerName(key, files) && m <= |plan| && GoodNeeds(key, l0, plan, m, needs)
    ensures ReachAll(key, l0, files, plan, m, needs)
  {
    forall k | 0 <= k < |needs| ensures Reach(key, l0, files, plan, m, needs[k]) {
      assert GoodNeed(key, l0, plan, m, needs[k]);
      if Early(key, plan, m, key(needs[k])) {
        var j :| 0 <= j < m && key(plan[j]) == key(needs[k]);
        assert files(plan[j]) == files(needs[k]);
      }
    }
  }

  /** Where one library has one file, what has been loaded was a plan. */
  lemma LoadedIsPlan(key: Names, l0: Libs, l1: Libs, names: seq<Name>, files: Files, steps: seq<string>, paths: seq<string>)
    requires OnePerName(key, files) && LoadedBy(key, l0, l1, files, steps) && Extends(l0, l1) && AllHad(key, l1, paths)
    requires Listed(names, l1) && |names| <= SO_MAX + 1
    ensures PlanFor(key, l0, files, steps, |steps|) && ReachAll(key, l0, files, steps, |steps|, paths)
  {
    forall i: nat | i < |steps| ensures StepFor(key, l0, files, steps, i) {
      assert GoodStep(key, l0, files, steps, i);
      StepsFit(key, l0, files, steps, i, Needs(files, steps[i]));
    }
    forall k | 0 <= k < |paths| ensures GoodNeed(key, l0, steps, |steps|, paths[k]) {
      assert Had(l1, key(paths[k]));
      assert key(paths[k]) in l0 ==> (Had(l1, key(paths[k])) <==> Had(l0, key(paths[k])));
    }
    StepsFit(key, l0, files, steps, |steps|, paths);
    forall j | 0 <= j < |steps| ensures key(steps[j]) in names {
      assert Early(key, steps, |steps|, key(steps[j]));
      assert key(steps[j]) in l1;
    }
    forall n | n in l0 ensures n in names {
      assert Had(l0, n) <==> Had(l1, n);
    }
    assert Covers(key, names, l0, steps, |steps|);
  }

  /** The list grew from l0 to l1 by the libraries of a plan, of which the last is under the path, unless
      that library was there before. */
  ghost predicate Fetched(key: Names, l0: Libs, l1: Libs, files: Files, path: string) {
    exists steps :: LoadedBy(key, l0, l1, files, steps) && LastIs(key, l0, steps, path)
  }

  ghost predicate LastIs(key: Names, l0: Libs, steps: seq<string>, path: string) {
    if key(path) in l0 then steps == [] else steps != [] && steps[|steps| - 1] == path
  }

  /** A plan for the path, if there is one. */
  ghost function AnyPlan(key: Names, l: Libs, files: Files, path: string): (plan: seq<string>)
    ensures Loadable(key, l, files, path) ==>
      PlanFor(key, l, files, plan, |plan|) && Reach(key, l, files, plan, |plan|, path)
  {
    if Loadable(key, l, files, path)
    then var plan :| PlanFor(key, l, files, plan, |plan|) && Reach(key, l, files, plan, |plan|, path); plan
    else []
  }

  /** What a call that was given such a plan answers. */
  lemma PlanAnswered(key: Names, l0: Libs, l1: Libs, names: seq<Name>, files: Files, path: string, plan: seq<string>,
          steps: seq<string>, ok: bool)
    requires Told(key, l0, l1, files, plan, |plan|, [path], steps, ok) && plan == AnyPlan(key, l0, files, path)
    requires ok ==> LastIs(key, l0, steps, path)
    requires Listed(names, l1) && |names| <= SO_MAX + 1
    ensures Loadable(key, l0, files, path) ==> ok
    ensures ok ==> Fetched(key, l0, l1, files, path)
    ensures OnePerName(key, files) ==> (ok <==> Loadable(key, l0, files, path))
  {
    ReachOne(key, l0, files, plan, |plan|, path);
    if ok && OnePerName(key, files) {
      LoadedIsPlan(key, l0, l1, names, files, steps, [path]);
      ReachOne(key, l0, files, steps, |steps|, path);
    }
  }

  // ---- Program start -----------------------------------------------------------------------

  /** The list with the main program's entry, before it is linked. */
  function Entered(key: Names, l: Libs, exe: Name, image: Image): Libs {
    l[exe := Soinfo(Keys(key, image.needed), false, false, 1, false)]
  }

  ghost function AnyPlanAll(key: Names, l: Libs, files: Files, paths: seq<string>): (plan: seq<string>)
    ensures LoadableAll(key, l, files, paths) ==>
      PlanFor(key, l, files, plan, |plan|) && ReachAll(key, l, files, plan, |plan|, paths)
  {
    if LoadableAll(key, l, files, paths)
    then var plan :| PlanFor(key, l, files, plan, |plan|) && ReachAll(key, l, files, plan, |plan|, paths); plan
    else []
  }

  predicate InOrder(image: Image) {
    image.tables && image.relocates && image.protects
  }

  /** The main program starts if its own file is in order and all that it is to have can be loaded; and what
      has been loaded is that. */
  ghost predicate StartTold(key: Names, l0: Libs, v: Libs, image: Image, needs: seq<string>, files: Files, ok: bool) {
    && (InOrder(image) && LoadableAll(key, l0, files, needs) ==> ok)
    && (ok ==> InOrder(image) && exists steps :: LoadedBy(key, l0, v, files, steps))
    && (OnePerName(key, files) ==> (ok <==> InOrder(image) && LoadableAll(key, l0, files, needs)))
  }

  lemma StartAnswered(key: Names, l0: Libs, l: Libs, u: Libs, v: Libs, names: seq<Name>, exe: Name, image: Image,
          needs: seq<string>, files: Files, plan: seq<string>, steps: seq<string>, had: bool)
    requires LinkTold(key, l0, l, u, exe, image, needs, files, plan, |plan|, steps, had) && Finished(l, u, exe)
    requires forall n :: n in v <==> n in u
    requires Listed(names, v) && |names| <= SO_MAX + 1 && exe in l
    ensures StartTold(key, l0, v, image, needs, files, true)
  {
    assert forall n :: n in u <==> n in l by {
      forall n ensures n in u <==> n in l {
        assert n != exe ==> (Had(u, n) <==> Had(l, n));
      }
    }
    assert LoadedBy(key, l0, v, files, steps) by {
      forall n ensures n in v <==> n in l0 || Early(key, steps, |steps|, n) {
        assert n in l <==> n in l0 || Early(key, steps, |steps|, n);
      }
    }
    if OnePerName(key, files) {
      LoadedIsPlan(key, l0, l, names, files, steps, needs);
    }
  }

  lemma StartRefused(key: Names, l0: Libs, l: Libs, u: Libs, exe: Name, image: Image, needs: seq<string>, files: Files,
          plan: seq<string>, steps: seq<string>, had: bool)
    requires LinkTold(key, l0, l, u, exe, image, needs, files, plan, |plan|, steps, had) && !Finished(l, u, exe)
    requires plan == AnyPlanAll(key, l0, files, needs)
    ensures StartTold(key, l0, u, image, needs, files, false)
  {
  }
}
