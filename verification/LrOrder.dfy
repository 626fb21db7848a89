/** The order of the items in a state, on which conflict resolution depends: rules come in the order in
    which they are first called for, those of one nonterminal as they were defined, and a goto keeps the
    order of the items it moves. */
module LrOrder {
  import opened Cfg
  import opened LrAutomaton

  // ---- Closure -------------------------------------------------------------------------

  /** One of the first n items has its dot before the head of rule p. */
  ghost predicate CalledBefore(g: Cfg, J: seq<Item>, n: nat, p: nat) {
    exists b: nat :: b < n && b < |J| && CallsFor(g, J[b], p)
  }

  /** The rules of items i and j have one head and come as they were defined, or whatever calls for the
      second stands behind something that calls for the first. */
  ghost predicate InOrder(g: Cfg, J: seq<Item>, i: nat, j: nat)
    requires i < |J| && j < |J| && J[i].prod < |g.productions| && J[j].prod < |g.productions|
  {
    if g.productions[J[i].prod].name == g.productions[J[j].prod].name then J[i].prod < J[j].prod
    else forall c: nat :: c < |J| && CallsFor(g, J[c], J[j].prod) ==> CalledBefore(g, J, c, J[i].prod)
  }

  /** The items behind the first n are in order. */
  ghost predicate Sequenced(g: Cfg, J: seq<Item>, n: nat)
    requires ValidItems(g, J)
  {
    forall i: nat, j: nat {:trigger InOrder(g, J, i, j)} :: n <= i < j < |J| && ValidItem(g, J[i]) && ValidItem(g, J[j])
      ==> InOrder(g, J, i, j)
  }

  /** The list of a closure, before its k-th item is looked at. */
  ghost predicate Going(g: Cfg, n: nat, J: seq<Item>, added: set<nat>, k: nat) {
    && ValidItems(g, J) && k <= |J| && n <= |J| && Sequenced(g, J, n) && AllServed(g, J, added, k)
    && forall i {:trigger J[i]} :: n <= i < |J| ==> CalledBefore(g, J, k, J[i].prod)
  }

  ghost predicate Rising(s: seq<nat>) {
    forall i, j :: 0 <= i < j < |s| ==> s[i] < s[j]
  }

  /** The place of a new rule among those that the item calls for. */
  lemma {:induction false} NewRuleFrom(after: seq<nat>, added: set<nat>, m: nat, i: nat) returns (k: nat)
    requires m <= |after| && i < |NewRules(after, added, m)|
    ensures k < m && after[k] == NewRules(after, added, m)[i] && after[k] !in added
  {
    if i < |NewRules(after, added, m - 1)| {
      k := NewRuleFrom(after, added, m - 1, i);
    } else {
      k := m - 1;
    }
  }

  lemma {:induction false} NewRulesRise(after: seq<nat>, added: set<nat>, m: nat)
    requires m <= |after| && Rising(after)
    ensures Rising(NewRules(after, added, m))
  {
    if m > 0 {
      NewRulesRise(after, added, m - 1);
      var before := NewRules(after, added, m - 1);
      forall i | 0 <= i < |before| ensures before[i] < after[m - 1] {
        var k := NewRuleFrom(after, added, m - 1, i);
      }
    }
  }

  /** The rules that the k-th item adds are called for by it and by none before it. */
  lemma FreshRules(g: Cfg, J: seq<Item>, added: set<nat>, k: nat)
    requires g.Valid() && ValidItems(g, J) && k < |J| && AllServed(g, J, added, k)
    ensures var news := FreshAt(g, J, added, k);
            && Rising(news)
            && (forall i :: 0 <= i < |news| ==> CallsFor(g, J[k], news[i]) && !CalledBefore(g, J, k, news[i]))
  {
    var after, news := RulesAfter(g, J[k]), FreshAt(g, J, added, k);
    assert ValidItem(g, J[k]);
    RulesAfterAre(g, J[k]);
    NewRulesRise(after, added, |after|);
    forall i | 0 <= i < |news| ensures CallsFor(g, J[k], news[i]) && !CalledBefore(g, J, k, news[i]) {
      var m := NewRuleFrom(after, added, |after|, i);
      assert news[i] in after;
      NotYetCalled(g, J, added, k, news[i]);
    }
  }

  lemma NotYetCalled(g: Cfg, J: seq<Item>, added: set<nat>, k: nat, p: nat)
    requires k <= |J| && AllServed(g, J, added, k) && p !in added
    ensures !CalledBefore(g, J, k, p)
  {
    forall b: nat | b < k ensures !CallsFor(g, J[b], p) {
      assert Served(g, J, added, b);
    }
  }

  lemma CalledMore(g: Cfg, J: seq<Item>, more: seq<Item>, m: nat, n: nat, p: nat)
    requires m <= n && CalledBefore(g, J, m, p)
    ensures CalledBefore(g, J + more, n, p)
  {
    var b: nat :| b < m && b < |J| && CallsFor(g, J[b], p);
    assert (J + more)[b] == J[b];
  }

  /** Items that were in order stay so, as each rule had been called for before. */
  lemma StayInOrder(g: Cfg, J: seq<Item>, more: seq<Item>, k: nat, i: nat, j: nat)
    requires k <= |J| && i < |J| && j < |J| && J[i].prod < |g.productions| && J[j].prod < |g.productions|
    requires InOrder(g, J, i, j) && CalledBefore(g, J, k, J[i].prod)
    ensures InOrder(g, J + more, i, j)
  {
    var all := J + more;
    assert all[i] == J[i] && all[j] == J[j];
    if g.productions[J[i].prod].name != g.productions[J[j].prod].name {
      forall c: nat | c < |all| && CallsFor(g, all[c], J[j].prod) ensures CalledBefore(g, all, c, J[i].prod) {
        if c < |J| {
          assert all[c] == J[c];
          CalledMore(g, J, more, c, c, J[i].prod);
        } else {
          CalledMore(g, J, more, k, c, J[i].prod);
        }
      }
    }
  }

  /** A rule added now comes after those added earlier. */
  lemma ComesAfter(g: Cfg, J: seq<Item>, more: seq<Item>, k: nat, i: nat, j: nat)
    requires k <= |J| && i < |J| <= j < |J + more| && J[i].prod < |g.productions|
    requires CalledBefore(g, J, k, J[i].prod) && 1 <= (J + more)[j].prod < |g.productions|
             && !CalledBefore(g, J, k, (J + more)[j].prod)
    ensures InOrder(g, J + more, i, j)
  {
    var all := J + more;
    assert all[i] == J[i];
    var b: nat :| b < k && b < |J| && CallsFor(g, J[b], J[i].prod);
    assert !CallsFor(g, J[b], all[j].prod);
    assert forall c :: 0 <= c < |J| ==> all[c] == J[c];
    forall c: nat | c < |all| && CallsFor(g, all[c], all[j].prod) ensures CalledBefore(g, all, c, all[i].prod) {
      CalledMore(g, J, more, k, c, J[i].prod);
    }
  }

  lemma GoesOn(g: Cfg, n: nat, J: seq<Item>, added: set<nat>, k: nat)
    requires g.Valid() && Going(g, n, J, added, k) && k < |J|
    ensures var news := FreshAt(g, J, added, k); Going(g, n, J + Starts(news), Added(added, news), k + 1)
  {
    var news := FreshAt(g, J, added, k);
    var more := Starts(news);
    var all := J + more;
    FreshRules(g, J, added, k);
    FreshKinds(g, J, added, k);
    NowServed(g, J, added, k);
    StillServed(g, J, added, all, Added(added, news), k);
    forall i: nat, j: nat | n <= i < j < |all| && ValidItem(g, all[i]) && ValidItem(g, all[j]) ensures InOrder(g, all, i, j) {
      OneMore(g, n, J, added, k, i, j);
    }
    forall i | n <= i < |all| ensures CalledBefore(g, all, k + 1, all[i].prod) {
      if i < |J| {
        CalledMore(g, J, more, k, k + 1, J[i].prod);
      } else {
        assert all[k] == J[k] && CallsFor(g, J[k], news[i - |J|]);
      }
    }
  }

  lemma OneMore(g: Cfg, n: nat, J: seq<Item>, added: set<nat>, k: nat, i: nat, j: nat)
    requires g.Valid() && Going(g, n, J, added, k) && k < |J|
    requires var all := J + Starts(FreshAt(g, J, added, k));
             n <= i < j < |all| && ValidItem(g, all[i]) && ValidItem(g, all[j])
    ensures InOrder(g, J + Starts(FreshAt(g, J, added, k)), i, j)
  {
    var news := FreshAt(g, J, added, k);
    var more := Starts(news);
    FreshRules(g, J, added, k);
    if j < |J| {
      assert (J + more)[i] == J[i] && (J + more)[j] == J[j] && InOrder(g, J, i, j);
      StayInOrder(g, J, more, k, i, j);
    } else if i < |J| {
      assert (J + more)[i] == J[i] && (J + more)[j].prod == news[j - |J|];
      ComesAfter(g, J, more, k, i, j);
    } else {
      assert CallsFor(g, J[k], news[i - |J|]) && CallsFor(g, J[k], news[j - |J|]);
    }
  }

  /** The whole list is in order behind the first n items. */
  ghost predicate Ordered(g: Cfg, C: seq<Item>, n: nat) {
    ValidItems(g, C) && Sequenced(g, C, n)
  }

  /** Something said of the list, what has been added, and the place that has been reached. */
  type Inv = (seq<Item>, set<nat>, nat) -> bool

  /** Looking at one item keeps it true. */
  ghost predicate Kept(g: Cfg, inv: Inv)
    requires g.Valid()
  {
    forall J, added: set<nat>, k: nat {:trigger inv(J, added, k)} :: inv(J, added, k) && ValidItems(g, J) && k < |J| ==>
      inv(J + Starts(FreshAt(g, J, added, k)), Added(added, FreshAt(g, J, added, k)), k + 1)
  }

  /** What every turn keeps is true at the end. */
  lemma {:induction false} KeptToTheEnd(g: Cfg, inv: Inv, J: seq<Item>, added: set<nat>, k: nat)
    returns (C: seq<Item>, last: set<nat>)
    requires g.Valid() && ValidItems(g, J) && k <= |J| && Kept(g, inv) && inv(J, added, k)
    ensures C == CloseFrom(g, J, added, k) && inv(C, last, |C|)
    decreases Unadded(g, added), |J| - k
  {
    if k == |J| {
      C, last := J, added;
    } else {
      CloseStep(g, J, added, k);
      var news := FreshAt(g, J, added, k);
      C, last := KeptToTheEnd(g, inv, J + Starts(news), Added(added, news), k + 1);
    }
  }

  /** lr0_closure adds rules in the order in which they are first called for, and those of one nonterminal
      in the order of their definition. */
  lemma ClosureInOrder(g: Cfg, I: seq<Item>)
    requires g.Valid() && ValidItems(g, I)
    ensures Ordered(g, ClosureOf(g, I), |I|)
  {
    var inv: Inv := (J: seq<Item>, added: set<nat>, k: nat) => Going(g, |I|, J, added, k);
    forall J, added: set<nat>, k: nat | inv(J, added, k) && ValidItems(g, J) && k < |J|
      ensures inv(J + Starts(FreshAt(g, J, added, k)), Added(added, FreshAt(g, J, added, k)), k + 1)
    {
      GoesOn(g, |I|, J, added, k);
    }
    var C, last := KeptToTheEnd(g, inv, I, {}, 0);
  }

  // ---- Goto ----------------------------------------------------------------------------

  /** lr0_goto moves every item whose dot stands before x, once and in the order of the list. */
  lemma {:induction false} GotoInOrder(g: Cfg, I: seq<Item>, x: Symbol) returns (places: seq<nat>)
    ensures |places| == |GotoKernel(g, I, x)| && forall i, j :: 0 <= i < j < |places| ==> places[i] < places[j]
    ensures forall i :: 0 <= i < |places| ==>
      places[i] < |I| && GotoKernel(g, I, x)[i] == Item(I[places[i]].prod, I[places[i]].dot + 1)
    ensures forall k :: 0 <= k < |I| ==> (k in places <==> DotBefore(g, I[k], x))
  {
    if I == [] {
      places := [];
    } else {
      places := GotoInOrder(g, I[..|I| - 1], x);
      if DotBefore(g, I[|I| - 1], x) {
        places := places + [|I| - 1];
      }
    }
  }
}
