/** The DeRemer-Pennello computation of LALR(1) lookaheads: nonterminal transitions, direct reads,
    reads, includes and lookback relations, and the two digraph solutions over them. */
module Lookahead {
  import opened Cfg
  import opened GrammarSets
  import opened LrAutomaton
  import opened ParseTable
  import opened LrEngine
  import opened LrComplete
  import Digraph
  import GrammarTables

  type LookSets = map<(nat, Item), set<Symbol>>

  ghost predicate IsNullable(g: Cfg, nullable: set<Symbol>) {
    forall x: Symbol :: x in nullable <==> x.Nonterminal? && Vanishes(g, [x])
  }

  ghost predicate IsTransition(g: Cfg, A: Lr0, t: Transition) {
    t.symbol.Nonterminal? && Expects(g, A, t.state, t.symbol)
  }

  ghost predicate AllTransitions(g: Cfg, A: Lr0, trans: seq<Transition>) {
    forall t :: t in trans <==> IsTransition(g, A, t)
  }

  /** find_nonterminal_transitions. */
  method FindTransitions(g: Cfg, A: Lr0) returns (trans: seq<Transition>)
    requires IsAutomaton(g, A)
    ensures AllTransitions(g, A, trans)
    ensures forall i, j :: 0 <= i < j < |trans| ==> trans[i] != trans[j]
  {
    trans := [];
    for s := 0 to |A.states|
      invariant forall i, j :: 0 <= i < j < |trans| ==> trans[i] != trans[j]
      invariant forall t :: t in trans <==> t.state < s && IsTransition(g, A, t)
    {
      StateItemsValid(g, A, s);
      ghost var before := trans;
      for k := 0 to |A.states[s].items|
        invariant forall i, j :: 0 <= i < j < |trans| ==> trans[i] != trans[j]
        invariant forall t :: t in trans <==>
          t in before || (t.state == s && t.symbol.Nonterminal? && exists j :: 0 <= j < k && DotBefore(g, A.states[s].items[j], t.symbol))
      {
        var it := A.states[s].items[k];
        if it.dot < |g.productions[it.prod].rhs| && g.productions[it.prod].rhs[it.dot].Nonterminal? {
          var t := Arc(s, g.productions[it.prod].rhs[it.dot]);
          assert DotBefore(g, A.states[s].items[k], t.symbol);
          if t !in trans {
            trans := trans + [t];
          }
        }
      }
      forall t ensures t in trans <==> t.state < s + 1 && IsTransition(g, A, t) {
        if t.state == s && IsTransition(g, A, t) {
          var it :| it in A.states[s].items && DotBefore(g, it, t.symbol);
          var j :| 0 <= j < |A.states[s].items| && A.states[s].items[j] == it;
        }
      }
    }
  }

  /** The terminals directly readable after the transition t. */
  ghost predicate DirectlyReads(g: Cfg, A: Lr0, t: Transition, a: Symbol)
    requires t.state < |A.states|
  {
    || (a.Terminal? && GotoState(g, A, t.state, t.symbol) >= 0 && Expects(g, A, GotoState(g, A, t.state, t.symbol), a))
    || (a == EndMarker && g.Valid() && t.state == 0 && t.symbol == g.Start())
  }

  /** The terminals before a dot among the first n items. */
  ghost predicate TerminalUpTo(g: Cfg, items: seq<Item>, n: nat, a: Symbol)
    requires n <= |items|
  {
    a.Terminal? && exists j :: 0 <= j < n && DotBefore(g, items[j], a)
  }

  /** dr_relation. */
  method DrRelation(g: Cfg, A: Lr0, t: Transition) returns (terms: set<Symbol>)
    requires IsAutomaton(g, A) && IsTransition(g, A, t)
    ensures forall a :: a in terms <==> DirectlyReads(g, A, t, a)
  {
    ExpectsGoto(g, A, t.state, t.symbol);
    var r := GotoState(g, A, t.state, t.symbol);
    StateItemsValid(g, A, r);
    terms := TerminalsOf(g, A.states[r].items);
    ReadsAreTerminals(g, A, t, r);
    if t.state == 0 && t.symbol == g.Start() {
      terms := terms + {EndMarker};
    }
  }

  method TerminalsOf(g: Cfg, items: seq<Item>) returns (terms: set<Symbol>)
    requires ValidItems(g, items)
    ensures forall a :: a in terms <==> TerminalUpTo(g, items, |items|, a)
  {
    terms := {};
    for k := 0 to |items|
      invariant forall a :: a in terms <==> TerminalUpTo(g, items, k, a)
    {
      var it := items[k];
      if it.dot < |g.productions[it.prod].rhs| {
        var a := g.productions[it.prod].rhs[it.dot];
        if a.Terminal? {
          assert DotBefore(g, items[k], a);
          terms := terms + {a};
        }
      }
    }
  }

  lemma ReadsAreTerminals(g: Cfg, A: Lr0, t: Transition, r: nat)
    requires g.Valid() && t.state < |A.states| && GotoState(g, A, t.state, t.symbol) == r < |A.states|
    ensures forall a :: DirectlyReads(g, A, t, a) <==>
      TerminalUpTo(g, A.states[r].items, |A.states[r].items|, a) ||
        (a == EndMarker && t.state == 0 && t.symbol == g.Start())
  {
    ItemsExpect(g, A, r);
  }

  lemma ItemsExpect(g: Cfg, A: Lr0, r: nat)
    requires r < |A.states|
    ensures forall a :: Expects(g, A, r, a) <==>
      exists j :: 0 <= j < |A.states[r].items| && DotBefore(g, A.states[r].items[j], a)
  {
    forall a | Expects(g, A, r, a)
      ensures exists j :: 0 <= j < |A.states[r].items| && DotBefore(g, A.states[r].items[j], a) {
      var it :| it in A.states[r].items && DotBefore(g, it, a);
      var j :| 0 <= j < |A.states[r].items| && A.states[r].items[j] == it;
    }
  }

  /** t READS y: y is a nullable transition leaving the state t leads to. */
  ghost predicate Reads(g: Cfg, A: Lr0, t: Transition, y: Transition)
    requires t.state < |A.states|
  {
    GotoState(g, A, t.state, t.symbol) == y.state && IsTransition(g, A, y) && Vanishes(g, [y.symbol])
  }

  /** The nullable symbols before a dot among the first n items, as transitions out of the state r. */
  ghost predicate ReadsUpTo(g: Cfg, items: seq<Item>, r: nat, empty: set<Symbol>, n: nat, y: Transition)
    requires n <= |items|
  {
    y.state == r && y.symbol in empty && exists j :: 0 <= j < n && DotBefore(g, items[j], y.symbol)
  }

  /** reads_relation. */
  method ReadsRelation(g: Cfg, A: Lr0, t: Transition, empty: set<Symbol>) returns (rel: seq<Transition>)
    requires IsAutomaton(g, A) && IsTransition(g, A, t) && IsNullable(g, empty)
    ensures forall y :: y in rel <==> Reads(g, A, t, y)
  {
    ExpectsGoto(g, A, t.state, t.symbol);
    var r := GotoState(g, A, t.state, t.symbol);
    StateItemsValid(g, A, r);
    rel := NullableArcs(g, A.states[r].items, r, empty);
    ReadsAreArcs(g, A, t, empty, r);
  }

  method NullableArcs(g: Cfg, items: seq<Item>, r: nat, empty: set<Symbol>) returns (rel: seq<Transition>)
    requires ValidItems(g, items)
    ensures forall y :: y in rel <==> ReadsUpTo(g, items, r, empty, |items|, y)
  {
    rel := [];
    for k := 0 to |items|
      invariant forall y :: y in rel <==> ReadsUpTo(g, items, r, empty, k, y)
    {
      var it := items[k];
      if it.dot < |g.productions[it.prod].rhs| {
        var a := g.productions[it.prod].rhs[it.dot];
        if a in empty {
          assert DotBefore(g, items[k], a);
          rel := rel + [Arc(r, a)];
        }
      }
    }
  }

  lemma ReadsAreArcs(g: Cfg, A: Lr0, t: Transition, empty: set<Symbol>, r: nat)
    requires IsNullable(g, empty) && t.state < |A.states| && GotoState(g, A, t.state, t.symbol) == r < |A.states|
    ensures forall y :: ReadsUpTo(g, A.states[r].items, r, empty, |A.states[r].items|, y) <==> Reads(g, A, t, y)
  {
    ItemsExpect(g, A, r);
  }

  // ---- Lookback and includes -----------------------------------------------------------

  /** Every symbol after position k of a rule derives the empty string. */
  ghost predicate TailVanishes(g: Cfg, p: nat, k: nat)
    requires p < |g.productions| && k < |g.productions[p].rhs|
  {
    Vanishes(g, g.productions[p].rhs[k + 1..])
  }

  lemma NullableIsClosed(g: Cfg, nullable: set<Symbol>)
    requires g.Valid() && IsNullable(g, nullable)
    ensures GrammarTables.NullableClosed(g, nullable)
  {
    forall p | 1 <= p < |g.productions| ensures GrammarTables.MarksRule(g, nullable, p) {
      var rhs := g.productions[p].rhs;
      assert g.productions[p].name in g.nonterminals;
      if forall x :: x in rhs ==> x in nullable {
        GrammarTables.AllVanish(g, rhs);
        DerivesRule(g, p);
        DerivesTrans(g, [g.productions[p].name], rhs, []);
      }
    }
  }

  lemma RestNotNullable(g: Cfg, p: nat, k: nat, li: nat, nullable: set<Symbol>)
    requires g.Valid() && p < |g.productions| && k < li < |g.productions[p].rhs| && IsNullable(g, nullable)
    requires g.productions[p].rhs[li] !in nullable
    ensures !TailVanishes(g, p, k)
  {
    var rhs := g.productions[p].rhs;
    assert rhs[k + 1..][li - (k + 1)] == rhs[li];
    NullableIsClosed(g, nullable);
    var tail := rhs[k + 1..];
    forall n: nat ensures !DerivesIn(g, tail, [], n) {
      if DerivesIn(g, tail, [], n) {
        GrammarTables.VanishingIsNullable(g, nullable, tail, n);
      }
    }
  }

  /** The check inside compute_lookback_includes: is the rest of the rule nullable? */
  method RestIsNullable(g: Cfg, p: nat, k: nat, nullable: set<Symbol>) returns (b: bool)
    requires g.Valid() && p < |g.productions| && k < |g.productions[p].rhs| && IsNullable(g, nullable)
    ensures b <==> TailVanishes(g, p, k)
  {
    var rhs := g.productions[p].rhs;
    var li := k + 1;
    while li < |rhs|
      invariant k + 1 <= li <= |rhs|
      invariant forall j :: k + 1 <= j < li ==> rhs[j] in nullable
    {
      if rhs[li].Terminal? || rhs[li] !in nullable {
        RestNotNullable(g, p, k, li, nullable);
        return false;
      }
      li := li + 1;
    }
    forall x | x in rhs[k + 1..] ensures Vanishes(g, [x]) {
      var j :| 0 <= j < |rhs[k + 1..]| && rhs[k + 1..][j] == x;
      assert rhs[k + 1 + j] == x;
    }
    GrammarTables.AllVanish(g, rhs[k + 1..]);
    return true;
  }

  /** The "." that marks the dot in an LRItem's prod tuple. */
  const DOT := Terminal(".")

  /** An LRItem's prod tuple. */
  function WithDot(g: Cfg, it: Item): (s: seq<Symbol>)
    requires ValidItem(g, it)
    ensures |s| == |g.productions[it.prod].rhs| + 1
  {
    g.productions[it.prod].rhs[..it.dot] + [DOT] + g.productions[it.prod].rhs[it.dot..]
  }

  /** The comparison of a finished item r with the item p the walk started from. */
  method SamePrefix(g: Cfg, r: Item, p: Item) returns (b: bool)
    requires ValidItem(g, r) && ValidItem(g, p) && |g.productions[r.prod].rhs| == |g.productions[p.prod].rhs|
    ensures b <==> forall i :: 0 <= i < r.dot ==> WithDot(g, r)[i] == WithDot(g, p)[i + 1]
  {
    var i := 0;
    while i < r.dot
      invariant 0 <= i <= r.dot
      invariant forall j :: 0 <= j < i ==> WithDot(g, r)[j] == WithDot(g, p)[j + 1]
    {
      if WithDot(g, r)[i] != WithDot(g, p)[i + 1] {
        return false;
      }
      i := i + 1;
    }
    return true;
  }

  /** Rule p, followed from position d in state q, comes to its symbol k, a nonterminal that nothing but
      nullable symbols follow, at the transition y. */
  ghost predicate Meets(g: Cfg, A: Lr0, q: nat, p: nat, d: nat, k: nat, y: Transition) {
    && q < |A.states| && p < |g.productions| && d <= k < |g.productions[p].rhs|
    && y.symbol == g.productions[p].rhs[k] && y.symbol.Nonterminal? && TailVanishes(g, p, k)
    && Walk(g, A, q, g.productions[p].rhs[d..k]) == y.state
  }

  ghost predicate MeetsBefore(g: Cfg, A: Lr0, q: nat, p: nat, d: nat, m: nat, y: Transition) {
    exists k: nat :: k < m && Meets(g, A, q, p, d, k, y)
  }

  /** An item of t's nonterminal in t's state. */
  predicate OfHead(g: Cfg, A: Lr0, t: Transition, it: Item) {
    && t.state < |A.states| && it in A.states[t.state].items
    && ValidItem(g, it) && it.prod > 0 && g.productions[it.prod].name == t.symbol
  }

  /** The edge y INCLUDES t that following `it` from t's state contributes. */
  ghost predicate ItemIncludes(g: Cfg, A: Lr0, t: Transition, it: Item, y: Transition) {
    && OfHead(g, A, t, it)
    && MeetsBefore(g, A, t.state, it.prod, it.dot, |g.productions[it.prod].rhs|, y)
  }

  /** y INCLUDES t as compute_lookback_includes finds it: items of t's nonterminal are followed from t's
      state wherever their dots are. */
  ghost predicate Includes(g: Cfg, A: Lr0, y: Transition, t: Transition) {
    exists it :: ItemIncludes(g, A, t, it, y)
  }

  /** Item r of the final state passes the comparison with the item that the walk started from. */
  ghost predicate Matches(g: Cfg, r: Item, it: Item) {
    && ValidItem(g, r) && ValidItem(g, it)
    && g.productions[r.prod].name == g.productions[it.prod].name
    && |g.productions[r.prod].rhs| == |g.productions[it.prod].rhs|
    && forall i :: 0 <= i < r.dot ==> WithDot(g, r)[i] == WithDot(g, it)[i + 1]
  }

  /** The finished item e of state e.0 looks back to t because of `it`. */
  ghost predicate ItemLooksBack(g: Cfg, A: Lr0, t: Transition, it: Item, e: (nat, Item)) {
    && OfHead(g, A, t, it)
    && Walk(g, A, t.state, g.productions[it.prod].rhs[it.dot..]) == e.0 < |A.states|
    && e.1 in A.states[e.0].items && Matches(g, e.1, it)
  }

  /** e LOOKBACK t as compute_lookback_includes finds it. */
  ghost predicate LooksBack(g: Cfg, A: Lr0, t: Transition, e: (nat, Item)) {
    exists it :: ItemLooksBack(g, A, t, it, e)
  }

  lemma WalkMore(g: Cfg, A: Lr0, q: nat, rhs: seq<Symbol>, d: nat, k: nat, j: nat)
    requires q < |A.states| && d <= k < |rhs| && j < |A.states| && j == Walk(g, A, q, rhs[d..k])
    ensures Walk(g, A, q, rhs[d..k + 1]) == GotoState(g, A, j, rhs[k])
  {
    assert rhs[d..k + 1][..k - d] == rhs[d..k] && rhs[d..k + 1][k - d] == rhs[k];
  }

  /** An item of q can be walked through to any later position of its rule. */
  lemma {:induction false} WalkItem(g: Cfg, A: Lr0, q: nat, p: nat, d: nat, k: nat)
    requires IsAutomaton(g, A) && Has(A, q, p, d) && p < |g.productions| && d <= k <= |g.productions[p].rhs|
    ensures 0 <= Walk(g, A, q, g.productions[p].rhs[d..k]) < |A.states|
    ensures Has(A, Walk(g, A, q, g.productions[p].rhs[d..k]), p, k)
  {
    var rhs := g.productions[p].rhs;
    if k > d {
      WalkItem(g, A, q, p, d, k - 1);
      var r := Walk(g, A, q, rhs[d..k - 1]);
      GotoForward(g, A, r, Item(p, k - 1), rhs[k - 1]);
      WalkMore(g, A, q, rhs, d, k - 1, r);
    } else {
      assert rhs[d..k] == [];
    }
  }

  /** One more symbol of the rule. */
  lemma MeetsMore(g: Cfg, A: Lr0, q: nat, p: nat, d: nat, k: nat, y: Transition)
    ensures MeetsBefore(g, A, q, p, d, k + 1, y) <==> MeetsBefore(g, A, q, p, d, k, y) || Meets(g, A, q, p, d, k, y)
  {
    if MeetsBefore(g, A, q, p, d, k + 1, y) {
      var m: nat :| m < k + 1 && Meets(g, A, q, p, d, m, y);
      assert m < k || m == k;
    }
  }

  /** The check of one symbol of the rule, met in state j. */
  method CheckSymbol(g: Cfg, A: Lr0, dtrans: seq<Transition>, nullable: set<Symbol>, ghost q: nat, ghost d: nat,
          p: nat, k: nat, j: nat, includes: seq<Transition>)
    returns (more: seq<Transition>)
    requires IsAutomaton(g, A) && IsNullable(g, nullable) && AllTransitions(g, A, dtrans)
    requires q < |A.states| && 0 < p < |g.productions| && d <= k < |g.productions[p].rhs| && Has(A, j, p, k)
    requires j == Walk(g, A, q, g.productions[p].rhs[d..k])
    ensures forall y :: y in more <==> y in includes || Meets(g, A, q, p, d, k, y)
  {
    var t := g.productions[p].rhs[k];
    assert DotBefore(g, Item(p, k), t);
    assert t.Nonterminal? ==> IsTransition(g, A, Arc(j, t));
    more := includes;
    if Arc(j, t) in dtrans {
      var tail := RestIsNullable(g, p, k, nullable);
      if tail {
        more := includes + [Arc(j, t)];
      }
    }
  }

  /** Follow one item through the automaton to the end of its rule. */
  method FollowRule(g: Cfg, A: Lr0, dtrans: seq<Transition>, nullable: set<Symbol>, q: nat, it: Item)
    returns (j: nat, includes: seq<Transition>)
    requires IsAutomaton(g, A) && IsNullable(g, nullable) && AllTransitions(g, A, dtrans)
    requires q < |A.states| && it in A.states[q].items && ValidItem(g, it) && it.prod > 0
    ensures j < |A.states| && j == Walk(g, A, q, g.productions[it.prod].rhs[it.dot..])
    ensures forall y :: y in includes <==> MeetsBefore(g, A, q, it.prod, it.dot, |g.productions[it.prod].rhs|, y)
  {
    var rhs, p := g.productions[it.prod].rhs, it.prod;
    var k := it.dot;
    j, includes := q, [];
    assert rhs[it.dot..it.dot] == [];
    while k < |rhs|
      invariant it.dot <= k <= |rhs| && Has(A, j, p, k) && j == Walk(g, A, q, rhs[it.dot..k])
      invariant forall y :: y in includes <==> MeetsBefore(g, A, q, p, it.dot, k, y)
    {
      var more := CheckSymbol(g, A, dtrans, nullable, q, it.dot, p, k, j, includes);
      forall y ensures y in more <==> MeetsBefore(g, A, q, p, it.dot, k + 1, y) {
        MeetsMore(g, A, q, p, it.dot, k, y);
      }
      WalkMore(g, A, q, rhs, it.dot, k, j);
      j := NextState(g, A, j, p, k);
      includes, k := more, k + 1;
    }
    assert rhs[it.dot..|rhs|] == rhs[it.dot..];
  }

  method NextState(g: Cfg, A: Lr0, j: nat, p: nat, k: nat) returns (next: nat)
    requires IsAutomaton(g, A) && p < |g.productions| && k < |g.productions[p].rhs| && Has(A, j, p, k)
    ensures next == GotoState(g, A, j, g.productions[p].rhs[k]) && Has(A, next, p, k + 1)
  {
    GotoForward(g, A, j, Item(p, k), g.productions[p].rhs[k]);
    next := GotoState(g, A, j, g.productions[p].rhs[k]);
  }

  /** One of the first n items of state j passes the comparison with `it`. */
  ghost predicate MatchUpTo(g: Cfg, items: seq<Item>, j: nat, it: Item, n: nat, e: (nat, Item))
    requires n <= |items|
  {
    e.0 == j && e.1 in items[..n] && Matches(g, e.1, it)
  }

  /** The search of the final state for the finished rule. */
  method FindFinished(g: Cfg, A: Lr0, j: nat, it: Item) returns (lookb: seq<(nat, Item)>)
    requires IsAutomaton(g, A) && j < |A.states| && ValidItem(g, it)
    ensures forall e :: e in lookb <==> e.0 == j && e.1 in A.states[j].items && Matches(g, e.1, it)
  {
    StateItemsValid(g, A, j);
    var items := A.states[j].items;
    lookb := [];
    for k := 0 to |items|
      invariant forall e :: e in lookb <==> MatchUpTo(g, items, j, it, k, e)
    {
      var r := items[k];
      assert items[..k + 1] == items[..k] + [r] && ValidItem(g, r);
      if g.productions[r.prod].name == g.productions[it.prod].name &&
        |g.productions[r.prod].rhs| == |g.productions[it.prod].rhs| {
        var same := SamePrefix(g, r, it);
        if same {
          lookb := lookb + [(j, r)];
        }
      }
    }
    assert items[..|items|] == items;
  }

  /** What the first n items of t's state contribute. */
  ghost predicate IncludesUpTo(g: Cfg, A: Lr0, t: Transition, n: nat, y: Transition)
    requires t.state < |A.states| && n <= |A.states[t.state].items|
  {
    exists i :: 0 <= i < n && ItemIncludes(g, A, t, A.states[t.state].items[i], y)
  }

  ghost predicate LooksBackUpTo(g: Cfg, A: Lr0, t: Transition, n: nat, e: (nat, Item))
    requires t.state < |A.states| && n <= |A.states[t.state].items|
  {
    exists i :: 0 <= i < n && ItemLooksBack(g, A, t, A.states[t.state].items[i], e)
  }

  lemma UpToNext(g: Cfg, A: Lr0, t: Transition, n: nat, y: Transition, e: (nat, Item))
    requires t.state < |A.states| && n < |A.states[t.state].items|
    ensures IncludesUpTo(g, A, t, n + 1, y) <==>
      IncludesUpTo(g, A, t, n, y) || ItemIncludes(g, A, t, A.states[t.state].items[n], y)
    ensures LooksBackUpTo(g, A, t, n + 1, e) <==>
      LooksBackUpTo(g, A, t, n, e) || ItemLooksBack(g, A, t, A.states[t.state].items[n], e)
  {
    if IncludesUpTo(g, A, t, n + 1, y) {
      var i :| 0 <= i < n + 1 && ItemIncludes(g, A, t, A.states[t.state].items[i], y);
      assert i < n || i == n;
    }
    if LooksBackUpTo(g, A, t, n + 1, e) {
      var i :| 0 <= i < n + 1 && ItemLooksBack(g, A, t, A.states[t.state].items[i], e);
      assert i < n || i == n;
    }
  }

  lemma UpToAll(g: Cfg, A: Lr0, t: Transition, y: Transition, e: (nat, Item))
    requires t.state < |A.states|
    ensures IncludesUpTo(g, A, t, |A.states[t.state].items|, y) <==> Includes(g, A, y, t)
    ensures LooksBackUpTo(g, A, t, |A.states[t.state].items|, e) <==> LooksBack(g, A, t, e)
  {
    var I := A.states[t.state].items;
    if Includes(g, A, y, t) {
      var it :| ItemIncludes(g, A, t, it, y);
      var i :| 0 <= i < |I| && I[i] == it;
    }
    if LooksBack(g, A, t, e) {
      var it :| ItemLooksBack(g, A, t, it, e);
      var i :| 0 <= i < |I| && I[i] == it;
    }
  }

  /** The edges that one item contributes. */
  method FollowItem(g: Cfg, A: Lr0, dtrans: seq<Transition>, nullable: set<Symbol>, t: Transition, it: Item)
    returns (lookb: seq<(nat, Item)>, includes: seq<Transition>)
    requires IsAutomaton(g, A) && IsNullable(g, nullable) && AllTransitions(g, A, dtrans) && IsTransition(g, A, t)
    requires it in A.states[t.state].items && ValidItem(g, it)
    ensures forall y :: y in includes <==> ItemIncludes(g, A, t, it, y)
    ensures forall e :: e in lookb <==> ItemLooksBack(g, A, t, it, e)
  {
    lookb, includes := [], [];
    if g.productions[it.prod].name == t.symbol {
      TransitionNames(g, A, t);
      var j;
      j, includes := FollowRule(g, A, dtrans, nullable, t.state, it);
      lookb := FindFinished(g, A, j, it);
    }
  }

  /** compute_lookback_includes, one transition: every item of its state that belongs to a rule of
      its nonterminal, with the dot anywhere, is followed to the end. */
  method LookbackIncludes(g: Cfg, A: Lr0, dtrans: seq<Transition>, nullable: set<Symbol>, t: Transition)
      returns (lookb: seq<(nat, Item)>, includes: seq<Transition>)
    requires IsAutomaton(g, A) && IsNullable(g, nullable) && AllTransitions(g, A, dtrans) && IsTransition(g, A, t)
    ensures forall y :: y in includes <==> Includes(g, A, y, t)
    ensures forall e :: e in lookb <==> LooksBack(g, A, t, e)
  {
    lookb, includes := [], [];
    StateItemsValid(g, A, t.state);
    for k := 0 to |A.states[t.state].items|
      invariant forall y :: y in includes <==> IncludesUpTo(g, A, t, k, y)
      invariant forall e :: e in lookb <==> LooksBackUpTo(g, A, t, k, e)
    {
      var it := A.states[t.state].items[k];
      assert it in A.states[t.state].items;
      var lb, inc := FollowItem(g, A, dtrans, nullable, t, it);
      lookb, includes := lookb + lb, includes + inc;
      forall y, e ensures (y in includes <==> IncludesUpTo(g, A, t, k + 1, y)) &&
        (e in lookb <==> LooksBackUpTo(g, A, t, k + 1, e)) {
        UpToNext(g, A, t, k, y, e);
      }
    }
    forall y, e ensures (y in includes <==> Includes(g, A, y, t)) && (e in lookb <==> LooksBack(g, A, t, e)) {
      UpToAll(g, A, t, y, e);
    }
  }

  /** No transition is on the augmented start symbol. */
  lemma TransitionNames(g: Cfg, A: Lr0, t: Transition)
    requires IsAutomaton(g, A) && IsTransition(g, A, t)
    ensures t.symbol != AUGMENTED && t.symbol in g.nonterminals
  {
    var it :| it in A.states[t.state].items && DotBefore(g, it, t.symbol);
    assert g.RuleSymbol(g.productions[it.prod].rhs[it.dot]);
  }
}
