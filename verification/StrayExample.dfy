/** A grammar for which the includes edges that moved items add make a difference:

        0: S' : S    1: S : N    2: S : a x c    3: N : a M    4: M : N c    5: M : x

    It is LALR(1) with the relations of DeRemer and Pennello. In the state behind the first a, however,
    the item N : a . M is under way where an N can also begin, so that what follows that N, the token c,
    is taken to follow M as well. The generator then sees a conflict between shifting c after a x by
    rule 2 and reducing x to M. */
module StrayExample {
  import opened Cfg
  import opened LrAutomaton
  import opened GotoLists
  import opened ParseTable
  import opened LrEngine
  import opened LrComplete
  import opened Lookahead
  import opened LalrTables
  import opened LalrMeaning
  import Digraph

  const S := Nonterminal("S")
  const N := Nonterminal("N")
  const M := Nonterminal("M")
  const LA := Terminal("a")
  const LX := Terminal("x")
  const LC := Terminal("c")

  const G := Cfg({LA, LX, LC}, [S, N, M],
                     [Production(AUGMENTED, [S], NO_PRECEDENCE, 0), Production(S, [N], NO_PRECEDENCE, 1),
                      Production(S, [LA, LX, LC], NO_PRECEDENCE, 2), Production(N, [LA, M], NO_PRECEDENCE, 3),
                      Production(M, [N, LC], NO_PRECEDENCE, 4), Production(M, [LX], NO_PRECEDENCE, 5)],
                     map[])

  // The states: kernels, and the items of those that have more.

  const K0 := [Item(0, 0)]
  const I0 := [Item(0, 0), Item(1, 0), Item(2, 0), Item(3, 0)]
  const K1 := [Item(0, 1)]
  const K2 := [Item(1, 1)]
  const K3 := [Item(2, 1), Item(3, 1)]
  const I3 := [Item(2, 1), Item(3, 1), Item(4, 0), Item(5, 0), Item(3, 0)]
  const K4 := [Item(3, 1)]
  const I4 := [Item(3, 1), Item(4, 0), Item(5, 0), Item(3, 0)]
  const K5 := [Item(2, 2), Item(5, 1)]
  const K6 := [Item(3, 2)]
  const K7 := [Item(4, 1)]
  const K8 := [Item(5, 1)]
  const K9 := [Item(2, 3)]
  const K10 := [Item(4, 2)]

  const STATES := [State(K0, I0), State(K1, K1), State(K2, K2), State(K3, I3), State(K4, I4), State(K5, K5),
                   State(K6, K6), State(K7, K7), State(K8, K8), State(K9, K9), State(K10, K10)]

  const A := Lr0(STATES, map[K0 := 0, K1 := 1, K2 := 2, K3 := 3, K4 := 4, K5 := 5, K6 := 6, K7 := 7, K8 := 8,
                             K9 := 9, K10 := 10])

  lemma GrammarValid()
    ensures G.Valid()
  {
    assert G.IsRuleOf(1, S) && G.IsRuleOf(3, N) && G.IsRuleOf(4, M);
  }

  /** The symbol after an item's dot. */
  lemma Dots(y: Symbol)
    ensures DotBefore(G, Item(0, 0), y) <==> y == S
    ensures DotBefore(G, Item(1, 0), y) <==> y == N
    ensures DotBefore(G, Item(2, 0), y) <==> y == LA
    ensures DotBefore(G, Item(2, 1), y) <==> y == LX
    ensures DotBefore(G, Item(2, 2), y) <==> y == LC
    ensures DotBefore(G, Item(3, 0), y) <==> y == LA
    ensures DotBefore(G, Item(3, 1), y) <==> y == M
    ensures DotBefore(G, Item(4, 0), y) <==> y == N
    ensures DotBefore(G, Item(4, 1), y) <==> y == LC
    ensures DotBefore(G, Item(5, 0), y) <==> y == LX
    ensures !DotBefore(G, Item(0, 1), y) && !DotBefore(G, Item(1, 1), y) && !DotBefore(G, Item(2, 3), y)
    ensures !DotBefore(G, Item(3, 2), y) && !DotBefore(G, Item(4, 2), y) && !DotBefore(G, Item(5, 1), y)
  {
  }

  lemma GotosOf0(y: Symbol)
    ensures GotoKernel(G, I0, y) == if y == S then K1 else if y == N then K2 else if y == LA then K3 else []
  {
    Dots(y);
    GotoFour(G, Item(0, 0), Item(1, 0), Item(2, 0), Item(3, 0), y);
  }

  lemma GotosOf3(y: Symbol)
    ensures GotoKernel(G, I3, y) == if y == LA then K4 else if y == LX then K5 else if y == M then K6
      else if y == N then K7 else []
  {
    Dots(y);
    GotoFive(G, Item(2, 1), Item(3, 1), Item(4, 0), Item(5, 0), Item(3, 0), y);
  }

  lemma GotosOf4(y: Symbol)
    ensures GotoKernel(G, I4, y) == if y == LA then K4 else if y == LX then K8 else if y == M then K6
      else if y == N then K7 else []
  {
    Dots(y);
    GotoFour(G, Item(3, 1), Item(4, 0), Item(5, 0), Item(3, 0), y);
  }

  lemma GotosOfOthers(y: Symbol)
    ensures GotoKernel(G, K1, y) == [] && GotoKernel(G, K2, y) == [] && GotoKernel(G, K6, y) == []
    ensures GotoKernel(G, K8, y) == [] && GotoKernel(G, K9, y) == [] && GotoKernel(G, K10, y) == []
    ensures GotoKernel(G, K5, y) == if y == LC then K9 else []
    ensures GotoKernel(G, K7, y) == if y == LC then K10 else []
  {
    Dots(y);
    GotoOne(G, Item(0, 1), y);
    GotoOne(G, Item(1, 1), y);
    GotoOne(G, Item(3, 2), y);
    GotoOne(G, Item(5, 1), y);
    GotoOne(G, Item(2, 3), y);
    GotoOne(G, Item(4, 2), y);
    GotoOne(G, Item(4, 1), y);
    GotoTwo(G, Item(2, 2), Item(5, 1), y);
  }

  lemma Numbers(s: nat)
    requires s < 11
    ensures A.states[s].kernel in A.number && A.number[A.states[s].kernel] == s
  {
    assert K0[0] == Item(0, 0) && K1[0] == Item(0, 1) && K2[0] == Item(1, 1) && K3[0] == Item(2, 1);
    assert K4[0] == Item(3, 1) && K5[0] == Item(2, 2) && K6[0] == Item(3, 2) && K7[0] == Item(4, 1);
    assert K8[0] == Item(5, 1) && K9[0] == Item(2, 3) && K10[0] == Item(4, 2);
  }

  /** Every goto of the automaton, by its number. */
  function Next(s: nat, y: Symbol): int {
    if s == 0 then (if y == S then 1 else if y == N then 2 else if y == LA then 3 else -1)
    else if s == 3 then (if y == LA then 4 else if y == LX then 5 else if y == M then 6 else if y == N then 7 else -1)
    else if s == 4 then (if y == LA then 4 else if y == LX then 8 else if y == M then 6 else if y == N then 7 else -1)
    else if s == 5 then (if y == LC then 9 else -1)
    else if s == 7 then (if y == LC then 10 else -1)
    else -1
  }

  lemma Gotos(s: nat, y: Symbol)
    requires s < 11
    ensures GotoKernel(G, A.states[s].items, y) == if Next(s, y) >= 0 then A.states[Next(s, y)].kernel else []
  {
    if s == 0 {
      GotosOf0(y);
    } else if s == 3 {
      GotosOf3(y);
    } else if s == 4 {
      GotosOf4(y);
    } else {
      GotosOfOthers(y);
    }
  }

  lemma GotoStates(s: nat, y: Symbol)
    requires s < 11
    ensures GotoState(G, A, s, y) == Next(s, y)
  {
    Gotos(s, y);
    if Next(s, y) >= 0 {
      Numbers(Next(s, y));
    }
  }

  // ---- The automaton -------------------------------------------------------------------

  /** Positions of the list that an earlier item accounts for. */
  lemma Accounted(I: seq<Item>, k: nat, j: nat)
    requires j < k < |I| && I[k].dot == 0 && 1 <= I[k].prod < 6 && DotBefore(G, I[j], G.productions[I[k].prod].name)
    ensures Justified(G, I, k)
  {
  }

  /** The rules that an item calls for. */
  lemma Calls(it: Item, p: nat)
    requires ValidItem(G, it) && CallsFor(G, it, p)
    ensures it == Item(0, 0) ==> p == 1 || p == 2
    ensures it == Item(1, 0) || it == Item(4, 0) ==> p == 3
    ensures it == Item(3, 1) ==> p == 4 || p == 5
    ensures it in {Item(0, 0), Item(1, 0), Item(4, 0), Item(3, 1)}
  {
    Dots(G.productions[p].name);
  }

  lemma ClosedAt(I: seq<Item>, k: nat)
    requires k < |I| && ValidItems(G, I)
    requires I[k] == Item(0, 0) ==> Item(1, 0) in I && Item(2, 0) in I
    requires I[k] == Item(1, 0) || I[k] == Item(4, 0) ==> Item(3, 0) in I
    requires I[k] == Item(3, 1) ==> Item(4, 0) in I && Item(5, 0) in I
    ensures RulesPresent(G, I, k)
  {
    assert ValidItem(G, I[k]);
    forall p: nat | CallsFor(G, I[k], p) ensures Item(p, 0) in I {
      Calls(I[k], p);
    }
  }

  lemma Closed0()
    ensures IsClosure(G, K0, I0)
  {
    Dots(S);
    Dots(N);
    Accounted(I0, 1, 0);
    Accounted(I0, 2, 0);
    Accounted(I0, 3, 1);
    assert I0[1] == Item(1, 0) && I0[2] == Item(2, 0) && I0[3] == Item(3, 0);
    forall k | 0 <= k < |I0| ensures RulesPresent(G, I0, k) {
      ClosedAt(I0, k);
    }
    assert I0[1..] == [Item(1, 0), Item(2, 0), Item(3, 0)];
  }

  lemma Closed3()
    ensures IsClosure(G, K3, I3)
  {
    Dots(M);
    Dots(N);
    Accounted(I3, 2, 1);
    Accounted(I3, 3, 1);
    Accounted(I3, 4, 2);
    assert I3[2] == Item(4, 0) && I3[3] == Item(5, 0) && I3[4] == Item(3, 0);
    forall k | 0 <= k < |I3| ensures RulesPresent(G, I3, k) {
      ClosedAt(I3, k);
    }
    assert I3[2..] == [Item(4, 0), Item(5, 0), Item(3, 0)];
  }

  lemma Closed4()
    ensures IsClosure(G, K4, I4)
  {
    Dots(M);
    Dots(N);
    Accounted(I4, 1, 0);
    Accounted(I4, 2, 0);
    Accounted(I4, 3, 1);
    assert I4[1] == Item(4, 0) && I4[2] == Item(5, 0) && I4[3] == Item(3, 0);
    forall k | 0 <= k < |I4| ensures RulesPresent(G, I4, k) {
      ClosedAt(I4, k);
    }
    assert I4[1..] == [Item(4, 0), Item(5, 0), Item(3, 0)];
  }

  /** A state that expects no nonterminal is closed as it is. */
  lemma ClosedAlone(K: seq<Item>)
    requires ValidItems(G, K) && Item(0, 0) !in K && Item(1, 0) !in K && Item(4, 0) !in K && Item(3, 1) !in K
    ensures IsClosure(G, K, K)
  {
    forall k | 0 <= k < |K| ensures RulesPresent(G, K, k) {
      ClosedAt(K, k);
    }
    assert K[|K|..] == [];
  }

  lemma StatesClosed(s: nat)
    requires s < 11
    ensures IsClosure(G, A.states[s].kernel, A.states[s].items)
  {
    if s == 0 {
      Closed0();
    } else if s == 3 {
      Closed3();
    } else if s == 4 {
      Closed4();
    } else {
      ClosedAlone(A.states[s].kernel);
    }
  }

  lemma KernelsOk(s: nat)
    requires s < 11
    ensures Kernel(G, A.states[s].kernel)
  {
  }

  lemma StatesReached(s: nat)
    requires 0 < s < 11
    ensures Reached(G, A, s)
  {
    var r := if s <= 3 then 0 else if s <= 7 then 3 else if s == 8 then 4 else if s == 9 then 5 else 7;
    var y := if s == 1 then S else if s == 2 || s == 7 then N else if s == 3 || s == 4 then LA
             else if s == 5 || s == 8 then LX else if s == 6 then M else LC;
    Gotos(r, y);
    assert r < s && A.states[s].kernel == GotoKernel(G, A.states[r].items, y);
  }

  lemma StatesOk(s: nat)
    requires s < 11
    ensures StateOk(G, A, s)
  {
    Numbers(s);
    KernelsOk(s);
    StatesClosed(s);
    if s > 0 {
      StatesReached(s);
    }
  }

  lemma GotosNumbered(s: nat)
    requires s < 11
    ensures GotosPresent(G, A, s)
  {
    forall y ensures GotoPresent(G, A, s, y) {
      Gotos(s, y);
      if Next(s, y) >= 0 {
        Numbers(Next(s, y));
      }
    }
  }

  lemma KernelsNumbered(K: seq<Item>)
    requires K in A.number
    ensures A.number[K] < 11 && A.states[A.number[K]].kernel == K
  {
    assert K == K0 || K == K1 || K == K2 || K == K3 || K == K4 || K == K5 || K == K6 || K == K7 || K == K8 ||
      K == K9 || K == K10;
    var s := if K == K0 then 0 else if K == K1 then 1 else if K == K2 then 2 else if K == K3 then 3
             else if K == K4 then 4 else if K == K5 then 5 else if K == K6 then 6 else if K == K7 then 7
             else if K == K8 then 8 else if K == K9 then 9 else 10;
    Numbers(s);
  }

  lemma ExampleAutomaton()
    ensures IsAutomaton(G, A)
  {
    GrammarValid();
    forall s | 0 <= s < |A.states| ensures StateOk(G, A, s) && GotosPresent(G, A, s) {
      StatesOk(s);
      GotosNumbered(s);
    }
    forall K | K in A.number ensures A.number[K] < |A.states| && A.states[A.number[K]].kernel == K {
      KernelsNumbered(K);
    }
  }

  // ---- The stray edge ------------------------------------------------------------------

  const ITEM_M := Arc(3, M)
  const ITEM_N := Arc(3, N)

  /** The item N : a . M of state 3 makes (3, M) include (3, N). */
  lemma StrayEdge()
    ensures StrayIncludes(G, A, ITEM_M, ITEM_N) && IsTransition(G, A, ITEM_M) && IsTransition(G, A, ITEM_N)
  {
    Dots(M);
    Dots(N);
    var it := Item(3, 1);
    var rhs := G.productions[3].rhs;
    assert I3[1] == it && I3[2] == Item(4, 0);
    assert rhs[1..1] == [] && rhs[2..] == [];
    DerivesRefl(G, []);
    assert TailVanishes(G, 3, 1);
    assert Meets(G, A, 3, 3, 1, 1, ITEM_M);
    assert ItemIncludes(G, A, ITEM_N, it, ITEM_M);
  }

  /** c can be read after that N. */
  lemma ReadAfterN(proper: bool)
    ensures Follows(G, A, proper, ITEM_N, LC)
  {
    GotoStates(3, N);
    Dots(LC);
    assert A.states[7].items[0] == Item(4, 1);
    assert Expects(G, A, 7, LC);
    var p := [ITEM_N];
    assert ReadsPath(G, A, p) && DirectlyReads(G, A, p[|p| - 1], LC);
    assert ReadAfter(G, A, ITEM_N, LC);
    assert FollowPath(G, A, proper, ITEM_N, LC, p);
  }

  /** So c is a lookahead of M : x . in the state behind a x, where rule 2 shifts it. */
  lemma StrayLookahead(D: LalrData, P: Digraph.Problem, Q: Digraph.Problem)
    requires IsLalr(G, A, D, P, Q)
    ensures (5, Item(5, 1)) in D.sets && LC in D.sets[(5, Item(5, 1))]
    ensures Conflict(G, A, LALR(D.sets), 5, LC)
  {
    StrayEdge();
    ReadAfterN(false);
    IncludesSplit(G, A, ITEM_M, ITEM_N);
    FollowsOn(G, A, false, ITEM_M, ITEM_N, LC);
    LooksBackFromX();
    LookaheadsMean(G, A, D, P, Q, (5, Item(5, 1)), LC);
    BothOffered(LALR(D.sets));
  }

  lemma LooksBackFromX()
    ensures LooksBack(G, A, ITEM_M, (5, Item(5, 1)))
  {
    ExampleAutomaton();
    assert I3[3] == Item(5, 0);
    RuleLooksBack(G, A, 3, 5);
    GotoStates(3, LX);
    assert G.productions[5].rhs[..0] == [];
    assert Walk(G, A, 3, G.productions[5].rhs) == 5;
  }

  lemma BothOffered(L: Lookaheads)
    requires L.Known(G, 5, 5) && LC in L.Of(G, 5, 5)
    ensures Conflict(G, A, L, 5, LC)
  {
    Dots(LC);
    GotoStates(5, LC);
    assert K5[0] == Item(2, 2) && K5[1] == Item(5, 1);
    assert Offers(G, A, L, 5, Item(2, 2), LC, Shift(9)) && Offers(G, A, L, 5, Item(5, 1), LC, Reduce(5));
    assert Candidate(G, A, L, 5, LC, Shift(9)) && Candidate(G, A, L, 5, LC, Reduce(5));
  }

  // ---- Without it ----------------------------------------------------------------------

  /** The transitions that proper edges lead to from (3, M). */
  predicate Above(t: Transition) {
    t == ITEM_M || t == Arc(0, N) || t == Arc(0, S)
  }

  lemma NothingBehind(t: Transition, y: Symbol)
    requires Above(t)
    ensures GotoState(G, A, t.state, t.symbol) >= 0 && !Expects(G, A, GotoState(G, A, t.state, t.symbol), y)
  {
    GotoStates(t.state, t.symbol);
    Dots(y);
    var s: nat := Next(t.state, t.symbol);
    forall it | it in A.states[s].items ensures !DotBefore(G, it, y) {}
  }

  lemma NothingRead(t: Transition)
    requires Above(t)
    ensures !ReadAfter(G, A, t, LC)
  {
    if ReadAfter(G, A, t, LC) {
      var p: seq<Transition> :| ReadsPath(G, A, p) && p[0] == t && p[|p| - 1].state < |A.states| &&
        DirectlyReads(G, A, p[|p| - 1], LC);
      if |p| > 1 {
        assert Reads(G, A, p[0], p[0 + 1]);
        NothingBehind(t, p[1].symbol);
      } else {
        NothingBehind(t, LC);
      }
    }
  }

  /** Where a walk over one rule's front ends. */
  lemma FrontOfRule3(q: nat)
    requires q < 11 && Walk(G, A, q, G.productions[3].rhs[0..1]) == 3
    ensures q == 0
  {
    var rhs := G.productions[3].rhs;
    assert rhs[0..1] == [LA] && [LA][..0] == [];
    GotoStates(q, LA);
  }

  lemma ProperStays(y: Transition, t: Transition)
    requires Above(y) && ProperIncludes(G, A, y, t)
    ensures Above(t)
  {
    var it: Item :| it.dot == 0 && ItemIncludes(G, A, t, it, y);
    var p, rhs := it.prod, G.productions[it.prod].rhs;
    var k: nat :| k < |rhs| && Meets(G, A, t.state, p, 0, k, y);
    if p == 3 && k == 1 {
      FrontOfRule3(t.state);
    } else {
      assert rhs[0..0] == [];
      assert p == 1 || p == 4;
      assert k == 0 && t.state == 0;
      assert p == 4 ==> it in I0;
    }
  }

  lemma {:induction false} ProperPathStays(p: seq<Transition>, k: nat)
    requires IncludesPath(G, A, true, p) && Above(p[0]) && k < |p|
    ensures Above(p[k])
  {
    if k > 0 {
      ProperPathStays(p, k - 1);
      assert Edge(G, A, true, p[k - 1], p[k - 1 + 1]);
      ProperStays(p[k - 1], p[k]);
    }
  }

  /** Along proper edges c does not follow that M. */
  lemma NotProperly()
    ensures !Follows(G, A, true, ITEM_M, LC)
  {
    if Follows(G, A, true, ITEM_M, LC) {
      var p :| FollowPath(G, A, true, ITEM_M, LC, p);
      ProperPathStays(p, |p| - 1);
      NothingRead(p[|p| - 1]);
    }
  }

  lemma StraysMatter()
    ensures !StraysHarmless(G, A)
  {
    StrayEdge();
    ReadAfterN(true);
    NotProperly();
  }

  lemma NotAheadProperly()
    ensures !ProperLooksAhead(G, A, (5, Item(5, 1)), LC)
  {
    if ProperLooksAhead(G, A, (5, Item(5, 1)), LC) {
      var t :| IsTransition(G, A, t) && ProperLooksBack(G, A, t, (5, Item(5, 1))) && Follows(G, A, true, t, LC);
      BackToM(t);
      NotProperly();
    }
  }

  lemma BackToM(t: Transition)
    requires ProperLooksBack(G, A, t, (5, Item(5, 1)))
    ensures t == ITEM_M
  {
    WalkX(t.state);
  }

  lemma WalkX(q: nat)
    requires q < 11
    ensures Walk(G, A, q, G.productions[5].rhs) == Next(q, LX)
  {
    assert G.productions[5].rhs[..0] == [];
    GotoStates(q, LX);
  }

  /** Lookaheads without a stray one leave nothing to resolve: the grammar is LALR(1). */
  lemma ProperlyConflictFree(L: Lookaheads)
    requires forall s: nat, p: nat, a :: s < 11 && p < 6 && L.Known(G, s, p) && a in L.Of(G, s, p) ==>
                                           ProperLooksAhead(G, A, (s, Item(p, |G.productions[p].rhs|)), a)
    ensures ConflictFree(G, A, L)
  {
    NotAheadProperly();
    assert L.Known(G, 5, 5) ==> LC !in L.Of(G, 5, 5);
    forall s: nat, a | s < |A.states| ensures !Conflict(G, A, L, s, a) {
      OneOffer(L, s, a);
    }
  }

  lemma OneItemOffers(L: Lookaheads, s: nat, it: Item, a: Symbol, x: Action, y: Action)
    requires s < 11 && Offers(G, A, L, s, it, a, x) && Offers(G, A, L, s, it, a, y)
    ensures x == y
  {
  }

  /** Only state 5 has a finished item beside others. */
  lemma Unfinished(L: Lookaheads, s: nat, it: Item, a: Symbol, x: Action)
    requires s == 0 || s == 3 || s == 4 || s == 7
    requires it in A.states[s].items && Offers(G, A, L, s, it, a, x)
    ensures x.Shift? && x.state == GotoState(G, A, s, a)
  {
    assert !Complete(G, it);
  }

  lemma OfferedIn5(L: Lookaheads, it: Item, a: Symbol, x: Action)
    requires it in A.states[5].items && Offers(G, A, L, 5, it, a, x)
    ensures it == Item(2, 2) || it == Item(5, 1)
    ensures it == Item(2, 2) ==> a == LC
    ensures it == Item(5, 1) ==> L.Known(G, 5, 5) && a in L.Of(G, 5, 5)
  {
    Dots(a);
    assert it == Item(2, 2) ==> !Complete(G, it);
  }

  lemma OffersAgree(L: Lookaheads, s: nat, a: Symbol, i: Item, j: Item, x: Action, y: Action)
    requires s < 11 && (L.Known(G, 5, 5) ==> LC !in L.Of(G, 5, 5))
    requires i in A.states[s].items && Offers(G, A, L, s, i, a, x)
    requires j in A.states[s].items && Offers(G, A, L, s, j, a, y)
    ensures x == y
  {
    if i == j {
      OneItemOffers(L, s, i, a, x, y);
    } else if s == 5 {
      OfferedIn5(L, i, a, x);
      OfferedIn5(L, j, a, y);
    } else {
      Unfinished(L, s, i, a, x);
      Unfinished(L, s, j, a, y);
    }
  }

  lemma OneOffer(L: Lookaheads, s: nat, a: Symbol)
    requires s < 11 && (L.Known(G, 5, 5) ==> LC !in L.Of(G, 5, 5))
    ensures !Conflict(G, A, L, s, a)
  {
    if Conflict(G, A, L, s, a) {
      var x, y :| x != y && Candidate(G, A, L, s, a, x) && Candidate(G, A, L, s, a, y);
      var i :| i in A.states[s].items && Offers(G, A, L, s, i, a, x);
      var j :| j in A.states[s].items && Offers(G, A, L, s, j, a, y);
      OffersAgree(L, s, a, i, j, x, y);
    }
  }
}
