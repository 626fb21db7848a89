/** A grammar on which the generator's table misses the documented precedence rule. The four rules

        0: S' : S      1: S : x e      2: S : a e      3: a : x

    leave, once x has been read, the choice between shifting e by rule 1 and reducing by rule 3. As the
    item of rule 1 comes first in that state, its precedence, which is that of e itself, is compared with
    the token e: the associativity of e alone decides, whatever precedence rule 3 has. */
module PrecedenceExample {
  import opened Cfg
  import opened GrammarSets
  import opened LrAutomaton
  import opened GotoLists
  import opened ParseTable

  const S := Nonterminal("S")
  const N := Nonterminal("a")
  const E := Terminal("e")
  const X := Terminal("x")

  /** The grammar with the precedences of the tokens e and x. A rule has the precedence of its last
      terminal. */
  function Example(e: Precedence, x: Precedence): Cfg {
    Cfg({E, X}, [S, N],
        [Production(AUGMENTED, [S], NO_PRECEDENCE, 0), Production(S, [X, E], e, 1),
         Production(S, [N, E], e, 2), Production(N, [X], x, 3)],
        map[E := e, X := x])
  }

  // The kernels of its automaton; only state 0 has further items.

  const K0 := [Item(0, 0)]
  const K1 := [Item(0, 1)]
  const K2 := [Item(1, 1), Item(3, 1)]
  const K3 := [Item(2, 1)]
  const K4 := [Item(1, 2)]
  const K5 := [Item(2, 2)]
  const I0 := [Item(0, 0), Item(1, 0), Item(2, 0), Item(3, 0)]

  function Automaton(): Lr0 {
    Lr0([State(K0, I0), State(K1, K1), State(K2, K2), State(K3, K3), State(K4, K4), State(K5, K5)],
        map[K0 := 0, K1 := 1, K2 := 2, K3 := 3, K4 := 4, K5 := 5])
  }

  lemma ExampleValid(e: Precedence, x: Precedence)
    ensures Example(e, x).Valid()
  {
    var g := Example(e, x);
    assert g.IsRuleOf(1, S) && g.IsRuleOf(3, N);
  }

  /** The symbol after an item's dot. */
  lemma Dots(e: Precedence, x: Precedence, y: Symbol)
    ensures var g := Example(e, x);
            && (DotBefore(g, Item(0, 0), y) <==> y == S)
            && (DotBefore(g, Item(1, 0), y) <==> y == X)
            && (DotBefore(g, Item(2, 0), y) <==> y == N)
            && (DotBefore(g, Item(3, 0), y) <==> y == X)
            && (DotBefore(g, Item(1, 1), y) <==> y == E)
            && (DotBefore(g, Item(2, 1), y) <==> y == E)
            && !DotBefore(g, Item(0, 1), y) && !DotBefore(g, Item(3, 1), y)
            && !DotBefore(g, Item(1, 2), y) && !DotBefore(g, Item(2, 2), y)
  {
  }

  /** Every goto of the automaton. */
  lemma Gotos(e: Precedence, x: Precedence, y: Symbol)
    ensures var g := Example(e, x);
            && GotoKernel(g, I0, y) == (if y == S then K1 else if y == X then K2 else if y == N then K3 else [])
            && GotoKernel(g, K1, y) == []
            && GotoKernel(g, K2, y) == (if y == E then K4 else [])
            && GotoKernel(g, K3, y) == (if y == E then K5 else [])
            && GotoKernel(g, K4, y) == [] && GotoKernel(g, K5, y) == []
  {
    var g := Example(e, x);
    Dots(e, x, y);
    GotoFour(g, Item(0, 0), Item(1, 0), Item(2, 0), Item(3, 0), y);
    GotoTwo(g, Item(1, 1), Item(3, 1), y);
    GotoOne(g, Item(0, 1), y);
    GotoOne(g, Item(2, 1), y);
    GotoOne(g, Item(1, 2), y);
    GotoOne(g, Item(2, 2), y);
  }

  lemma StartClosed(e: Precedence, x: Precedence)
    ensures IsClosure(Example(e, x), K0, I0)
  {
    var g := Example(e, x);
    forall y ensures DotBefore(g, I0[0], y) <==> y == S {
      Dots(e, x, y);
    }
    Dots(e, x, S);
    Dots(e, x, N);
    assert Justified(g, I0, 1) && Justified(g, I0, 2) && Justified(g, I0, 3) by {
      assert DotBefore(g, I0[0], S) && DotBefore(g, I0[2], N);
    }
    assert I0[1] == Item(1, 0) && I0[2] == Item(2, 0) && I0[3] == Item(3, 0);
    forall k | 0 <= k < 4 ensures RulesPresent(g, I0, k) {}
    assert I0[1..] == [Item(1, 0), Item(2, 0), Item(3, 0)];
  }

  /** A state that expects no nonterminal is closed as it is. */
  lemma OthersClosed(e: Precedence, x: Precedence, K: seq<Item>)
    requires K == K1 || K == K2 || K == K3 || K == K4 || K == K5
    ensures IsClosure(Example(e, x), K, K)
  {
    var g := Example(e, x);
    forall k | 0 <= k < |K| ensures RulesPresent(g, K, k) {}
    assert K[|K|..] == [];
  }

  lemma ExampleAutomaton(e: Precedence, x: Precedence)
    ensures IsAutomaton(Example(e, x), Automaton())
  {
    var g, A := Example(e, x), Automaton();
    ExampleValid(e, x);
    forall s | 0 <= s < |A.states| ensures StateOk(g, A, s) {
      StatesOk(e, x, s);
    }
    forall s | 0 <= s < |A.states| ensures GotosPresent(g, A, s) {
      forall y ensures GotoPresent(g, A, s, y) {
        Gotos(e, x, y);
      }
    }
  }

  lemma Numbers(s: nat)
    requires s < 6
    ensures var A := Automaton(); A.states[s].kernel in A.number && A.number[A.states[s].kernel] == s
  {
    assert K0[0] == Item(0, 0) && K1[0] == Item(0, 1) && K2[0] == Item(1, 1);
    assert K3[0] == Item(2, 1) && K4[0] == Item(1, 2) && K5[0] == Item(2, 2);
  }

  lemma KernelsOk(e: Precedence, x: Precedence, s: nat)
    requires s < 6
    ensures Kernel(Example(e, x), Automaton().states[s].kernel)
  {
  }

  lemma StatesReached(e: Precedence, x: Precedence, s: nat)
    requires 0 < s < 6
    ensures Reached(Example(e, x), Automaton(), s)
  {
    var g, A := Example(e, x), Automaton();
    var r, y := if s <= 3 then 0 else s - 2, if s == 1 then S else if s == 2 then X else if s == 3 then N else E;
    Gotos(e, x, y);
    assert 0 <= r < s && A.states[s].kernel == GotoKernel(g, A.states[r].items, y);
  }

  lemma StatesClosed(e: Precedence, x: Precedence, s: nat)
    requires s < 6
    ensures IsClosure(Example(e, x), Automaton().states[s].kernel, Automaton().states[s].items)
  {
    if s == 0 {
      StartClosed(e, x);
    } else {
      OthersClosed(e, x, Automaton().states[s].kernel);
    }
  }

  lemma StatesOk(e: Precedence, x: Precedence, s: nat)
    requires s < 6
    ensures StateOk(Example(e, x), Automaton(), s)
  {
    Numbers(s);
    KernelsOk(e, x, s);
    StatesClosed(e, x, s);
    if s > 0 {
      StatesReached(e, x, s);
    }
  }

  lemma EndFollows(e: Precedence, x: Precedence, F: SetMap, W: SetMap)
    requires FollowTable(Example(e, x), F, W)
    ensures N in W && E in W[N]
  {
    var g := Example(e, x);
    assert PlaceClosed(g, F, W, 2, 0);
    assert g.productions[2].rhs[1..] == [E];
    assert FirstSeq(F, [E]) == F[E];
    assert E in g.terminals && F[E] == {E};
    assert N in g.nonterminals;
  }

  /** After x, rule 1 shifts e to state 4 and rule 3, later in the list, offers to reduce. */
  lemma ExampleOffers(e: Precedence, x: Precedence, W: SetMap)
    requires N in W && E in W[N]
    ensures ShiftFirst(Example(e, x), Automaton(), SLR(W), 2, E, 0, 1, 3)
    ensures GotoState(Example(e, x), Automaton(), 2, E) == 4
  {
    Gotos(e, x, E);
    Dots(e, x, E);
    Numbers(4);
    assert Automaton().states[2].items == K2;
  }

  /** The entry for e in that state, in the table built from the FOLLOW sets. */
  lemma AssociativityDecides(e: Precedence, x: Precedence, F: SetMap, W: SetMap)
    requires FollowTable(Example(e, x), F, W)
    ensures ValidItems(Example(e, x), Automaton().states[2].items)
    ensures var entry := EntryAfter(Example(e, x), Automaton(), SLR(W), 2, E, 2);
            entry.Entered? && entry.cell.Cell?
            && entry.cell.action == match e.assoc
                                    case LeftAssoc => Reduce(3)
                                    case RightAssoc => Shift(4)
                                    case NonAssoc => Forbidden
  {
    var g, A := Example(e, x), Automaton();
    ExampleAutomaton(e, x);
    StateItemsValid(g, A, 2);
    EndFollows(e, x, F, W);
    ExampleOffers(e, x, W);
    ShiftFirstVerdict(g, A, SLR(W), 2, E, 0, 1, 3, 2);
  }

  /** With e right associative and rule 3 on a higher level, the comments promise the reduction; the
      table shifts. */
  lemma DocumentedVerdictMissed(F: SetMap, W: SetMap)
    requires FollowTable(Example(Precedence(RightAssoc, 1), Precedence(LeftAssoc, 2)), F, W)
    ensures var g, A := Example(Precedence(RightAssoc, 1), Precedence(LeftAssoc, 2)), Automaton();
            && IsAutomaton(g, A) && ValidItems(g, A.states[2].items)
            && Documented(g.productions[3].prec, TokenPrecedence(g, E)) == TakeReduce
            && EntryAfter(g, A, SLR(W), 2, E, 2).Entered? && EntryAfter(g, A, SLR(W), 2, E, 2).cell.Cell?
            && EntryAfter(g, A, SLR(W), 2, E, 2).cell.action == Shift(4)
  {
    ExampleAutomaton(Precedence(RightAssoc, 1), Precedence(LeftAssoc, 2));
    AssociativityDecides(Precedence(RightAssoc, 1), Precedence(LeftAssoc, 2), F, W);
  }
}
