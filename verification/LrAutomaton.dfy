/** The LR(0) automaton of yacc.py: item lists, lr0_closure, lr0_goto and lr0_items. A state is the
    list of its items in the order the generator builds it, because conflict resolution depends on
    that order; states are told apart by the sequence of their kernel items, which is what the
    trie of object identities in lr0_goto amounts to. */
module LrAutomaton {
  import opened Cfg

  /** Production `prod` with the dot before symbol number `dot`. */
  datatype Item = Item(prod: nat, dot: nat)

  datatype State = State(kernel: seq<Item>, items: seq<Item>)

  /** C together with lr0_cidhash: the states in creation order and the number of each kernel. */
  datatype Lr0 = Lr0(states: seq<State>, number: map<seq<Item>, nat>)

  predicate ValidItem(g: Cfg, it: Item) {
    it.prod < |g.productions| && it.dot <= |g.productions[it.prod].rhs|
  }

  predicate ValidItems(g: Cfg, I: seq<Item>) {
    forall k :: 0 <= k < |I| ==> ValidItem(g, I[k])
  }

  /** The dot of `it` stands immediately before x. */
  predicate DotBefore(g: Cfg, it: Item, x: Symbol) {
    ValidItem(g, it) && it.dot < |g.productions[it.prod].rhs| && g.productions[it.prod].rhs[it.dot] == x
  }

  predicate Complete(g: Cfg, it: Item) {
    ValidItem(g, it) && it.dot == |g.productions[it.prod].rhs|
  }

  // ---- Closure -------------------------------------------------------------------------

  /** Position k of J was added because an earlier item has its dot before the rule's head. */
  ghost predicate Justified(g: Cfg, J: seq<Item>, k: int)
    requires 0 <= k < |J|
  {
    && J[k].dot == 0
    && 1 <= J[k].prod < |g.productions|
    && exists j :: 0 <= j < k && DotBefore(g, J[j], g.productions[J[k].prod].name)
  }

  /** The dot of `it` stands before the head of rule p. */
  ghost predicate CallsFor(g: Cfg, it: Item, p: nat) {
    1 <= p < |g.productions| && DotBefore(g, it, g.productions[p].name)
  }

  ghost predicate RulesPresent(g: Cfg, J: seq<Item>, k: int)
    requires 0 <= k < |J|
  {
    forall p: nat :: CallsFor(g, J[k], p) ==> Item(p, 0) in J
  }

  ghost predicate Unrepeated(J: seq<Item>) {
    forall i, j :: 0 <= i < j < |J| ==> J[i] != J[j]
  }

  /** J is the closure of I: it starts with I, contains every rule a dot stands before, and adds
      nothing without a reason and nothing twice. */
  ghost predicate IsClosure(g: Cfg, I: seq<Item>, J: seq<Item>) {
    && I <= J
    && ValidItems(g, J)
    && (forall k :: |I| <= k < |J| ==> Justified(g, J, k))
    && (forall k :: 0 <= k < |J| ==> RulesPresent(g, J, k))
    && Unrepeated(J[|I|..])
  }

  ghost predicate Kernel(g: Cfg, I: seq<Item>) {
    ValidItems(g, I) && Unrepeated(I) && forall k :: 0 <= k < |I| ==> I[k].dot > 0 || I[k].prod == 0
  }

  /** The loop state of lr0_closure: J so far, with `added` the rules marked lr0_added. */
  ghost predicate Closing(g: Cfg, I: seq<Item>, J: seq<Item>, added: set<nat>) {
    && I <= J
    && ValidItems(g, J)
    && (forall k :: |I| <= k < |J| ==> Justified(g, J, k))
    && (forall k :: |I| <= k < |J| ==> J[k].prod in added)
    && (forall p :: p in added ==> p < |g.productions| && Item(p, 0) in J)
    && Unrepeated(J[|I|..])
  }

  ghost function Unadded(g: Cfg, added: set<nat>): set<nat> {
    set p: nat | p < |g.productions| && p !in added
  }

  lemma AddOne(g: Cfg, I: seq<Item>, J: seq<Item>, added: set<nat>, k: int, p: nat)
    requires Closing(g, I, J, added) && 0 <= k < |J| && p !in added
    requires 1 <= p < |g.productions| && DotBefore(g, J[k], g.productions[p].name)
    ensures Closing(g, I, J + [Item(p, 0)], added + {p})
    ensures Unadded(g, added + {p}) < Unadded(g, added)
  {
    var J' := J + [Item(p, 0)];
    assert p in Unadded(g, added);
    forall i | |I| <= i < |J'| ensures Justified(g, J', i) {
      if i < |J| {
        assert Justified(g, J, i);
        var j :| 0 <= j < i && DotBefore(g, J[j], g.productions[J[i].prod].name);
        assert DotBefore(g, J'[j], g.productions[J'[i].prod].name);
      } else {
        assert DotBefore(g, J'[k], g.productions[J'[i].prod].name);
      }
    }
    assert J'[|I|..] == J[|I|..] + [Item(p, 0)];
    forall i | 0 <= i < |J[|I|..]| ensures J[|I|..][i] != Item(p, 0) {
      assert J[|I|..][i] == J[|I| + i];
    }
    forall q | q in added + {p} ensures q < |g.productions| && Item(q, 0) in J' {
      if q == p {
        assert J'[|J|] == Item(p, 0);
      }
    }
  }

  // The list that lr0_closure builds, item by item: each rule of the symbol behind a dot is appended
  // unless it has been marked as added.

  /** The rules of the symbol after the dot. */
  function RulesAfter(g: Cfg, it: Item): seq<nat>
    requires g.Valid() && ValidItem(g, it)
  {
    var rhs := g.productions[it.prod].rhs;
    if it.dot < |rhs| && rhs[it.dot].Nonterminal? then g.RulesOf(rhs[it.dot]) else []
  }

  /** Those of the first m of them that have not been added. */
  function NewRules(after: seq<nat>, added: set<nat>, m: nat): (news: seq<nat>)
    requires m <= |after|
  {
    if m == 0 then []
    else
      var before := NewRules(after, added, m - 1);
      if after[m - 1] in added || after[m - 1] in before then before else before + [after[m - 1]]
  }

  function Added(added: set<nat>, news: seq<nat>): set<nat> {
    added + set p | p in news
  }

  function Starts(rules: seq<nat>): (items: seq<Item>)
    ensures |items| == |rules| && forall i :: 0 <= i < |rules| ==> items[i] == Item(rules[i], 0)
  {
    seq(|rules|, i requires 0 <= i < |rules| => Item(rules[i], 0))
  }

  /** One item of the list is looked at. */
  function FreshAt(g: Cfg, J: seq<Item>, added: set<nat>, k: nat): (news: seq<nat>)
    requires g.Valid() && ValidItems(g, J) && k < |J|
  {
    var after := RulesAfter(g, J[k]);
    NewRules(after, added, |after|)
  }

  lemma {:induction false} NewRulesAre(after: seq<nat>, added: set<nat>, m: nat)
    requires m <= |after|
    ensures var news := NewRules(after, added, m);
            && (forall p :: p in news ==> p in after && p !in added)
            && (forall i :: 0 <= i < m ==> after[i] in added || after[i] in news)
  {
    if m > 0 {
      NewRulesAre(after, added, m - 1);
    }
  }

  lemma {:induction false} NothingNew(after: seq<nat>, added: set<nat>, m: nat)
    requires m <= |after| && forall i :: 0 <= i < m ==> after[i] in added
    ensures NewRules(after, added, m) == []
  {
    if m > 0 {
      NothingNew(after, added, m - 1);
    }
  }

  lemma FreshKinds(g: Cfg, J: seq<Item>, added: set<nat>, k: nat)
    requires g.Valid() && ValidItems(g, J) && k < |J|
    ensures forall p :: p in FreshAt(g, J, added, k) ==> 1 <= p < |g.productions| && p !in added
    ensures ValidItems(g, J + Starts(FreshAt(g, J, added, k)))
    ensures FreshAt(g, J, added, k) != [] ==> Unadded(g, Added(added, FreshAt(g, J, added, k))) < Unadded(g, added)
  {
    var after, news := RulesAfter(g, J[k]), FreshAt(g, J, added, k);
    NewRulesAre(after, added, |after|);
    assert ValidItem(g, J[k]);
    forall p | p in news ensures 1 <= p < |g.productions| && p !in added {
      assert p in after;
    }
    assert forall i :: 0 <= i < |news| ==> news[i] in news;
    if news != [] {
      assert news[0] in news && news[0] in Unadded(g, added) && news[0] !in Unadded(g, Added(added, news));
    }
  }

  /** The list from its k-th item on. */
  ghost function CloseFrom(g: Cfg, J: seq<Item>, added: set<nat>, k: nat): seq<Item>
    requires g.Valid() && ValidItems(g, J) && k <= |J|
    decreases Unadded(g, added), |J| - k
  {
    if k == |J| then J
    else
      var news := FreshAt(g, J, added, k);
      FreshKinds(g, J, added, k);
      if news == [] then CloseFrom(g, J, added, k + 1)
      else CloseFrom(g, J + Starts(news), Added(added, news), k + 1)
  }

  ghost function ClosureOf(g: Cfg, I: seq<Item>): seq<Item>
    requires g.Valid() && ValidItems(g, I)
  {
    CloseFrom(g, I, {}, 0)
  }

  /** Every rule that the k-th item calls for has been added. */
  ghost predicate Served(g: Cfg, J: seq<Item>, added: set<nat>, k: nat)
    requires k < |J|
  {
    forall p: nat :: CallsFor(g, J[k], p) ==> p in added
  }

  lemma RulesAfterAre(g: Cfg, it: Item)
    requires g.Valid() && ValidItem(g, it)
    ensures forall p: nat :: p in RulesAfter(g, it) <==> CallsFor(g, it, p)
  {
    forall p: nat ensures p in RulesAfter(g, it) <==> CallsFor(g, it, p) {
      if CallsFor(g, it, p) {
        assert g.productions[p].name in g.nonterminals && g.IsRuleOf(p, g.productions[p].name);
      }
    }
  }

  lemma ServedRules(g: Cfg, I: seq<Item>, J: seq<Item>, added: set<nat>, k: nat)
    requires g.Valid() && Closing(g, I, J, added) && k < |J| && Served(g, J, added, k)
    ensures RulesPresent(g, J, k) && FreshAt(g, J, added, k) == []
  {
    var after := RulesAfter(g, J[k]);
    assert ValidItem(g, J[k]);
    RulesAfterAre(g, J[k]);
    forall i | 0 <= i < |after| ensures after[i] in added {
      assert after[i] in after;
    }
    NothingNew(after, added, |after|);
  }

  /** lr0_closure. */
  method Closure(g: Cfg, I: seq<Item>) returns (J: seq<Item>)
    requires g.Valid() && ValidItems(g, I)
    ensures IsClosure(g, I, J) && J == ClosureOf(g, I)
  {
    J := I;
    var added: set<nat> := {};
    var didAdd := true;
    ghost var first := true;
    while didAdd
      invariant Closing(g, I, J, added)
      invariant if first then J == I && added == {} else J == ClosureOf(g, I) && AllServed(g, J, added, |J|)
      invariant !didAdd ==> !first
      decreases Unadded(g, added), didAdd
    {
      J, added, didAdd := Pass(g, I, J, added, first);
      first := false;
    }
    forall k | 0 <= k < |J| ensures RulesPresent(g, J, k) {
      assert Served(g, J, added, k);
      ServedRules(g, I, J, added, k);
    }
  }

  ghost predicate AllServed(g: Cfg, J: seq<Item>, added: set<nat>, n: nat)
    requires n <= |J|
  {
    forall k {:trigger Served(g, J, added, k)} :: 0 <= k < n ==> Served(g, J, added, k)
  }

  /** One round of lr0_closure's outer loop, over a list that grows meanwhile; only the first finds
      anything to add. */
  method Pass(g: Cfg, ghost I: seq<Item>, J0: seq<Item>, added0: set<nat>, ghost first: bool)
    returns (J: seq<Item>, added: set<nat>, didAdd: bool)
    requires g.Valid() && Closing(g, I, J0, added0)
    requires if first then J0 == I && added0 == {} else AllServed(g, J0, added0, |J0|)
    ensures Closing(g, I, J, added) && AllServed(g, J, added, |J|)
    ensures if didAdd then Unadded(g, added) < Unadded(g, added0) else J == J0 && added == added0
    ensures if first then J == ClosureOf(g, I) else J == J0
  {
    J, added, didAdd := J0, added0, false;
    var k := 0;
    while k < |J|
      invariant Passing(g, I, J0, added0, first, J, added, didAdd, k)
      decreases Unadded(g, added), |J| - k
    {
      ghost var u, a, d := J, added, didAdd;
      var more;
      more, J, added := CloseItem(g, I, J, added, k);
      didAdd := didAdd || more;
      PassStep(g, I, J0, added0, first, u, a, d, J, added, k);
      k := k + 1;
    }
  }

  /** Halfway through a round: the items before number k have been served. */
  ghost predicate Passing(g: Cfg, I: seq<Item>, J0: seq<Item>, added0: set<nat>, first: bool,
          J: seq<Item>, added: set<nat>, didAdd: bool, k: nat)
  {
    && g.Valid() && k <= |J| && Closing(g, I, J, added) && AllServed(g, J, added, k)
    && (if didAdd then Unadded(g, added) < Unadded(g, added0) else J == J0 && added == added0)
    && (if first then ValidItems(g, I) && ClosureOf(g, I) == CloseFrom(g, J, added, k)
        else J == J0 && added == added0 && AllServed(g, J, added, |J|))
  }

  lemma PassStep(g: Cfg, I: seq<Item>, J0: seq<Item>, added0: set<nat>, first: bool, J: seq<Item>, added: set<nat>,
          didAdd: bool, J': seq<Item>, added': set<nat>, k: nat)
    requires Passing(g, I, J0, added0, first, J, added, didAdd, k) && k < |J|
    requires J <= J' && Closing(g, I, J', added')
    requires J' == J + Starts(FreshAt(g, J, added, k)) && added' == Added(added, FreshAt(g, J, added, k))
    ensures Passing(g, I, J0, added0, first, J', added', didAdd || FreshAt(g, J, added, k) != [], k + 1)
    ensures Unadded(g, added') < Unadded(g, added) || (J' == J && added' == added)
  {
    NowServed(g, J, added, k);
    StillServed(g, J, added, J', added', k);
    if first {
      CloseStep(g, J, added, k);
    } else {
      RoundIsOver(g, I, J, added, k);
    }
  }

  /** Looking at one item is one step of CloseFrom. */
  lemma CloseStep(g: Cfg, J: seq<Item>, added: set<nat>, k: nat)
    requires g.Valid() && ValidItems(g, J) && k < |J|
    ensures var news := FreshAt(g, J, added, k);
            && ValidItems(g, J + Starts(news))
            && CloseFrom(g, J, added, k) == CloseFrom(g, J + Starts(news), Added(added, news), k + 1)
            && (news == [] ==> J + Starts(news) == J && Added(added, news) == added)
            && (news != [] ==> Unadded(g, Added(added, news)) < Unadded(g, added))
  {
    FreshKinds(g, J, added, k);
    NothingAdded(J, added);
  }

  lemma NothingAdded(J: seq<Item>, added: set<nat>)
    ensures J + Starts([]) == J && Added(added, []) == added
  {
  }

  /** Every item of the list has been served: looking at one again adds nothing. */
  lemma RoundIsOver(g: Cfg, I: seq<Item>, J: seq<Item>, added: set<nat>, k: nat)
    requires g.Valid() && Closing(g, I, J, added) && k < |J| && AllServed(g, J, added, |J|)
    ensures FreshAt(g, J, added, k) == [] && J + Starts([]) == J && Added(added, []) == added
  {
    assert Served(g, J, added, k);
    ServedRules(g, I, J, added, k);
    NothingAdded(J, added);
  }

  lemma NowServed(g: Cfg, J: seq<Item>, added: set<nat>, k: nat)
    requires g.Valid() && ValidItems(g, J) && k < |J|
    ensures Served(g, J, Added(added, FreshAt(g, J, added, k)), k)
    ensures added <= Added(added, FreshAt(g, J, added, k))
  {
    var after := RulesAfter(g, J[k]);
    assert ValidItem(g, J[k]);
    RulesAfterAre(g, J[k]);
    NewRulesAre(after, added, |after|);
    forall p: nat | CallsFor(g, J[k], p) ensures p in Added(added, FreshAt(g, J, added, k)) {
      var m :| 0 <= m < |after| && after[m] == p;
    }
  }

  /** What has been served stays so, and the k-th item has joined it. */
  lemma StillServed(g: Cfg, J: seq<Item>, added: set<nat>, J': seq<Item>, added': set<nat>, k: nat)
    requires J <= J' && k < |J| && AllServed(g, J, added, k) && added <= added' && Served(g, J, added', k)
    ensures AllServed(g, J', added', k + 1)
  {
    forall i | 0 <= i < k + 1 ensures Served(g, J', added', i) {
      assert J'[i] == J[i];
      if i < k {
        assert Served(g, J, added, i);
      }
    }
  }

  /** The inner loop of lr0_closure: the rules of the symbol after one item's dot. */
  method CloseItem(g: Cfg, ghost I: seq<Item>, J: seq<Item>, added: set<nat>, k: int)
    returns (more: bool, J': seq<Item>, added': set<nat>)
    requires g.Valid() && Closing(g, I, J, added) && 0 <= k < |J|
    ensures J <= J' && Closing(g, I, J', added')
    ensures J' == J + Starts(FreshAt(g, J, added, k)) && added' == Added(added, FreshAt(g, J, added, k))
    ensures more <==> FreshAt(g, J, added, k) != []
  {
    more, J', added' := false, J, added;
    var after := RulesAfter(g, J[k]);
    assert ValidItem(g, J[k]);
    for m := 0 to |after|
      invariant Closing(g, I, J', added') && J' == J + Starts(NewRules(after, added, m))
      invariant added' == Added(added, NewRules(after, added, m)) && (more <==> NewRules(after, added, m) != [])
    {
      var p := after[m];
      RuleSeen(J, after, added, m);
      if p !in added' {
        assert p in after && J'[k] == J[k];
        AddOne(g, I, J', added', k, p);
        J' := J' + [Item(p, 0)];
        added' := added' + {p};
        more := true;
      }
    }
  }

  /** One more rule joins the list unless it has been added. */
  lemma RuleSeen(J: seq<Item>, after: seq<nat>, added: set<nat>, m: nat)
    requires m < |after|
    ensures var news, p := NewRules(after, added, m), after[m];
            if p in Added(added, news) then NewRules(after, added, m + 1) == news
            else && NewRules(after, added, m + 1) == news + [p]
                 && J + Starts(news + [p]) == J + Starts(news) + [Item(p, 0)]
                 && Added(added, news + [p]) == Added(added, news) + {p}
  {
    var news, p := NewRules(after, added, m), after[m];
    assert J + Starts(news + [p]) == J + Starts(news) + [Item(p, 0)];
    forall q ensures q in Added(added, news + [p]) <==> q in Added(added, news) + {p} {}
  }

  // ---- Goto ----------------------------------------------------------------------------

  /** The kernel of goto(I, x): the items of I with the dot before x, moved past it, in order. */
  function GotoKernel(g: Cfg, I: seq<Item>, x: Symbol): seq<Item> {
    if I == [] then []
    else
      var n := |I| - 1;
      var K := GotoKernel(g, I[..n], x);
      if DotBefore(g, I[n], x) then K + [Item(I[n].prod, I[n].dot + 1)] else K
  }

  lemma {:induction false} GotoHas(g: Cfg, I: seq<Item>, x: Symbol, it: Item)
    ensures it in GotoKernel(g, I, x) <==>
      it.dot > 0 && Item(it.prod, it.dot - 1) in I && DotBefore(g, Item(it.prod, it.dot - 1), x)
  {
    if I != [] {
      var n := |I| - 1;
      GotoHas(g, I[..n], x, it);
      assert I == I[..n] + [I[n]];
    }
  }

  lemma {:induction false} GotoUnrepeated(g: Cfg, I: seq<Item>, x: Symbol)
    requires Unrepeated(I)
    ensures Unrepeated(GotoKernel(g, I, x))
  {
    if I != [] {
      var n := |I| - 1;
      var K := GotoKernel(g, I[..n], x);
      GotoUnrepeated(g, I[..n], x);
      forall k | 0 <= k < |K| ensures K[k] != Item(I[n].prod, I[n].dot + 1) {
        GotoHas(g, I[..n], x, K[k]);
        assert K[k] in K;
      }
    }
  }

  // ---- The canonical collection --------------------------------------------------------

  /** A is the LR(0) automaton of g. */
  ghost predicate IsAutomaton(g: Cfg, A: Lr0) {
    && Numbered(g, A)
    && A.states != []
    && A.states[0].kernel == [Item(0, 0)]
    && (forall s {:trigger GotosPresent(g, A, s)} :: 0 <= s < |A.states| ==> GotosPresent(g, A, s))
  }

  /** Every state is the closure of its kernel, kernels identify states, and every state but the
      first is the goto of an earlier one. */
  ghost predicate Numbered(g: Cfg, A: Lr0) {
    && g.Valid()
    && (forall s {:trigger StateOk(g, A, s)} :: 0 <= s < |A.states| ==> StateOk(g, A, s))
    && (forall K {:trigger A.number[K]} :: K in A.number ==>
      A.number[K] < |A.states| && A.states[A.number[K]].kernel == K)
  }

  ghost predicate StateOk(g: Cfg, A: Lr0, s: int)
    requires 0 <= s < |A.states|
  {
    && Kernel(g, A.states[s].kernel)
    && IsClosure(g, A.states[s].kernel, A.states[s].items)
    && A.states[s].kernel in A.number && A.number[A.states[s].kernel] == s
    && (s > 0 ==> Reached(g, A, s))
  }

  ghost predicate Reached(g: Cfg, A: Lr0, s: int)
    requires 0 <= s < |A.states|
  {
    && A.states[s].kernel != []
    && exists r, x :: 0 <= r < s && A.states[s].kernel == GotoKernel(g, A.states[r].items, x)
  }

  ghost predicate GotosPresent(g: Cfg, A: Lr0, s: int)
    requires 0 <= s < |A.states|
  {
    forall x :: GotoPresent(g, A, s, x)
  }

  ghost predicate GotoPresent(g: Cfg, A: Lr0, s: int, x: Symbol)
    requires 0 <= s < |A.states|
  {
    GotoKernel(g, A.states[s].items, x) == [] || GotoKernel(g, A.states[s].items, x) in A.number
  }

  lemma StateItemsValid(g: Cfg, A: Lr0, s: int)
    requires Numbered(g, A) && 0 <= s < |A.states|
    ensures ValidItems(g, A.states[s].items)
  {
    assert StateOk(g, A, s);
  }

  /** Only symbols that occur in a state's items can have a nonempty goto. */
  lemma AllSymbolsTried(g: Cfg, A: Lr0, s: int, asyms: seq<Symbol>)
    requires 0 <= s < |A.states|
    requires forall it: Item, x: Symbol :: it in A.states[s].items && DotBefore(g, it, x) ==> x in asyms
    requires forall k :: 0 <= k < |asyms| ==> GotoPresent(g, A, s, asyms[k])
    ensures GotosPresent(g, A, s)
  {
    forall x ensures GotoPresent(g, A, s, x) {
      var K := GotoKernel(g, A.states[s].items, x);
      if K != [] {
        assert K[0] in K;
        GotoHas(g, A.states[s].items, x, K[0]);
        assert x in asyms;
      }
    }
  }

  /** lr0_cidhash.get(id(lr0_goto(C[s],x)),-1). */
  function GotoState(g: Cfg, A: Lr0, s: nat, x: Symbol): int
    requires s < |A.states|
  {
    var K := GotoKernel(g, A.states[s].items, x);
    if K in A.number then A.number[K] else -1
  }

  // Finiteness of the set of kernels, for the termination of lr0_items.

  ghost function AllItems(g: Cfg): set<Item> {
    set p, d | 0 <= p < |g.productions| && 0 <= d <= |g.productions[p].rhs| :: Item(p, d)
  }

  ghost function Lists(U: set<Item>, n: nat): set<seq<Item>> {
    if n == 0 then {[]} else Lists(U, n - 1) + (set s, u | s in Lists(U, n - 1) && u in U :: s + [u])
  }

  lemma {:induction false} ListIn(U: set<Item>, s: seq<Item>, n: nat)
    requires |s| <= n && forall u :: u in s ==> u in U
    ensures s in Lists(U, n)
  {
    if n > 0 {
      if |s| < n {
        ListIn(U, s, n - 1);
      } else {
        var front, u := s[..|s| - 1], s[|s| - 1];
        assert s == front + [u] && u in s;
        ListIn(U, front, n - 1);
      }
    }
  }

  lemma {:induction false} UnrepeatedSize(U: set<Item>, s: seq<Item>)
    requires Unrepeated(s) && forall u :: u in s ==> u in U
    ensures |s| <= |U|
  {
    if s != [] {
      var u := s[|s| - 1];
      assert u in s;
      assert forall v :: v in s[..|s| - 1] ==> v in s;
      UnrepeatedSize(U - {u}, s[..|s| - 1]);
    }
  }

  ghost function AllKernels(g: Cfg): set<seq<Item>> {
    Lists(AllItems(g), |AllItems(g)|)
  }

  lemma KernelInAll(g: Cfg, K: seq<Item>)
    requires Kernel(g, K)
    ensures K in AllKernels(g)
  {
    forall u | u in K ensures u in AllItems(g) {
      var k :| 0 <= k < |K| && K[k] == u;
      assert ValidItem(g, K[k]);
    }
    UnrepeatedSize(AllItems(g), K);
    ListIn(AllItems(g), K, |AllItems(g)|);
  }

  lemma ClosureUnrepeated(g: Cfg, I: seq<Item>, J: seq<Item>)
    requires Kernel(g, I) && IsClosure(g, I, J)
    ensures Unrepeated(J)
  {
    forall i, j | 0 <= i < j < |J| ensures J[i] != J[j] {
      if j < |I| {
        assert J[i] == I[i] && J[j] == I[j];
      } else {
        assert Justified(g, J, j);
        if i < |I| {
          assert J[i] == I[i];
        } else {
          assert J[|I|..][i - |I|] == J[i] && J[|I|..][j - |I|] == J[j];
        }
      }
    }
  }

  lemma GotoIsKernel(g: Cfg, I: seq<Item>, J: seq<Item>, x: Symbol)
    requires Kernel(g, I) && IsClosure(g, I, J)
    ensures Kernel(g, GotoKernel(g, J, x))
  {
    ClosureUnrepeated(g, I, J);
    GotoUnrepeated(g, J, x);
    var K := GotoKernel(g, J, x);
    forall k | 0 <= k < |K| ensures ValidItem(g, K[k]) && K[k].dot > 0 {
      GotoHas(g, J, x, K[k]);
    }
  }

  /** The symbols that occur in the rules of a state's items, each once. */
  method SymbolsOf(g: Cfg, I: seq<Item>) returns (asyms: seq<Symbol>)
    requires ValidItems(g, I)
    ensures forall it: Item, x: Symbol :: it in I && DotBefore(g, it, x) ==> x in asyms
  {
    asyms := [];
    for k := 0 to |I|
      invariant forall j, x: Symbol :: 0 <= j < k && DotBefore(g, I[j], x) ==> x in asyms
    {
      var rhs := g.productions[I[k].prod].rhs;
      for m := 0 to |rhs|
        invariant forall j, x: Symbol :: 0 <= j < k && DotBefore(g, I[j], x) ==> x in asyms
        invariant forall j :: 0 <= j < m ==> rhs[j] in asyms
      {
        if rhs[m] !in asyms {
          asyms := asyms + [rhs[m]];
        }
      }
    }
  }

  /** The goto cache and the state numbering of LRGeneratedTable. */
  class Builder {
    const g: Cfg
    var closures: map<seq<Item>, seq<Item>>   // lr_goto_cache: one closed list per kernel sequence
    var states: seq<State>
    var number: map<seq<Item>, nat>           // lr0_cidhash

    constructor (g: Cfg)
      ensures this.g == g && closures == map[] && states == [] && number == map[]
    {
      this.g := g;
      closures := map[];
      states := [];
      number := map[];
    }

    ghost predicate CacheValid()
      reads this
    {
      g.Valid() && forall K {:trigger K in closures} :: K in closures ==> CacheOk(K)
    }

    ghost predicate CacheOk(K: seq<Item>)
      requires g.Valid() && K in closures
      reads this
    {
      Kernel(g, K) && IsClosure(g, K, closures[K]) && closures[K] == ClosureOf(g, K)
    }

    /** lr0_goto: the moved items are the key of the cache, so that one kernel always gives one list. */
    method Goto(I: seq<Item>, x: Symbol) returns (K: seq<Item>, J: seq<Item>)
      requires CacheValid() && ValidItems(g, I)
      requires Kernel(g, GotoKernel(g, I, x))
      modifies this`closures
      ensures CacheValid()
      ensures K == GotoKernel(g, I, x)
      ensures if K == [] then J == [] else J == ClosureOf(g, K) && IsClosure(g, K, J)
    {
      K := [];
      for k := 0 to |I|
        invariant K == GotoKernel(g, I[..k], x)
      {
        assert I[..k + 1][..k] == I[..k];
        var it := I[k];
        assert ValidItem(g, it);
        if it.dot < |g.productions[it.prod].rhs| && g.productions[it.prod].rhs[it.dot] == x {
          K := K + [Item(it.prod, it.dot + 1)];
        }
      }
      assert I[..|I|] == I;
      J := [];
      if K != [] {
        if K !in closures {
          J := Closure(g, K);
          closures := closures[K := J];
        } else {
          J := closures[K];
        }
      }
    }

    ghost predicate Building()
      reads this
    {
      && CacheValid()
      && Numbered(g, Lr0(states, number))
      && states != []
      && states[0].kernel == [Item(0, 0)]
    }

    ghost function Remaining(): set<seq<Item>>
      reads this
    {
      AllKernels(g) - number.Keys
    }

    /** lr0_items. */
    method Items() returns (A: Lr0)
      requires CacheValid() && states == [] && number == map[]
      modifies this
      ensures IsAutomaton(g, A)
    {
      var start := Closure(g, [Item(0, 0)]);
      states := [State([Item(0, 0)], start)];
      number := map[[Item(0, 0)] := 0];
      var i := 0;
      while i < |states|
        invariant FinishedBefore(i)
        decreases Remaining(), |states| - i
      {
        AddGotos(i);
        i := i + 1;
      }
      A := Lr0(states, number);
    }

    /** The states before number i are finished. */
    ghost predicate FinishedBefore(i: nat)
      reads this
    {
      Building() && i <= |states| && forall s :: 0 <= s < i ==> GotosPresent(g, Lr0(states, number), s)
    }

    /** The body of lr0_items' loop: every goto of state i gets a number. */
    method AddGotos(i: nat)
      requires FinishedBefore(i) && i < |states|
      modifies this
      ensures FinishedBefore(i + 1)
      ensures (states == old(states) && number == old(number)) || Remaining() < old(Remaining())
    {
      StateItemsValid(g, Lr0(states, number), i);
      var asyms := SymbolsOf(g, states[i].items);
      ghost var I := states[i].items;
      for m := 0 to |asyms|
        invariant FinishedBefore(i) && i < |states| && states[i].items == I
        invariant (states == old(states) && number == old(number)) || Remaining() < old(Remaining())
        invariant forall k :: 0 <= k < m ==> GotoPresent(g, Lr0(states, number), i, asyms[k])
      {
        AddGoto(i, asyms[m]);
      }
      AllSymbolsTried(g, Lr0(states, number), i, asyms);
    }

    method AddGoto(i: nat, x: Symbol)
      requires FinishedBefore(i) && i < |states|
      modifies this
      ensures FinishedBefore(i) && i < |states| && states[i] == old(states[i])
      ensures GotoPresent(g, Lr0(states, number), i, x)
      ensures forall y :: old(GotoPresent(g, Lr0(states, number), i, y)) ==> GotoPresent(g, Lr0(states, number), i, y)
      ensures (states == old(states) && number == old(number)) || Remaining() < old(Remaining())
    {
      assert StateOk(g, Lr0(states, number), i);
      GotoIsKernel(g, states[i].kernel, states[i].items, x);
      var K, J := Goto(states[i].items, x);
      if K != [] && K !in number {
        AddState(i, x, K, J);
      }
    }

    method AddState(i: nat, x: Symbol, K: seq<Item>, J: seq<Item>)
      requires FinishedBefore(i) && i < |states|
      requires K == GotoKernel(g, states[i].items, x) && K != [] && K !in number && Kernel(g, K) && IsClosure(g, K, J)
      modifies this`states, this`number
      ensures FinishedBefore(i) && |states| == |old(states)| + 1 && states[..|old(states)|] == old(states)
      ensures number == old(number)[K := |old(states)|]
      ensures Remaining() < old(Remaining())
      ensures forall y :: old(GotoPresent(g, Lr0(states, number), i, y)) ==> GotoPresent(g, Lr0(states, number), i, y)
    {
      ghost var A := Lr0(states, number);
      KernelInAll(g, K);
      number := number[K := |states|];
      states := states + [State(K, J)];
      ghost var A' := Lr0(states, number);
      assert K in old(Remaining()) && K !in Remaining();
      forall s | 0 <= s < |states| ensures StateOk(g, A', s) {
        if s < |A.states| {
          assert StateOk(g, A, s);
          if s > 0 {
            var r, y :| 0 <= r < s && A.states[s].kernel == GotoKernel(g, A.states[r].items, y);
            assert A'.states[s].kernel == GotoKernel(g, A'.states[r].items, y);
          }
        } else {
          assert A'.states[s].kernel == GotoKernel(g, A'.states[i].items, x);
        }
      }
      forall s | 0 <= s < i ensures GotosPresent(g, A', s) {
        assert GotosPresent(g, A, s);
        forall y ensures GotoPresent(g, A', s, y) {
          assert GotoPresent(g, A, s, y);
        }
      }
    }
  }

  // ---- What the automaton guarantees ---------------------------------------------------

  /** Moving the dot over a symbol follows the goto, which never leads back to state 0. */
  lemma GotoForward(g: Cfg, A: Lr0, s: nat, it: Item, x: Symbol)
    requires IsAutomaton(g, A) && s < |A.states| && it in A.states[s].items && DotBefore(g, it, x)
    ensures 0 < GotoState(g, A, s, x) < |A.states|
    ensures Item(it.prod, it.dot + 1) in A.states[GotoState(g, A, s, x)].items
  {
    var K := GotoKernel(g, A.states[s].items, x);
    GotoHas(g, A.states[s].items, x, Item(it.prod, it.dot + 1));
    assert StateOk(g, A, s);
    assert GotosPresent(g, A, s) && GotoPresent(g, A, s, x);
    var j := A.number[K];
    assert StateOk(g, A, j);
    assert A.states[j].kernel == K && A.states[j].kernel <= A.states[j].items;
    var k :| 0 <= k < |K| && K[k] == Item(it.prod, it.dot + 1);
    assert A.states[j].items[k] == K[k];
  }

  ghost predicate Expected(g: Cfg, A: Lr0, s: nat, it: Item)
    requires s < |A.states|
  {
    && it.dot == 0
    && 1 <= it.prod < |g.productions|
    && exists j :: j in A.states[s].items && DotBefore(g, j, g.productions[it.prod].name)
  }

  /** Items are of two kinds: kernel items, moved unless this is state 0, and added rules. */
  lemma ItemKinds(g: Cfg, A: Lr0, s: nat, it: Item)
    requires IsAutomaton(g, A) && s < |A.states| && it in A.states[s].items
    ensures it in A.states[s].kernel || Expected(g, A, s, it)
    ensures it in A.states[s].kernel ==> if s == 0 then it == Item(0, 0) else it.dot > 0
  {
    var J, K := A.states[s].items, A.states[s].kernel;
    var k :| 0 <= k < |J| && J[k] == it;
    assert StateOk(g, A, s);
    if it in K && s > 0 {
      var r: nat, x :| r < s && K == GotoKernel(g, A.states[r].items, x);
      GotoHas(g, A.states[r].items, x, it);
    }
    if k < |K| {
      assert K[k] == it;
    } else {
      assert Justified(g, J, k);
      var j :| 0 <= j < k && DotBefore(g, J[j], g.productions[J[k].prod].name);
      assert J[j] in J;
    }
  }

  /** An item with a moved dot was in every state this one is the goto of, one place earlier. */
  lemma GotoBack(g: Cfg, A: Lr0, s: nat, x: Symbol, it: Item)
    requires IsAutomaton(g, A) && s < |A.states| && 0 <= GotoState(g, A, s, x) < |A.states|
    requires it in A.states[GotoState(g, A, s, x)].items && it.dot > 0
    ensures Item(it.prod, it.dot - 1) in A.states[s].items && DotBefore(g, Item(it.prod, it.dot - 1), x)
  {
    ItemKinds(g, A, GotoState(g, A, s, x), it);
    assert A.states[GotoState(g, A, s, x)].kernel == GotoKernel(g, A.states[s].items, x);
    GotoHas(g, A.states[s].items, x, it);
  }

  /** A rule appears with its dot in front only where its head is expected. */
  lemma RuleExpected(g: Cfg, A: Lr0, s: nat, p: nat)
    requires IsAutomaton(g, A) && s < |A.states| && Item(p, 0) in A.states[s].items && p > 0
    ensures p < |g.productions|
    ensures exists it :: it in A.states[s].items && DotBefore(g, it, g.productions[p].name)
  {
    ItemKinds(g, A, s, Item(p, 0));
  }

  /** Where a nonterminal is expected, all its rules are present. */
  lemma ExpectedRule(g: Cfg, A: Lr0, s: nat, it: Item, p: nat)
    requires IsAutomaton(g, A) && s < |A.states| && it in A.states[s].items
    requires 1 <= p < |g.productions| && DotBefore(g, it, g.productions[p].name)
    ensures Item(p, 0) in A.states[s].items
  {
    var J := A.states[s].items;
    var k :| 0 <= k < |J| && J[k] == it;
    assert StateOk(g, A, s) && RulesPresent(g, J, k) && CallsFor(g, J[k], p);
  }

  /** The unmoved start item is in state 0 only. */
  lemma StartItemOnlyAtStart(g: Cfg, A: Lr0, s: nat)
    requires IsAutomaton(g, A) && s < |A.states|
    ensures Item(0, 0) in A.states[s].items <==> s == 0
  {
    if s == 0 {
      assert StateOk(g, A, s) && A.states[s].items[0] == A.states[s].kernel[0];
    }
    if Item(0, 0) in A.states[s].items {
      ItemKinds(g, A, s, Item(0, 0));
    }
  }
}
