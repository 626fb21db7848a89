/** SLR lookaheads: FOLLOW sets are adequate too, and the LALR lookaheads of every reduction lie
    within them. Both hold exactly when '$end' is in FOLLOW of the start symbol, which
    compute_follow guarantees only for its default start, the head of the first rule. */
module SlrTables {
  import opened Cfg
  import opened GrammarSets
  import opened LrAutomaton
  import opened ParseTable
  import opened ParseTrees
  import opened LrEngine
  import opened LrComplete
  import opened Lookahead
  import opened LalrTables
  import Digraph

  /** What FIRST puts after the symbol x in the items of state q. */
  ghost predicate Following(g: Cfg, A: Lr0, F: SetMap, q: nat, x: Symbol, a: Symbol)
    requires IsAutomaton(g, A) && FirstTable(g, F) && q < |A.states|
  {
    || (a == EndMarker && q == 0 && x == g.Start())
    || (a != Empty && exists p, d :: AfterDot(g, A, F, q, x, p, d, a))
  }

  ghost predicate AfterDot(g: Cfg, A: Lr0, F: SetMap, q: nat, x: Symbol, p: nat, d: nat, a: Symbol)
    requires IsAutomaton(g, A) && FirstTable(g, F) && q < |A.states|
  {
    Has(A, q, p, d) && DotBefore(g, Item(p, d), x) && InFirst(g, F, p, d + 1, a)
  }

  /** a is in FIRST of rule p from position k on. */
  ghost predicate InFirst(g: Cfg, F: SetMap, p: nat, k: nat, a: Symbol)
    requires FirstTable(g, F)
  {
    p < |g.productions| && k <= |g.productions[p].rhs| && a in SuffixFirst(g, F, p, k)
  }

  ghost function SuffixFirst(g: Cfg, F: SetMap, p: nat, k: nat): set<Symbol>
    requires FirstTable(g, F) && p < |g.productions| && k <= |g.productions[p].rhs|
  {
    RhsCovered(g, F, p);
    FirstSeq(F, g.productions[p].rhs[k..])
  }

  lemma SuffixFirstStep(g: Cfg, F: SetMap, p: nat, k: nat)
    requires FirstTable(g, F) && p < |g.productions| && k < |g.productions[p].rhs|
    ensures g.productions[p].rhs[k] in F
    ensures SuffixFirst(g, F, p, k) ==
      if Empty in F[g.productions[p].rhs[k]] then (F[g.productions[p].rhs[k]] - {Empty}) + SuffixFirst(g, F, p, k + 1)
        else F[g.productions[p].rhs[k]]
  {
    RhsCovered(g, F, p);
    assert g.productions[p].rhs[k..][1..] == g.productions[p].rhs[k + 1..];
  }

  lemma SuffixFirstAll(g: Cfg, F: SetMap, p: nat)
    requires FirstTable(g, F) && 1 <= p < |g.productions|
    ensures g.productions[p].name in F && SuffixFirst(g, F, p, 0) <= F[g.productions[p].name]
  {
    assert RuleClosed(g, F, p);
    NameCovered(g, F, p);
    assert g.productions[p].rhs[0..] == g.productions[p].rhs;
  }

  /** Whatever can be read at any item of goto(q, x) follows x in state q. */
  lemma {:induction false} FirstFollows(g: Cfg, A: Lr0, F: SetMap, q: nat, x: Symbol, k: nat, a: Symbol)
    requires IsAutomaton(g, A) && FirstTable(g, F) && Expects(g, A, q, x) && 0 <= GotoState(g, A, q, x) < |A.states|
    requires k < |A.states[GotoState(g, A, q, x)].items| && a != Empty
    requires var it := A.states[GotoState(g, A, q, x)].items[k]; InFirst(g, F, it.prod, it.dot, a)
    ensures Following(g, A, F, q, x, a)
    decreases k
  {
    var r := GotoState(g, A, q, x);
    var J := A.states[r].items;
    var it := J[k];
    assert it in J;
    if it.dot > 0 {
      GotoBack(g, A, q, x, it);
      assert AfterDot(g, A, F, q, x, it.prod, it.dot - 1, a);
    } else {
      var j := Justifier(g, A, q, x, k);
      SuffixFirstAll(g, F, it.prod);
      SuffixFirstStep(g, F, J[j].prod, J[j].dot);
      FirstFollows(g, A, F, q, x, j, a);
    }
  }

  /** An added item of goto(q, x) has an earlier item that expects its head. */
  lemma Justifier(g: Cfg, A: Lr0, q: nat, x: Symbol, k: nat) returns (j: nat)
    requires IsAutomaton(g, A) && Expects(g, A, q, x) && 0 <= GotoState(g, A, q, x) < |A.states|
    requires k < |A.states[GotoState(g, A, q, x)].items| && A.states[GotoState(g, A, q, x)].items[k].dot == 0
    ensures j < k && 1 <= A.states[GotoState(g, A, q, x)].items[k].prod < |g.productions|
    ensures DotBefore(g, A.states[GotoState(g, A, q, x)].items[j],
      g.productions[A.states[GotoState(g, A, q, x)].items[k].prod].name)
  {
    ExpectsGoto(g, A, q, x);
    var r := GotoState(g, A, q, x);
    var J, K := A.states[r].items, A.states[r].kernel;
    assert StateOk(g, A, r);
    assert K == GotoKernel(g, A.states[q].items, x);
    if k < |K| {
      assert J[k] == K[k];
      GotoHas(g, A.states[q].items, x, K[k]);
    }
    assert Justified(g, J, k);
    j :| 0 <= j < k && DotBefore(g, J[j], g.productions[J[k].prod].name);
  }

  ghost predicate EndFollowsStart(g: Cfg, W: SetMap)
    requires g.Valid()
  {
    g.Start() in W && EndMarker in W[g.Start()]
  }

  /** The start symbol can end a form derived from the head of the first rule. */
  ghost predicate StartEnds(g: Cfg)
    requires g.Valid()
  {
    Ends(g, g.productions[1].name, g.Start())
  }

  /** What that comes to in the grammar. */
  lemma EndFollowsExactly(g: Cfg, F: SetMap, W: SetMap)
    requires FollowTable(g, F, W)
    ensures EndFollowsStart(g, W) <==> StartEnds(g)
  {
    assert g.RuleSymbol(g.productions[0].rhs[0]);
    FollowExact(g, F, W, g.Start(), EndMarker);
  }

  lemma StartRuleEnds(g: Cfg)
    requires g.Valid()
    ensures |g.productions[0].rhs| == 1 && g.productions[0].rhs[1..] == []
  {
  }

  /** What follows x in a state's items is in FOLLOW(x). */
  lemma FollowingInFollow(g: Cfg, A: Lr0, F: SetMap, W: SetMap, q: nat, x: Symbol, a: Symbol)
    requires IsAutomaton(g, A) && FollowTable(g, F, W) && q < |A.states| && x.Nonterminal?
    requires Following(g, A, F, q, x, a) && EndFollowsStart(g, W)
    ensures x in W && a in W[x]
  {
    if !(a == EndMarker && q == 0 && x == g.Start()) {
      StartRuleEnds(g);
      var p: nat, d: nat :| AfterDot(g, A, F, q, x, p, d, a);
      assert g.RuleSymbol(g.productions[p].rhs[d]);
      assert p > 0 ==> PlaceClosed(g, F, W, p, d);
    }
  }

  // ---- FOLLOW as a lookahead source ----------------------------------------------------

  ghost function TransitionSet(g: Cfg, A: Lr0): set<Transition> {
    set q: nat, x | q < |A.states| && x in g.nonterminals && IsTransition(g, A, Arc(q, x)) :: Arc(q, x)
  }

  ghost function SlrRead(g: Cfg, A: Lr0, F: SetMap): TransMap
    requires IsAutomaton(g, A) && FirstTable(g, F)
  {
    map t | t in TransitionSet(g, A) ::
      (set a | a in g.terminals + {EndMarker} && t.state < |A.states| && Following(g, A, F, t.state, t.symbol, a))
  }

  ghost function SlrFollow(g: Cfg, A: Lr0, W: SetMap): TransMap {
    map t | t in TransitionSet(g, A) && t.symbol in W :: W[t.symbol]
  }

  lemma TransitionSetAll(g: Cfg, A: Lr0, t: Transition)
    requires IsAutomaton(g, A)
    ensures t in TransitionSet(g, A) <==> IsTransition(g, A, t)
  {
    if IsTransition(g, A, t) {
      TransitionNames(g, A, t);
      assert t == Arc(t.state, t.symbol);
    }
  }

  /** In the state a transition leads to, everything readable follows the transition's symbol. */
  lemma ReadableFollows(g: Cfg, A: Lr0, F: SetMap, q: nat, x: Symbol, t: Symbol, a: Symbol)
    requires IsAutomaton(g, A) && FirstTable(g, F) && Expects(g, A, q, x) && GotoState(g, A, q, x) >= 0
    requires Expects(g, A, GotoState(g, A, q, x), t) && t in F && a in F[t] && a != Empty
    ensures Following(g, A, F, q, x, a)
  {
    ExpectsGoto(g, A, q, x);
    var r := GotoState(g, A, q, x);
    var it :| it in A.states[r].items && DotBefore(g, it, t);
    var k :| 0 <= k < |A.states[r].items| && A.states[r].items[k] == it;
    SuffixFirstStep(g, F, it.prod, it.dot);
    FirstFollows(g, A, F, q, x, k, a);
  }

  /** After a nullable detour the same symbols follow. */
  lemma DetourFollows(g: Cfg, A: Lr0, F: SetMap, q: nat, x: Symbol, c: Symbol, a: Symbol)
    requires IsAutomaton(g, A) && FirstTable(g, F) && Expects(g, A, q, x) && 0 <= GotoState(g, A, q, x) < |A.states|
    requires Vanishes(g, [c]) && c in F && Following(g, A, F, GotoState(g, A, q, x), c, a)
    ensures Following(g, A, F, q, x, a)
  {
    ExpectsGoto(g, A, q, x);
    var r := GotoState(g, A, q, x);
    var p: nat, d: nat :| AfterDot(g, A, F, r, c, p, d, a);
    FirstExact(g, F, [c], Empty);
    assert [c][1..] == [];
    SuffixFirstStep(g, F, p, d);
    var k :| 0 <= k < |A.states[r].items| && A.states[r].items[k] == Item(p, d);
    FirstFollows(g, A, F, q, x, k, a);
  }

  lemma SlrReadAdequate(g: Cfg, A: Lr0, F: SetMap, W: SetMap, q: nat, x: Symbol)
    requires IsAutomaton(g, A) && FollowTable(g, F, W) && EndFollowsStart(g, W)
    requires x.Nonterminal? && Expects(g, A, q, x)
    ensures ReadAdequate(g, A, SlrRead(g, A, F), SlrFollow(g, A, W), q, x)
  {
    var R, V := SlrRead(g, A, F), SlrFollow(g, A, W);
    var t, r := Arc(q, x), GotoState(g, A, q, x);
    TransitionSetAll(g, A, t);
    TransitionNames(g, A, t);
    ExpectsGoto(g, A, q, x);
    forall a | a in R[t] ensures a in V[t] {
      FollowingInFollow(g, A, F, W, q, x, a);
    }
    forall a: Symbol | r >= 0 && a.Terminal? && Expects(g, A, r, a) ensures a in R[t] {
      ExpectedSymbol(g, A, r, a);
      ReadableFollows(g, A, F, q, x, a, a);
    }
    forall c: Symbol | r >= 0 && c.Nonterminal? && Expects(g, A, r, c) && Vanishes(g, [c]) && Arc(r, c) in R
      ensures R[Arc(r, c)] <= R[t] {
      ExpectedSymbol(g, A, r, c);
      forall a | a in R[Arc(r, c)] ensures a in R[t] {
        DetourFollows(g, A, F, q, x, c, a);
      }
    }
  }

  lemma ExpectedSymbol(g: Cfg, A: Lr0, q: nat, x: Symbol)
    requires IsAutomaton(g, A) && Expects(g, A, q, x)
    ensures g.RuleSymbol(x)
  {
    var it :| it in A.states[q].items && DotBefore(g, it, x);
    assert g.RuleSymbol(g.productions[it.prod].rhs[it.dot]);
  }

  lemma SlrFollowAdequate(g: Cfg, A: Lr0, F: SetMap, W: SetMap, q: nat, p: nat)
    requires IsAutomaton(g, A) && FollowTable(g, F, W) && Has(A, q, p, 0) && 0 < p < |g.productions|
    ensures FollowAdequate(g, A, SLR(W), SlrFollow(g, A, W), q, p)
  {
    var h, rhs := g.productions[p].name, g.productions[p].rhs;
    HeadTransition(g, A, q, p);
    TransitionSetAll(g, A, Arc(q, h));
    forall k | 0 <= k < |rhs| && rhs[k].Nonterminal? && Vanishes(g, rhs[k + 1..])
      ensures W[h] <= W[rhs[k]]
    {
      assert PlaceClosed(g, F, W, p, k);
      FirstExact(g, F, rhs[k + 1..], Empty);
    }
  }

  lemma SlrAdequate(g: Cfg, A: Lr0, F: SetMap, W: SetMap)
    requires IsAutomaton(g, A) && FollowTable(g, F, W) && EndFollowsStart(g, W)
    ensures Adequate(g, A, SLR(W), SlrRead(g, A, F), SlrFollow(g, A, W))
  {
    forall q: nat, x: Symbol | x.Nonterminal? && Expects(g, A, q, x)
      ensures ReadAdequate(g, A, SlrRead(g, A, F), SlrFollow(g, A, W), q, x) {
      SlrReadAdequate(g, A, F, W, q, x);
    }
    forall q: nat, p: nat | Has(A, q, p, 0) && 0 < p < |g.productions|
      ensures FollowAdequate(g, A, SLR(W), SlrFollow(g, A, W), q, p) {
      SlrFollowAdequate(g, A, F, W, q, p);
    }
  }

  /** The SLR parser without conflicts is exact, provided '$end' follows the start symbol. */
  lemma SlrParserIsExact(g: Cfg, A: Lr0, F: SetMap, W: SetMap, T: Tables, tokens: seq<Symbol>)
    requires IsAutomaton(g, A) && FollowTable(g, F, W) && EndFollowsStart(g, W)
    requires TablesOk(g, A, SLR(W), T) && ConflictFree(g, A, SLR(W)) && AllTerminal(tokens)
    ensures Accepts(g, T, tokens) <==> Derives(g, [g.Start()], tokens)
  {
    SlrAdequate(g, A, F, W);
    AcceptsExactlyTheLanguage(g, A, SLR(W), T, SlrRead(g, A, F), SlrFollow(g, A, W), tokens);
  }

  // ---- LALR within SLR -----------------------------------------------------------------

  /** Every Read set lies within what FIRST allows. */
  lemma LalrReadWithin(g: Cfg, A: Lr0, F: SetMap, W: SetMap, D: LalrData, P: Digraph.Problem,
          Q: Digraph.Problem, t: Transition)
    requires IsLalr(g, A, D, P, Q) && FollowTable(g, F, W) && EndFollowsStart(g, W) && IsTransition(g, A, t)
    ensures t.symbol in W && t in D.R && D.R[t] <= W[t.symbol]
  {
    var G := SlrRead(g, A, F);
    assert Digraph.Satisfies(P, G) by {
      forall x | x in P.nodes
        ensures x in G && P.init(x) <= G[x] && forall y :: y in P.rel(x) && y in G ==> G[y] <= G[x] {
        SlrReadSatisfies(g, A, F, W, P, x);
      }
    }
    Digraph.SolutionIsLeast(P, D.R, G, t);
    TransitionNames(g, A, t);
    forall a | a in D.R[t] ensures a in W[t.symbol] {
      assert a in G[t];
      FollowingInFollow(g, A, F, W, t.state, t.symbol, a);
    }
  }

  lemma SlrReadSatisfies(g: Cfg, A: Lr0, F: SetMap, W: SetMap, P: Digraph.Problem, x: Transition)
    requires IsAutomaton(g, A) && ReadProblem(g, A, P) && FollowTable(g, F, W) && EndFollowsStart(g, W) && x in P.nodes
    ensures x in SlrRead(g, A, F) && P.init(x) <= SlrRead(g, A, F)[x]
    ensures forall y :: y in P.rel(x) && y in SlrRead(g, A, F) ==> SlrRead(g, A, F)[y] <= SlrRead(g, A, F)[x]
  {
    var G := SlrRead(g, A, F);
    assert ReadsAt(g, A, P, x);
    SlrReadAdequate(g, A, F, W, x.state, x.symbol);
    assert x == Arc(x.state, x.symbol);
    forall y | y in P.rel(x) && y in G ensures G[y] <= G[x] {
      assert Reads(g, A, x, y) && y == Arc(y.state, y.symbol);
    }
  }

  /** Every Follow set of a transition lies within FOLLOW of its symbol. */
  lemma LalrFollowWithin(g: Cfg, A: Lr0, F: SetMap, W: SetMap, D: LalrData, P: Digraph.Problem,
          Q: Digraph.Problem, t: Transition)
    requires IsLalr(g, A, D, P, Q) && FollowTable(g, F, W) && EndFollowsStart(g, W) && IsTransition(g, A, t)
    ensures t.symbol in W && t in D.W && D.W[t] <= W[t.symbol]
  {
    var G := SlrFollow(g, A, W);
    assert Digraph.Satisfies(Q, G) by {
      forall x | x in Q.nodes
        ensures x in G && Q.init(x) <= G[x] && forall y :: y in Q.rel(x) && y in G ==> G[y] <= G[x] {
        SlrFollowSatisfies(g, A, F, W, D, P, Q, x);
      }
    }
    Digraph.SolutionIsLeast(Q, D.W, G, t);
    TransitionSetAll(g, A, t);
    TransitionNames(g, A, t);
  }

  lemma SlrFollowSatisfies(g: Cfg, A: Lr0, F: SetMap, W: SetMap, D: LalrData, P: Digraph.Problem,
          Q: Digraph.Problem, x: Transition)
    requires IsLalr(g, A, D, P, Q) && FollowTable(g, F, W) && EndFollowsStart(g, W) && x in Q.nodes
    ensures x in SlrFollow(g, A, W) && Q.init(x) <= SlrFollow(g, A, W)[x]
    ensures forall y :: y in Q.rel(x) && y in SlrFollow(g, A, W) ==> SlrFollow(g, A, W)[y] <= SlrFollow(g, A, W)[x]
  {
    TransitionSetAll(g, A, x);
    TransitionNames(g, A, x);
    LalrReadWithin(g, A, F, W, D, P, Q, x);
    assert Q.init(x) == Lookup(D.R, x);
    forall y | y in Q.rel(x) && y in SlrFollow(g, A, W) ensures W[y.symbol] <= W[x.symbol] {
      IncludesKinds(g, A, x, y);
      TailFollow(g, F, W, y.symbol, x.symbol);
    }
  }

  lemma TailFollow(g: Cfg, F: SetMap, W: SetMap, n: Symbol, y: Symbol)
    requires FollowTable(g, F, W) && TailOf(g, n, y) && y.Nonterminal?
    ensures n in W && y in W && W[n] <= W[y]
  {
    var p: nat, k: nat :| 0 < p && p < |g.productions| && g.productions[p].name == n && k < |g.productions[p].rhs| &&
      g.productions[p].rhs[k] == y && TailVanishes(g, p, k);
    assert PlaceClosed(g, F, W, p, k);
    FirstExact(g, F, g.productions[p].rhs[k + 1..], Empty);
    assert g.RuleSymbol(y);
  }

  /** Every LALR lookahead of a finished item of rule p is in FOLLOW of p's head. */
  ghost predicate LookaheadsWithin(g: Cfg, A: Lr0, D: LalrData, W: SetMap) {
    forall s: nat, p: nat :: 0 < p && p < |g.productions| && Has(A, s, p, |g.productions[p].rhs|) ==>
      LookaheadWithin(g, D, W, s, p)
  }

  ghost predicate LookaheadWithin(g: Cfg, D: LalrData, W: SetMap, s: nat, p: nat)
    requires p < |g.productions|
  {
    var e := (s, Item(p, |g.productions[p].rhs|));
    e in D.sets && g.productions[p].name in W && D.sets[e] <= W[g.productions[p].name]
  }

  lemma LalrWithinSlr(g: Cfg, A: Lr0, F: SetMap, W: SetMap, D: LalrData, P: Digraph.Problem, Q: Digraph.Problem,
          s: nat, p: nat)
    requires IsLalr(g, A, D, P, Q) && FollowTable(g, F, W) && EndFollowsStart(g, W)
    requires 0 < p < |g.productions| && Has(A, s, p, |g.productions[p].rhs|)
    ensures LookaheadWithin(g, D, W, s, p)
  {
    LookaheadKnown(g, A, D, P, Q, s, p);
    var e := (s, Item(p, |g.productions[p].rhs|));
    var h := g.productions[p].name;
    forall a | a in D.sets[e] ensures a in W[h] {
      assert Supports(D.look, D.W, e, a);
      var t :| t in D.look && e in D.look[t] && a in Lookup(D.W, t);
      LooksBackHead(g, A, t, e);
      LalrFollowWithin(g, A, F, W, D, P, Q, t);
    }
  }

  /** LALR tables never reduce where SLR tables would not, if and only if the start symbol can end what
      the head of the first rule derives. */
  lemma LalrWithinSlrExactly(g: Cfg, A: Lr0, F: SetMap, W: SetMap, D: LalrData, P: Digraph.Problem, Q: Digraph.Problem)
    requires IsLalr(g, A, D, P, Q) && FollowTable(g, F, W)
    ensures LookaheadsWithin(g, A, D, W) <==> StartEnds(g)
  {
    EndFollowsExactly(g, F, W);
    if EndFollowsStart(g, W) {
      forall s: nat, p: nat | 0 < p && p < |g.productions| && Has(A, s, p, |g.productions[p].rhs|)
        ensures LookaheadWithin(g, D, W, s, p) {
        LalrWithinSlr(g, A, F, W, D, P, Q, s, p);
      }
    }
    if LookaheadsWithin(g, A, D, W) {
      EndReachesStartRule(g, A, F, W, D, P, Q);
    }
  }

  /** A rule of the start symbol begins in state 0 and ends in some state. */
  lemma StartRule(g: Cfg, A: Lr0) returns (p: nat, s: nat)
    requires IsAutomaton(g, A)
    ensures g.IsRuleOf(p, g.Start()) && Has(A, 0, p, 0) && IsTransition(g, A, Arc(0, g.Start()))
    ensures Walk(g, A, 0, g.productions[p].rhs) == s && Has(A, s, p, |g.productions[p].rhs|)
  {
    var h := g.Start();
    assert g.RuleSymbol(g.productions[0].rhs[0]);
    p :| g.IsRuleOf(p, h);
    var rhs := g.productions[p].rhs;
    StartExpected(g, A);
    ExpectedPresent(g, A, 0, p);
    WalkRule(g, A, 0, p, |rhs|);
    assert rhs[..|rhs|] == rhs;
    s := Walk(g, A, 0, rhs);
  }

  /** '$end' is a lookahead of the finished rules of the start symbol, whatever FOLLOW says. */
  lemma EndReachesStartRule(g: Cfg, A: Lr0, F: SetMap, W: SetMap, D: LalrData, P: Digraph.Problem, Q: Digraph.Problem)
    requires IsLalr(g, A, D, P, Q) && FollowTable(g, F, W) && LookaheadsWithin(g, A, D, W)
    ensures EndFollowsStart(g, W)
  {
    var p, s := StartRule(g, A);
    LalrReadAdequate(g, A, D, P, Q, Arc(0, g.Start()));
    LalrFollowAdequate(g, A, D, P, Q, 0, p);
    LookaheadKnown(g, A, D, P, Q, s, p);
    assert Has(A, s, p, |g.productions[p].rhs|) ==> LookaheadWithin(g, D, W, s, p);
    EndChain(g, A, D, W, p, s);
  }

  lemma EndChain(g: Cfg, A: Lr0, D: LalrData, W: SetMap, p: nat, s: nat)
    requires g.Valid() && 0 < |A.states| && g.IsRuleOf(p, g.Start()) && Walk(g, A, 0, g.productions[p].rhs) == s
    requires ReadAdequate(g, A, D.R, D.W, 0, g.Start()) && FollowAdequate(g, A, LALR(D.sets), D.W, 0, p)
    requires LALR(D.sets).Known(g, s, p) && LookaheadWithin(g, D, W, s, p)
    ensures EndFollowsStart(g, W)
  {
  }

  /** With the default start symbol the condition holds. */
  lemma DefaultStart(g: Cfg)
    requires g.Valid() && g.Start() == g.productions[1].name
    ensures StartEnds(g)
  {
    DerivesRefl(g, [g.Start()]);
    assert [] + [g.Start()] == [g.Start()];
  }

  // ---- The language of the SLR parser --------------------------------------------------

  /** Unless '$end' follows the start symbol, no table built from the FOLLOW sets accepts anything,
      however its conflicts were resolved. */
  lemma SlrAcceptsNothing(g: Cfg, A: Lr0, F: SetMap, W: SetMap, T: Tables, tokens: seq<Symbol>)
    requires IsAutomaton(g, A) && FollowTable(g, F, W) && TablesOk(g, A, SLR(W), T) && AllTerminal(tokens)
    requires !StartEnds(g)
    ensures !Accepts(g, T, tokens)
  {
    if Accepts(g, T, tokens) {
      var n: nat :| Run(g, T, Initial(tokens), n).Accepted?;
      var s, p := LastReduction(g, A, SLR(W), T, tokens, n);
      EndFollowsExactly(g, F, W);
    }
  }

  /** The SLR parser without conflicts accepts exactly the language, if and only if the start symbol can
      end what the head of the first rule derives, or the language is empty. */
  lemma SlrParserExactly(g: Cfg, A: Lr0, F: SetMap, W: SetMap, T: Tables)
    requires IsAutomaton(g, A) && FollowTable(g, F, W) && TablesOk(g, A, SLR(W), T) && ConflictFree(g, A, SLR(W))
    ensures AcceptsTheLanguage(g, T) <==> StartEnds(g) || NoSentences(g)
  {
    forall tokens | AllTerminal(tokens)
      ensures if StartEnds(g) then Accepts(g, T, tokens) <==> Derives(g, [g.Start()], tokens) else !Accepts(g, T, tokens)
    {
      if StartEnds(g) {
        EndFollowsExactly(g, F, W);
        SlrParserIsExact(g, A, F, W, T, tokens);
      } else {
        SlrAcceptsNothing(g, A, F, W, T, tokens);
      }
    }
  }
}
