/** From the relations to the tables: Read and Follow sets by digraph, lookaheads by lookback, and
    what they are worth. LALR lookaheads are adequate, so a parser generated without conflicts is
    exact; and they lie within the SLR FOLLOW sets. */
module LalrTables {
  import opened Cfg
  import opened GrammarSets
  import opened LrAutomaton
  import opened ParseTable
  import opened ParseTrees
  import opened LrEngine
  import opened LrComplete
  import opened Lookahead
  import Digraph
  import GrammarTables

  type LookDict = map<Transition, seq<(nat, Item)>>
  type IncludeDict = map<Transition, seq<Transition>>

  // ---- Read sets -----------------------------------------------------------------------

  lemma {:induction false} SetOfSeq(s: seq<Transition>, nodes: set<Transition>)
    requires forall t :: t in nodes <==> t in s
    ensures |nodes| <= |s|
  {
    if s != [] {
      var front := s[..|s| - 1];
      assert s == front + [s[|s| - 1]];
      if s[|s| - 1] in front {
        SetOfSeq(front, nodes);
      } else {
        SetOfSeq(front, nodes - {s[|s| - 1]});
      }
    }
  }

  /** The digraph problem whose solution are the Read sets. */
  ghost predicate ReadProblem(g: Cfg, A: Lr0, P: Digraph.Problem) {
    && (forall t :: t in P.nodes <==> IsTransition(g, A, t))
    && (forall t :: t in P.nodes ==> ReadsAt(g, A, P, t))
  }

  ghost predicate ReadsAt(g: Cfg, A: Lr0, P: Digraph.Problem, t: Transition) {
    && t.state < |A.states|
    && (forall a :: a in P.init(t) <==> DirectlyReads(g, A, t, a))
    && (forall y :: y in P.rel(t) <==> Reads(g, A, t, y))
  }

  function Lookup(m: TransMap, t: Transition): set<Symbol> {
    if t in m then m[t] else {}
  }

  function LookupSeq(m: IncludeDict, t: Transition): seq<Transition> {
    if t in m then m[t] else []
  }

  /** The arguments handed to digraph, as dictionaries. */
  function MakeProblem(trans: seq<Transition>, rel: IncludeDict, init: TransMap): (P: Digraph.Problem)
    ensures forall t :: t in P.nodes <==> t in trans
    ensures forall t :: P.rel(t) == LookupSeq(rel, t) && P.init(t) == Lookup(init, t)
  {
    Digraph.Problem((set t | t in trans), (x: Transition) => LookupSeq(rel, x), (x: Transition) => Lookup(init, x))
  }

  ghost predicate RelationsAt(g: Cfg, A: Lr0, dr: TransMap, rel: IncludeDict, t: Transition) {
    && IsTransition(g, A, t)
    && t in dr && t in rel
    && (forall a :: a in dr[t] <==> DirectlyReads(g, A, t, a))
    && (forall y :: y in rel[t] <==> Reads(g, A, t, y))
  }

  /** The values of dr_relation and reads_relation at every transition. */
  method ReadRelations(g: Cfg, A: Lr0, trans: seq<Transition>, nullable: set<Symbol>)
    returns (dr: TransMap, rel: IncludeDict)
    requires IsAutomaton(g, A) && AllTransitions(g, A, trans) && IsNullable(g, nullable)
    ensures forall i :: 0 <= i < |trans| ==> RelationsAt(g, A, dr, rel, trans[i])
  {
    dr, rel := map[], map[];
    for i := 0 to |trans|
      invariant forall k :: 0 <= k < i ==> RelationsAt(g, A, dr, rel, trans[k])
    {
      assert trans[i] in trans;
      var terms := DrRelation(g, A, trans[i]);
      var ys := ReadsRelation(g, A, trans[i], nullable);
      ghost var dr0, rel0 := dr, rel;
      dr, rel := dr[trans[i] := terms], rel[trans[i] := ys];
      forall k | 0 <= k <= i ensures RelationsAt(g, A, dr, rel, trans[k]) {
        if k < i {
          assert RelationsAt(g, A, dr0, rel0, trans[k]);
        }
      }
    }
  }

  lemma ReadProblemMade(g: Cfg, A: Lr0, trans: seq<Transition>, dr: TransMap, rel: IncludeDict)
    requires IsAutomaton(g, A) && AllTransitions(g, A, trans)
    requires forall i :: 0 <= i < |trans| ==> RelationsAt(g, A, dr, rel, trans[i])
    ensures ReadProblem(g, A, MakeProblem(trans, rel, dr)) && MakeProblem(trans, rel, dr).Closed()
  {
    var P := MakeProblem(trans, rel, dr);
    forall t | t in P.nodes ensures ReadsAt(g, A, P, t) {
      var i :| 0 <= i < |trans| && trans[i] == t;
      assert RelationsAt(g, A, dr, rel, trans[i]);
    }
    forall x, y | x in P.nodes && y in P.rel(x) ensures y in P.nodes {
      assert ReadsAt(g, A, P, x);
      assert Reads(g, A, x, y);
    }
  }

  /** compute_read_sets. */
  method ComputeReadSets(g: Cfg, A: Lr0, trans: seq<Transition>, nullable: set<Symbol>)
    returns (R: TransMap, ghost P: Digraph.Problem)
    requires IsAutomaton(g, A) && AllTransitions(g, A, trans) && IsNullable(g, nullable) && |trans| < Digraph.MAXINT
    ensures ReadProblem(g, A, P) && P.Closed() && Digraph.IsSolution(P, R)
  {
    var dr, rel := ReadRelations(g, A, trans, nullable);
    var problem := MakeProblem(trans, rel, dr);
    P := problem;
    ReadProblemMade(g, A, trans, dr, rel);
    SetOfSeq(trans, problem.nodes);
    var solver := new Digraph.Traversal(problem);
    solver.Solve(trans);
    R := solver.F;
  }

  // ---- Lookback and includes dictionaries ----------------------------------------------

  /** The inverted dictionary of the includes edges that lead to the transitions in `done`. */
  ghost predicate IncludesExact(g: Cfg, A: Lr0, inc: IncludeDict, done: seq<Transition>) {
    forall y, t :: t in LookupSeq(inc, y) <==> t in done && Includes(g, A, y, t)
  }

  ghost predicate LookbackExact(g: Cfg, A: Lr0, look: LookDict, done: seq<Transition>) {
    && (forall t :: t in look <==> t in done)
    && (forall t, e :: t in look ==> (e in look[t] <==> LooksBack(g, A, t, e)))
  }

  function AppendTo(inc: IncludeDict, y: Transition, t: Transition): (inc': IncludeDict)
    ensures forall z, x :: x in LookupSeq(inc', z) <==> x in LookupSeq(inc, z) || (z == y && x == t)
  {
    inc[y := LookupSeq(inc, y) + [t]]
  }

  /** `for i in includes: includedict[i].append((state,N))` */
  method InvertIncludes(t: Transition, includes: seq<Transition>, inc0: IncludeDict) returns (inc: IncludeDict)
    ensures forall y, x :: x in LookupSeq(inc, y) <==> x in LookupSeq(inc0, y) || (x == t && y in includes)
  {
    inc := inc0;
    for i := 0 to |includes|
      invariant forall y, x :: x in LookupSeq(inc, y) <==> x in LookupSeq(inc0, y) || (x == t && y in includes[..i])
    {
      assert includes[..i + 1] == includes[..i] + [includes[i]];
      inc := AppendTo(inc, includes[i], t);
    }
    assert includes[..|includes|] == includes;
  }

  /** compute_lookback_includes. */
  method ComputeLookbackIncludes(g: Cfg, A: Lr0, trans: seq<Transition>, nullable: set<Symbol>)
    returns (look: LookDict, inc: IncludeDict)
    requires IsAutomaton(g, A) && AllTransitions(g, A, trans) && IsNullable(g, nullable)
    ensures LookbackExact(g, A, look, trans) && IncludesExact(g, A, inc, trans)
  {
    look, inc := map[], map[];
    for i := 0 to |trans|
      invariant LookbackExact(g, A, look, trans[..i]) && IncludesExact(g, A, inc, trans[..i])
    {
      var t := trans[i];
      assert t in trans && trans[..i + 1] == trans[..i] + [t];
      var lookb, includes := LookbackIncludes(g, A, trans, nullable, t);
      inc := InvertIncludes(t, includes, inc);
      look := look[t := lookb];
    }
    assert trans[..|trans|] == trans;
  }

  // ---- Follow sets and lookaheads ------------------------------------------------------

  /** The digraph problem whose solution are the Follow sets. */
  ghost predicate FollowProblem(g: Cfg, A: Lr0, R: TransMap, inc: IncludeDict, P: Digraph.Problem) {
    && (forall t :: t in P.nodes <==> IsTransition(g, A, t))
    && (forall t :: t in P.nodes ==> P.rel(t) == LookupSeq(inc, t) && P.init(t) == Lookup(R, t))
  }

  /** compute_follow_sets. The Read sets are the initial sets; each is taken as a fresh list. */
  method ComputeFollowSets(g: Cfg, A: Lr0, trans: seq<Transition>, R: TransMap, inc: IncludeDict)
    returns (W: TransMap, ghost P: Digraph.Problem)
    requires AllTransitions(g, A, trans) && IncludesExact(g, A, inc, trans) && |trans| < Digraph.MAXINT
    ensures FollowProblem(g, A, R, inc, P)
    ensures P.Closed() && Digraph.IsSolution(P, W)
  {
    var problem := MakeProblem(trans, inc, R);
    P := problem;
    SetOfSeq(trans, problem.nodes);
    var solver := new Digraph.Traversal(problem);
    solver.Solve(trans);
    W := solver.F;
  }

  /** The lookaheads of an item in a state are the union of the Follow sets of the transitions it
      looks back to. */
  ghost predicate LookaheadsExact(look: LookDict, W: TransMap, sets: LookSets) {
    && (forall t, e :: t in look && e in look[t] ==> e in sets && Lookup(W, t) <= sets[e])
    && (forall e, a :: e in sets && a in sets[e] ==> Supports(look, W, e, a))
  }

  ghost predicate Supports(look: LookDict, W: TransMap, e: (nat, Item), a: Symbol) {
    exists t :: t in look && e in look[t] && a in Lookup(W, t)
  }

  /** add_lookaheads. */
  method AddLookaheads(trans: seq<Transition>, look: LookDict, W: TransMap) returns (sets: LookSets)
    requires forall t :: t in look <==> t in trans
    ensures LookaheadsExact(look, W, sets)
  {
    sets := map[];
    for i := 0 to |trans|
      invariant forall e, a :: e in sets && a in sets[e] ==> Supports(look, W, e, a)
      invariant forall k, e :: 0 <= k < i && e in look[trans[k]] ==> e in sets && Lookup(W, trans[k]) <= sets[e]
    {
      var t := trans[i];
      assert t in trans;
      var lb := look[t];
      for m := 0 to |lb|
        invariant forall e, a :: e in sets && a in sets[e] ==> Supports(look, W, e, a)
        invariant forall k, e :: 0 <= k < i && e in look[trans[k]] ==> e in sets && Lookup(W, trans[k]) <= sets[e]
        invariant forall j :: 0 <= j < m ==> lb[j] in sets && Lookup(W, t) <= sets[lb[j]]
      {
        var e := lb[m];
        assert e in look[t];
        sets := sets[e := (if e in sets then sets[e] else {}) + Lookup(W, t)];
      }
    }
    forall t, e | t in look && e in look[t] ensures e in sets && Lookup(W, t) <= sets[e] {
      var k :| 0 <= k < |trans| && trans[k] == t;
    }
  }

  // ---- The LALR lookaheads as a whole --------------------------------------------------

  /** Everything add_lalr_lookaheads computes, in relation to each other. */
  datatype LalrData = LalrData(R: TransMap, W: TransMap, look: LookDict, inc: IncludeDict, sets: LookSets)

  /** The dictionaries hold the includes and lookback relations of the automaton. */
  ghost predicate RelationsExact(g: Cfg, A: Lr0, D: LalrData) {
    && (forall y, t :: t in LookupSeq(D.inc, y) <==> IsTransition(g, A, t) && Includes(g, A, y, t))
    && (forall t :: t in D.look <==> IsTransition(g, A, t))
    && (forall t, e :: t in D.look ==> (e in D.look[t] <==> LooksBack(g, A, t, e)))
  }

  ghost predicate IsLalr(g: Cfg, A: Lr0, D: LalrData, P: Digraph.Problem, Q: Digraph.Problem) {
    && IsAutomaton(g, A)
    && ReadProblem(g, A, P) && P.Closed() && Digraph.IsSolution(P, D.R)
    && RelationsExact(g, A, D)
    && FollowProblem(g, A, D.R, D.inc, Q) && Q.Closed() && Digraph.IsSolution(Q, D.W)
    && LookaheadsExact(D.look, D.W, D.sets)
  }

  ghost predicate TheTransitions(g: Cfg, A: Lr0, nodes: set<Transition>) {
    forall t :: t in nodes <==> IsTransition(g, A, t)
  }

  /** There are as many nonterminal transitions as traverse's MAXINT, or more. */
  ghost predicate TooManyTransitions(g: Cfg, A: Lr0) {
    exists nodes :: TheTransitions(g, A, nodes) && |nodes| >= Digraph.MAXINT
  }

  lemma TransitionCount(g: Cfg, A: Lr0, trans: seq<Transition>)
    requires AllTransitions(g, A, trans) && forall i, j :: 0 <= i < j < |trans| ==> trans[i] != trans[j]
    ensures TooManyTransitions(g, A) <==> |trans| >= Digraph.MAXINT
  {
    var nodes := set t | t in trans;
    SetOfSeq(trans, nodes);
    Digraph.DistinctSize(trans, nodes);
    assert TheTransitions(g, A, nodes);
    if TooManyTransitions(g, A) {
      var other :| TheTransitions(g, A, other) && |other| >= Digraph.MAXINT;
      assert other == nodes;
    }
  }

  /** add_lalr_lookaheads. */
  method AddLalrLookaheads(g: Cfg, A: Lr0) returns (ok: bool, D: LalrData, ghost P: Digraph.Problem,
          ghost Q: Digraph.Problem)
    requires IsAutomaton(g, A)
    ensures ok <==> !TooManyTransitions(g, A)
    ensures ok ==> IsLalr(g, A, D, P, Q)
  {
    var nullable := GrammarTables.ComputeNullable(g);
    var trans := FindTransitions(g, A);
    TransitionCount(g, A, trans);
    D := LalrData(map[], map[], map[], map[], map[]);
    P, Q := MakeProblem([], map[], map[]), MakeProblem([], map[], map[]);
    if |trans| >= Digraph.MAXINT {
      return false, D, P, Q;
    }
    var R, W, look, inc, sets;
    R, P := ComputeReadSets(g, A, trans, nullable);
    look, inc := ComputeLookbackIncludes(g, A, trans, nullable);
    W, Q := ComputeFollowSets(g, A, trans, R, inc);
    sets := AddLookaheads(trans, look, W);
    ok, D := true, LalrData(R, W, look, inc, sets);
  }

  // ---- LALR lookaheads are adequate ----------------------------------------------------

  lemma SetsReadAdequate(g: Cfg, A: Lr0, P: Digraph.Problem, R: TransMap, W: TransMap, t: Transition)
    requires t.state < |A.states| && t in P.nodes && ReadsAt(g, A, P, t) && Digraph.Satisfies(P, R)
    requires t in R && t in W && R[t] <= W[t]
    requires forall y :: Reads(g, A, t, y) && y in R ==> R[y] <= R[t]
    ensures ReadAdequate(g, A, R, W, t.state, t.symbol)
  {
    var r := GotoState(g, A, t.state, t.symbol);
    assert Arc(t.state, t.symbol) == t;
    forall a: Symbol | r >= 0 && a.Terminal? && Expects(g, A, r, a) ensures a in R[t] {
      assert DirectlyReads(g, A, t, a) && a in P.init(t);
    }
    forall c: Symbol | r >= 0 && c.Nonterminal? && Expects(g, A, r, c) && Vanishes(g, [c]) && Arc(r, c) in R
      ensures R[Arc(r, c)] <= R[t] {
      assert Reads(g, A, t, Arc(r, c));
    }
    if t.state == 0 && g.Valid() && t.symbol == g.Start() {
      assert DirectlyReads(g, A, t, EndMarker) && EndMarker in P.init(t);
    }
  }

  lemma LalrReadAdequate(g: Cfg, A: Lr0, D: LalrData, P: Digraph.Problem, Q: Digraph.Problem, t: Transition)
    requires IsLalr(g, A, D, P, Q) && IsTransition(g, A, t)
    ensures ReadAdequate(g, A, D.R, D.W, t.state, t.symbol)
  {
    assert t in P.nodes && t in Q.nodes && ReadsAt(g, A, P, t);
    Digraph.SolutionSatisfies(P, D.R);
    Digraph.SolutionSatisfies(Q, D.W);
    assert Q.init(t) == Lookup(D.R, t);
    forall y | Reads(g, A, t, y) && y in D.R ensures D.R[y] <= D.R[t] {
      assert y in P.rel(t);
    }
    SetsReadAdequate(g, A, P, D.R, D.W, t);
  }

  /** Where a rule begins there is a transition on its head. */
  lemma HeadTransition(g: Cfg, A: Lr0, q: nat, p: nat)
    requires IsAutomaton(g, A) && Has(A, q, p, 0) && 0 < p < |g.productions|
    ensures IsTransition(g, A, Arc(q, g.productions[p].name))
  {
    RuleExpected(g, A, q, p);
    assert g.productions[p].name in g.nonterminals;
  }

  /** y stands in a rule of the nonterminal n with nothing but nullable symbols after it. */
  ghost predicate TailOf(g: Cfg, n: Symbol, y: Symbol) {
    exists p: nat, k: nat :: 0 < p && p < |g.productions| && g.productions[p].name == n &&
      k < |g.productions[p].rhs| && g.productions[p].rhs[k] == y && TailVanishes(g, p, k)
  }

  /** What y includes is a transition on a symbol that the rest of the rule behind it lets vanish. */
  lemma IncludesKinds(g: Cfg, A: Lr0, y: Transition, t: Transition)
    requires IsAutomaton(g, A) && Includes(g, A, y, t)
    ensures IsTransition(g, A, y) && TailOf(g, t.symbol, y.symbol)
  {
    var it :| ItemIncludes(g, A, t, it, y);
    var k: nat :| k < |g.productions[it.prod].rhs| && Meets(g, A, t.state, it.prod, it.dot, k, y);
    WalkItem(g, A, t.state, it.prod, it.dot, k);
    assert DotBefore(g, Item(it.prod, k), y.symbol);
  }

  lemma LooksBackHead(g: Cfg, A: Lr0, t: Transition, e: (nat, Item))
    requires LooksBack(g, A, t, e)
    ensures ValidItem(g, e.1) && g.productions[e.1.prod].name == t.symbol
  {
  }

  /** The edge of the symbol k of rule p, begun in state q. */
  lemma RuleIncludes(g: Cfg, A: Lr0, q: nat, p: nat, k: nat)
    requires IsAutomaton(g, A) && Has(A, q, p, 0) && 0 < p < |g.productions| && k < |g.productions[p].rhs|
    requires g.productions[p].rhs[k].Nonterminal? && TailVanishes(g, p, k)
    ensures Walk(g, A, q, g.productions[p].rhs[..k]) >= 0
    ensures Includes(g, A, Arc(Walk(g, A, q, g.productions[p].rhs[..k]), g.productions[p].rhs[k]),
      Arc(q, g.productions[p].name))
  {
    var rhs := g.productions[p].rhs;
    WalkItem(g, A, q, p, 0, k);
    assert rhs[0..k] == rhs[..k];
    assert Meets(g, A, q, p, 0, k, Arc(Walk(g, A, q, rhs[..k]), rhs[k]));
    assert ItemIncludes(g, A, Arc(q, g.productions[p].name), Item(p, 0), Arc(Walk(g, A, q, rhs[..k]), rhs[k]));
  }

  /** The finished rule p looks back to where it began. */
  lemma RuleLooksBack(g: Cfg, A: Lr0, q: nat, p: nat)
    requires IsAutomaton(g, A) && Has(A, q, p, 0) && 0 < p < |g.productions|
    ensures Walk(g, A, q, g.productions[p].rhs) >= 0
    ensures LooksBack(g, A, Arc(q, g.productions[p].name),
      (Walk(g, A, q, g.productions[p].rhs), Item(p, |g.productions[p].rhs|)))
  {
    var rhs := g.productions[p].rhs;
    WalkItem(g, A, q, p, 0, |rhs|);
    assert rhs[0..|rhs|] == rhs[0..] == rhs;
    var e := (Walk(g, A, q, rhs), Item(p, |rhs|));
    assert Matches(g, e.1, Item(p, 0));
    assert ItemLooksBack(g, A, Arc(q, g.productions[p].name), Item(p, 0), e);
  }

  lemma HeadKnown(g: Cfg, A: Lr0, D: LalrData, P: Digraph.Problem, Q: Digraph.Problem, q: nat, p: nat)
    requires IsLalr(g, A, D, P, Q) && Has(A, q, p, 0) && 0 < p < |g.productions|
    ensures var t := Arc(q, g.productions[p].name);
            IsTransition(g, A, t) && t in D.W && t in D.look && t in Q.nodes
  {
    HeadTransition(g, A, q, p);
  }

  lemma IncludesFollow(g: Cfg, A: Lr0, D: LalrData, P: Digraph.Problem, Q: Digraph.Problem, y: Transition,
          t: Transition)
    requires IsLalr(g, A, D, P, Q) && IsTransition(g, A, t) && Includes(g, A, y, t)
    ensures t in D.W && y in D.W && D.W[t] <= D.W[y]
  {
    IncludesKinds(g, A, y, t);
    Digraph.SolutionSatisfies(Q, D.W);
    assert t in LookupSeq(D.inc, y);
    assert t in Q.nodes && y in Q.nodes && t in Q.rel(y);
  }

  lemma LalrFollowAdequate(g: Cfg, A: Lr0, D: LalrData, P: Digraph.Problem, Q: Digraph.Problem, q: nat, p: nat)
    requires IsLalr(g, A, D, P, Q) && Has(A, q, p, 0) && 0 < p < |g.productions|
    ensures FollowAdequate(g, A, LALR(D.sets), D.W, q, p)
  {
    var h, rhs := g.productions[p].name, g.productions[p].rhs;
    HeadKnown(g, A, D, P, Q, q, p);
    forall k | 0 <= k < |rhs| && rhs[k].Nonterminal? && Vanishes(g, rhs[k + 1..])
      ensures var r := Walk(g, A, q, rhs[..k]); r >= 0 && Arc(r, rhs[k]) in D.W ==> D.W[Arc(q, h)] <= D.W[Arc(r, rhs[k])]
    {
      assert TailVanishes(g, p, k);
      RuleIncludes(g, A, q, p, k);
      IncludesFollow(g, A, D, P, Q, Arc(Walk(g, A, q, rhs[..k]), rhs[k]), Arc(q, h));
    }
    RuleKnown(g, A, D, P, Q, q, p);
  }

  /** The lookaheads of the finished rule have what follows its head where it began. */
  lemma RuleKnown(g: Cfg, A: Lr0, D: LalrData, P: Digraph.Problem, Q: Digraph.Problem, q: nat, p: nat)
    requires IsLalr(g, A, D, P, Q) && Has(A, q, p, 0) && 0 < p < |g.productions|
    ensures var t, j := Arc(q, g.productions[p].name), Walk(g, A, q, g.productions[p].rhs);
            j >= 0 && t in D.W && LALR(D.sets).Known(g, j, p) && D.W[t] <= LALR(D.sets).Of(g, j, p)
  {
    var t := Arc(q, g.productions[p].name);
    HeadKnown(g, A, D, P, Q, q, p);
    RuleLooksBack(g, A, q, p);
    LookbackKnown(D, t, (Walk(g, A, q, g.productions[p].rhs), Item(p, |g.productions[p].rhs|)));
  }

  lemma LookbackKnown(D: LalrData, t: Transition, e: (nat, Item))
    requires LookaheadsExact(D.look, D.W, D.sets) && t in D.look && e in D.look[t] && t in D.W
    ensures e in D.sets && D.W[t] <= D.sets[e]
  {
    assert Lookup(D.W, t) == D.W[t];
  }

  /** An item whose dot has moved came to its state over the symbol before the dot. */
  lemma CameFrom(g: Cfg, A: Lr0, s: nat, p: nat, k: nat) returns (r: nat)
    requires IsAutomaton(g, A) && Has(A, s, p, k) && 0 < p < |g.productions| && 0 < k <= |g.productions[p].rhs|
    ensures Has(A, r, p, k - 1) && GotoState(g, A, r, g.productions[p].rhs[k - 1]) == s
  {
    ItemKinds(g, A, s, Item(p, k));
    var q, x := ComeFrom(g, A, s);
    GotoBack(g, A, q, x, Item(p, k));
    r := q;
  }

  /** Every state but the first is the goto of an earlier one. */
  lemma ComeFrom(g: Cfg, A: Lr0, s: nat) returns (r: nat, x: Symbol)
    requires IsAutomaton(g, A) && 0 < s < |A.states|
    ensures r < s && GotoState(g, A, r, x) == s
  {
    assert StateOk(g, A, s) && Reached(g, A, s);
    var q: nat, y: Symbol :| q < s && A.states[s].kernel == GotoKernel(g, A.states[q].items, y);
    r, x := q, y;
  }

  /** Every finished item of a reachable state looks back to a transition on its head, so its
      lookahead entry exists: `p.lookaheads[st]` never raises KeyError. */
  lemma {:induction false} WalkBack(g: Cfg, A: Lr0, s: nat, p: nat, k: nat) returns (q: nat)
    requires IsAutomaton(g, A) && Has(A, s, p, k) && 0 < p < |g.productions| && k <= |g.productions[p].rhs|
    ensures Has(A, q, p, 0) && Walk(g, A, q, g.productions[p].rhs[..k]) == s
    decreases k
  {
    var rhs := g.productions[p].rhs;
    if k == 0 {
      q := s;
    } else {
      var r := CameFrom(g, A, s, p, k);
      q := WalkBack(g, A, r, p, k - 1);
      assert rhs[..k][..k - 1] == rhs[..k - 1] && rhs[..k][k - 1] == rhs[k - 1];
    }
  }

  lemma LookaheadKnown(g: Cfg, A: Lr0, D: LalrData, P: Digraph.Problem, Q: Digraph.Problem, s: nat, p: nat)
    requires IsLalr(g, A, D, P, Q) && 0 < p < |g.productions| && Has(A, s, p, |g.productions[p].rhs|)
    ensures LALR(D.sets).Known(g, s, p)
  {
    var rhs := g.productions[p].rhs;
    var q := WalkBack(g, A, s, p, |rhs|);
    assert rhs[..|rhs|] == rhs;
    RuleKnown(g, A, D, P, Q, q, p);
  }

  lemma LalrDefined(g: Cfg, A: Lr0, D: LalrData, P: Digraph.Problem, Q: Digraph.Problem)
    requires IsLalr(g, A, D, P, Q)
    ensures LALR(D.sets).Defined(g, A)
  {
    forall s, p: nat | 0 <= s < |A.states| && p > 0 && p < |g.productions| &&
      Item(p, |g.productions[p].rhs|) in A.states[s].items
      ensures LALR(D.sets).Known(g, s, p)
    {
      LookaheadKnown(g, A, D, P, Q, s, p);
    }
  }

  lemma LalrAdequate(g: Cfg, A: Lr0, D: LalrData, P: Digraph.Problem, Q: Digraph.Problem)
    requires IsLalr(g, A, D, P, Q)
    ensures Adequate(g, A, LALR(D.sets), D.R, D.W)
  {
    LalrDefined(g, A, D, P, Q);
    forall q: nat, x: Symbol | x.Nonterminal? && Expects(g, A, q, x) ensures ReadAdequate(g, A, D.R, D.W, q, x) {
      LalrReadAdequate(g, A, D, P, Q, Arc(q, x));
    }
    forall q: nat, p: nat | Has(A, q, p, 0) && 0 < p < |g.productions|
      ensures FollowAdequate(g, A, LALR(D.sets), D.W, q, p) {
      LalrFollowAdequate(g, A, D, P, Q, q, p);
    }
  }

  /** The LALR(1) parser: when the generator meets no conflict, its engine accepts exactly the
      sentences of the grammar. */
  lemma LalrParserIsExact(g: Cfg, A: Lr0, D: LalrData, P: Digraph.Problem, Q: Digraph.Problem, T: Tables,
          tokens: seq<Symbol>)
    requires IsLalr(g, A, D, P, Q) && TablesOk(g, A, LALR(D.sets), T) && ConflictFree(g, A, LALR(D.sets))
             && AllTerminal(tokens)
    ensures Accepts(g, T, tokens) <==> Derives(g, [g.Start()], tokens)
  {
    LalrAdequate(g, A, D, P, Q);
    AcceptsExactlyTheLanguage(g, A, LALR(D.sets), T, D.R, D.W, tokens);
  }
}
