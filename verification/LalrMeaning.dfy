/** What the LALR(1) lookaheads of yacc.py are: exactly what can be read along the includes and reads
    edges that the generator finds, and how that compares with the relations of DeRemer and Pennello.
    Their includes relation follows the rules of a nonterminal from where they begin;
    compute_lookback_includes follows every item of the nonterminal, so that one whose dot has moved
    on adds edges of its own. */
module LalrMeaning {
  import opened Cfg
  import opened LrAutomaton
  import opened ParseTable
  import opened LrEngine
  import opened LrComplete
  import opened Lookahead
  import opened LalrTables
  import Digraph

  // ---- The relations of DeRemer and Pennello -------------------------------------------

  /** The edge comes from a rule that begins in t's state. */
  ghost predicate ProperIncludes(g: Cfg, A: Lr0, y: Transition, t: Transition) {
    exists it: Item :: it.dot == 0 && ItemIncludes(g, A, t, it, y)
  }

  /** The edge comes from a rule that is under way in t's state. */
  ghost predicate StrayIncludes(g: Cfg, A: Lr0, y: Transition, t: Transition) {
    exists it: Item :: it.dot > 0 && ItemIncludes(g, A, t, it, y)
  }

  /** The finished rule of e begins in t's state and ends in e's. */
  ghost predicate ProperLooksBack(g: Cfg, A: Lr0, t: Transition, e: (nat, Item)) {
    OfHead(g, A, t, Item(e.1.prod, 0)) && Complete(g, e.1) && Walk(g, A, t.state, g.productions[e.1.prod].rhs) == e.0
  }

  /** The found edges, or only the proper ones. */
  ghost predicate Edge(g: Cfg, A: Lr0, proper: bool, y: Transition, t: Transition) {
    IsTransition(g, A, t) && if proper then ProperIncludes(g, A, y, t) else Includes(g, A, y, t)
  }

  // ---- What can be read along the edges ------------------------------------------------

  ghost predicate ReadsPath(g: Cfg, A: Lr0, p: seq<Transition>) {
    p != [] && p[0].state < |A.states|
    && forall i :: 0 <= i < |p| - 1 ==> p[i].state < |A.states| && Reads(g, A, p[i], p[i + 1])
  }

  /** a can be read after t, directly or behind nullable transitions. */
  ghost predicate ReadAfter(g: Cfg, A: Lr0, t: Transition, a: Symbol) {
    exists p: seq<Transition> :: ReadsPath(g, A, p) && p[0] == t && p[|p| - 1].state < |A.states| &&
      DirectlyReads(g, A, p[|p| - 1], a)
  }

  ghost predicate IncludesPath(g: Cfg, A: Lr0, proper: bool, p: seq<Transition>) {
    p != [] && forall i :: 0 <= i < |p| - 1 ==> Edge(g, A, proper, p[i], p[i + 1])
  }

  ghost predicate FollowPath(g: Cfg, A: Lr0, proper: bool, t: Transition, a: Symbol, p: seq<Transition>) {
    IncludesPath(g, A, proper, p) && p[0] == t && ReadAfter(g, A, p[|p| - 1], a)
  }

  /** a can be read after a transition that includes edges lead to from t. */
  ghost predicate Follows(g: Cfg, A: Lr0, proper: bool, t: Transition, a: Symbol) {
    exists p :: FollowPath(g, A, proper, t, a, p)
  }

  /** The lookaheads of a finished item that the edges amount to. */
  ghost predicate LooksAhead(g: Cfg, A: Lr0, e: (nat, Item), a: Symbol) {
    exists t :: IsTransition(g, A, t) && LooksBack(g, A, t, e) && Follows(g, A, false, t, a)
  }

  /** The LALR(1) lookaheads of DeRemer and Pennello. */
  ghost predicate ProperLooksAhead(g: Cfg, A: Lr0, e: (nat, Item), a: Symbol) {
    exists t :: IsTransition(g, A, t) && ProperLooksBack(g, A, t, e) && Follows(g, A, true, t, a)
  }

  // ---- The computed sets are exactly that ----------------------------------------------

  /** A path of the digraph problem is a path of reads edges. */
  lemma ReadPathsAgree(g: Cfg, A: Lr0, P: Digraph.Problem, p: seq<Transition>)
    requires ReadProblem(g, A, P) && P.Closed() && p != [] && IsTransition(g, A, p[0])
    ensures Digraph.IsPath(P, p) <==> ReadsPath(g, A, p)
    ensures Digraph.IsPath(P, p) ==> IsTransition(g, A, p[|p| - 1])
  {
    if Digraph.IsPath(P, p) {
      forall i | 0 <= i < |p| ensures p[i] in P.nodes {
        Digraph.PathStays(P, p, i);
      }
      forall i | 0 <= i < |p| - 1 ensures Reads(g, A, p[i], p[i + 1]) {
        assert ReadsAt(g, A, P, p[i]);
      }
    }
    if ReadsPath(g, A, p) {
      forall i | 0 <= i < |p| - 1 ensures p[i + 1] in P.rel(p[i]) {
        assert i > 0 ==> Reads(g, A, p[i - 1], p[i - 1 + 1]);
        assert ReadsAt(g, A, P, p[i]) && Reads(g, A, p[i], p[i + 1]);
      }
    }
  }

  /** Read(t) is what can be read after t. */
  lemma ReadSetsMean(g: Cfg, A: Lr0, D: LalrData, P: Digraph.Problem, Q: Digraph.Problem, t: Transition, a: Symbol)
    requires IsLalr(g, A, D, P, Q) && IsTransition(g, A, t)
    ensures t in D.R && (a in D.R[t] <==> ReadAfter(g, A, t, a))
  {
    if a in D.R[t] {
      var z :| z in P.nodes && Digraph.Reach(P, t, z) && a in P.init(z);
      var p :| Digraph.PathBetween(P, p, t, z);
      ReadPathsAgree(g, A, P, p);
      assert ReadsAt(g, A, P, z);
    }
    if ReadAfter(g, A, t, a) {
      var p: seq<Transition> :| ReadsPath(g, A, p) && p[0] == t && p[|p| - 1].state < |A.states| &&
        DirectlyReads(g, A, p[|p| - 1], a);
      ReadPathsAgree(g, A, P, p);
      assert Digraph.PathBetween(P, p, t, p[|p| - 1]);
      assert ReadsAt(g, A, P, p[|p| - 1]);
    }
  }

  lemma FollowPathsAgree(g: Cfg, A: Lr0, D: LalrData, P: Digraph.Problem, Q: Digraph.Problem, p: seq<Transition>)
    requires IsLalr(g, A, D, P, Q) && p != [] && IsTransition(g, A, p[0])
    ensures Digraph.IsPath(Q, p) <==> IncludesPath(g, A, false, p)
    ensures Digraph.IsPath(Q, p) ==> IsTransition(g, A, p[|p| - 1])
  {
    if Digraph.IsPath(Q, p) {
      forall i | 0 <= i < |p| ensures p[i] in Q.nodes {
        Digraph.PathStays(Q, p, i);
      }
      forall i | 0 <= i < |p| - 1 ensures Edge(g, A, false, p[i], p[i + 1]) {
        assert p[i + 1] in LookupSeq(D.inc, p[i]);
      }
    }
    if IncludesPath(g, A, false, p) {
      forall i | 0 <= i < |p| - 1 ensures p[i + 1] in Q.rel(p[i]) {
        assert i > 0 ==> Edge(g, A, false, p[i - 1], p[i - 1 + 1]);
        assert Edge(g, A, false, p[i], p[i + 1]) && p[i] in Q.nodes;
      }
    }
  }

  /** Follow(t) is what can be read along the found edges. */
  lemma FollowSetsMean(g: Cfg, A: Lr0, D: LalrData, P: Digraph.Problem, Q: Digraph.Problem, t: Transition, a: Symbol)
    requires IsLalr(g, A, D, P, Q) && IsTransition(g, A, t)
    ensures t in D.W && (a in D.W[t] <==> Follows(g, A, false, t, a))
  {
    assert t in Q.nodes;
    if a in D.W[t] {
      FollowHasPath(g, A, D, P, Q, t, a);
    }
    if Follows(g, A, false, t, a) {
      var p :| FollowPath(g, A, false, t, a, p);
      FollowPathsAgree(g, A, D, P, Q, p);
      assert Digraph.PathBetween(Q, p, t, p[|p| - 1]);
      Digraph.ReachStays(Q, t, p[|p| - 1]);
      ReadSetsMean(g, A, D, P, Q, p[|p| - 1], a);
    }
  }

  lemma FollowHasPath(g: Cfg, A: Lr0, D: LalrData, P: Digraph.Problem, Q: Digraph.Problem, t: Transition, a: Symbol)
    requires IsLalr(g, A, D, P, Q) && t in Q.nodes && a in D.W[t]
    ensures Follows(g, A, false, t, a)
  {
    var z :| z in Q.nodes && Digraph.Reach(Q, t, z) && a in Q.init(z);
    var p :| Digraph.PathBetween(Q, p, t, z);
    FollowPathsAgree(g, A, D, P, Q, p);
    ReadSetsMean(g, A, D, P, Q, z, a);
    assert FollowPath(g, A, false, t, a, p);
  }

  /** The lookaheads of an item are exactly what can be read along the found edges from the transitions
      that it looks back to. */
  lemma LookaheadsMean(g: Cfg, A: Lr0, D: LalrData, P: Digraph.Problem, Q: Digraph.Problem, e: (nat, Item), a: Symbol)
    requires IsLalr(g, A, D, P, Q)
    ensures e in D.sets && a in D.sets[e] <==> LooksAhead(g, A, e, a)
  {
    if e in D.sets && a in D.sets[e] {
      assert Supports(D.look, D.W, e, a);
      var t :| t in D.look && e in D.look[t] && a in Lookup(D.W, t);
      FollowSetsMean(g, A, D, P, Q, t, a);
    }
    if LooksAhead(g, A, e, a) {
      var t :| IsTransition(g, A, t) && LooksBack(g, A, t, e) && Follows(g, A, false, t, a);
      FollowSetsMean(g, A, D, P, Q, t, a);
      LookbackKnown(D, t, e);
    }
  }

  // ---- Agreement with DeRemer and Pennello ---------------------------------------------

  lemma IncludesSplit(g: Cfg, A: Lr0, y: Transition, t: Transition)
    ensures Includes(g, A, y, t) <==> ProperIncludes(g, A, y, t) || StrayIncludes(g, A, y, t)
  {
    if Includes(g, A, y, t) {
      var it :| ItemIncludes(g, A, t, it, y);
      assert it.dot == 0 || it.dot > 0;
    }
  }

  lemma FollowsOn(g: Cfg, A: Lr0, proper: bool, y: Transition, t: Transition, a: Symbol)
    requires Edge(g, A, proper, y, t) && Follows(g, A, proper, t, a)
    ensures Follows(g, A, proper, y, a)
  {
    var p :| FollowPath(g, A, proper, t, a, p);
    var p' := [y] + p;
    forall i | 0 <= i < |p'| - 1 ensures Edge(g, A, proper, p'[i], p'[i + 1]) {
      if i > 0 {
        assert Edge(g, A, proper, p[i - 1], p[i - 1 + 1]);
      }
    }
    assert FollowPath(g, A, proper, y, a, p');
  }

  /** Every stray edge leads to a transition whose proper Follow set already holds what it would add. */
  ghost predicate StraysHarmless(g: Cfg, A: Lr0) {
    forall y, t, a :: IsTransition(g, A, t) && StrayIncludes(g, A, y, t) && Follows(g, A, true, t, a) ==>
      Follows(g, A, true, y, a)
  }

  lemma {:induction false} ProperAlong(g: Cfg, A: Lr0, t: Transition, a: Symbol, p: seq<Transition>)
    requires StraysHarmless(g, A) && FollowPath(g, A, false, t, a, p)
    ensures Follows(g, A, true, t, a)
    decreases |p|
  {
    if |p| == 1 {
      assert FollowPath(g, A, true, t, a, [t]);
    } else {
      forall i | 0 <= i < |p[1..]| - 1 ensures Edge(g, A, false, p[1..][i], p[1..][i + 1]) {
        assert Edge(g, A, false, p[i + 1], p[i + 1 + 1]);
      }
      ProperAlong(g, A, p[1], a, p[1..]);
      assert Edge(g, A, false, p[0], p[0 + 1]);
      IncludesSplit(g, A, t, p[1]);
      if ProperIncludes(g, A, t, p[1]) {
        FollowsOn(g, A, true, t, p[1], a);
      }
    }
  }

  lemma ProperWithin(g: Cfg, A: Lr0, t: Transition, a: Symbol)
    requires Follows(g, A, true, t, a)
    ensures Follows(g, A, false, t, a)
  {
    var p :| FollowPath(g, A, true, t, a, p);
    forall i | 0 <= i < |p| - 1 ensures Edge(g, A, false, p[i], p[i + 1]) {
      assert Edge(g, A, true, p[i], p[i + 1]);
      IncludesSplit(g, A, p[i], p[i + 1]);
    }
    assert FollowPath(g, A, false, t, a, p);
  }

  /** The Follow sets are those of DeRemer and Pennello. */
  ghost predicate FollowSetsProper(g: Cfg, A: Lr0, D: LalrData) {
    forall t, a :: IsTransition(g, A, t) ==> t in D.W && (a in D.W[t] <==> Follows(g, A, true, t, a))
  }

  /** The Follow sets contain theirs, whatever the stray edges do. */
  lemma ProperFollowWithin(g: Cfg, A: Lr0, D: LalrData, P: Digraph.Problem, Q: Digraph.Problem, t: Transition, a: Symbol)
    requires IsLalr(g, A, D, P, Q) && IsTransition(g, A, t) && Follows(g, A, true, t, a)
    ensures t in D.W && a in D.W[t]
  {
    ProperWithin(g, A, t, a);
    FollowSetsMean(g, A, D, P, Q, t, a);
  }

  lemma HarmlessFollow(g: Cfg, A: Lr0, D: LalrData, P: Digraph.Problem, Q: Digraph.Problem, t: Transition, a: Symbol)
    requires IsLalr(g, A, D, P, Q) && StraysHarmless(g, A) && IsTransition(g, A, t)
    ensures t in D.W && (a in D.W[t] <==> Follows(g, A, true, t, a))
  {
    FollowSetsMean(g, A, D, P, Q, t, a);
    if Follows(g, A, true, t, a) {
      ProperWithin(g, A, t, a);
    }
    if Follows(g, A, false, t, a) {
      var p :| FollowPath(g, A, false, t, a, p);
      ProperAlong(g, A, t, a, p);
    }
  }

  lemma StrayAdds(g: Cfg, A: Lr0, D: LalrData, P: Digraph.Problem, Q: Digraph.Problem, y: Transition, t: Transition,
          a: Symbol)
    requires IsLalr(g, A, D, P, Q) && IsTransition(g, A, t) && StrayIncludes(g, A, y, t) && Follows(g, A, true, t, a)
    ensures IsTransition(g, A, y) && y in D.W && a in D.W[y]
  {
    IncludesSplit(g, A, y, t);
    IncludesKinds(g, A, y, t);
    ProperFollowWithin(g, A, D, P, Q, t, a);
    IncludesFollow(g, A, D, P, Q, y, t);
  }

  /** They equal theirs exactly when no stray edge adds anything. */
  lemma FollowSetsProperExactly(g: Cfg, A: Lr0, D: LalrData, P: Digraph.Problem, Q: Digraph.Problem)
    requires IsLalr(g, A, D, P, Q)
    ensures FollowSetsProper(g, A, D) <==> StraysHarmless(g, A)
  {
    if StraysHarmless(g, A) {
      forall t, a | IsTransition(g, A, t) ensures t in D.W && (a in D.W[t] <==> Follows(g, A, true, t, a)) {
        HarmlessFollow(g, A, D, P, Q, t, a);
      }
    }
    if FollowSetsProper(g, A, D) {
      forall y, t, a | IsTransition(g, A, t) && StrayIncludes(g, A, y, t) && Follows(g, A, true, t, a)
        ensures Follows(g, A, true, y, a)
      {
        StrayAdds(g, A, D, P, Q, y, t, a);
      }
    }
  }

  /** No rule contains the symbol '.', which the comparison takes for the dot. */
  ghost predicate NoPeriod(g: Cfg) {
    forall p, k :: 0 <= p < |g.productions| && 0 <= k < |g.productions[p].rhs| ==> g.productions[p].rhs[k] != DOT
  }

  /** A finished item can only match a moved one if its rule has a '.' where the other has its dot. */
  lemma MatchedDot(g: Cfg, r: Item, it: Item)
    requires Complete(g, r) && Matches(g, r, it) && it.dot > 0
    ensures g.productions[r.prod].rhs[it.dot - 1] == DOT
  {
    assert WithDot(g, r)[it.dot - 1] == WithDot(g, it)[it.dot];
  }

  lemma MatchesFinished(g: Cfg, r: Item, it: Item)
    requires NoPeriod(g) && Complete(g, r) && Matches(g, r, it)
    ensures it.dot == 0 && g.productions[r.prod].rhs == g.productions[it.prod].rhs
  {
    var u, v := g.productions[r.prod].rhs, g.productions[it.prod].rhs;
    if it.dot > 0 {
      MatchedDot(g, r, it);
    }
    forall i | 0 <= i < |u| ensures u[i] == v[i] {
      assert WithDot(g, r)[i] == WithDot(g, it)[i + 1];
    }
  }

  /** For finished items the lookback relation is the proper one, unless a rule contains '.'. */
  lemma LookbackProper(g: Cfg, A: Lr0, t: Transition, e: (nat, Item))
    requires IsAutomaton(g, A) && NoPeriod(g) && Complete(g, e.1)
    ensures LooksBack(g, A, t, e) <==> ProperLooksBack(g, A, t, e)
  {
    if LooksBack(g, A, t, e) {
      var it :| ItemLooksBack(g, A, t, it, e);
      MatchesFinished(g, e.1, it);
      RuleExpected(g, A, t.state, it.prod);
      var x :| x in A.states[t.state].items && DotBefore(g, x, t.symbol);
      ExpectedRule(g, A, t.state, x, e.1.prod);
      assert g.productions[it.prod].rhs[0..] == g.productions[it.prod].rhs;
    }
    if ProperLooksBack(g, A, t, e) {
      RuleLooksBack(g, A, t.state, e.1.prod);
      assert t == Arc(t.state, t.symbol);
    }
  }

  /** When no stray edge adds anything, the lookaheads of the finished items are those of DeRemer and
      Pennello; every one of theirs is there in any case. */
  lemma LookaheadsProper(g: Cfg, A: Lr0, D: LalrData, P: Digraph.Problem, Q: Digraph.Problem, e: (nat, Item), a: Symbol)
    requires IsLalr(g, A, D, P, Q) && NoPeriod(g) && Complete(g, e.1)
    ensures ProperLooksAhead(g, A, e, a) ==> e in D.sets && a in D.sets[e]
    ensures StraysHarmless(g, A) ==> (e in D.sets && a in D.sets[e] <==> ProperLooksAhead(g, A, e, a))
  {
    LookaheadsMean(g, A, D, P, Q, e, a);
    forall t | IsTransition(g, A, t)
      ensures LooksBack(g, A, t, e) <==> ProperLooksBack(g, A, t, e)
      ensures Follows(g, A, true, t, a) ==> Follows(g, A, false, t, a)
      ensures StraysHarmless(g, A) ==> (Follows(g, A, false, t, a) <==> Follows(g, A, true, t, a))
    {
      LookbackProper(g, A, t, e);
      FollowSetsMean(g, A, D, P, Q, t, a);
      if Follows(g, A, true, t, a) {
        ProperWithin(g, A, t, a);
      }
      if StraysHarmless(g, A) {
        HarmlessFollow(g, A, D, P, Q, t, a);
      }
    }
  }
}
