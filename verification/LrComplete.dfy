/** Completeness of the generated parser: when no two actions compete and the lookahead sets are
    adequate, the engine accepts every sentence with its parse tree. Together with LrEngine this
    makes the accepted inputs exactly the language, and the grammar unambiguous. */
module LrComplete {
  import opened Cfg
  import opened LrAutomaton
  import opened ParseTable
  import opened ParseTrees
  import opened LrEngine
  import Digraph

  type Transition = Digraph.Transition
  type TransMap = map<Transition, set<Symbol>>

  function Arc(q: nat, x: Symbol): Transition {
    Digraph.Transition(q, x)
  }

  // ---- Walking the automaton -----------------------------------------------------------

  /** Some item of state q has its dot before x. */
  ghost predicate Expects(g: Cfg, A: Lr0, q: nat, x: Symbol) {
    q < |A.states| && exists it :: it in A.states[q].items && DotBefore(g, it, x)
  }

  lemma ExpectsGoto(g: Cfg, A: Lr0, q: nat, x: Symbol)
    requires IsAutomaton(g, A) && Expects(g, A, q, x)
    ensures 0 < GotoState(g, A, q, x) < |A.states|
    ensures forall p: nat, d: nat :: Has(A, q, p, d) && DotBefore(g, Item(p, d), x) ==>
      Has(A, GotoState(g, A, q, x), p, d + 1)
  {
    var it :| it in A.states[q].items && DotBefore(g, it, x);
    GotoForward(g, A, q, it, x);
    forall p: nat, d: nat | Has(A, q, p, d) && DotBefore(g, Item(p, d), x)
      ensures Has(A, GotoState(g, A, q, x), p, d + 1) {
      GotoForward(g, A, q, Item(p, d), x);
    }
  }

  /** The state reached from q over the symbols xs, or -1. */
  function Walk(g: Cfg, A: Lr0, q: nat, xs: seq<Symbol>): int
    requires q < |A.states|
  {
    if xs == [] then q
    else
      var r := Walk(g, A, q, xs[..|xs| - 1]);
      if 0 <= r < |A.states| then GotoState(g, A, r, xs[|xs| - 1]) else -1
  }

  /** A rule present in q can be walked through to any position. */
  lemma {:induction false} WalkRule(g: Cfg, A: Lr0, q: nat, p: nat, k: nat)
    requires IsAutomaton(g, A) && Has(A, q, p, 0) && p < |g.productions| && k <= |g.productions[p].rhs|
    ensures 0 <= Walk(g, A, q, g.productions[p].rhs[..k]) < |A.states|
    ensures Has(A, Walk(g, A, q, g.productions[p].rhs[..k]), p, k)
    ensures k < |g.productions[p].rhs| ==>
      Expects(g, A, Walk(g, A, q, g.productions[p].rhs[..k]), g.productions[p].rhs[k])
  {
    var rhs := g.productions[p].rhs;
    if k > 0 {
      WalkRule(g, A, q, p, k - 1);
      assert rhs[..k][..k - 1] == rhs[..k - 1];
      var r := Walk(g, A, q, rhs[..k - 1]);
      assert DotBefore(g, Item(p, k - 1), rhs[k - 1]);
      GotoForward(g, A, r, Item(p, k - 1), rhs[k - 1]);
    }
    if k < |rhs| {
      assert DotBefore(g, Item(p, k), rhs[k]);
    }
  }

  // ---- Adequate lookahead sets ---------------------------------------------------------

  /** What the Read and Follow sets of nonterminal transitions and the reduce lookaheads have to
      contain. Both SLR and LALR generation provide it. */
  ghost predicate Adequate(g: Cfg, A: Lr0, L: Lookaheads, R: TransMap, W: TransMap) {
    && L.Defined(g, A)
    && (forall q: nat, x: Symbol :: x.Nonterminal? && Expects(g, A, q, x) ==> ReadAdequate(g, A, R, W, q, x))
    && (forall q: nat, p: nat :: Has(A, q, p, 0) && 0 < p < |g.productions| ==> FollowAdequate(g, A, L, W, q, p))
  }

  /** Read(q, x) has the terminals and nullable detours readable after x; Follow includes Read. */
  ghost predicate ReadAdequate(g: Cfg, A: Lr0, R: TransMap, W: TransMap, q: nat, x: Symbol)
    requires q < |A.states|
  {
    var r := GotoState(g, A, q, x);
    && Arc(q, x) in R && Arc(q, x) in W
    && R[Arc(q, x)] <= W[Arc(q, x)]
    && (forall t: Symbol :: r >= 0 && t.Terminal? && Expects(g, A, r, t) ==> t in R[Arc(q, x)])
    && (forall c: Symbol :: r >= 0 && c.Nonterminal? && Expects(g, A, r, c) && Vanishes(g, [c]) && Arc(r, c) in R ==>
      R[Arc(r, c)] <= R[Arc(q, x)])
    && (q == 0 && g.Valid() && x == g.Start() ==> EndMarker in R[Arc(q, x)])
  }

  /** Follow of a rule's head reaches every symbol whose remaining rule text vanishes, and the
      lookahead of the finished rule. */
  ghost predicate FollowAdequate(g: Cfg, A: Lr0, L: Lookaheads, W: TransMap, q: nat, p: nat)
    requires q < |A.states| && p < |g.productions|
  {
    var h, rhs := g.productions[p].name, g.productions[p].rhs;
    && Arc(q, h) in W
    && (forall k :: 0 <= k < |rhs| && rhs[k].Nonterminal? && Vanishes(g, rhs[k + 1..]) ==>
         var r := Walk(g, A, q, rhs[..k]);
         r >= 0 && Arc(r, rhs[k]) in W ==> W[Arc(q, h)] <= W[Arc(r, rhs[k])])
    && (var j := Walk(g, A, q, rhs);
        j >= 0 && L.Known(g, j, p) ==> W[Arc(q, h)] <= L.Of(g, j, p))
  }

  // ---- What can be read in a state -----------------------------------------------------

  /** The terminal b can be read from state r, directly or after a nullable nonterminal. */
  ghost predicate Readable(g: Cfg, A: Lr0, R: TransMap, r: nat, b: Symbol) {
    || (b.Terminal? && Expects(g, A, r, b))
    || (exists c: Symbol :: c.Nonterminal? && Expects(g, A, r, c) && Vanishes(g, [c]) && Arc(r, c) in R && b in R[Arc(r, c)])
  }

  lemma ReadableAfter(g: Cfg, A: Lr0, L: Lookaheads, R: TransMap, W: TransMap, q: nat, x: Symbol, b: Symbol)
    requires IsAutomaton(g, A) && Adequate(g, A, L, R, W) && x.Nonterminal? && Expects(g, A, q, x)
    requires GotoState(g, A, q, x) >= 0 && Readable(g, A, R, GotoState(g, A, q, x), b)
    ensures Arc(q, x) in R && b in R[Arc(q, x)]
  {
    assert ReadAdequate(g, A, R, W, q, x);
  }

  /** If a tree expected in state r begins with b, then b is readable in r. */
  lemma {:induction false} TreeReadable(g: Cfg, A: Lr0, L: Lookaheads, R: TransMap, W: TransMap, r: nat, t: Tree)
    requires IsAutomaton(g, A) && Adequate(g, A, L, R, W)
    requires ValidTree(g, t) && Expects(g, A, r, Root(g, t)) && Yield(t) != []
    ensures Readable(g, A, R, r, Yield(t)[0])
    decreases t, 1
  {
    match t
    case Leaf(_) =>
    case Node(p, cs) =>
      ExpectedPresent(g, A, r, p);
      TreesReadable(g, A, L, R, W, r, p, 0, cs);
  }

  lemma ExpectedPresent(g: Cfg, A: Lr0, r: nat, p: nat)
    requires IsAutomaton(g, A) && 1 <= p < |g.productions| && Expects(g, A, r, g.productions[p].name)
    ensures Has(A, r, p, 0)
  {
    var it :| it in A.states[r].items && DotBefore(g, it, g.productions[p].name);
    ExpectedRule(g, A, r, it, p);
  }

  /** The same for the children that are left of a rule whose dot is at position k. */
  lemma {:induction false} TreesReadable(g: Cfg, A: Lr0, L: Lookaheads, R: TransMap, W: TransMap, r: nat,
          p: nat, k: nat, ts: seq<Tree>)
    requires IsAutomaton(g, A) && Adequate(g, A, L, R, W)
    requires Has(A, r, p, k) && p < |g.productions| && k <= |g.productions[p].rhs|
    requires ValidTrees(g, ts) && Roots(g, ts) == g.productions[p].rhs[k..] && YieldAll(ts) != []
    ensures Readable(g, A, R, r, YieldAll(ts)[0])
    decreases ts, 0
  {
    var x := g.productions[p].rhs[k];
    assert Roots(g, ts)[0] == x;
    assert DotBefore(g, Item(p, k), x) && Expects(g, A, r, x);
    if Yield(ts[0]) != [] {
      TreeReadable(g, A, L, R, W, r, ts[0]);
    } else {
      ExpectsGoto(g, A, r, x);
      var r' := GotoState(g, A, r, x);
      assert Roots(g, ts[1..]) == Roots(g, ts)[1..];
      TreesReadable(g, A, L, R, W, r', p, k + 1, ts[1..]);
      TreeDerives(g, ts[0]);
      assert x.Nonterminal? by {
        RuleSymbolKinds(g, p, k);
        EmptyYieldIsNode(g, ts[0]);
      }
      ReadableAfter(g, A, L, R, W, r, x, YieldAll(ts)[0]);
    }
  }

  lemma RuleSymbolKinds(g: Cfg, p: nat, k: nat)
    requires g.Valid() && p < |g.productions| && k < |g.productions[p].rhs|
    ensures g.productions[p].rhs[k].Terminal? || g.productions[p].rhs[k].Nonterminal?
  {
    assert g.RuleSymbol(g.productions[p].rhs[k]);
  }

  lemma EmptyYieldIsNode(g: Cfg, t: Tree)
    requires g.Valid() && ValidTree(g, t) && Yield(t) == []
    ensures Root(g, t).Nonterminal?
  {
    assert t.Node? && g.productions[t.prod].name in g.nonterminals;
  }

  // ---- Driving the engine over a tree --------------------------------------------------

  /** From c the engine gets to c' in some number of steps. */
  ghost predicate Leads(g: Cfg, T: Tables, c: Config, c': Config) {
    exists n: nat :: Run(g, T, c, n) == Running(c')
  }

  lemma LeadsStep(g: Cfg, T: Tables, c: Config, c': Config)
    requires EngineStep(g, T, c) == Running(c')
    ensures Leads(g, T, c, c')
  {
    assert Run(g, T, c, 0) == Running(c);
    assert Run(g, T, c, 1) == Running(c');
  }

  lemma {:induction false} RunFrom(g: Cfg, T: Tables, a: Config, b: Config, m: nat, n: nat)
    requires Run(g, T, a, m) == Running(b)
    ensures Run(g, T, a, m + n) == Run(g, T, b, n)
    decreases n
  {
    if n > 0 {
      RunFrom(g, T, a, b, m, n - 1);
    }
  }

  lemma LeadsTrans(g: Cfg, T: Tables, a: Config, b: Config, c: Config)
    requires Leads(g, T, a, b) && Leads(g, T, b, c)
    ensures Leads(g, T, a, c)
  {
    var m: nat :| Run(g, T, a, m) == Running(b);
    var n: nat :| Run(g, T, b, n) == Running(c);
    RunFrom(g, T, a, b, m, n);
  }

  /** An unopposed offer is what the engine does. */
  lemma OfferTaken(g: Cfg, A: Lr0, L: Lookaheads, T: Tables, q: nat, it: Item, a: Symbol, act: Action)
    requires TablesOk(g, A, L, T) && ConflictFree(g, A, L)
    requires q < |A.states| && it in A.states[q].items && Offers(g, A, L, q, it, a, act)
    ensures a in T.action[q] && T.action[q][a] == act
  {
    assert RowsOk(g, A, L, T, q);
    assert Candidate(g, A, L, q, a, act);
    assert !Conflict(g, A, L, q, a);
    UncontestedEntry(g, A, L, q, T.action[q], a, act);
  }

  /** The tables, the automaton and the lookahead sets belong together and nothing competes. */
  ghost predicate Setup(g: Cfg, A: Lr0, L: Lookaheads, T: Tables, R: TransMap, W: TransMap) {
    IsAutomaton(g, A) && TablesOk(g, A, L, T) && ConflictFree(g, A, L) && Adequate(g, A, L, R, W)
  }

  /** The states stacked when the symbols xs are pushed on top of state q. */
  ghost function States(g: Cfg, A: Lr0, q: nat, xs: seq<Symbol>): seq<nat>
    requires q < |A.states|
    decreases |xs|
  {
    if xs == [] then []
    else
      var s := GotoState(g, A, q, xs[0]);
      if 0 <= s < |A.states| then [s] + States(g, A, s, xs[1..]) else []
  }

  /** c with more entries stacked and other tokens unread. */
  ghost function After(c: Config, states: seq<nat>, trees: seq<Tree>, rest: seq<Symbol>): Config {
    Config(c.states + states, c.symbols + trees, rest)
  }

  ghost predicate OnTop(A: Lr0, c: Config, q: nat) {
    |c.states| == |c.symbols| > 0 && TopState(c) == q < |A.states|
  }

  /** The lookahead lies in Follow of the transition to be completed. */
  ghost predicate Admissible(W: TransMap, q: nat, x: Symbol, a: Symbol) {
    x.Nonterminal? ==> Arc(q, x) in W && a in W[Arc(q, x)]
  }

  lemma ShiftLeads(g: Cfg, A: Lr0, L: Lookaheads, T: Tables, R: TransMap, W: TransMap, c: Config, q: nat,
          a: Symbol, rest: seq<Symbol>)
    requires Setup(g, A, L, T, R, W) && OnTop(A, c, q) && a.Terminal? && Expects(g, A, q, a) && c.rest == [a] + rest
    ensures GotoState(g, A, q, a) >= 0
    ensures Leads(g, T, c, After(c, [GotoState(g, A, q, a)], [Leaf(a)], rest))
  {
    var it :| it in A.states[q].items && DotBefore(g, it, a);
    ExpectsGoto(g, A, q, a);
    OfferTaken(g, A, L, T, q, it, a, Shift(GotoState(g, A, q, a)));
    assert c.rest[1..] == rest;
    LeadsStep(g, T, c, After(c, [GotoState(g, A, q, a)], [Leaf(a)], rest));
  }

  /** The engine consumes a tree's yield and leaves the tree on the stack. */
  lemma {:induction false} DriveTree(g: Cfg, A: Lr0, L: Lookaheads, T: Tables, R: TransMap, W: TransMap,
          c: Config, q: nat, t: Tree, rest: seq<Symbol>)
    requires Setup(g, A, L, T, R, W) && OnTop(A, c, q)
    requires ValidTree(g, t) && Expects(g, A, q, Root(g, t)) && c.rest == Yield(t) + rest
    requires Admissible(W, q, Root(g, t), Lookahead(rest))
    ensures GotoState(g, A, q, Root(g, t)) >= 0
    ensures Leads(g, T, c, After(c, [GotoState(g, A, q, Root(g, t))], [t], rest))
    decreases t, 1
  {
    match t
    case Leaf(a) => ShiftLeads(g, A, L, T, R, W, c, q, a, rest);
    case Node(p, cs) =>
      ExpectedPresent(g, A, q, p);
      ExpectsGoto(g, A, q, Root(g, t));
      assert g.productions[p].rhs[0..] == g.productions[p].rhs;
      assert g.productions[p].rhs[..0] == [];
      DriveTrees(g, A, L, T, R, W, c, q, q, p, 0, cs, rest);
      var c' := After(c, States(g, A, q, g.productions[p].rhs), cs, rest);
      ReduceLeads(g, A, L, T, R, W, c, q, p, cs, rest);
      LeadsTrans(g, T, c, c', After(c, [GotoState(g, A, q, Root(g, t))], [t], rest));
  }

  /** The remaining children of a rule begun in state q, with the dot at position k in state r. */
  lemma {:induction false} DriveTrees(g: Cfg, A: Lr0, L: Lookaheads, T: Tables, R: TransMap, W: TransMap,
          c: Config, q: nat, r: nat, p: nat, k: nat, ts: seq<Tree>, rest: seq<Symbol>)
    requires Setup(g, A, L, T, R, W) && OnTop(A, c, r)
    requires 1 <= p < |g.productions| && Has(A, q, p, 0) && k <= |g.productions[p].rhs|
    requires Walk(g, A, q, g.productions[p].rhs[..k]) == r
    requires ValidTrees(g, ts) && Roots(g, ts) == g.productions[p].rhs[k..] && c.rest == YieldAll(ts) + rest
    requires Admissible(W, q, g.productions[p].name, Lookahead(rest))
    ensures Leads(g, T, c, After(c, States(g, A, r, g.productions[p].rhs[k..]), ts, rest))
    decreases ts, 0
  {
    var rhs := g.productions[p].rhs;
    if ts == [] {
      NoChildren(g, A, T, c, r, rest);
    } else {
      var x := rhs[k];
      assert Roots(g, ts)[0] == x && Root(g, ts[0]) == x;
      WalkRule(g, A, q, p, k);
      ChildAdmissible(g, A, L, T, R, W, q, r, p, k, ts, rest);
      YieldSplit(ts, rest);
      DriveTree(g, A, L, T, R, W, c, r, ts[0], YieldAll(ts[1..]) + rest);
      NextChild(g, A, q, r, p, k);
      var s := GotoState(g, A, r, x);
      var c1 := After(c, [s], [ts[0]], YieldAll(ts[1..]) + rest);
      assert Roots(g, ts[1..]) == Roots(g, ts)[1..];
      DriveTrees(g, A, L, T, R, W, c1, q, s, p, k + 1, ts[1..], rest);
      Regroup(g, A, T, c, r, s, rhs[k..], ts, rest);
    }
  }

  lemma YieldSplit(ts: seq<Tree>, rest: seq<Symbol>)
    requires ts != []
    ensures YieldAll(ts) + rest == Yield(ts[0]) + (YieldAll(ts[1..]) + rest)
  {
  }

  lemma NextChild(g: Cfg, A: Lr0, q: nat, r: nat, p: nat, k: nat)
    requires IsAutomaton(g, A) && 1 <= p < |g.productions| && Has(A, q, p, 0) && k < |g.productions[p].rhs|
    requires Walk(g, A, q, g.productions[p].rhs[..k]) == r
    ensures r < |A.states| && 0 < GotoState(g, A, r, g.productions[p].rhs[k]) < |A.states|
    ensures Walk(g, A, q, g.productions[p].rhs[..k + 1]) == GotoState(g, A, r, g.productions[p].rhs[k])
    ensures g.productions[p].rhs[k..][1..] == g.productions[p].rhs[k + 1..]
  {
    WalkRule(g, A, q, p, k);
    ExpectsGoto(g, A, r, g.productions[p].rhs[k]);
    assert g.productions[p].rhs[..k + 1][..k] == g.productions[p].rhs[..k];
  }

  lemma NoChildren(g: Cfg, A: Lr0, T: Tables, c: Config, r: nat, rest: seq<Symbol>)
    requires r < |A.states| && c.rest == [] + rest
    ensures Leads(g, T, c, After(c, States(g, A, r, []), [], rest))
  {
    assert c.states + [] == c.states && c.symbols + [] == c.symbols && [] + rest == rest;
    assert Run(g, T, c, 0) == Running(c);
  }

  lemma HeadOver<T>(a: seq<T>, b: seq<T>)
    requires b != []
    ensures a + [b[0]] + b[1..] == a + b
  {
    assert b == [b[0]] + b[1..];
  }

  /** Getting past the first child and then past the others gets past them all. */
  lemma Regroup(g: Cfg, A: Lr0, T: Tables, c: Config, r: nat, s: nat, xs: seq<Symbol>, ts: seq<Tree>, rest: seq<Symbol>)
    requires r < |A.states| && s < |A.states| && xs != [] && ts != [] && GotoState(g, A, r, xs[0]) == s
    requires var c1 := After(c, [s], [ts[0]], YieldAll(ts[1..]) + rest);
      Leads(g, T, c, c1) && Leads(g, T, c1, After(c1, States(g, A, s, xs[1..]), ts[1..], rest))
    ensures Leads(g, T, c, After(c, States(g, A, r, xs), ts, rest))
  {
    var c1 := After(c, [s], [ts[0]], YieldAll(ts[1..]) + rest);
    var all := States(g, A, r, xs);
    assert all == [s] + States(g, A, s, xs[1..]);
    HeadOver(c.states, all);
    assert all[1..] == States(g, A, s, xs[1..]);
    HeadOver(c.symbols, ts);
    LeadsTrans(g, T, c, c1, After(c1, States(g, A, s, xs[1..]), ts[1..], rest));
  }

  /** What comes after a child is in Follow of its transition. */
  lemma ChildAdmissible(g: Cfg, A: Lr0, L: Lookaheads, T: Tables, R: TransMap, W: TransMap, q: nat, r: nat,
          p: nat, k: nat, ts: seq<Tree>, rest: seq<Symbol>)
    requires Setup(g, A, L, T, R, W) && 1 <= p < |g.productions| && Has(A, q, p, 0)
    requires k < |g.productions[p].rhs| && Walk(g, A, q, g.productions[p].rhs[..k]) == r
    requires ts != [] && ValidTrees(g, ts) && Roots(g, ts) == g.productions[p].rhs[k..]
    requires Admissible(W, q, g.productions[p].name, Lookahead(rest))
    ensures Admissible(W, r, g.productions[p].rhs[k], Lookahead(YieldAll(ts[1..]) + rest))
  {
    var rhs := g.productions[p].rhs;
    var x := rhs[k];
    if x.Nonterminal? {
      WalkRule(g, A, q, p, k);
      assert ReadAdequate(g, A, R, W, r, x);
      assert Roots(g, ts[1..]) == rhs[k + 1..] by {
        assert Roots(g, ts[1..]) == Roots(g, ts)[1..] == rhs[k..][1..];
      }
      var y := YieldAll(ts[1..]);
      if y == [] {
        TreesDerive(g, ts[1..]);
        assert FollowAdequate(g, A, L, W, q, p);
        assert g.productions[p].name in g.nonterminals;
        assert y + rest == rest;
      } else {
        ExpectsGoto(g, A, r, x);
        assert DotBefore(g, Item(p, k), x);
        TreesReadable(g, A, L, R, W, GotoState(g, A, r, x), p, k + 1, ts[1..]);
        ReadableAfter(g, A, L, R, W, r, x, y[0]);
      }
    }
  }

  lemma {:induction false} StatesLength(g: Cfg, A: Lr0, q: nat, p: nat, k: nat, r: nat)
    requires IsAutomaton(g, A) && 1 <= p < |g.productions| && Has(A, q, p, 0) && k <= |g.productions[p].rhs|
    requires Walk(g, A, q, g.productions[p].rhs[..k]) == r
    ensures |States(g, A, r, g.productions[p].rhs[k..])| == |g.productions[p].rhs| - k
    ensures Walk(g, A, q, g.productions[p].rhs) ==
      if k == |g.productions[p].rhs| then r
        else States(g, A, r, g.productions[p].rhs[k..])[|g.productions[p].rhs| - k - 1]
    decreases |g.productions[p].rhs| - k
  {
    var rhs := g.productions[p].rhs;
    if k < |rhs| {
      NextChild(g, A, q, r, p, k);
      StatesLength(g, A, q, p, k + 1, GotoState(g, A, r, rhs[k]));
    } else {
      assert rhs[..k] == rhs;
    }
  }

  /** With a whole right-hand side on the stack and an admissible lookahead, the engine reduces. */
  lemma ReduceLeads(g: Cfg, A: Lr0, L: Lookaheads, T: Tables, R: TransMap, W: TransMap, c: Config, q: nat,
          p: nat, cs: seq<Tree>, rest: seq<Symbol>)
    requires Setup(g, A, L, T, R, W) && OnTop(A, c, q)
    requires 1 <= p < |g.productions| && Has(A, q, p, 0) && |cs| == |g.productions[p].rhs|
    requires Expects(g, A, q, g.productions[p].name)
    requires Admissible(W, q, g.productions[p].name, Lookahead(rest))
    ensures GotoState(g, A, q, g.productions[p].name) >= 0
    ensures Leads(g, T, After(c, States(g, A, q, g.productions[p].rhs), cs, rest),
                        After(c, [GotoState(g, A, q, g.productions[p].name)], [Node(p, cs)], rest))
  {
    var h, rhs := g.productions[p].name, g.productions[p].rhs;
    assert h in g.nonterminals;
    ExpectsGoto(g, A, q, h);
    assert rhs[..0] == [] && rhs[0..] == rhs;
    StatesLength(g, A, q, p, 0, q);
    WalkRule(g, A, q, p, |rhs|);
    assert rhs[..|rhs|] == rhs;
    var j := Walk(g, A, q, rhs);
    assert FollowAdequate(g, A, L, W, q, p);
    OfferTaken(g, A, L, T, j, Item(p, |rhs|), Lookahead(rest), Reduce(p));
    assert RowsOk(g, A, L, T, q);
    PopAndPush(g, T, c, q, j, States(g, A, q, rhs), p, cs, rest);
  }

  /** The engine's reduce step on a stack that ends with the children of rule p. */
  lemma PopAndPush(g: Cfg, T: Tables, c: Config, q: nat, j: nat, states: seq<nat>, p: nat, cs: seq<Tree>,
          rest: seq<Symbol>)
    requires |c.states| == |c.symbols| > 0 && TopState(c) == q < |T.goto| == |T.action| && j < |T.action|
    requires p < |g.productions| && |states| == |cs| == |g.productions[p].rhs|
    requires j == if states == [] then q else states[|states| - 1]
    requires Lookahead(rest) in T.action[j] && T.action[j][Lookahead(rest)] == Reduce(p)
             && g.productions[p].name in T.goto[q]
    ensures Leads(g, T, After(c, states, cs, rest), After(c, [T.goto[q][g.productions[p].name]], [Node(p, cs)], rest))
  {
    var c', n := After(c, states, cs, rest), |cs|;
    assert c'.states[..|c'.states| - n] == c.states && c'.symbols[..|c'.symbols| - n] == c.symbols &&
      c'.symbols[|c'.symbols| - n..] == cs;
    assert TopState(c') == j;
    LeadsStep(g, T, c', After(c, [T.goto[q][g.productions[p].name]], [Node(p, cs)], rest));
  }

  // ---- The theorems --------------------------------------------------------------------

  /** Every parse tree of the start symbol is what the engine returns for its yield. */
  lemma AcceptsTree(g: Cfg, A: Lr0, L: Lookaheads, T: Tables, R: TransMap, W: TransMap, t: Tree) returns (n: nat)
    requires Setup(g, A, L, T, R, W) && ValidTree(g, t) && Root(g, t) == g.Start()
    ensures Run(g, T, Initial(Yield(t)), n) == Accepted(t)
  {
    var c, s := Initial(Yield(t)), g.Start();
    StartExpected(g, A);
    assert ReadAdequate(g, A, R, W, 0, s);
    assert Yield(t) + [] == Yield(t);
    DriveTree(g, A, L, T, R, W, c, 0, t, []);
    var j := GotoState(g, A, 0, s);
    var c' := After(c, [j], [t], []);
    AcceptStep(g, A, L, T, c', j, t);
    n := LeadsTo(g, T, c, c', Accepted(t));
  }

  lemma LeadsTo(g: Cfg, T: Tables, c: Config, c': Config, o: Outcome) returns (n: nat)
    requires Leads(g, T, c, c') && EngineStep(g, T, c') == o
    ensures Run(g, T, c, n) == o
  {
    var m: nat :| Run(g, T, c, m) == Running(c');
    n := m + 1;
  }

  lemma AcceptStep(g: Cfg, A: Lr0, L: Lookaheads, T: Tables, c: Config, j: nat, t: Tree)
    requires g.Valid() && TablesOk(g, A, L, T) && ConflictFree(g, A, L) && OnTop(A, c, j) && c.rest == []
             && c.symbols[|c.symbols| - 1] == t
    requires Item(0, 1) in A.states[j].items
    ensures EngineStep(g, T, c) == Accepted(t)
  {
    OfferTaken(g, A, L, T, j, Item(0, 1), EndMarker, Accept);
  }

  lemma StartExpected(g: Cfg, A: Lr0)
    requires IsAutomaton(g, A)
    ensures Expects(g, A, 0, g.Start()) && 0 < GotoState(g, A, 0, g.Start()) < |A.states|
    ensures Item(0, 1) in A.states[GotoState(g, A, 0, g.Start())].items
  {
    StartItemOnlyAtStart(g, A, 0);
    assert DotBefore(g, Item(0, 0), g.Start());
    GotoForward(g, A, 0, Item(0, 0), g.Start());
  }

  /** Completeness: every sentence is accepted. */
  lemma AcceptsEverySentence(g: Cfg, A: Lr0, L: Lookaheads, T: Tables, R: TransMap, W: TransMap, tokens: seq<Symbol>)
    requires Setup(g, A, L, T, R, W) && AllTerminal(tokens) && Derives(g, [g.Start()], tokens)
    ensures Accepts(g, T, tokens)
  {
    SentencesHaveTrees(g, tokens);
    var t :| ValidTree(g, t) && Root(g, t) == g.Start() && Yield(t) == tokens;
    var n := AcceptsTree(g, A, L, T, R, W, t);
  }

  /** The parser generated without conflicts accepts exactly the language of the grammar. */
  lemma AcceptsExactlyTheLanguage(g: Cfg, A: Lr0, L: Lookaheads, T: Tables, R: TransMap, W: TransMap,
          tokens: seq<Symbol>)
    requires Setup(g, A, L, T, R, W) && AllTerminal(tokens)
    ensures Accepts(g, T, tokens) <==> Derives(g, [g.Start()], tokens)
  {
    if Derives(g, [g.Start()], tokens) {
      AcceptsEverySentence(g, A, L, T, R, W, tokens);
    }
    if Accepts(g, T, tokens) {
      var n :| Run(g, T, Initial(tokens), n).Accepted?;
      AcceptsOnlySentences(g, A, L, T, tokens, n);
    }
  }

  /** A grammar whose tables have no conflicts is unambiguous. */
  lemma ConflictFreeIsUnambiguous(g: Cfg, A: Lr0, L: Lookaheads, T: Tables, R: TransMap, W: TransMap, t: Tree, u: Tree)
    requires Setup(g, A, L, T, R, W)
    requires ValidTree(g, t) && ValidTree(g, u) && Root(g, t) == Root(g, u) == g.Start() && Yield(t) == Yield(u)
    ensures t == u
  {
    var m := AcceptsTree(g, A, L, T, R, W, t);
    var n := AcceptsTree(g, A, L, T, R, W, u);
    var k := if m < n then n else m;
    StaysStopped(g, T, Initial(Yield(t)), m, k);
    StaysStopped(g, T, Initial(Yield(t)), n, k);
  }
}
