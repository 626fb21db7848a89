/** The LALR(1) lookaheads of DeRemer and Pennello, said without their relations: a symbol is a lookahead
    of a finished rule in a state if and only if it can begin what stands behind the rule's head in some
    context in which the automaton comes to that state. */
module LalrContexts {
  import opened Cfg
  import opened LrAutomaton
  import opened ParseTable
  import opened LrEngine
  import opened LrComplete
  import opened Lookahead
  import opened LalrTables
  import opened LalrMeaning
  import Digraph

  // ---- Contexts --------------------------------------------------------------------------

  /** The head of rule p stands between `before0` and `after0`; then its symbol k stands between `before`
      and `after`. */
  ghost predicate Opens(g: Cfg, p: nat, k: nat, before0: seq<Symbol>, after0: seq<Symbol>, before: seq<Symbol>,
          x: Symbol, after: seq<Symbol>)
  {
    && 1 <= p < |g.productions| && k < |g.productions[p].rhs| && x == g.productions[p].rhs[k]
    && before == before0 + g.productions[p].rhs[..k] && after == g.productions[p].rhs[k + 1..] + after0
  }

  /** x stands between `before` and `after` once n rules have been opened on the way from the start symbol
      down to it, and no others. */
  ghost predicate ContextIn(g: Cfg, before: seq<Symbol>, x: Symbol, after: seq<Symbol>, n: nat)
    requires g.Valid()
    decreases n
  {
    if n == 0 then before == [] && x == g.Start() && after == []
    else exists p: nat, k: nat, before0, after0 {:trigger Opens(g, p, k, before0, after0, before, x, after)} ::
      Opens(g, p, k, before0, after0, before, x, after)
      && ContextIn(g, before0, g.productions[p].name, after0, n - 1)
  }

  lemma LastOpened(g: Cfg, before: seq<Symbol>, x: Symbol, after: seq<Symbol>, n: nat)
    returns (p: nat, k: nat, before0: seq<Symbol>, after0: seq<Symbol>)
    requires g.Valid() && ContextIn(g, before, x, after, n) && n > 0
    ensures Opens(g, p, k, before0, after0, before, x, after)
            && ContextIn(g, before0, g.productions[p].name, after0, n - 1)
  {
    p, k, before0, after0 :| Opens(g, p, k, before0, after0, before, x, after)
      && ContextIn(g, before0, g.productions[p].name, after0, n - 1);
  }

  ghost predicate Context(g: Cfg, before: seq<Symbol>, x: Symbol, after: seq<Symbol>)
    requires g.Valid()
  {
    exists n: nat :: ContextIn(g, before, x, after, n)
  }

  lemma ContextOn(g: Cfg, p: nat, k: nat, before: seq<Symbol>, after: seq<Symbol>)
    requires g.Valid() && 1 <= p < |g.productions| && k < |g.productions[p].rhs|
    requires Context(g, before, g.productions[p].name, after)
    ensures Context(g, before + g.productions[p].rhs[..k], g.productions[p].rhs[k], g.productions[p].rhs[k + 1..] + after)
  {
    var n: nat :| ContextIn(g, before, g.productions[p].name, after, n);
    var rhs := g.productions[p].rhs;
    assert Opens(g, p, k, before, after, before + rhs[..k], rhs[k], rhs[k + 1..] + after);
    assert ContextIn(g, before + rhs[..k], rhs[k], rhs[k + 1..] + after, n + 1);
  }

  /** A context is part of a form that the start symbol derives. */
  lemma {:induction false} ContextDerives(g: Cfg, before: seq<Symbol>, x: Symbol, after: seq<Symbol>, n: nat)
    requires g.Valid() && ContextIn(g, before, x, after, n)
    ensures Derives(g, [g.Start()], before + [x] + after)
    decreases n
  {
    if n == 0 {
      DerivesRefl(g, [g.Start()]);
      assert before + [x] + after == [g.Start()];
    } else {
      var p, k, before0, after0 := LastOpened(g, before, x, after, n);
      ContextDerives(g, before0, g.productions[p].name, after0, n - 1);
      OpenedDerives(g, p, before0, after0);
      OpenedIs(g, p, k, before0, after0);
      DerivesTrans(g, [g.Start()], before0 + [g.productions[p].name] + after0, before + [x] + after);
    }
  }

  lemma OpenedDerives(g: Cfg, p: nat, before: seq<Symbol>, after: seq<Symbol>)
    requires 1 <= p < |g.productions|
    ensures Derives(g, before + [g.productions[p].name] + after, before + g.productions[p].rhs + after)
  {
    DerivesRule(g, p);
    DerivesWithLeft(g, before, [g.productions[p].name], g.productions[p].rhs);
    DerivesWithRight(g, before + [g.productions[p].name], before + g.productions[p].rhs, after);
  }

  lemma OpenedIs(g: Cfg, p: nat, k: nat, before: seq<Symbol>, after: seq<Symbol>)
    requires p < |g.productions| && k < |g.productions[p].rhs|
    ensures var rhs := g.productions[p].rhs;
            before + rhs + after == before + rhs[..k] + [rhs[k]] + (rhs[k + 1..] + after)
  {
    var rhs := g.productions[p].rhs;
    assert rhs == rhs[..k] + [rhs[k]] + rhs[k + 1..];
  }

  /** a can be the next symbol when what is left is a form derived from `after`; the end marker comes when
      nothing is left. */
  ghost predicate CanFollow(g: Cfg, after: seq<Symbol>, a: Symbol) {
    if a == EndMarker then Vanishes(g, after) else a.Terminal? && Begins(g, after, a)
  }

  /** In some context the automaton comes to t's state just before t's symbol, and a can follow. */
  ghost predicate FollowsInContext(g: Cfg, A: Lr0, t: Transition, a: Symbol)
    requires IsAutomaton(g, A)
  {
    exists before, after :: ContextOf(g, A, t, before, after) && CanFollow(g, after, a)
  }

  ghost predicate ContextOf(g: Cfg, A: Lr0, t: Transition, before: seq<Symbol>, after: seq<Symbol>)
    requires IsAutomaton(g, A)
  {
    Context(g, before, t.symbol, after) && Walk(g, A, 0, before) == t.state
  }

  /** In some context the automaton comes to the state of e behind the whole of e's rule, and a can follow
      the rule's head: the textbook's LALR(1) lookahead. */
  ghost predicate Occurs(g: Cfg, A: Lr0, e: (nat, Item), a: Symbol)
    requires IsAutomaton(g, A) && e.1.prod < |g.productions|
  {
    exists before, after :: OccursIn(g, A, e, before, after) && CanFollow(g, after, a)
  }

  ghost predicate OccursIn(g: Cfg, A: Lr0, e: (nat, Item), before: seq<Symbol>, after: seq<Symbol>)
    requires IsAutomaton(g, A) && e.1.prod < |g.productions|
  {
    var rule := g.productions[e.1.prod];
    Context(g, before, rule.name, after) && Walk(g, A, 0, before + rule.rhs) == e.0
  }

  // ---- Derivations of two parts ----------------------------------------------------------

  /** A step rewrites one part or the other. */
  lemma StepShares(g: Cfg, s: seq<Symbol>, u: seq<Symbol>, m: seq<Symbol>) returns (first: bool, v: seq<Symbol>)
    requires Step(g, s + u, m)
    ensures if first then Step(g, s, v) && m == v + u else Step(g, u, v) && m == s + v
  {
    var i, p :| RewriteAt(g, s + u, m, i, p);
    first := i < |s|;
    if first {
      v := RewriteFirst(g, s, u, m, i, p);
    } else {
      v := RewriteSecond(g, s, u, m, i, p);
    }
  }

  lemma RewriteFirst(g: Cfg, s: seq<Symbol>, u: seq<Symbol>, m: seq<Symbol>, i: int, p: int) returns (v: seq<Symbol>)
    requires RewriteAt(g, s + u, m, i, p) && i < |s|
    ensures Step(g, s, v) && m == v + u
  {
    v := s[..i] + g.productions[p].rhs + s[i + 1..];
    assert (s + u)[..i] == s[..i] && (s + u)[i + 1..] == s[i + 1..] + u && (s + u)[i] == s[i];
    assert RewriteAt(g, s, v, i, p);
  }

  lemma RewriteSecond(g: Cfg, s: seq<Symbol>, u: seq<Symbol>, m: seq<Symbol>, i: int, p: int) returns (v: seq<Symbol>)
    requires RewriteAt(g, s + u, m, i, p) && i >= |s|
    ensures Step(g, u, v) && m == s + v
  {
    var j := i - |s|;
    v := u[..j] + g.productions[p].rhs + u[j + 1..];
    assert (s + u)[..i] == s + u[..j] && (s + u)[i + 1..] == u[j + 1..] && (s + u)[i] == u[j];
    assert RewriteAt(g, u, v, j, p);
  }

  lemma NothingFromNothing(g: Cfg, t: seq<Symbol>, n: nat)
    ensures DerivesIn(g, [], t, n) ==> t == [] && n == 0
  {
    assert forall m :: !Step(g, [], m);
  }

  lemma NothingBegins(g: Cfg, a: Symbol)
    ensures !Begins(g, [], a)
  {
    forall w, n: nat ensures !DerivesIn(g, [], [a] + w, n) {
      NothingFromNothing(g, [a] + w, n);
    }
  }

  lemma FirstStep(g: Cfg, s: seq<Symbol>, t: seq<Symbol>, n: nat) returns (m: seq<Symbol>)
    requires DerivesIn(g, s, t, n) && n > 0
    ensures Step(g, s, m) && DerivesIn(g, m, t, n - 1)
  {
    m :| Step(g, s, m) && DerivesIn(g, m, t, n - 1);
  }

  lemma StepThen(g: Cfg, s: seq<Symbol>, v: seq<Symbol>, t: seq<Symbol>, n: nat)
    requires Step(g, s, v) && DerivesIn(g, v, t, n)
    ensures DerivesIn(g, s, t, n + 1)
  {
  }

  /** What two parts derive together, each derives its share of. */
  lemma {:induction false} Shares(g: Cfg, s: seq<Symbol>, u: seq<Symbol>, t: seq<Symbol>, n: nat)
    returns (t1: seq<Symbol>, t2: seq<Symbol>, n1: nat, n2: nat)
    requires DerivesIn(g, s + u, t, n)
    ensures t == t1 + t2 && n == n1 + n2 && DerivesIn(g, s, t1, n1) && DerivesIn(g, u, t2, n2)
    decreases n
  {
    if n == 0 {
      t1, t2, n1, n2 := s, u, 0, 0;
    } else {
      var m := FirstStep(g, s + u, t, n);
      var first, v := StepShares(g, s, u, m);
      if first {
        t1, t2, n1, n2 := Shares(g, v, u, t, n - 1);
        StepThen(g, s, v, t1, n1);
        n1 := n1 + 1;
      } else {
        t1, t2, n1, n2 := Shares(g, s, v, t, n - 1);
        StepThen(g, u, v, t2, n2);
        n2 := n2 + 1;
      }
    }
  }

  lemma FirstOf(t1: seq<Symbol>, t2: seq<Symbol>, a: Symbol, w: seq<Symbol>)
    requires t1 + t2 == [a] + w && t1 != []
    ensures t1 == [a] + t1[1..]
  {
    assert t1[0] == (t1 + t2)[0];
  }

  /** Either the first part vanishes and a begins the second, or a begins the first. */
  lemma BeginsEither(g: Cfg, s: seq<Symbol>, u: seq<Symbol>, a: Symbol)
    requires Begins(g, s + u, a)
    ensures Begins(g, s, a) || (Vanishes(g, s) && Begins(g, u, a))
  {
    var w :| Derives(g, s + u, [a] + w);
    var n: nat :| DerivesIn(g, s + u, [a] + w, n);
    var t1, t2, n1, n2 := Shares(g, s, u, [a] + w, n);
    if t1 == [] {
      assert t2 == [a] + w;
    } else {
      FirstOf(t1, t2, a, w);
    }
  }

  lemma BothVanish(g: Cfg, s: seq<Symbol>, u: seq<Symbol>)
    ensures Vanishes(g, s + u) <==> Vanishes(g, s) && Vanishes(g, u)
  {
    if Vanishes(g, s + u) {
      var n: nat :| DerivesIn(g, s + u, [], n);
      var t1, t2, n1, n2 := Shares(g, s, u, [], n);
      assert t1 == [] && t2 == [];
    }
    if Vanishes(g, s) && Vanishes(g, u) {
      DerivesConcat(g, s, [], u, []);
      var nothing: seq<Symbol> := [];
      assert nothing + nothing == nothing;
    }
  }

  lemma BeginsOn(g: Cfg, s: seq<Symbol>, u: seq<Symbol>, a: Symbol)
    ensures Begins(g, s, a) ==> Begins(g, s + u, a)
    ensures Vanishes(g, s) && Begins(g, u, a) ==> Begins(g, s + u, a)
  {
    if Begins(g, s, a) {
      var w :| Derives(g, s, [a] + w);
      DerivesWithRight(g, s, [a] + w, u);
      assert [a] + w + u == [a] + (w + u);
    }
    if Vanishes(g, s) && Begins(g, u, a) {
      var w :| Derives(g, u, [a] + w);
      DerivesConcat(g, s, [], u, [a] + w);
      assert [] + ([a] + w) == [a] + w;
    }
  }

  /** a can begin what the form derives, if it can begin a form derived from it. */
  lemma BeginsBefore(g: Cfg, s: seq<Symbol>, u: seq<Symbol>, a: Symbol)
    requires Derives(g, s, u) && Begins(g, u, a)
    ensures Begins(g, s, a)
  {
    var w :| Derives(g, u, [a] + w);
    DerivesTrans(g, s, u, [a] + w);
  }

  // ---- From contexts to the relations -----------------------------------------------------

  lemma {:induction false} WalkOn(g: Cfg, A: Lr0, q: nat, xs: seq<Symbol>, ys: seq<Symbol>)
    requires q < |A.states| && 0 <= Walk(g, A, q, xs) < |A.states|
    ensures Walk(g, A, q, xs + ys) == Walk(g, A, Walk(g, A, q, xs), ys)
    decreases |ys|
  {
    if ys == [] {
      assert xs + ys == xs;
    } else {
      var y := ys[|ys| - 1];
      WalkOn(g, A, q, xs, ys[..|ys| - 1]);
      assert (xs + ys)[..|xs + ys| - 1] == xs + ys[..|ys| - 1];
    }
  }

  /** Every context can be walked to, and its symbol is expected there. */
  lemma {:induction false} ContextWalks(g: Cfg, A: Lr0, before: seq<Symbol>, x: Symbol, after: seq<Symbol>, n: nat)
    requires IsAutomaton(g, A) && ContextIn(g, before, x, after, n)
    ensures 0 <= Walk(g, A, 0, before) < |A.states| && Expects(g, A, Walk(g, A, 0, before), x)
    decreases n
  {
    if n == 0 {
      StartExpected(g, A);
    } else {
      var p, k, before0, after0 := LastOpened(g, before, x, after, n);
      ContextWalks(g, A, before0, g.productions[p].name, after0, n - 1);
      OpenedWalks(g, A, p, k, before0);
    }
  }

  /** From where the head of a rule is expected, each of its symbols can be walked to. */
  lemma OpenedWalks(g: Cfg, A: Lr0, p: nat, k: nat, before: seq<Symbol>)
    requires IsAutomaton(g, A) && 1 <= p < |g.productions| && k <= |g.productions[p].rhs|
    requires 0 <= Walk(g, A, 0, before) < |A.states| && Expects(g, A, Walk(g, A, 0, before), g.productions[p].name)
    ensures var rhs, q := g.productions[p].rhs, Walk(g, A, 0, before);
            && Has(A, q, p, 0) && Walk(g, A, 0, before + rhs[..k]) == Walk(g, A, q, rhs[..k])
            && 0 <= Walk(g, A, q, rhs[..k]) < |A.states| && Has(A, Walk(g, A, q, rhs[..k]), p, k)
            && (k < |rhs| ==> Expects(g, A, Walk(g, A, q, rhs[..k]), rhs[k]))
  {
    var q := Walk(g, A, 0, before);
    var it :| it in A.states[q].items && DotBefore(g, it, g.productions[p].name);
    ExpectedRule(g, A, q, it, p);
    WalkRule(g, A, q, p, k);
    WalkOn(g, A, 0, before, g.productions[p].rhs[..k]);
  }

  /** a can be read in r, at once or behind a nullable transition. */
  ghost predicate ReadIn(g: Cfg, A: Lr0, r: nat, a: Symbol) {
    Expects(g, A, r, a) || exists y :: ReadBehind(g, A, r, y, a)
  }

  ghost predicate ReadBehind(g: Cfg, A: Lr0, r: nat, y: Transition, a: Symbol) {
    y.state == r && IsTransition(g, A, y) && Vanishes(g, [y.symbol]) && ReadAfter(g, A, y, a)
  }

  lemma ReadOn(g: Cfg, A: Lr0, t: Transition, r: nat, a: Symbol)
    requires t.state < |A.states| && GotoState(g, A, t.state, t.symbol) == r && a.Terminal? && ReadIn(g, A, r, a)
    ensures ReadAfter(g, A, t, a)
  {
    if Expects(g, A, r, a) {
      assert ReadsPath(g, A, [t]) && DirectlyReads(g, A, [t][0], a);
    } else {
      var y :| ReadBehind(g, A, r, y, a);
      ReadsThen(g, A, t, y, a);
    }
  }

  lemma ReadsThen(g: Cfg, A: Lr0, t: Transition, y: Transition, a: Symbol)
    requires t.state < |A.states| && Reads(g, A, t, y) && ReadAfter(g, A, y, a)
    ensures ReadAfter(g, A, t, a)
  {
    var p: seq<Transition> :| ReadsPath(g, A, p) && p[0] == y && p[|p| - 1].state < |A.states| &&
      DirectlyReads(g, A, p[|p| - 1], a);
    ReadsPathOn(g, A, t, p);
    var p' := [t] + p;
    assert p'[|p'| - 1] == p[|p| - 1] && p'[0] == t;
  }

  lemma ReadsPathOn(g: Cfg, A: Lr0, t: Transition, p: seq<Transition>)
    requires t.state < |A.states| && ReadsPath(g, A, p) && Reads(g, A, t, p[0])
    ensures ReadsPath(g, A, [t] + p)
  {
    var p' := [t] + p;
    forall i | 0 <= i < |p'| - 1 ensures p'[i].state < |A.states| && Reads(g, A, p'[i], p'[i + 1]) {
      if i > 0 {
        assert p[i - 1].state < |A.states| && Reads(g, A, p[i - 1], p[i - 1 + 1]);
      }
    }
  }

  /** What can begin the rest of an item of the state can be read in the state. */
  lemma {:induction false} RestReadIn(g: Cfg, A: Lr0, r: nat, p: nat, d: nat, a: Symbol, w: seq<Symbol>, n: nat)
    requires IsAutomaton(g, A) && Has(A, r, p, d) && p < |g.productions| && d <= |g.productions[p].rhs| && a.Terminal?
    requires DerivesIn(g, g.productions[p].rhs[d..], [a] + w, n)
    ensures ReadIn(g, A, r, a)
    decreases n, |g.productions[p].rhs| - d
  {
    var rhs := g.productions[p].rhs;
    if d == |rhs| {
      NothingFromNothing(g, [a] + w, n);
    } else {
      var x := rhs[d];
      assert DotBefore(g, Item(p, d), x);
      var t1, n1, n2 := RestParts(g, rhs, d, a, w, n);
      if t1 == [] {
        RestAfter(g, A, r, p, d, t1, n1);
        RestReadIn(g, A, GotoState(g, A, r, x), p, d + 1, a, w, n2);
        ReadOver(g, A, r, x, a);
      } else if n1 > 0 {
        var p' := FirstRule(g, x, t1, n1);
        ExpectedRule(g, A, r, Item(p, d), p');
        assert g.productions[p'].rhs[0..] == g.productions[p'].rhs;
        RestReadIn(g, A, r, p', 0, a, t1[1..], n1 - 1);
      } else {
        assert [x][0] == t1[0] == a;
      }
    }
  }

  /** Either the first symbol of the rest vanishes and a begins what is left, or a begins the symbol. */
  lemma RestParts(g: Cfg, rhs: seq<Symbol>, d: nat, a: Symbol, w: seq<Symbol>, n: nat)
    returns (t1: seq<Symbol>, n1: nat, n2: nat)
    requires d < |rhs| && DerivesIn(g, rhs[d..], [a] + w, n)
    ensures DerivesIn(g, [rhs[d]], t1, n1) && n == n1 + n2
    ensures if t1 == [] then DerivesIn(g, rhs[d + 1..], [a] + w, n2) else t1 == [a] + t1[1..]
  {
    var t2;
    assert rhs[d..] == [rhs[d]] + rhs[d + 1..];
    t1, t2, n1, n2 := Shares(g, [rhs[d]], rhs[d + 1..], [a] + w, n);
    if t1 == [] {
      assert t2 == [a] + w;
    } else {
      FirstOf(t1, t2, a, w);
    }
  }

  lemma ReadOver(g: Cfg, A: Lr0, r: nat, x: Symbol, a: Symbol)
    requires r < |A.states| && x.Nonterminal? && Expects(g, A, r, x) && Vanishes(g, [x]) && a.Terminal?
    requires 0 <= GotoState(g, A, r, x) && ReadIn(g, A, GotoState(g, A, r, x), a)
    ensures ReadIn(g, A, r, a)
  {
    ReadOn(g, A, Arc(r, x), GotoState(g, A, r, x), a);
    assert ReadBehind(g, A, r, Arc(r, x), a);
  }

  /** A symbol that vanishes is a nonterminal, and the item goes on behind it. */
  lemma RestAfter(g: Cfg, A: Lr0, r: nat, p: nat, d: nat, t: seq<Symbol>, n: nat)
    requires IsAutomaton(g, A) && Has(A, r, p, d) && p < |g.productions| && d < |g.productions[p].rhs|
    requires t == [] && DerivesIn(g, [g.productions[p].rhs[d]], t, n)
    ensures var x := g.productions[p].rhs[d];
            x.Nonterminal? && Expects(g, A, r, x) && Vanishes(g, [x]) && 0 < GotoState(g, A, r, x) < |A.states|
            && Has(A, GotoState(g, A, r, x), p, d + 1)
  {
    var x := g.productions[p].rhs[d];
    assert DotBefore(g, Item(p, d), x);
    GotoForward(g, A, r, Item(p, d), x);
    var p' := FirstRule(g, x, t, n);
    assert g.productions[p'].name in g.nonterminals;
  }

  /** A symbol that is rewritten is the head of a rule, which derives the rest. */
  lemma FirstRule(g: Cfg, x: Symbol, t: seq<Symbol>, n: nat) returns (p: nat)
    requires DerivesIn(g, [x], t, n) && (n > 0 || t == [])
    ensures n > 0 && 1 <= p < |g.productions| && x == g.productions[p].name && DerivesIn(g, g.productions[p].rhs, t, n - 1)
  {
    var m :| Step(g, [x], m) && DerivesIn(g, m, t, n - 1);
    var i, q :| RewriteAt(g, [x], m, i, q);
    assert i == 0 && [x][..0] + g.productions[q].rhs + [x][1..] == g.productions[q].rhs;
    p := q;
  }

  /** What can follow in a context can be read along the proper edges. */
  lemma {:induction false} ContextFollows(g: Cfg, A: Lr0, before: seq<Symbol>, x: Symbol, after: seq<Symbol>, n: nat,
          a: Symbol)
    requires IsAutomaton(g, A) && ContextIn(g, before, x, after, n) && x.Nonterminal? && CanFollow(g, after, a)
    ensures 0 <= Walk(g, A, 0, before) < |A.states| && Follows(g, A, true, Arc(Walk(g, A, 0, before), x), a)
    decreases n
  {
    ContextWalks(g, A, before, x, after, n);
    if n == 0 {
      StartFollows(g, A, a);
    } else {
      var p, k, before0, after0 := LastOpened(g, before, x, after, n);
      ContextWalks(g, A, before0, g.productions[p].name, after0, n - 1);
      assert g.productions[p].name in g.nonterminals;
      var rest := g.productions[p].rhs[k + 1..];
      if CanFollow(g, after0, a) && Vanishes(g, rest) {
        ContextFollows(g, A, before0, g.productions[p].name, after0, n - 1, a);
        OpenedIncludes(g, A, p, k, before0, a);
      } else {
        RestBegins(g, rest, after0, a);
        OpenedReads(g, A, p, k, before0, a);
      }
    }
  }

  lemma StartFollows(g: Cfg, A: Lr0, a: Symbol)
    requires IsAutomaton(g, A) && CanFollow(g, [], a)
    ensures Follows(g, A, true, Arc(0, g.Start()), a)
  {
    NothingBegins(g, a);
    var t := Arc(0, g.Start());
    assert ReadsPath(g, A, [t]) && DirectlyReads(g, A, [t][0], a);
    assert ReadAfter(g, A, t, a);
    assert FollowPath(g, A, true, t, a, [t]);
  }

  lemma RestBegins(g: Cfg, rest: seq<Symbol>, after: seq<Symbol>, a: Symbol)
    requires CanFollow(g, rest + after, a) && !(CanFollow(g, after, a) && Vanishes(g, rest))
    ensures a.Terminal? && Begins(g, rest, a)
  {
    if a == EndMarker {
      BothVanish(g, rest, after);
    } else {
      BeginsEither(g, rest, after, a);
    }
  }

  /** What begins the rest of a rule can be read after the symbol before it. */
  lemma OpenedReads(g: Cfg, A: Lr0, p: nat, k: nat, before: seq<Symbol>, a: Symbol)
    requires IsAutomaton(g, A) && 1 <= p < |g.productions| && k < |g.productions[p].rhs| && a.Terminal?
    requires 0 <= Walk(g, A, 0, before) < |A.states| && Expects(g, A, Walk(g, A, 0, before), g.productions[p].name)
    requires Begins(g, g.productions[p].rhs[k + 1..], a)
    ensures var rhs := g.productions[p].rhs;
            && 0 <= Walk(g, A, 0, before + rhs[..k]) < |A.states|
            && Follows(g, A, true, Arc(Walk(g, A, 0, before + rhs[..k]), rhs[k]), a)
  {
    var rhs := g.productions[p].rhs;
    OpenedWalks(g, A, p, k, before);
    var q := Walk(g, A, 0, before + rhs[..k]);
    GotoForward(g, A, q, Item(p, k), rhs[k]);
    var w :| Derives(g, rhs[k + 1..], [a] + w);
    var n: nat :| DerivesIn(g, rhs[k + 1..], [a] + w, n);
    RestReadIn(g, A, GotoState(g, A, q, rhs[k]), p, k + 1, a, w, n);
    var t := Arc(q, rhs[k]);
    ReadOn(g, A, t, GotoState(g, A, q, rhs[k]), a);
    assert FollowPath(g, A, true, t, a, [t]);
  }

  /** When the rest of a rule vanishes, its head's followers are followers of the symbol before it. */
  lemma OpenedIncludes(g: Cfg, A: Lr0, p: nat, k: nat, before: seq<Symbol>, a: Symbol)
    requires IsAutomaton(g, A) && 1 <= p < |g.productions| && k < |g.productions[p].rhs|
    requires 0 <= Walk(g, A, 0, before) < |A.states| && Expects(g, A, Walk(g, A, 0, before), g.productions[p].name)
    requires g.productions[p].rhs[k].Nonterminal? && Vanishes(g, g.productions[p].rhs[k + 1..])
    requires Follows(g, A, true, Arc(Walk(g, A, 0, before), g.productions[p].name), a)
    ensures var rhs := g.productions[p].rhs;
            && 0 <= Walk(g, A, 0, before + rhs[..k]) < |A.states|
            && Follows(g, A, true, Arc(Walk(g, A, 0, before + rhs[..k]), rhs[k]), a)
  {
    var rhs := g.productions[p].rhs;
    OpenedWalks(g, A, p, k, before);
    var t, y := Arc(Walk(g, A, 0, before), g.productions[p].name), Arc(Walk(g, A, 0, before + rhs[..k]), rhs[k]);
    assert rhs[0..k] == rhs[..k];
    assert g.productions[p].name in g.nonterminals;
    assert Meets(g, A, t.state, p, 0, k, y);
    assert ItemIncludes(g, A, t, Item(p, 0), y);
    assert Edge(g, A, true, y, t);
    FollowsOn(g, A, true, y, t, a);
  }

  // ---- From the relations to contexts -----------------------------------------------------

  /** An item's rule can be opened in a context in which the automaton comes to the item's state. */
  ghost predicate HasContext(g: Cfg, A: Lr0, q: nat, it: Item)
    requires IsAutomaton(g, A) && ValidItem(g, it)
  {
    exists before, after :: ItemContext(g, A, q, it, before, after)
  }

  ghost predicate ItemContext(g: Cfg, A: Lr0, q: nat, it: Item, before: seq<Symbol>, after: seq<Symbol>)
    requires IsAutomaton(g, A) && ValidItem(g, it)
  {
    && Context(g, before, g.productions[it.prod].name, after)
    && Walk(g, A, 0, before + g.productions[it.prod].rhs[..it.dot]) == q
  }

  /** The items of a state are the valid ones. */
  lemma {:induction false} ItemsHaveContexts(g: Cfg, A: Lr0, q: nat, k: nat)
    requires IsAutomaton(g, A) && q < |A.states| && k < |A.states[q].items| && A.states[q].items[k].prod > 0
    ensures ValidItem(g, A.states[q].items[k]) && HasContext(g, A, q, A.states[q].items[k])
    decreases q, k
  {
    var it := A.states[q].items[k];
    StateItemsValid(g, A, q);
    assert StateOk(g, A, q);
    if k < |A.states[q].kernel| {
      assert A.states[q].kernel[k] == it;
      ItemKinds(g, A, q, it);
      var r: nat, x :| r < q && A.states[q].kernel == GotoKernel(g, A.states[r].items, x);
      assert GotoState(g, A, r, x) == q;
      GotoBack(g, A, r, x, it);
      var j :| 0 <= j < |A.states[r].items| && A.states[r].items[j] == Item(it.prod, it.dot - 1);
      ItemsHaveContexts(g, A, r, j);
      ContextMoves(g, A, r, x, it);
    } else {
      assert Justified(g, A.states[q].items, k);
      var j :| 0 <= j < k && DotBefore(g, A.states[q].items[j], g.productions[it.prod].name);
      if A.states[q].items[j].prod > 0 {
        ItemsHaveContexts(g, A, q, j);
      }
      ContextBelow(g, A, q, A.states[q].items[j], it.prod);
    }
  }

  lemma ContextMoves(g: Cfg, A: Lr0, r: nat, x: Symbol, it: Item)
    requires IsAutomaton(g, A) && r < |A.states| && ValidItem(g, it) && it.dot > 0
    requires DotBefore(g, Item(it.prod, it.dot - 1), x) && HasContext(g, A, r, Item(it.prod, it.dot - 1))
    ensures 0 <= GotoState(g, A, r, x) ==> HasContext(g, A, GotoState(g, A, r, x), it)
  {
    var rhs := g.productions[it.prod].rhs;
    var before, after :| ItemContext(g, A, r, Item(it.prod, it.dot - 1), before, after);
    var way := before + rhs[..it.dot];
    assert way[..|way| - 1] == before + rhs[..it.dot - 1] && way[|way| - 1] == x;
    if 0 <= GotoState(g, A, r, x) {
      assert ItemContext(g, A, GotoState(g, A, r, x), it, before, after);
    }
  }

  /** A rule that an item of the state calls for. */
  lemma ContextBelow(g: Cfg, A: Lr0, q: nat, it: Item, p: nat)
    requires IsAutomaton(g, A) && q < |A.states| && it in A.states[q].items && 1 <= p < |g.productions|
    requires DotBefore(g, it, g.productions[p].name) && (it.prod > 0 ==> HasContext(g, A, q, it))
    ensures HasContext(g, A, q, Item(p, 0))
  {
    if it.prod == 0 {
      StartItemOnlyAtStart(g, A, q);
      ContextAtStart(g, A, p);
    } else {
      var before, after :| ItemContext(g, A, q, it, before, after);
      ContextInside(g, A, q, it, p, before, after);
    }
  }

  lemma ContextAtStart(g: Cfg, A: Lr0, p: nat)
    requires IsAutomaton(g, A) && 1 <= p < |g.productions| && g.productions[p].name == g.Start()
    ensures HasContext(g, A, 0, Item(p, 0))
  {
    assert ContextIn(g, [], g.Start(), [], 0);
    assert [] + g.productions[p].rhs[..0] == [];
    assert ItemContext(g, A, 0, Item(p, 0), [], []);
  }

  lemma ContextInside(g: Cfg, A: Lr0, q: nat, it: Item, p: nat, before: seq<Symbol>, after: seq<Symbol>)
    requires IsAutomaton(g, A) && it.prod > 0 && 1 <= p < |g.productions|
    requires DotBefore(g, it, g.productions[p].name) && ItemContext(g, A, q, it, before, after)
    ensures HasContext(g, A, q, Item(p, 0))
  {
    var rhs := g.productions[it.prod].rhs;
    ContextOn(g, it.prod, it.dot, before, after);
    assert before + rhs[..it.dot] + g.productions[p].rhs[..0] == before + rhs[..it.dot];
    assert ItemContext(g, A, q, Item(p, 0), before + rhs[..it.dot], rhs[it.dot + 1..] + after);
  }

  /** An item of t's state with its dot before t's symbol, behind which a can begin. */
  ghost predicate Reader(g: Cfg, A: Lr0, t: Transition, it: Item, a: Symbol) {
    && t.state < |A.states| && it in A.states[t.state].items && DotBefore(g, it, t.symbol)
    && Begins(g, g.productions[it.prod].rhs[it.dot + 1..], a)
  }

  /** What can begin the rest of an item of the state that t leads to can be read because of some item of
      t's own state. */
  lemma {:induction false} ReaderOf(g: Cfg, A: Lr0, t: Transition, k: nat, a: Symbol)
    requires IsAutomaton(g, A) && IsTransition(g, A, t) && 0 < GotoState(g, A, t.state, t.symbol) < |A.states|
    requires var J := A.states[GotoState(g, A, t.state, t.symbol)].items;
             k < |J| && ValidItem(g, J[k]) && Begins(g, g.productions[J[k].prod].rhs[J[k].dot..], a)
    ensures exists it :: Reader(g, A, t, it, a)
    decreases k
  {
    var r := GotoState(g, A, t.state, t.symbol);
    var J := A.states[r].items;
    var it := J[k];
    assert StateOk(g, A, r);
    if k < |A.states[r].kernel| {
      assert A.states[r].kernel[k] == it;
      ItemKinds(g, A, r, it);
      GotoBack(g, A, t.state, t.symbol, it);
      assert Reader(g, A, t, Item(it.prod, it.dot - 1), a);
    } else {
      assert Justified(g, J, k);
      var j :| 0 <= j < k && DotBefore(g, J[j], g.productions[it.prod].name);
      BeginsBelow(g, J[j], it.prod, a);
      ReaderOf(g, A, t, j, a);
    }
  }

  lemma BeginsBelow(g: Cfg, it: Item, p: nat, a: Symbol)
    requires 1 <= p < |g.productions| && DotBefore(g, it, g.productions[p].name) && Begins(g, g.productions[p].rhs[0..], a)
    ensures Begins(g, g.productions[it.prod].rhs[it.dot..], a)
  {
    var x, rhs := g.productions[p].name, g.productions[it.prod].rhs;
    assert g.productions[p].rhs[0..] == g.productions[p].rhs;
    DerivesRule(g, p);
    BeginsBefore(g, [x], g.productions[p].rhs, a);
    assert rhs[it.dot..] == [x] + rhs[it.dot + 1..];
    BeginsOn(g, [x], rhs[it.dot + 1..], a);
  }

  /** A terminal that can be read after t begins the rest behind t's symbol in some item of t's state. */
  lemma {:induction false} ReadsBegin(g: Cfg, A: Lr0, t: Transition, a: Symbol, p: seq<Transition>)
    requires IsAutomaton(g, A) && IsTransition(g, A, t) && ReadsPath(g, A, p) && p[0] == t && a.Terminal?
    requires p[|p| - 1].state < |A.states| && DirectlyReads(g, A, p[|p| - 1], a)
    ensures exists it :: Reader(g, A, t, it, a)
    decreases |p|
  {
    ExpectsGoto(g, A, t.state, t.symbol);
    var r := GotoState(g, A, t.state, t.symbol);
    StateItemsValid(g, A, r);
    if |p| == 1 {
      var it :| it in A.states[r].items && DotBefore(g, it, a);
      StartsWith(g, it, a);
      var k :| 0 <= k < |A.states[r].items| && A.states[r].items[k] == it;
      ReaderOf(g, A, t, k, a);
    } else {
      var y := p[1];
      assert Reads(g, A, p[0], p[0 + 1]);
      ReadsPathTail(g, A, p);
      ReadsBegin(g, A, y, a, p[1..]);
      var it :| Reader(g, A, y, it, a);
      BeginsBehind(g, it, a);
      var k :| 0 <= k < |A.states[r].items| && A.states[r].items[k] == it;
      ReaderOf(g, A, t, k, a);
    }
  }

  lemma StartsWith(g: Cfg, it: Item, a: Symbol)
    requires DotBefore(g, it, a)
    ensures Begins(g, g.productions[it.prod].rhs[it.dot..], a)
  {
    var rhs := g.productions[it.prod].rhs;
    assert rhs[it.dot..] == [a] + rhs[it.dot + 1..];
    DerivesRefl(g, rhs[it.dot..]);
  }

  lemma BeginsBehind(g: Cfg, it: Item, a: Symbol)
    requires ValidItem(g, it) && it.dot < |g.productions[it.prod].rhs| && Vanishes(g, [g.productions[it.prod].rhs[it.dot]])
    requires Begins(g, g.productions[it.prod].rhs[it.dot + 1..], a)
    ensures Begins(g, g.productions[it.prod].rhs[it.dot..], a)
  {
    var rhs := g.productions[it.prod].rhs;
    assert rhs[it.dot..] == [rhs[it.dot]] + rhs[it.dot + 1..];
    BeginsOn(g, [rhs[it.dot]], rhs[it.dot + 1..], a);
  }

  lemma ReadsPathTail(g: Cfg, A: Lr0, p: seq<Transition>)
    requires ReadsPath(g, A, p) && |p| > 1
    ensures ReadsPath(g, A, p[1..]) && p[1..][0] == p[1]
  {
    var q := p[1..];
    assert Reads(g, A, p[0], p[0 + 1]);
    forall i | 0 <= i < |q| - 1 ensures q[i].state < |A.states| && Reads(g, A, q[i], q[i + 1]) {
      assert p[i + 1].state < |A.states| && Reads(g, A, p[i + 1], p[i + 1 + 1]);
    }
  }

  /** The end marker can be read after the start symbol in state 0 and nowhere else. */
  lemma EndReadAtStart(g: Cfg, A: Lr0, t: Transition)
    requires IsAutomaton(g, A) && IsTransition(g, A, t)
    ensures ReadAfter(g, A, t, EndMarker) <==> t == Arc(0, g.Start())
  {
    if ReadAfter(g, A, t, EndMarker) {
      var p: seq<Transition> :| ReadsPath(g, A, p) && p[0] == t && p[|p| - 1].state < |A.states| &&
        DirectlyReads(g, A, p[|p| - 1], EndMarker);
      if |p| > 1 {
        var u := p[|p| - 2];
        assert u.state < |A.states| && Reads(g, A, p[|p| - 2], p[|p| - 2 + 1]);
        NeverToStart(g, A, u);
      }
    }
    if t == Arc(0, g.Start()) {
      assert ReadsPath(g, A, [t]) && DirectlyReads(g, A, [t][0], EndMarker);
    }
  }

  lemma NeverToStart(g: Cfg, A: Lr0, t: Transition)
    requires IsAutomaton(g, A) && t.state < |A.states|
    ensures GotoState(g, A, t.state, t.symbol) != 0
  {
    var K := GotoKernel(g, A.states[t.state].items, t.symbol);
    if K in A.number && A.number[K] == 0 {
      assert A.states[0].kernel == K && K[0] == Item(0, 0) && K[0] in K;
      GotoHas(g, A.states[t.state].items, t.symbol, K[0]);
    }
  }

  /** What can be read after a transition can follow in some context. */
  lemma ReadsOccur(g: Cfg, A: Lr0, t: Transition, a: Symbol)
    requires IsAutomaton(g, A) && IsTransition(g, A, t) && ReadAfter(g, A, t, a)
    ensures FollowsInContext(g, A, t, a)
  {
    var p: seq<Transition> :| ReadsPath(g, A, p) && p[0] == t && p[|p| - 1].state < |A.states| &&
      DirectlyReads(g, A, p[|p| - 1], a);
    if a == EndMarker {
      EndReadAtStart(g, A, t);
      assert ContextIn(g, [], g.Start(), [], 0);
      DerivesRefl(g, []);
      assert ContextOf(g, A, t, [], []) && CanFollow(g, [], a);
    } else {
      ReadsBegin(g, A, t, a, p);
      var it :| Reader(g, A, t, it, a);
      ReaderOccurs(g, A, t, it, a);
    }
  }

  lemma FollowsHere(g: Cfg, A: Lr0, t: Transition, before: seq<Symbol>, after: seq<Symbol>, a: Symbol)
    requires IsAutomaton(g, A) && ContextOf(g, A, t, before, after) && CanFollow(g, after, a)
    ensures FollowsInContext(g, A, t, a)
  {
  }

  /** Nothing stands behind the symbol of the augmented rule. */
  lemma ReaderRule(g: Cfg, it: Item, a: Symbol)
    requires g.Valid() && ValidItem(g, it) && it.dot < |g.productions[it.prod].rhs|
    requires Begins(g, g.productions[it.prod].rhs[it.dot + 1..], a)
    ensures it.prod > 0
  {
    NothingBegins(g, a);
    assert g.productions[it.prod].rhs[it.dot + 1..] != [];
  }

  lemma ReaderOccurs(g: Cfg, A: Lr0, t: Transition, it: Item, a: Symbol)
    requires IsAutomaton(g, A) && Reader(g, A, t, it, a) && a.Terminal?
    ensures FollowsInContext(g, A, t, a)
  {
    ReaderRule(g, it, a);
    var k :| 0 <= k < |A.states[t.state].items| && A.states[t.state].items[k] == it;
    ItemsHaveContexts(g, A, t.state, k);
    var before, after :| ItemContext(g, A, t.state, it, before, after);
    ReaderInContext(g, A, t, it, a, before, after);
  }

  lemma ReaderInContext(g: Cfg, A: Lr0, t: Transition, it: Item, a: Symbol, before: seq<Symbol>, after: seq<Symbol>)
    requires IsAutomaton(g, A) && Reader(g, A, t, it, a) && a.Terminal? && it.prod > 0
    requires ItemContext(g, A, t.state, it, before, after)
    ensures FollowsInContext(g, A, t, a)
  {
    var rhs := g.productions[it.prod].rhs;
    ContextOn(g, it.prod, it.dot, before, after);
    BeginsOn(g, rhs[it.dot + 1..], after, a);
    FollowsHere(g, A, t, before + rhs[..it.dot], rhs[it.dot + 1..] + after, a);
  }

  /** One proper edge. */
  lemma EdgeOccurs(g: Cfg, A: Lr0, y: Transition, t: Transition, a: Symbol)
    requires IsAutomaton(g, A) && Edge(g, A, true, y, t) && FollowsInContext(g, A, t, a)
    ensures IsTransition(g, A, y) && FollowsInContext(g, A, y, a)
  {
    var it: Item :| it.dot == 0 && ItemIncludes(g, A, t, it, y);
    var k: nat :| k < |g.productions[it.prod].rhs| && Meets(g, A, t.state, it.prod, 0, k, y);
    var before, after :| ContextOf(g, A, t, before, after) && CanFollow(g, after, a);
    EdgeInContext(g, A, y, t, a, it.prod, k, before, after);
  }

  lemma EdgeInContext(g: Cfg, A: Lr0, y: Transition, t: Transition, a: Symbol, p: nat, k: nat, before: seq<Symbol>,
          after: seq<Symbol>)
    requires IsAutomaton(g, A) && OfHead(g, A, t, Item(p, 0)) && k < |g.productions[p].rhs|
    requires Meets(g, A, t.state, p, 0, k, y) && ContextOf(g, A, t, before, after) && CanFollow(g, after, a)
    ensures IsTransition(g, A, y) && FollowsInContext(g, A, y, a)
  {
    var rhs := g.productions[p].rhs;
    MeetsInContext(g, A, t, p, k, y, before, after);
    FollowOn(g, rhs[k + 1..], after, a);
    FollowsHere(g, A, y, before + rhs[..k], rhs[k + 1..] + after, a);
  }

  lemma FollowOn(g: Cfg, rest: seq<Symbol>, after: seq<Symbol>, a: Symbol)
    requires Vanishes(g, rest) && CanFollow(g, after, a)
    ensures CanFollow(g, rest + after, a)
  {
    BothVanish(g, rest, after);
    BeginsOn(g, rest, after, a);
  }

  lemma MeetsInContext(g: Cfg, A: Lr0, t: Transition, p: nat, k: nat, y: Transition, before: seq<Symbol>,
          after: seq<Symbol>)
    requires IsAutomaton(g, A) && OfHead(g, A, t, Item(p, 0)) && k < |g.productions[p].rhs|
    requires Meets(g, A, t.state, p, 0, k, y) && ContextOf(g, A, t, before, after)
    ensures IsTransition(g, A, y)
    ensures ContextOf(g, A, y, before + g.productions[p].rhs[..k], g.productions[p].rhs[k + 1..] + after)
  {
    var rhs := g.productions[p].rhs;
    assert rhs[0..k] == rhs[..k];
    WalkRule(g, A, t.state, p, k);
    WalkOn(g, A, 0, before, rhs[..k]);
    ContextOn(g, p, k, before, after);
  }

  lemma {:induction false} FollowsOccur(g: Cfg, A: Lr0, t: Transition, a: Symbol, p: seq<Transition>)
    requires IsAutomaton(g, A) && IsTransition(g, A, t) && FollowPath(g, A, true, t, a, p)
    ensures FollowsInContext(g, A, t, a)
    decreases |p|
  {
    if |p| == 1 {
      ReadsOccur(g, A, t, a);
    } else {
      var q := p[1..];
      assert Edge(g, A, true, p[0], p[0 + 1]);
      forall i | 0 <= i < |q| - 1 ensures Edge(g, A, true, q[i], q[i + 1]) {
        assert Edge(g, A, true, p[i + 1], p[i + 1 + 1]);
      }
      assert FollowPath(g, A, true, p[1], a, q);
      FollowsOccur(g, A, p[1], a, q);
      EdgeOccurs(g, A, t, p[1], a);
    }
  }

  // ---- The lookaheads --------------------------------------------------------------------

  /** Follow(t), by the proper edges, is what can follow t's symbol in a context that leads to t. */
  lemma FollowsExactly(g: Cfg, A: Lr0, t: Transition, a: Symbol)
    requires IsAutomaton(g, A) && IsTransition(g, A, t)
    ensures Follows(g, A, true, t, a) <==> FollowsInContext(g, A, t, a)
  {
    if Follows(g, A, true, t, a) {
      var p :| FollowPath(g, A, true, t, a, p);
      FollowsOccur(g, A, t, a, p);
    }
    if FollowsInContext(g, A, t, a) {
      var before, after :| ContextOf(g, A, t, before, after) && CanFollow(g, after, a);
      var n: nat :| ContextIn(g, before, t.symbol, after, n);
      ContextFollows(g, A, before, t.symbol, after, n, a);
      assert t == Arc(t.state, t.symbol);
    }
  }

  /** A symbol is a lookahead of DeRemer and Pennello for a finished rule in a state if and only if it can
      follow the rule's head in a context in which the automaton comes to that state behind the rule. */
  lemma LookaheadsOccurExactly(g: Cfg, A: Lr0, e: (nat, Item), a: Symbol)
    requires IsAutomaton(g, A) && 0 < e.1.prod && Complete(g, e.1)
    ensures ProperLooksAhead(g, A, e, a) <==> Occurs(g, A, e, a)
  {
    if ProperLooksAhead(g, A, e, a) {
      var t :| IsTransition(g, A, t) && ProperLooksBack(g, A, t, e) && Follows(g, A, true, t, a);
      FollowsExactly(g, A, t, a);
      var before, after :| ContextOf(g, A, t, before, after) && CanFollow(g, after, a);
      WalkOn(g, A, 0, before, g.productions[e.1.prod].rhs);
      assert OccursIn(g, A, e, before, after);
    }
    if Occurs(g, A, e, a) {
      var before, after :| OccursIn(g, A, e, before, after) && CanFollow(g, after, a);
      LookedAhead(g, A, e, a, before, after);
    }
  }

  lemma LookedAhead(g: Cfg, A: Lr0, e: (nat, Item), a: Symbol, before: seq<Symbol>, after: seq<Symbol>)
    requires IsAutomaton(g, A) && 0 < e.1.prod && Complete(g, e.1)
    requires OccursIn(g, A, e, before, after) && CanFollow(g, after, a)
    ensures ProperLooksAhead(g, A, e, a)
  {
    var rule := g.productions[e.1.prod];
    var n: nat :| ContextIn(g, before, rule.name, after, n);
    assert rule.name in g.nonterminals;
    ContextWalks(g, A, before, rule.name, after, n);
    ContextFollows(g, A, before, rule.name, after, n, a);
    OpenedWalks(g, A, e.1.prod, |rule.rhs|, before);
    assert rule.rhs[..|rule.rhs|] == rule.rhs;
    assert ProperLooksBack(g, A, Arc(Walk(g, A, 0, before), rule.name), e);
  }

  /** What the generator computes contains that, and is no more unless a stray edge adds something. */
  lemma LookaheadsInContext(g: Cfg, A: Lr0, D: LalrData, P: Digraph.Problem, Q: Digraph.Problem, e: (nat, Item),
          a: Symbol)
    requires IsLalr(g, A, D, P, Q) && IsAutomaton(g, A) && NoPeriod(g) && 0 < e.1.prod && Complete(g, e.1)
    ensures Occurs(g, A, e, a) ==> e in D.sets && a in D.sets[e]
    ensures StraysHarmless(g, A) ==> (e in D.sets && a in D.sets[e] <==> Occurs(g, A, e, a))
  {
    LookaheadsOccurExactly(g, A, e, a);
    LookaheadsProper(g, A, D, P, Q, e, a);
  }
}
