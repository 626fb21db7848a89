/** Context-free grammars as yacc.py leaves them after add_production, set_start and the
    undefined-symbol check, together with the textbook derivation relation that the
    parser generator's results are measured against. */
module Cfg {

  /** A grammar symbol. `EndMarker` is '$end' and `Empty` is '<empty>'; neither can be spelled
      in a rule, because rule symbols are identifiers or one-character literals. */
  datatype Symbol = Terminal(name: string) | Nonterminal(name: string) | EndMarker | Empty

  datatype Assoc = LeftAssoc | RightAssoc | NonAssoc

  datatype Precedence = Precedence(assoc: Assoc, level: int)

  const NO_PRECEDENCE := Precedence(RightAssoc, 0)

  /** One grammar rule: `name : rhs`, with its precedence and the source line of its definition. */
  datatype Production = Production(name: Symbol, rhs: seq<Symbol>, prec: Precedence, line: int)

  /** The head of production 0, the augmented start rule. */
  const AUGMENTED := Nonterminal("S'")

  datatype Cfg = Cfg(terminals: set<Symbol>,
                     nonterminals: seq<Symbol>,
                     productions: seq<Production>,
                     precedence: map<Symbol, Precedence>)
  {
    predicate RuleSymbol(s: Symbol) {
      match s
      case Terminal(_) => s in terminals
      case Nonterminal(_) => s != AUGMENTED && s in nonterminals
      case _ => false
    }

    /** What add_production, set_start and undefined_symbols together guarantee. */
    ghost predicate Valid() {
      && |productions| >= 2
      && productions[0].name == AUGMENTED
      && |productions[0].rhs| == 1
      && productions[0].rhs[0].Nonterminal?
      && (forall t :: t in terminals ==> t.Terminal?)
      && (forall n :: n in nonterminals ==> n.Nonterminal? && n != AUGMENTED)
      && (forall p :: 1 <= p < |productions| ==> productions[p].name in nonterminals)
      && (forall p, k :: 0 <= p < |productions| && 0 <= k < |productions[p].rhs| ==> RuleSymbol(productions[p].rhs[k]))
      && (forall n :: n in nonterminals ==> exists p :: IsRuleOf(p, n))
    }

    /** Production p is one of the rules listed under the nonterminal n in Prodnames. */
    predicate IsRuleOf(p: int, n: Symbol) {
      1 <= p < |productions| && productions[p].name == n
    }

    function Start(): Symbol
      requires Valid()
    {
      productions[0].rhs[0]
    }

    /** Prodnames[n]: the rules of n in definition order. */
    function RulesOf(n: Symbol): (ps: seq<nat>)
      requires Valid()
      ensures forall p :: p in ps <==> IsRuleOf(p, n)
      ensures forall i, j :: 0 <= i < j < |ps| ==> ps[i] < ps[j]
    {
      RulesBelow(n, |productions|)
    }

    function RulesBelow(n: Symbol, hi: nat): (ps: seq<nat>)
      requires hi <= |productions|
      ensures forall p :: p in ps <==> IsRuleOf(p, n) && p < hi
      ensures forall i, j :: 0 <= i < j < |ps| ==> ps[i] < ps[j]
    {
      if hi <= 1 then []
      else
        var rest := RulesBelow(n, hi - 1);
        assert forall i :: 0 <= i < |rest| ==> rest[i] in rest;
        if productions[hi - 1].name == n then rest + [hi - 1] else rest
    }
  }

  // ---- Derivations ---------------------------------------------------------------------

  /** `t` results from `s` by rewriting the nonterminal at position i with rule p. */
  ghost predicate RewriteAt(g: Cfg, s: seq<Symbol>, t: seq<Symbol>, i: int, p: int) {
    && 0 <= i < |s|
    && 1 <= p < |g.productions|
    && s[i] == g.productions[p].name
    && t == s[..i] + g.productions[p].rhs + s[i + 1..]
  }

  ghost predicate Step(g: Cfg, s: seq<Symbol>, t: seq<Symbol>) {
    exists i, p :: RewriteAt(g, s, t, i, p)
  }

  /** `s` derives `t` in exactly n steps. */
  ghost predicate DerivesIn(g: Cfg, s: seq<Symbol>, t: seq<Symbol>, n: nat)
    decreases n
  {
    if n == 0 then s == t else exists m :: Step(g, s, m) && DerivesIn(g, m, t, n - 1)
  }

  ghost predicate Derives(g: Cfg, s: seq<Symbol>, t: seq<Symbol>) {
    exists n: nat :: DerivesIn(g, s, t, n)
  }

  lemma DerivesRefl(g: Cfg, s: seq<Symbol>)
    ensures Derives(g, s, s)
  {
    assert DerivesIn(g, s, s, 0);
  }

  lemma {:induction false} DerivesInTrans(g: Cfg, s: seq<Symbol>, t: seq<Symbol>, u: seq<Symbol>, m: nat, n: nat)
    requires DerivesIn(g, s, t, m) && DerivesIn(g, t, u, n)
    ensures DerivesIn(g, s, u, m + n)
    decreases m
  {
    if m > 0 {
      var x :| Step(g, s, x) && DerivesIn(g, x, t, m - 1);
      DerivesInTrans(g, x, t, u, m - 1, n);
    }
  }

  lemma DerivesTrans(g: Cfg, s: seq<Symbol>, t: seq<Symbol>, u: seq<Symbol>)
    requires Derives(g, s, t) && Derives(g, t, u)
    ensures Derives(g, s, u)
  {
    var m: nat :| DerivesIn(g, s, t, m);
    var n: nat :| DerivesIn(g, t, u, n);
    DerivesInTrans(g, s, t, u, m, n);
  }

  lemma StepInContext(g: Cfg, l: seq<Symbol>, s: seq<Symbol>, t: seq<Symbol>, r: seq<Symbol>)
    requires Step(g, s, t)
    ensures Step(g, l + s + r, l + t + r)
  {
    var i, p :| RewriteAt(g, s, t, i, p);
    var x := l + s + r;
    assert x[..|l| + i] == l + s[..i];
    assert x[|l| + i + 1..] == s[i + 1..] + r;
    assert RewriteAt(g, x, l + t + r, |l| + i, p);
  }

  lemma {:induction false} DerivesInContext(g: Cfg, l: seq<Symbol>, s: seq<Symbol>, t: seq<Symbol>,
          r: seq<Symbol>, n: nat)
    requires DerivesIn(g, s, t, n)
    ensures DerivesIn(g, l + s + r, l + t + r, n)
    decreases n
  {
    if n > 0 {
      var x :| Step(g, s, x) && DerivesIn(g, x, t, n - 1);
      StepInContext(g, l, s, x, r);
      DerivesInContext(g, l, x, t, r, n - 1);
    }
  }

  lemma DerivesWithRight(g: Cfg, s: seq<Symbol>, t: seq<Symbol>, r: seq<Symbol>)
    requires Derives(g, s, t)
    ensures Derives(g, s + r, t + r)
  {
    var m: nat :| DerivesIn(g, s, t, m);
    DerivesInContext(g, [], s, t, r, m);
    assert [] + s + r == s + r && [] + t + r == t + r;
  }

  lemma DerivesWithLeft(g: Cfg, l: seq<Symbol>, s: seq<Symbol>, t: seq<Symbol>)
    requires Derives(g, s, t)
    ensures Derives(g, l + s, l + t)
  {
    var m: nat :| DerivesIn(g, s, t, m);
    DerivesInContext(g, l, s, t, [], m);
    assert l + s + [] == l + s && l + t + [] == l + t;
  }

  /** Derivations of two halves run side by side. */
  lemma DerivesConcat(g: Cfg, s1: seq<Symbol>, t1: seq<Symbol>, s2: seq<Symbol>, t2: seq<Symbol>)
    requires Derives(g, s1, t1) && Derives(g, s2, t2)
    ensures Derives(g, s1 + s2, t1 + t2)
  {
    DerivesWithRight(g, s1, t1, s2);
    DerivesWithLeft(g, t1, s2, t2);
    DerivesTrans(g, s1 + s2, t1 + s2, t1 + t2);
  }

  /** A nonterminal derives the right-hand side of each of its rules. */
  lemma DerivesRule(g: Cfg, p: int)
    requires 1 <= p < |g.productions|
    ensures Derives(g, [g.productions[p].name], g.productions[p].rhs)
  {
    var s := [g.productions[p].name];
    var rhs := g.productions[p].rhs;
    assert s[..0] + rhs + s[1..] == rhs;
    assert RewriteAt(g, s, rhs, 0, p);
    assert Step(g, s, rhs) && DerivesIn(g, rhs, rhs, 0);
    assert DerivesIn(g, s, rhs, 1);
  }

  /** The terminal `a` can begin a sentential form derived from `s`. */
  ghost predicate Begins(g: Cfg, s: seq<Symbol>, a: Symbol) {
    exists w :: Derives(g, s, [a] + w)
  }

  ghost predicate Vanishes(g: Cfg, s: seq<Symbol>) {
    Derives(g, s, [])
  }

  /** The symbol `b` can stand immediately after `n` in a form derived from some nonterminal
      (rules of unreachable nonterminals count too, as they do in yacc.py). */
  ghost predicate Adjacent(g: Cfg, n: Symbol, b: Symbol) {
    exists h, l, r :: h in g.nonterminals && Derives(g, [h], l + [n, b] + r)
  }

  /** `n` can end a sentential form derived from `h`. */
  ghost predicate Ends(g: Cfg, h: Symbol, n: Symbol) {
    exists l :: Derives(g, [h], l + [n])
  }
}
