/** The engine stops. For a grammar without empty rules in which the rules of one symbol do not lead in
    a circle, every run ends after a number of turns linear in the input, whatever the tables do about
    conflicts. Without conflicts the engine then decides the language. */
module LrHalting {
  import opened Cfg
  import opened LrAutomaton
  import opened ParseTable
  import opened ParseTrees
  import opened LrEngine
  import opened LrComplete

  /** No rule is empty, and a rule of one symbol raises the rank, which is at most `top`. */
  ghost predicate Ranked(g: Cfg, rank: Symbol -> nat, top: nat) {
    && (forall x :: rank(x) <= top)
    && (forall p {:trigger g.productions[p]} :: 1 <= p < |g.productions| ==>
          var rhs := g.productions[p].rhs;
          rhs != [] && (|rhs| == 1 ==> rank(rhs[0]) < rank(g.productions[p].name)))
  }

  /** Every turn makes this smaller. */
  ghost function Measure(g: Cfg, rank: Symbol -> nat, top: nat, c: Config): int
    requires c.symbols != []
  {
    (2 * |c.rest| + |c.symbols|) * (top + 1) - rank(Root(g, c.symbols[|c.symbols| - 1]))
  }

  lemma MeasurePositive(g: Cfg, rank: Symbol -> nat, top: nat, c: Config)
    requires Ranked(g, rank, top) && c.symbols != []
    ensures Measure(g, rank, top, c) > 0
  {
    var x := 2 * |c.rest| + |c.symbols|;
    assert x * (top + 1) >= top + 1;
    assert rank(Root(g, c.symbols[|c.symbols| - 1])) <= top;
  }

  lemma InitialMeasure(g: Cfg, rank: Symbol -> nat, top: nat, tokens: seq<Symbol>)
    ensures Measure(g, rank, top, Initial(tokens)) <= Turns(top, tokens)
  {
  }

  lemma Product(x: int, d: int, m: int)
    requires d >= 1 && m >= 1
    ensures (x - d) * m <= x * m - m
  {
    assert (x - d) * m == x * m - d * m;
    assert d * m >= m;
  }

  /** A turn with a reduction. */
  lemma ReduceDrops(g: Cfg, A: Lr0, T: Tables, rank: Symbol -> nat, top: nat, c: Config, p: nat)
    requires Ranked(g, rank, top) && CanReduce(g, A, c, p) && ReduceStep(g, T, c, p).Running?
    ensures ReduceStep(g, T, c, p).config.symbols != []
    ensures Measure(g, rank, top, ReduceStep(g, T, c, p).config) < Measure(g, rank, top, c)
  {
    var rhs, n := g.productions[p].rhs, |g.productions[p].rhs|;
    var c' := ReduceStep(g, T, c, p).config;
    var handle := c.symbols[|c.symbols| - n..];
    var t := Node(p, handle);
    assert c'.symbols == c.symbols[..|c.symbols| - n] + [t];
    assert c'.symbols[|c'.symbols| - 1] == t && Root(g, t) == g.productions[p].name;
    var x := 2 * |c.rest| + |c.symbols|;
    assert 2 * |c'.rest| + |c'.symbols| == x - (n - 1);
    if n == 1 {
      assert Roots(g, handle)[0] == Root(g, handle[0]) == rhs[0];
      assert handle[0] == c.symbols[|c.symbols| - 1];
    } else {
      Product(x, n - 1, top + 1);
      assert rank(g.productions[p].name) <= top && rank(Root(g, c.symbols[|c.symbols| - 1])) <= top;
    }
  }

  lemma ShiftDrops(g: Cfg, T: Tables, rank: Symbol -> nat, top: nat, c: Config, j: nat, a: Symbol)
    requires Ranked(g, rank, top) && c.symbols != [] && c.rest != []
    ensures Measure(g, rank, top, Config(c.states + [j], c.symbols + [Leaf(a)], c.rest[1..])) < Measure(g, rank, top, c)
  {
    var x := 2 * |c.rest| + |c.symbols|;
    var c' := Config(c.states + [j], c.symbols + [Leaf(a)], c.rest[1..]);
    assert 2 * |c'.rest| + |c'.symbols| == x - 1;
    Product(x, 1, top + 1);
    assert rank(Root(g, c.symbols[|c.symbols| - 1])) <= top;
  }

  lemma StepDrops(g: Cfg, A: Lr0, L: Lookaheads, T: Tables, rank: Symbol -> nat, top: nat, c: Config)
    requires IsAutomaton(g, A) && TablesOk(g, A, L, T) && StackOk(g, A, c) && Ranked(g, rank, top)
    requires EngineStep(g, T, c).Running?
    ensures EngineStep(g, T, c).config.symbols != []
    ensures Measure(g, rank, top, EngineStep(g, T, c).config) < Measure(g, rank, top, c)
  {
    var s, a := TopState(c), Lookahead(c.rest);
    assert RowsOk(g, A, L, T, s);
    var act := T.action[s][a];
    assert Candidate(g, A, L, s, a, act);
    match act {
      case Shift(j) => ShiftDrops(g, T, rank, top, c, j, a);
      case Reduce(p) =>
        HandleOnStack(g, A, c, p);
        ReduceDrops(g, A, T, rank, top, c, p);
    }
  }

  /** What is left of the measure after n turns. */
  lemma {:induction false} TurnsCounted(g: Cfg, A: Lr0, L: Lookaheads, T: Tables, rank: Symbol -> nat, top: nat,
          tokens: seq<Symbol>, n: nat)
    requires IsAutomaton(g, A) && TablesOk(g, A, L, T) && AllTerminal(tokens) && Ranked(g, rank, top)
    requires Run(g, T, Initial(tokens), n).Running?
    ensures var c := Run(g, T, Initial(tokens), n).config;
            c.symbols != [] && n <= Measure(g, rank, top, Initial(tokens)) - Measure(g, rank, top, c)
  {
    if n > 0 {
      TurnsCounted(g, A, L, T, rank, top, tokens, n - 1);
      RunSafe(g, A, L, T, tokens, n - 1);
      StepDrops(g, A, L, T, rank, top, Run(g, T, Initial(tokens), n - 1).config);
    }
  }

  /** The number of turns that is enough for an input. */
  function Turns(top: nat, tokens: seq<Symbol>): nat {
    (2 * |tokens| + 1) * (top + 1)
  }

  /** The engine stops, with a tree or a syntax error. */
  lemma Halts(g: Cfg, A: Lr0, L: Lookaheads, T: Tables, rank: Symbol -> nat, top: nat, tokens: seq<Symbol>)
    requires IsAutomaton(g, A) && TablesOk(g, A, L, T) && AllTerminal(tokens) && Ranked(g, rank, top)
    ensures var o := Run(g, T, Initial(tokens), Turns(top, tokens)); o.Accepted? || o == SyntaxError
  {
    var n := Turns(top, tokens);
    RunSafe(g, A, L, T, tokens, n);
    if Run(g, T, Initial(tokens), n).Running? {
      TurnsCounted(g, A, L, T, rank, top, tokens, n);
      MeasurePositive(g, rank, top, Run(g, T, Initial(tokens), n).config);
      InitialMeasure(g, rank, top, tokens);
    }
  }

  /** Without conflicts it decides the language: a tree for every sentence, a syntax error for every
      other input. */
  lemma Decides(g: Cfg, A: Lr0, L: Lookaheads, T: Tables, R: TransMap, W: TransMap, rank: Symbol -> nat, top: nat,
          tokens: seq<Symbol>)
    requires Setup(g, A, L, T, R, W) && AllTerminal(tokens) && Ranked(g, rank, top)
    ensures var o := Run(g, T, Initial(tokens), Turns(top, tokens));
            if Derives(g, [g.Start()], tokens) then o.Accepted? else o == SyntaxError
  {
    Halts(g, A, L, T, rank, top, tokens);
    AcceptsExactlyTheLanguage(g, A, L, T, R, W, tokens);
    if Derives(g, [g.Start()], tokens) {
      var n: nat :| Run(g, T, Initial(tokens), n).Accepted?;
      var m := Turns(top, tokens);
      if n <= m {
        StaysStopped(g, T, Initial(tokens), n, m);
      } else {
        StaysStopped(g, T, Initial(tokens), m, n);
      }
    }
  }
}
