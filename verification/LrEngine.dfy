/** parseopt_notrack: the shift/reduce engine that interprets the tables, stopped at the first
    syntax error. Everything here holds for every grammar and every way conflicts were resolved. */
module LrEngine {
  import opened Cfg
  import opened LrAutomaton
  import opened ParseTable
  import opened ParseTrees

  /** statestack, symstack (with its '$end' sentinel at the bottom) and the unread tokens. */
  datatype Config = Config(states: seq<nat>, symbols: seq<Tree>, rest: seq<Symbol>)

  /** `Crash` stands for a KeyError or IndexError inside the engine. */
  datatype Outcome = Running(config: Config) | Accepted(tree: Tree) | SyntaxError | Crash

  function Lookahead(rest: seq<Symbol>): Symbol {
    if rest == [] then EndMarker else rest[0]
  }

  function Initial(tokens: seq<Symbol>): Config {
    Config([0], [Leaf(EndMarker)], tokens)
  }

  /** One turn of the engine's loop. */
  function EngineStep(g: Cfg, T: Tables, c: Config): Outcome {
    if c.states == [] || c.symbols == [] then Crash
    else
      var state := c.states[|c.states| - 1];
      if state >= |T.action| then Crash
      else
        var a := Lookahead(c.rest);
        if a !in T.action[state] then SyntaxError
        else match T.action[state][a]
          case Forbidden => SyntaxError
          case Accept => Accepted(c.symbols[|c.symbols| - 1])
          case Shift(j) => if c.rest == [] then Crash
            else Running(Config(c.states + [j], c.symbols + [Leaf(a)], c.rest[1..]))
          case Reduce(p) => ReduceStep(g, T, c, p)
  }

  /** Pop the right-hand side of rule p, push its head and the state goto names. */
  function ReduceStep(g: Cfg, T: Tables, c: Config, p: nat): Outcome {
    if p >= |g.productions| then Crash
    else
      var n := |g.productions[p].rhs|;
      if n >= |c.states| || n >= |c.symbols| then Crash
      else
        var states, symbols := c.states[..|c.states| - n], c.symbols[..|c.symbols| - n];
        var top := states[|states| - 1];
        if top >= |T.goto| || g.productions[p].name !in T.goto[top] then Crash
        else Running(Config(states + [T.goto[top][g.productions[p].name]],
          symbols + [Node(p, c.symbols[|c.symbols| - n..])], c.rest))
  }

  function Run(g: Cfg, T: Tables, c: Config, n: nat): (o: Outcome)
    decreases n
  {
    if n == 0 then Running(c)
    else match Run(g, T, c, n - 1)
      case Running(c') => EngineStep(g, T, c')
      case stopped => stopped
  }

  /** Some number of turns ends in acceptance. */
  ghost predicate Accepts(g: Cfg, T: Tables, tokens: seq<Symbol>) {
    exists n: nat :: Run(g, T, Initial(tokens), n).Accepted?
  }

  ghost predicate AcceptsTheLanguage(g: Cfg, T: Tables)
    requires g.Valid()
  {
    forall tokens :: AllTerminal(tokens) ==> (Accepts(g, T, tokens) <==> Derives(g, [g.Start()], tokens))
  }

  ghost predicate NoSentences(g: Cfg)
    requires g.Valid()
  {
    forall tokens :: AllTerminal(tokens) ==> !Derives(g, [g.Start()], tokens)
  }

  // ---- The stack invariant -------------------------------------------------------------

  /** Entry i of the stack is the goto of the entry below over its symbol, which is a parse tree;
      state 0 occurs only at the bottom. */
  ghost predicate EntryOk(g: Cfg, A: Lr0, c: Config, i: int)
    requires 0 < i < |c.states| == |c.symbols|
    requires c.states[i - 1] < |A.states|
  {
    && 0 < c.states[i] < |A.states|
    && ValidTree(g, c.symbols[i])
    && GotoState(g, A, c.states[i - 1], Root(g, c.symbols[i])) == c.states[i]
  }

  ghost predicate StackOk(g: Cfg, A: Lr0, c: Config) {
    && |c.states| == |c.symbols| > 0
    && c.states[0] == 0
    && (forall i :: 0 <= i < |c.states| ==> c.states[i] < |A.states|)
    && (forall i :: 0 < i < |c.states| ==> EntryOk(g, A, c, i))
    && AllTerminal(c.rest)
  }

  /** The yields on the stack and the unread tokens still spell the input. */
  ghost predicate Spells(c: Config, input: seq<Symbol>) {
    c.symbols != [] && YieldAll(c.symbols[1..]) + c.rest == input
  }

  /** The sentential form a configuration stands for. */
  ghost function Form(g: Cfg, c: Config): seq<Symbol>
    requires c.symbols != []
  {
    Roots(g, c.symbols[1..]) + c.rest
  }

  function TopState(c: Config): nat
    requires c.states != []
  {
    c.states[|c.states| - 1]
  }

  /** State s exists and contains the item. */
  ghost predicate Has(A: Lr0, s: nat, p: nat, d: nat) {
    s < |A.states| && Item(p, d) in A.states[s].items
  }

  /** An item whose dot has moved lies above the symbol it moved over, one place earlier below. */
  lemma ItemDown(g: Cfg, A: Lr0, c: Config, i: nat, p: nat, d: nat)
    requires IsAutomaton(g, A) && StackOk(g, A, c) && i < |c.states| && d > 0 && Has(A, c.states[i], p, d)
    ensures i > 0 && Has(A, c.states[i - 1], p, d - 1)
    ensures p < |g.productions| && d <= |g.productions[p].rhs| && Root(g, c.symbols[i]) == g.productions[p].rhs[d - 1]
  {
    ItemKinds(g, A, c.states[i], Item(p, d));
    assert EntryOk(g, A, c, i);
    GotoBack(g, A, c.states[i - 1], Root(g, c.symbols[i]), Item(p, d));
  }

  /** Going down the stack from a state that contains the item with the dot at position d, the
      symbols passed are the rule's, and k entries lower the dot is k places earlier. */
  lemma {:induction false} ItemDownStack(g: Cfg, A: Lr0, c: Config, top: nat, p: nat, d: nat, k: nat)
    requires IsAutomaton(g, A) && StackOk(g, A, c) && top < |c.states| && k <= d && p < |g.productions|
    requires Has(A, c.states[top], p, d) && d <= |g.productions[p].rhs|
    ensures k <= top && Has(A, c.states[top - k], p, d - k)
    ensures forall j :: top - k < j <= top ==> Root(g, c.symbols[j]) == g.productions[p].rhs[d - 1 - (top - j)]
  {
    if k > 0 {
      ItemDownStack(g, A, c, top, p, d, k - 1);
      ItemDown(g, A, c, top - (k - 1), p, d - (k - 1));
    }
  }

  lemma HandleRoots(g: Cfg, A: Lr0, c: Config, p: nat)
    requires IsAutomaton(g, A) && StackOk(g, A, c) && 1 <= p < |g.productions|
    requires Has(A, TopState(c), p, |g.productions[p].rhs|)
    ensures |g.productions[p].rhs| < |c.states|
    ensures Has(A, c.states[|c.states| - 1 - |g.productions[p].rhs|], p, 0)
    ensures Roots(g, c.symbols[|c.symbols| - |g.productions[p].rhs|..]) == g.productions[p].rhs
  {
    var rhs := g.productions[p].rhs;
    var n, top := |rhs|, |c.states| - 1;
    ItemDownStack(g, A, c, top, p, n, n);
    var handle := c.symbols[|c.symbols| - n..];
    forall i | 0 <= i < n ensures Root(g, handle[i]) == rhs[i] {
      var j := top - n + 1 + i;
      assert handle[i] == c.symbols[j];
    }
  }

  /** A finished item on top of the stack: its right-hand side lies on the stack, and the state
      below has a goto over its head. */
  lemma HandleOnStack(g: Cfg, A: Lr0, c: Config, p: nat)
    requires IsAutomaton(g, A) && StackOk(g, A, c) && 1 <= p < |g.productions|
    requires Has(A, TopState(c), p, |g.productions[p].rhs|)
    ensures CanReduce(g, A, c, p)
  {
    HandleRoots(g, A, c, p);
    HeadGoto(g, A, Below(g, c, p), p);
  }

  /** A state in which a rule begins has a goto over the rule's head. */
  lemma HeadGoto(g: Cfg, A: Lr0, s: nat, p: nat)
    requires IsAutomaton(g, A) && 1 <= p < |g.productions| && Has(A, s, p, 0)
    ensures 0 < GotoState(g, A, s, g.productions[p].name) < |A.states|
  {
    RuleExpected(g, A, s, p);
    var it :| it in A.states[s].items && DotBefore(g, it, g.productions[p].name);
    GotoForward(g, A, s, it, g.productions[p].name);
  }

  // ---- Every step keeps the invariant --------------------------------------------------

  /** Push state j and tree t in place of the topmost n entries. */
  function Replace(c: Config, n: nat, j: nat, t: Tree, rest: seq<Symbol>): Config
    requires n < |c.states| == |c.symbols|
  {
    Config(c.states[..|c.states| - n] + [j], c.symbols[..|c.symbols| - n] + [t], rest)
  }

  lemma PushKeepsStack(g: Cfg, A: Lr0, c: Config, n: nat, j: nat, t: Tree, rest: seq<Symbol>)
    requires StackOk(g, A, c) && n < |c.states| && ValidTree(g, t) && AllTerminal(rest)
    requires 0 < j < |A.states| && GotoState(g, A, c.states[|c.states| - 1 - n], Root(g, t)) == j
    ensures StackOk(g, A, Replace(c, n, j, t, rest))
  {
    var c' := Replace(c, n, j, t, rest);
    var m := |c.states| - n;
    forall i | 0 < i < |c'.states| ensures EntryOk(g, A, c', i) {
      if i < m {
        assert EntryOk(g, A, c, i);
        assert c'.states[i] == c.states[i] && c'.states[i - 1] == c.states[i - 1] && c'.symbols[i] == c.symbols[i];
      } else {
        assert c'.states[i] == j && c'.states[i - 1] == c.states[m - 1] && c'.symbols[i] == t;
      }
    }
  }

  lemma ShiftKeeps(g: Cfg, A: Lr0, c: Config, a: Symbol, it: Item, input: seq<Symbol>)
    requires IsAutomaton(g, A) && StackOk(g, A, c) && Spells(c, input)
    requires c.rest != [] && c.rest[0] == a && it in A.states[TopState(c)].items && DotBefore(g, it, a)
    ensures GotoState(g, A, TopState(c), a) > 0
    ensures Continues(g, A, c, input, Replace(c, 0, GotoState(g, A, TopState(c), a), Leaf(a), c.rest[1..]))
  {
    GotoForward(g, A, TopState(c), it, a);
    var j := GotoState(g, A, TopState(c), a);
    PushKeepsStack(g, A, c, 0, j, Leaf(a), c.rest[1..]);
    ShiftForm(g, c.symbols, a, c.rest);
    assert c.symbols[..|c.symbols|] == c.symbols;
  }

  lemma ShiftForm(g: Cfg, symbols: seq<Tree>, a: Symbol, rest: seq<Symbol>)
    requires symbols != [] && rest != [] && rest[0] == a
    ensures YieldAll((symbols + [Leaf(a)])[1..]) + rest[1..] == YieldAll(symbols[1..]) + rest
    ensures Roots(g, (symbols + [Leaf(a)])[1..]) + rest[1..] == Roots(g, symbols[1..]) + rest
  {
    assert (symbols + [Leaf(a)])[1..] == symbols[1..] + [Leaf(a)];
    YieldConcat(symbols[1..], [Leaf(a)]);
    YieldOne(Leaf(a));
    assert rest == [a] + rest[1..];
    assert Roots(g, (symbols + [Leaf(a)])[1..]) == Roots(g, symbols[1..]) + [a];
  }

  /** c' is a well-formed successor of c: same input, and its form is c's or derives it rightmost. */
  ghost predicate Continues(g: Cfg, A: Lr0, c: Config, input: seq<Symbol>, c': Config)
    requires c.symbols != []
  {
    && StackOk(g, A, c')
    && Spells(c', input)
    && (Form(g, c') == Form(g, c) || RightmostStep(g, Form(g, c'), Form(g, c)))
  }

  /** `t` results from `s` by rewriting its rightmost nonterminal. */
  ghost predicate RightmostStep(g: Cfg, s: seq<Symbol>, t: seq<Symbol>) {
    exists i, p :: RewriteAt(g, s, t, i, p) && AllTerminal(s[i + 1..])
  }

  ghost predicate RightmostDerives(g: Cfg, s: seq<Symbol>, t: seq<Symbol>, n: nat)
    decreases n
  {
    if n == 0 then s == t else exists m :: RightmostStep(g, s, m) && RightmostDerives(g, m, t, n - 1)
  }

  /** The state uncovered by popping the right-hand side of rule p. */
  function Below(g: Cfg, c: Config, p: nat): nat
    requires p < |g.productions| && |g.productions[p].rhs| < |c.states|
  {
    c.states[|c.states| - 1 - |g.productions[p].rhs|]
  }

  /** The handle of rule p is on the stack and the state below it has a goto over p's head. */
  ghost predicate CanReduce(g: Cfg, A: Lr0, c: Config, p: nat) {
    && 1 <= p < |g.productions|
    && |g.productions[p].rhs| < |c.states| == |c.symbols|
    && Roots(g, c.symbols[|c.symbols| - |g.productions[p].rhs|..]) == g.productions[p].rhs
    && Below(g, c, p) < |A.states|
    && 0 < GotoState(g, A, Below(g, c, p), g.productions[p].name) < |A.states|
  }

  /** The configuration after reducing by rule p. */
  ghost function Reduced(g: Cfg, A: Lr0, c: Config, p: nat): Config
    requires CanReduce(g, A, c, p)
  {
    var n := |g.productions[p].rhs|;
    Replace(c, n, GotoState(g, A, Below(g, c, p), g.productions[p].name), Node(p, c.symbols[|c.symbols| - n..]), c.rest)
  }

  lemma ReduceKeeps(g: Cfg, A: Lr0, c: Config, p: nat, input: seq<Symbol>)
    requires StackOk(g, A, c) && Spells(c, input) && CanReduce(g, A, c, p)
    ensures Continues(g, A, c, input, Reduced(g, A, c, p))
  {
    var n := |g.productions[p].rhs|;
    var m := |c.states| - n;
    var t := Node(p, c.symbols[m..]);
    HandleValid(g, A, c, m);
    PushKeepsStack(g, A, c, n, GotoState(g, A, Below(g, c, p), g.productions[p].name), t, c.rest);
    ReduceForm(g, c.symbols, m, p, c.rest);
  }

  lemma ReduceForm(g: Cfg, symbols: seq<Tree>, m: nat, p: nat, rest: seq<Symbol>)
    requires 0 < m <= |symbols| && 1 <= p < |g.productions| && Roots(g, symbols[m..]) == g.productions[p].rhs
             && AllTerminal(rest)
    ensures YieldAll((symbols[..m] + [Node(p, symbols[m..])])[1..]) == YieldAll(symbols[1..])
    ensures RightmostStep(g, Roots(g, (symbols[..m] + [Node(p, symbols[m..])])[1..]) + rest,
      Roots(g, symbols[1..]) + rest)
  {
    var t := Node(p, symbols[m..]);
    var low := symbols[1..m];
    assert symbols[1..] == low + symbols[m..] && (symbols[..m] + [t])[1..] == low + [t];
    YieldConcat(low, symbols[m..]);
    YieldConcat(low, [t]);
    YieldOne(t);
    FormReduced(g, low, symbols[m..], p, rest);
  }

  lemma {:induction false} HandleValid(g: Cfg, A: Lr0, c: Config, m: nat)
    requires StackOk(g, A, c) && 0 < m <= |c.symbols|
    ensures ValidTrees(g, c.symbols[m..])
    decreases |c.symbols| - m
  {
    if m < |c.symbols| {
      HandleValid(g, A, c, m + 1);
      assert EntryOk(g, A, c, m);
      assert c.symbols[m..][1..] == c.symbols[m + 1..];
    }
  }

  lemma FormReduced(g: Cfg, low: seq<Tree>, handle: seq<Tree>, p: nat, rest: seq<Symbol>)
    requires 1 <= p < |g.productions| && Roots(g, handle) == g.productions[p].rhs && AllTerminal(rest)
    ensures RightmostStep(g, Roots(g, low + [Node(p, handle)]) + rest, Roots(g, low + handle) + rest)
  {
    var s := Roots(g, low + [Node(p, handle)]) + rest;
    var t := Roots(g, low + handle) + rest;
    var i := |low|;
    assert Roots(g, low + handle) == Roots(g, low) + Roots(g, handle);
    assert s[..i] == Roots(g, low) && s[i + 1..] == rest;
    assert RewriteAt(g, s, t, i, p);
  }

  /** What one step of a well-formed configuration leads to. */
  ghost predicate StepMeaning(g: Cfg, A: Lr0, c: Config, input: seq<Symbol>, o: Outcome)
    requires c.symbols != []
  {
    match o
    case Crash => false
    case SyntaxError => true
    case Running(c') => Continues(g, A, c, input, c')
    case Accepted(t) => ValidTree(g, t) && g.Valid() && Root(g, t) == g.Start() && Yield(t) == input && Form(g, c) == [g.Start()]
  }

  lemma AcceptMeans(g: Cfg, A: Lr0, c: Config, input: seq<Symbol>)
    requires IsAutomaton(g, A) && StackOk(g, A, c) && Spells(c, input) && c.rest == []
    requires Item(0, 1) in A.states[TopState(c)].items
    ensures |c.symbols| == 2 && StepMeaning(g, A, c, input, Accepted(c.symbols[|c.symbols| - 1]))
  {
    var i := |c.states| - 1;
    ItemDown(g, A, c, i, 0, 1);
    StartItemOnlyAtStart(g, A, c.states[i - 1]);
    assert i - 1 > 0 ==> EntryOk(g, A, c, i - 1);
    assert EntryOk(g, A, c, i);
    assert c.symbols[1..] == [c.symbols[1]];
    YieldOne(c.symbols[1]);
    assert Form(g, c) == [g.Start()];
  }

  lemma ReduceStepSafe(g: Cfg, A: Lr0, L: Lookaheads, T: Tables, c: Config, p: nat, input: seq<Symbol>)
    requires TablesOk(g, A, L, T) && StackOk(g, A, c) && Spells(c, input) && CanReduce(g, A, c, p)
             && g.productions[p].name.Nonterminal?
    ensures ReduceStep(g, T, c, p) == Running(Reduced(g, A, c, p))
    ensures Continues(g, A, c, input, Reduced(g, A, c, p))
  {
    ReduceKeeps(g, A, c, p, input);
    assert RowsOk(g, A, L, T, Below(g, c, p));
  }

  /** Taking an action that an item of the top state offers. */
  lemma OfferSafe(g: Cfg, A: Lr0, L: Lookaheads, T: Tables, c: Config, input: seq<Symbol>, it: Item, act: Action)
    requires IsAutomaton(g, A) && TablesOk(g, A, L, T) && StackOk(g, A, c) && Spells(c, input)
    requires Lookahead(c.rest) in T.action[TopState(c)] && T.action[TopState(c)][Lookahead(c.rest)] == act
    requires it in A.states[TopState(c)].items && Offers(g, A, L, TopState(c), it, Lookahead(c.rest), act)
    ensures StepMeaning(g, A, c, input, EngineStep(g, T, c))
  {
    match act {
      case Shift(j) =>
        ShiftKeeps(g, A, c, Lookahead(c.rest), it, input);
        assert c.states[..|c.states|] == c.states && c.symbols[..|c.symbols|] == c.symbols;
      case Accept =>
        assert it == Item(0, 1);
        AcceptMeans(g, A, c, input);
      case Reduce(p) =>
        assert it == Item(p, |g.productions[p].rhs|);
        HandleOnStack(g, A, c, p);
        assert g.productions[p].name in g.nonterminals;
        ReduceStepSafe(g, A, L, T, c, p, input);
    }
  }

  /** Whatever the conflict resolution chose, the engine's next step is well defined and keeps the
      stack a path of the automaton that spells the input. */
  lemma StepSafe(g: Cfg, A: Lr0, L: Lookaheads, T: Tables, c: Config, input: seq<Symbol>)
    requires IsAutomaton(g, A) && TablesOk(g, A, L, T) && StackOk(g, A, c) && Spells(c, input)
    ensures StepMeaning(g, A, c, input, EngineStep(g, T, c))
  {
    var s, a := TopState(c), Lookahead(c.rest);
    assert RowsOk(g, A, L, T, s);
    if a in T.action[s] && T.action[s][a] != Forbidden {
      var act := T.action[s][a];
      assert Candidate(g, A, L, s, a, act);
      var it :| it in A.states[s].items && Offers(g, A, L, s, it, a, act);
      OfferSafe(g, A, L, T, c, input, it, act);
    }
  }

  // ---- Runs ----------------------------------------------------------------------------

  lemma InitialOk(g: Cfg, A: Lr0, tokens: seq<Symbol>)
    requires IsAutomaton(g, A) && AllTerminal(tokens)
    ensures StackOk(g, A, Initial(tokens)) && Spells(Initial(tokens), tokens) && Form(g, Initial(tokens)) == tokens
  {
    assert [Leaf(EndMarker)][1..] == [];
    assert [] + tokens == tokens;
  }

  /** After n steps a configuration is well formed and its form derives the input rightmost. */
  ghost predicate RunMeaning(g: Cfg, A: Lr0, input: seq<Symbol>, n: nat, o: Outcome) {
    match o
    case Crash => false
    case SyntaxError => true
    case Running(c) => StackOk(g, A, c) && Spells(c, input) && exists m: nat :: m <= n && RightmostDerives(g, Form(g, c), input, m)
    case Accepted(t) =>
      && g.Valid() && ValidTree(g, t) && Root(g, t) == g.Start() && Yield(t) == input
      && exists m: nat :: m <= n && RightmostDerives(g, [g.Start()], input, m)
  }

  /** One more step of a run. */
  lemma RunOn(g: Cfg, A: Lr0, L: Lookaheads, T: Tables, tokens: seq<Symbol>, n: nat, c: Config)
    requires IsAutomaton(g, A) && TablesOk(g, A, L, T) && RunMeaning(g, A, tokens, n, Running(c))
    ensures RunMeaning(g, A, tokens, n + 1, EngineStep(g, T, c))
  {
    StepSafe(g, A, L, T, c, tokens);
    var m: nat :| m <= n && RightmostDerives(g, Form(g, c), tokens, m);
    var o := EngineStep(g, T, c);
    if o.Running? && Form(g, o.config) != Form(g, c) {
      FormOn(g, Form(g, o.config), Form(g, c), tokens, m);
    }
  }

  lemma FormOn(g: Cfg, s: seq<Symbol>, t: seq<Symbol>, u: seq<Symbol>, m: nat)
    requires RightmostStep(g, s, t) && RightmostDerives(g, t, u, m)
    ensures RightmostDerives(g, s, u, m + 1)
  {
  }

  /** Safety of every run: no step fails for want of a stack entry, a rule or a goto, and an
      accepted input has a parse tree and a rightmost derivation from the start symbol. */
  lemma {:induction false} RunSafe(g: Cfg, A: Lr0, L: Lookaheads, T: Tables, tokens: seq<Symbol>, n: nat)
    requires IsAutomaton(g, A) && TablesOk(g, A, L, T) && AllTerminal(tokens)
    ensures RunMeaning(g, A, tokens, n, Run(g, T, Initial(tokens), n))
  {
    if n == 0 {
      InitialOk(g, A, tokens);
      assert RightmostDerives(g, tokens, tokens, 0);
    } else {
      RunSafe(g, A, L, T, tokens, n - 1);
      var o := Run(g, T, Initial(tokens), n - 1);
      match o {
        case Running(c) => RunOn(g, A, L, T, tokens, n - 1, c);
        case _ =>
      }
    }
  }

  /** Only sentences are accepted. */
  lemma AcceptsOnlySentences(g: Cfg, A: Lr0, L: Lookaheads, T: Tables, tokens: seq<Symbol>, n: nat)
    requires IsAutomaton(g, A) && TablesOk(g, A, L, T) && AllTerminal(tokens)
    requires Run(g, T, Initial(tokens), n).Accepted?
    ensures Derives(g, [g.Start()], tokens)
  {
    RunSafe(g, A, L, T, tokens, n);
    TreeDerives(g, Run(g, T, Initial(tokens), n).tree);
  }

  /** The turn before acceptance reduces to the start symbol at the end of the input. */
  lemma {:induction false} LastReduction(g: Cfg, A: Lr0, L: Lookaheads, T: Tables, tokens: seq<Symbol>, n: nat)
    returns (s: nat, p: nat)
    requires IsAutomaton(g, A) && TablesOk(g, A, L, T) && AllTerminal(tokens)
    requires Run(g, T, Initial(tokens), n).Accepted?
    ensures s < |A.states| && 0 < p < |g.productions| && g.productions[p].name == g.Start()
    ensures L.Known(g, s, p) && EndMarker in L.Of(g, s, p)
  {
    var o := Run(g, T, Initial(tokens), n - 1);
    if o.Accepted? {
      s, p := LastReduction(g, A, L, T, tokens, n - 1);
    } else {
      LastTurns(g, A, L, T, tokens, n - 1, o.config);
      var c := Run(g, T, Initial(tokens), n - 2).config;
      s := TopState(c);
      p := StartReduced(g, A, L, T, c, o.config);
    }
  }

  lemma LastTurns(g: Cfg, A: Lr0, L: Lookaheads, T: Tables, tokens: seq<Symbol>, n: nat, c: Config)
    requires IsAutomaton(g, A) && TablesOk(g, A, L, T) && AllTerminal(tokens)
    requires Run(g, T, Initial(tokens), n) == Running(c) && EngineStep(g, T, c).Accepted?
    ensures c.rest == [] && |c.symbols| == 2 && Root(g, c.symbols[1]) == g.Start()
    ensures n > 0 && Run(g, T, Initial(tokens), n - 1).Running?
    ensures StackOk(g, A, Run(g, T, Initial(tokens), n - 1).config)
  {
    RunSafe(g, A, L, T, tokens, n);
    AcceptShape(g, A, L, T, c, tokens);
    RunSafe(g, A, L, T, tokens, n - 1);
  }

  /** What lies on the stack when the engine accepts. */
  lemma AcceptShape(g: Cfg, A: Lr0, L: Lookaheads, T: Tables, c: Config, input: seq<Symbol>)
    requires IsAutomaton(g, A) && TablesOk(g, A, L, T) && StackOk(g, A, c) && Spells(c, input)
    requires EngineStep(g, T, c).Accepted?
    ensures c.rest == [] && |c.symbols| == 2 && Root(g, c.symbols[1]) == g.Start()
  {
    StepSafe(g, A, L, T, c, input);
    var s, a := TopState(c), Lookahead(c.rest);
    assert RowsOk(g, A, L, T, s);
    assert Candidate(g, A, L, s, a, Accept);
    assert Form(g, c) == Roots(g, c.symbols[1..]);
    assert Form(g, c)[0] == g.Start();
  }

  /** The turn that puts the start symbol there. */
  lemma StartReduced(g: Cfg, A: Lr0, L: Lookaheads, T: Tables, c: Config, c': Config) returns (p: nat)
    requires IsAutomaton(g, A) && TablesOk(g, A, L, T) && StackOk(g, A, c)
    requires EngineStep(g, T, c) == Running(c') && c'.rest == [] && |c'.symbols| == 2 &&
      Root(g, c'.symbols[1]) == g.Start()
    ensures 0 < p < |g.productions| && g.productions[p].name == g.Start()
    ensures L.Known(g, TopState(c), p) && EndMarker in L.Of(g, TopState(c), p)
  {
    var s, a := TopState(c), Lookahead(c.rest);
    assert RowsOk(g, A, L, T, s);
    var act := T.action[s][a];
    assert Candidate(g, A, L, s, a, act);
    assert act.Reduce?;
    p := act.prod;
    assert c'.symbols[|c'.symbols| - 1].prod == p;
  }

  lemma {:induction false} StaysStopped(g: Cfg, T: Tables, c: Config, m: nat, n: nat)
    requires m <= n && !Run(g, T, c, m).Running?
    ensures Run(g, T, c, n) == Run(g, T, c, m)
    decreases n
  {
    if m < n {
      StaysStopped(g, T, c, m, n - 1);
    }
  }

  /** The tables belong to the automaton of the grammar, for some source of lookaheads. */
  ghost predicate FromGenerator(g: Cfg, T: Tables) {
    exists A, L :: IsAutomaton(g, A) && TablesOk(g, A, L, T)
  }

  ghost predicate ParseTree(g: Cfg, t: Tree, tokens: seq<Symbol>) {
    g.Valid() && ValidTree(g, t) && Root(g, t) == g.Start() && Yield(t) == tokens
  }

  /** With generated tables no lookup ever fails, and what is returned is a parse tree of the input. */
  lemma GeneratedIsSafe(g: Cfg, T: Tables, tokens: seq<Symbol>, n: nat)
    requires FromGenerator(g, T) && AllTerminal(tokens)
    ensures var o := Run(g, T, Initial(tokens), n); o != Crash && (o.Accepted? ==> ParseTree(g, o.tree, tokens))
  {
    var A, L :| IsAutomaton(g, A) && TablesOk(g, A, L, T);
    RunSafe(g, A, L, T, tokens, n);
  }

  /** The parser object: the engine run for at most `limit` turns of its loop. */
  class LRParser {
    const g: Cfg
    const T: Tables
    var statestack: seq<nat>
    var symstack: seq<Tree>

    constructor (g: Cfg, T: Tables)
      ensures this.g == g && this.T == T
    {
      this.g, this.T := g, T;
      statestack, symstack := [], [];
    }

    method Parse(tokens: seq<Symbol>, limit: nat) returns (o: Outcome)
      modifies this
      ensures o == Run(g, T, Initial(tokens), limit)
      ensures FromGenerator(g, T) && AllTerminal(tokens) ==> o != Crash
      ensures FromGenerator(g, T) && AllTerminal(tokens) && o.Accepted? ==> ParseTree(g, o.tree, tokens)
      ensures o.Running? ==> o.config.states == statestack && o.config.symbols == symstack
    {
      if FromGenerator(g, T) && AllTerminal(tokens) {
        GeneratedIsSafe(g, T, tokens, limit);
      }
      statestack := [0];
      symstack := [Leaf(EndMarker)];
      var rest := tokens;
      for n := 0 to limit
        invariant Run(g, T, Initial(tokens), n) == Running(Config(statestack, symstack, rest))
      {
        o, rest := Turn(rest);
        if !o.Running? {
          StaysStopped(g, T, Initial(tokens), n + 1, limit);
          return;
        }
      }
      o := Running(Config(statestack, symstack, rest));
    }

    /** One turn of the loop. */
    method Turn(rest: seq<Symbol>) returns (o: Outcome, rest': seq<Symbol>)
      modifies this
      ensures o == EngineStep(g, T, old(Config(statestack, symstack, rest)))
      ensures o.Running? ==> o.config == Config(statestack, symstack, rest')
    {
      rest' := rest;
      if statestack == [] || symstack == [] || statestack[|statestack| - 1] >= |T.action| {
        return Crash, rest;
      }
      var a := if rest == [] then EndMarker else rest[0];
      var state := statestack[|statestack| - 1];
      if a !in T.action[state] || T.action[state][a] == Forbidden {
        return SyntaxError, rest;
      }
      if T.action[state][a] == Accept {
        return Accepted(symstack[|symstack| - 1]), rest;
      }
      var ok := true;
      if T.action[state][a].Reduce? {
        ok := PopAndPush(T.action[state][a].prod, rest);
      } else if rest == [] {
        ok := false;
      } else {
        statestack := statestack + [T.action[state][a].state];
        symstack := symstack + [Leaf(a)];
        rest' := rest[1..];
      }
      o := if ok then Running(Config(statestack, symstack, rest')) else Crash;
    }

    /** The reduce branch of the loop. */
    method PopAndPush(p: nat, ghost rest: seq<Symbol>) returns (ok: bool)
      requires statestack != [] && symstack != []
      modifies this
      ensures ReduceStep(g, T, old(Config(statestack, symstack, rest)),
        p) == if ok then Running(Config(statestack, symstack, rest)) else Crash
    {
      if p >= |g.productions| {
        return false;
      }
      var n := |g.productions[p].rhs|;
      if n >= |statestack| || n >= |symstack| {
        return false;
      }
      var targ := symstack[|symstack| - n..];
      symstack := symstack[..|symstack| - n];
      statestack := statestack[..|statestack| - n];
      var top := statestack[|statestack| - 1];
      if top >= |T.goto| || g.productions[p].name !in T.goto[top] {
        return false;
      }
      symstack := symstack + [Node(p, targ)];
      statestack := statestack + [T.goto[top][g.productions[p].name]];
      return true;
    }
  }
}
