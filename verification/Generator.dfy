/** LRGeneratedTable.__init__: the whole generator, from a grammar to its tables. */
module Generator {
  import opened Cfg
  import opened GrammarSets
  import opened GrammarTables
  import opened LrAutomaton
  import opened ParseTable
  import opened ParseTrees
  import opened LrEngine
  import opened LrComplete
  import opened LalrTables
  import opened SlrTables

  datatype Method = UseSLR | UseLALR

  datatype Generated = Generated(A: Lr0, L: Lookaheads, T: Tables)

  /** The lookaheads are the LALR ones. */
  ghost predicate FromLalr(g: Cfg, A: Lr0, L: Lookaheads) {
    exists D, P, Q :: IsLalr(g, A, D, P, Q) && L == LALR(D.sets)
  }

  /** In some state acceptance meets a reduction on '$end': a LALRError. */
  ghost predicate AcceptanceConflict(g: Cfg, A: Lr0, L: Lookaheads) {
    exists s: nat :: s < |A.states| && AcceptConflict(g, A, L, s)
  }

  ghost predicate AcceptsOnlySentencesOf(g: Cfg, T: Tables)
    requires g.Valid()
  {
    forall tokens :: AllTerminal(tokens) && Accepts(g, T, tokens) ==> Derives(g, [g.Start()], tokens)
  }

  /** What the tables are worth: in any case they accept only sentences; when nothing competed, exactly
      the sentences, the SLR ones provided that '$end' follows the start symbol. */
  ghost predicate Meant(g: Cfg, lrMethod: Method, r: Generated) {
    && IsAutomaton(g, r.A) && TablesOk(g, r.A, r.L, r.T)
    && AcceptsOnlySentencesOf(g, r.T)
    && (ConflictFree(g, r.A, r.L) ==>
          (AcceptsTheLanguage(g, r.T) <==> lrMethod == UseLALR || StartEnds(g) || NoSentences(g)))
  }

  lemma OnlySentences(g: Cfg, r: Generated)
    requires IsAutomaton(g, r.A) && TablesOk(g, r.A, r.L, r.T)
    ensures AcceptsOnlySentencesOf(g, r.T)
  {
    forall tokens | AllTerminal(tokens) && Accepts(g, r.T, tokens) ensures Derives(g, [g.Start()], tokens) {
      var n: nat :| Run(g, r.T, Initial(tokens), n).Accepted?;
      AcceptsOnlySentences(g, r.A, r.L, r.T, tokens, n);
    }
  }

  lemma LalrMeant(g: Cfg, r: Generated)
    requires FromLalr(g, r.A, r.L) && TablesOk(g, r.A, r.L, r.T)
    ensures Meant(g, UseLALR, r)
  {
    var D, P, Q :| IsLalr(g, r.A, D, P, Q) && r.L == LALR(D.sets);
    OnlySentences(g, r);
    if ConflictFree(g, r.A, r.L) {
      forall tokens | AllTerminal(tokens) ensures Accepts(g, r.T, tokens) <==> Derives(g, [g.Start()], tokens) {
        LalrParserIsExact(g, r.A, D, P, Q, r.T, tokens);
      }
    }
  }

  lemma SlrMeant(g: Cfg, F: SetMap, W: SetMap, r: Generated)
    requires IsAutomaton(g, r.A) && FollowTable(g, F, W) && r.L == SLR(W) && TablesOk(g, r.A, r.L, r.T)
    ensures Meant(g, UseSLR, r)
  {
    OnlySentences(g, r);
    if ConflictFree(g, r.A, r.L) {
      SlrParserExactly(g, r.A, F, W, r.T);
    }
  }

  /** Builds FIRST, FOLLOW, the item sets, the lookaheads and the tables. It fails exactly on an
      acceptance conflict, or, for LALR, when the transitions outnumber MAXINT. */
  method Generate(grammar: Grammar, lrMethod: Method) returns (ok: bool, r: Generated)
    requires grammar.Valid()
    modifies grammar
    ensures grammar.Valid() && IsAutomaton(grammar.cfg, r.A)
    ensures lrMethod == UseSLR ==> r.L == SLR(grammar.Follow) && (ok <==> !AcceptanceConflict(grammar.cfg, r.A, r.L))
    ensures lrMethod == UseLALR ==>
      if TooManyTransitions(grammar.cfg, r.A) then !ok
      else FromLalr(grammar.cfg, r.A, r.L) && (ok <==> !AcceptanceConflict(grammar.cfg, r.A, r.L))
    ensures ok ==> Meant(grammar.cfg, lrMethod, r)
  {
    var g := grammar.cfg;
    grammar.ComputeFirst();
    grammar.ComputeFollow();
    var builder := new Builder(g);
    var A := builder.Items();
    var L := SLR(grammar.Follow);
    r := Generated(A, L, Tables([], []));
    if lrMethod == UseLALR {
      var D;
      ghost var P, Q;
      ok, D, P, Q := AddLalrLookaheads(g, A);
      if !ok {
        return;
      }
      LalrDefined(g, A, D, P, Q);
      L := LALR(D.sets);
    } else {
      FollowDefined(g, A, grammar.Follow);
    }
    var T;
    ok, T := BuildTables(g, A, L);
    r := Generated(A, L, T);
    if ok {
      if lrMethod == UseLALR {
        LalrMeant(g, r);
      } else {
        SlrMeant(g, grammar.First, grammar.Follow, r);
      }
    }
  }

  lemma FollowDefined(g: Cfg, A: Lr0, W: SetMap)
    requires g.Valid() && forall n :: n in W <==> n in g.nonterminals
    ensures SLR(W).Defined(g, A)
  {
    forall p: nat | 0 < p < |g.productions| ensures g.productions[p].name in W {
      assert g.productions[p].name in g.nonterminals;
    }
  }
}
