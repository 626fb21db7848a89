/** A grammar whose start symbol is not the head of its first rule:

        0: S' : S    1: B : b    2: S : s

    compute_follow puts '$end' after B, and nothing follows S. */
module StartExample {
  import opened Cfg
  import opened GrammarSets
  import opened LrAutomaton
  import opened ParseTable
  import opened LrEngine
  import opened LalrTables
  import opened SlrTables
  import Digraph

  const S := Nonterminal("S")
  const B := Nonterminal("B")
  const LS := Terminal("s")
  const LB := Terminal("b")

  const G := Cfg({LS, LB}, [B, S],
                 [Production(AUGMENTED, [S], NO_PRECEDENCE, 0), Production(B, [LB], NO_PRECEDENCE, 1),
                  Production(S, [LS], NO_PRECEDENCE, 2)],
                 map[])

  lemma GrammarValid()
    ensures G.Valid()
  {
    assert G.IsRuleOf(1, B) && G.IsRuleOf(2, S);
  }

  /** B derives nothing but itself and b. */
  lemma {:induction false} FormsOfB(s: seq<Symbol>, t: seq<Symbol>, n: nat)
    requires s == [B] || s == [LB]
    requires DerivesIn(G, s, t, n)
    ensures t == [B] || t == [LB]
    decreases n
  {
    if n > 0 {
      var m :| Step(G, s, m) && DerivesIn(G, m, t, n - 1);
      var i, p :| RewriteAt(G, s, m, i, p);
      assert p == 1 && m == [LB];
      FormsOfB(m, t, n - 1);
    }
  }

  lemma StartNotAtEnd()
    ensures G.Valid() && !StartEnds(G)
  {
    GrammarValid();
    if StartEnds(G) {
      var l :| Derives(G, [B], l + [S]);
      var n: nat :| DerivesIn(G, [B], l + [S], n);
      assert (l + [S])[|l|] == S;
      FormsOfB([B], l + [S], n);
    }
  }

  /** No SLR table of this grammar accepts its only sentence. */
  lemma SentenceRejected(A: Lr0, F: SetMap, W: SetMap, T: Tables)
    requires IsAutomaton(G, A) && FollowTable(G, F, W) && TablesOk(G, A, SLR(W), T)
    ensures Derives(G, [G.Start()], [LS]) && !Accepts(G, T, [LS])
  {
    StartNotAtEnd();
    DerivesRule(G, 2);
    SlrAcceptsNothing(G, A, F, W, T, [LS]);
  }

  /** Its LALR tables reduce where SLR tables do not. */
  lemma LalrOutsideSlr(A: Lr0, F: SetMap, W: SetMap, D: LalrData, P: Digraph.Problem, Q: Digraph.Problem)
    requires IsLalr(G, A, D, P, Q) && FollowTable(G, F, W)
    ensures !LookaheadsWithin(G, A, D, W)
  {
    StartNotAtEnd();
    LalrWithinSlrExactly(G, A, F, W, D, P, Q);
  }
}
