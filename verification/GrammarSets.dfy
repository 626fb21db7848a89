/** FIRST, FOLLOW and the nullable nonterminals: the fixpoint loops of yacc.py's Grammar class,
    proved to compute exactly the sets that the derivation relation defines. */
module GrammarSets {
  import opened Cfg

  type SetMap = map<Symbol, set<Symbol>>

  ghost predicate Covered(F: SetMap, s: seq<Symbol>) {
    forall x :: x in s ==> x in F
  }

  /** FIRST of a string of symbols, given FIRST of each symbol. */
  ghost function FirstSeq(F: SetMap, s: seq<Symbol>): set<Symbol>
    requires Covered(F, s)
  {
    if s == [] then {Empty}
    else if Empty in F[s[0]] then (F[s[0]] - {Empty}) + FirstSeq(F, s[1..])
    else F[s[0]]
  }

  ghost predicate CoversGrammar(g: Cfg, F: SetMap) {
    forall s :: s in F <==> g.RuleSymbol(s) || s == EndMarker
  }

  /** What membership of `a` in FIRST(s) has to mean. */
  ghost predicate MeansFirst(g: Cfg, s: seq<Symbol>, a: Symbol) {
    match a
    case Empty => Vanishes(g, s)
    case Nonterminal(_) => false
    case _ => Begins(g, s, a)
  }

  ghost predicate FirstSound(g: Cfg, F: SetMap) {
    forall x, a :: x in F && a in F[x] ==> MeansFirst(g, [x], a)
  }

  ghost predicate FirstClosed(g: Cfg, F: SetMap)
    requires g.Valid() && CoversGrammar(g, F)
  {
    && (forall t :: t in g.terminals ==> F[t] == {t})
    && F[EndMarker] == {EndMarker}
    && (forall p :: 1 <= p < |g.productions| ==> RuleClosed(g, F, p))
  }

  ghost predicate RuleClosed(g: Cfg, F: SetMap, p: int)
    requires g.Valid() && CoversGrammar(g, F) && 1 <= p < |g.productions|
  {
    RhsCovered(g, F, p);
    NameCovered(g, F, p);
    FirstSeq(F, g.productions[p].rhs) <= F[g.productions[p].name]
  }

  lemma RhsCovered(g: Cfg, F: SetMap, p: int)
    requires g.Valid() && CoversGrammar(g, F) && 0 <= p < |g.productions|
    ensures Covered(F, g.productions[p].rhs)
  {
    forall x | x in g.productions[p].rhs ensures x in F {
      var k :| 0 <= k < |g.productions[p].rhs| && g.productions[p].rhs[k] == x;
      assert g.RuleSymbol(x);
    }
  }

  lemma NameCovered(g: Cfg, F: SetMap, p: int)
    requires g.Valid() && CoversGrammar(g, F) && 1 <= p < |g.productions|
    ensures g.productions[p].name in F
  {
    assert g.RuleSymbol(g.productions[p].name);
  }

  lemma {:induction false} FirstSeqConcat(F: SetMap, u: seq<Symbol>, v: seq<Symbol>)
    requires Covered(F, u) && Covered(F, v)
    ensures Covered(F, u + v)
    ensures FirstSeq(F, u + v) == if Empty in FirstSeq(F, u) then (FirstSeq(F, u) - {Empty}) + FirstSeq(F, v)
      else FirstSeq(F, u)
  {
    if u == [] {
      assert u + v == v;
    } else {
      FirstSeqConcat(F, u[1..], v);
      assert (u + v)[1..] == u[1..] + v;
    }
  }

  // ---- FIRST is exact ------------------------------------------------------------------

  lemma {:induction false} FirstSeqSound(g: Cfg, F: SetMap, s: seq<Symbol>, a: Symbol)
    requires FirstSound(g, F) && Covered(F, s) && a in FirstSeq(F, s)
    ensures MeansFirst(g, s, a)
  {
    if s == [] {
      DerivesRefl(g, []);
    } else {
      assert s == [s[0]] + s[1..];
      if a != Empty && a in F[s[0]] {
        assert MeansFirst(g, [s[0]], a);
        var w :| Derives(g, [s[0]], [a] + w);
        DerivesRefl(g, s[1..]);
        DerivesConcat(g, [s[0]], [a] + w, s[1..], s[1..]);
        assert [a] + w + s[1..] == [a] + (w + s[1..]);
      } else {
        assert MeansFirst(g, [s[0]], Empty);
        FirstSeqSound(g, F, s[1..], a);
        if a == Empty {
          DerivesConcat(g, [s[0]], [], s[1..], []);
          var nothing: seq<Symbol> := [];
          assert nothing + [] == [];
        } else {
          var w :| Derives(g, s[1..], [a] + w);
          DerivesConcat(g, [s[0]], [], s[1..], [a] + w);
          assert [] + ([a] + w) == [a] + w;
        }
      }
    }
  }

  lemma RuleStepSound(g: Cfg, F: SetMap, p: int, a: Symbol)
    requires g.Valid() && FirstSound(g, F) && 1 <= p < |g.productions|
    requires Covered(F, g.productions[p].rhs) && a in FirstSeq(F, g.productions[p].rhs)
    ensures MeansFirst(g, [g.productions[p].name], a)
  {
    var rhs := g.productions[p].rhs;
    FirstSeqSound(g, F, rhs, a);
    DerivesRule(g, p);
    if a == Empty {
      DerivesTrans(g, [g.productions[p].name], rhs, []);
    } else {
      var w :| Derives(g, rhs, [a] + w);
      DerivesTrans(g, [g.productions[p].name], rhs, [a] + w);
    }
  }

  /** Rewriting can only lose FIRST symbols of a closed table. */
  lemma StepShrinksFirst(g: Cfg, F: SetMap, s: seq<Symbol>, t: seq<Symbol>)
    requires g.Valid() && CoversGrammar(g, F) && FirstClosed(g, F)
    requires Covered(F, s) && Step(g, s, t)
    ensures Covered(F, t) && FirstSeq(F, t) <= FirstSeq(F, s)
  {
    var i, p :| RewriteAt(g, s, t, i, p);
    var rhs := g.productions[p].rhs;
    RhsCovered(g, F, p);
    assert RuleClosed(g, F, p);
    var u, v := s[..i], s[i + 1..];
    assert s == u + ([s[i]] + v) && t == u + (rhs + v);
    FirstSeqConcat(F, [s[i]], v);
    FirstSeqConcat(F, rhs, v);
    assert [s[i]][1..] == [];
    assert FirstSeq(F, [s[i]]) == F[s[i]];
    FirstSeqConcat(F, u, [s[i]] + v);
    FirstSeqConcat(F, u, rhs + v);
  }

  lemma {:induction false} DerivesShrinksFirst(g: Cfg, F: SetMap, s: seq<Symbol>, t: seq<Symbol>, n: nat)
    requires g.Valid() && CoversGrammar(g, F) && FirstClosed(g, F)
    requires Covered(F, s) && DerivesIn(g, s, t, n)
    ensures Covered(F, t) && FirstSeq(F, t) <= FirstSeq(F, s)
    decreases n
  {
    if n > 0 {
      var m :| Step(g, s, m) && DerivesIn(g, m, t, n - 1);
      StepShrinksFirst(g, F, s, m);
      DerivesShrinksFirst(g, F, m, t, n - 1);
    }
  }

  ghost predicate FirstTable(g: Cfg, F: SetMap) {
    && g.Valid()
    && CoversGrammar(g, F)
    && FirstSound(g, F)
    && FirstClosed(g, F)
  }

  /** FIRST of a string holds exactly the terminals that begin one of its sentential forms,
      and '<empty>' exactly when the string derives the empty string. */
  lemma FirstExact(g: Cfg, F: SetMap, s: seq<Symbol>, a: Symbol)
    requires FirstTable(g, F) && Covered(F, s)
    ensures a in FirstSeq(F, s) <==> MeansFirst(g, s, a)
  {
    if a in FirstSeq(F, s) {
      FirstSeqSound(g, F, s, a);
    }
    if MeansFirst(g, s, a) {
      var t: seq<Symbol>;
      if a == Empty {
        t := [];
      } else {
        var w :| Derives(g, s, [a] + w);
        t := [a] + w;
      }
      var n: nat :| DerivesIn(g, s, t, n);
      DerivesShrinksFirst(g, F, s, t, n);
      if a != Empty {
        assert t[0] == a && a in F && F[a] == {a};
      }
    }
  }

  // ---- FOLLOW is exact -----------------------------------------------------------------

  /** What membership of `b` in FOLLOW(n) has to mean. '$end' follows whatever can end a form
      derived from the head of the first rule, which is compute_follow's default start. */
  ghost predicate MeansFollow(g: Cfg, n: Symbol, b: Symbol)
    requires g.Valid()
  {
    match b
    case EndMarker => Ends(g, g.productions[1].name, n)
    case Terminal(_) => Adjacent(g, n, b)
    case _ => false
  }

  ghost predicate CoversNonterminals(g: Cfg, W: SetMap) {
    forall n :: n in W <==> n in g.nonterminals
  }

  ghost predicate FollowSound(g: Cfg, W: SetMap)
    requires g.Valid()
  {
    forall n, b :: n in W && b in W[n] ==> MeansFollow(g, n, b)
  }

  /** The FOLLOW rules hold at position k of rule p. */
  ghost predicate PlaceClosed(g: Cfg, F: SetMap, W: SetMap, p: int, k: int)
    requires g.Valid() && CoversGrammar(g, F) && CoversNonterminals(g, W)
    requires 1 <= p < |g.productions| && 0 <= k < |g.productions[p].rhs|
  {
    RhsCovered(g, F, p);
    var rhs := g.productions[p].rhs;
    var f := FirstSeq(F, rhs[k + 1..]);
    assert g.RuleSymbol(rhs[k]);
    rhs[k].Nonterminal? ==>
      && f - {Empty} <= W[rhs[k]]
      && (Empty in f ==> W[g.productions[p].name] <= W[rhs[k]])
  }

  ghost predicate FollowClosed(g: Cfg, F: SetMap, W: SetMap)
    requires g.Valid() && CoversGrammar(g, F) && CoversNonterminals(g, W)
  {
    && EndMarker in W[g.productions[1].name]
    && forall p, k :: 1 <= p < |g.productions| && 0 <= k < |g.productions[p].rhs| ==> PlaceClosed(g, F, W, p, k)
  }

  ghost predicate FollowTable(g: Cfg, F: SetMap, W: SetMap) {
    && FirstTable(g, F)
    && CoversNonterminals(g, W)
    && FollowSound(g, W)
    && FollowClosed(g, F, W)
  }

  lemma {:induction false} NoEndMarker(g: Cfg, s: seq<Symbol>, t: seq<Symbol>, n: nat)
    requires g.Valid() && EndMarker !in s && DerivesIn(g, s, t, n)
    ensures EndMarker !in t
    decreases n
  {
    if n > 0 {
      var m :| Step(g, s, m) && DerivesIn(g, m, t, n - 1);
      var i, p :| RewriteAt(g, s, m, i, p);
      forall k | 0 <= k < |g.productions[p].rhs| ensures g.productions[p].rhs[k] != EndMarker {
        assert g.RuleSymbol(g.productions[p].rhs[k]);
      }
      NoEndMarker(g, m, t, n - 1);
    }
  }

  lemma SuffixHasNoEnd(g: Cfg, F: SetMap, p: int, k: int)
    requires FirstTable(g, F) && 1 <= p < |g.productions| && 0 <= k <= |g.productions[p].rhs|
    ensures Covered(F, g.productions[p].rhs[k..])
    ensures EndMarker !in FirstSeq(F, g.productions[p].rhs[k..])
  {
    RhsCovered(g, F, p);
    var s := g.productions[p].rhs[k..];
    forall i | 0 <= i < |s| ensures s[i] != EndMarker {
      assert g.RuleSymbol(g.productions[p].rhs[k + i]);
    }
    if EndMarker in FirstSeq(F, s) {
      FirstExact(g, F, s, EndMarker);
      var w :| Derives(g, s, [EndMarker] + w);
      var n: nat :| DerivesIn(g, s, [EndMarker] + w, n);
      assert ([EndMarker] + w)[0] == EndMarker;
      NoEndMarker(g, s, [EndMarker] + w, n);
    }
  }

  /** A rule's head derives the rule with its last part rewritten. */
  lemma RuleWithTail(g: Cfg, p: int, k: int, tail: seq<Symbol>)
    requires 1 <= p < |g.productions| && 0 <= k < |g.productions[p].rhs|
    requires Derives(g, g.productions[p].rhs[k + 1..], tail)
    ensures Derives(g, [g.productions[p].name], g.productions[p].rhs[..k] + [g.productions[p].rhs[k]] + tail)
  {
    var rhs, h := g.productions[p].rhs, g.productions[p].name;
    var front := rhs[..k + 1];
    DerivesRule(g, p);
    DerivesRefl(g, front);
    DerivesConcat(g, front, front, rhs[k + 1..], tail);
    assert rhs == front + rhs[k + 1..];
    assert front == rhs[..k] + [rhs[k]];
    DerivesTrans(g, [h], rhs, front + tail);
  }

  /** A terminal that begins what stands after B in a rule follows B. */
  lemma FirstAfterIsFollow(g: Cfg, p: int, k: int, b: Symbol)
    requires g.Valid() && 1 <= p < |g.productions| && 0 <= k < |g.productions[p].rhs|
    requires b.Terminal? && Begins(g, g.productions[p].rhs[k + 1..], b)
    ensures MeansFollow(g, g.productions[p].rhs[k], b)
  {
    var rhs, h := g.productions[p].rhs, g.productions[p].name;
    var w :| Derives(g, rhs[k + 1..], [b] + w);
    RuleWithTail(g, p, k, [b] + w);
    assert rhs[..k] + [rhs[k]] + ([b] + w) == rhs[..k] + [rhs[k], b] + w;
    assert h in g.nonterminals && Derives(g, [h], rhs[..k] + [rhs[k], b] + w);
  }

  lemma Splice(g: Cfg, top: Symbol, l: seq<Symbol>, h: Symbol, r: seq<Symbol>, x: seq<Symbol>)
    requires Derives(g, [top], l + [h] + r) && Derives(g, [h], x)
    ensures Derives(g, [top], l + x + r)
  {
    var n: nat :| DerivesIn(g, [h], x, n);
    DerivesInContext(g, l, [h], x, r, n);
    DerivesTrans(g, [top], l + [h] + r, l + x + r);
  }

  lemma AdjacentPasses(g: Cfg, h: Symbol, n: Symbol, b: Symbol, front: seq<Symbol>)
    requires Adjacent(g, h, b) && Derives(g, [h], front + [n])
    ensures Adjacent(g, n, b)
  {
    var top, l, r :| top in g.nonterminals && Derives(g, [top], l + [h, b] + r);
    assert l + [h] + ([b] + r) == l + [h, b] + r;
    Splice(g, top, l, h, [b] + r, front + [n]);
    assert l + (front + [n]) + ([b] + r) == (l + front) + [n, b] + r;
  }

  lemma EndsPasses(g: Cfg, top: Symbol, h: Symbol, n: Symbol, front: seq<Symbol>)
    requires Ends(g, top, h) && Derives(g, [h], front + [n])
    ensures Ends(g, top, n)
  {
    var l :| Derives(g, [top], l + [h]);
    assert l + [h] + [] == l + [h];
    Splice(g, top, l, h, [], front + [n]);
    assert l + (front + [n]) + [] == (l + front) + [n];
  }

  /** Whatever follows a rule's head follows a symbol whose remaining rule text vanishes. */
  lemma FollowOfHeadPasses(g: Cfg, p: int, k: int, b: Symbol)
    requires g.Valid() && 1 <= p < |g.productions| && 0 <= k < |g.productions[p].rhs|
    requires Vanishes(g, g.productions[p].rhs[k + 1..])
    requires MeansFollow(g, g.productions[p].name, b)
    ensures MeansFollow(g, g.productions[p].rhs[k], b)
  {
    var rhs, h := g.productions[p].rhs, g.productions[p].name;
    RuleWithTail(g, p, k, []);
    assert rhs[..k] + [rhs[k]] + [] == rhs[..k] + [rhs[k]];
    if b == EndMarker {
      EndsPasses(g, g.productions[1].name, h, rhs[k], rhs[..k]);
    } else {
      AdjacentPasses(g, h, rhs[k], b, rhs[..k]);
    }
  }

  /** FOLLOW accounts for what stands to the right of position i in a form derived from h. */
  ghost predicate Accounted(g: Cfg, F: SetMap, W: SetMap, h: Symbol, s: seq<Symbol>, i: int)
    requires CoversNonterminals(g, W) && h in W && Covered(F, s)
  {
    0 <= i < |s| && s[i] in W ==>
      && FirstSeq(F, s[i + 1..]) - {Empty} <= W[s[i]]
      && (Empty in FirstSeq(F, s[i + 1..]) ==> W[h] <= W[s[i]])
  }

  ghost predicate AllAccounted(g: Cfg, F: SetMap, W: SetMap, h: Symbol, s: seq<Symbol>)
    requires CoversNonterminals(g, W) && h in W && Covered(F, s)
  {
    forall i :: 0 <= i < |s| ==> Accounted(g, F, W, h, s, i)
  }

  lemma StepKeepsAccount(g: Cfg, F: SetMap, W: SetMap, h: Symbol, s: seq<Symbol>, t: seq<Symbol>)
    requires FollowTable(g, F, W) && h in W && Covered(F, s) && Step(g, s, t)
    requires AllAccounted(g, F, W, h, s)
    ensures Covered(F, t) && AllAccounted(g, F, W, h, t)
  {
    StepShrinksFirst(g, F, s, t);
    var j, p :| RewriteAt(g, s, t, j, p);
    forall i | 0 <= i < |t| ensures Accounted(g, F, W, h, t, i) {
      StepKeepsAccountAt(g, F, W, h, s, t, j, p, i);
    }
  }

  lemma StepKeepsAccountAt(g: Cfg, F: SetMap, W: SetMap, h: Symbol, s: seq<Symbol>, t: seq<Symbol>, j: int,
          p: int, i: int)
    requires FollowTable(g, F, W) && h in W && Covered(F, s) && Covered(F, t) && RewriteAt(g, s, t, j, p)
    requires AllAccounted(g, F, W, h, s) && 0 <= i < |t|
    ensures Accounted(g, F, W, h, t, i)
  {
    var rhs := g.productions[p].rhs;
    var v := s[j + 1..];
    if i < j {
      assert Accounted(g, F, W, h, s, i);
      var s', t' := s[i + 1..], t[i + 1..];
      assert s[i] == t[i];
      assert RewriteAt(g, s', t', j - i - 1, p) by {
        assert t' == s'[..j - i - 1] + rhs + s'[j - i..];
      }
      assert Step(g, s', t');
      StepShrinksFirst(g, F, s', t');
    } else if i < j + |rhs| {
      var k := i - j;
      assert t[i] == rhs[k];
      assert Accounted(g, F, W, h, s, j);
      assert t[i + 1..] == rhs[k + 1..] + v;
      RhsCovered(g, F, p);
      FirstSeqConcat(F, rhs[k + 1..], v);
      assert PlaceClosed(g, F, W, p, k);
      assert g.RuleSymbol(rhs[k]);
    } else {
      var i' := i - |rhs| + 1;
      assert Accounted(g, F, W, h, s, i');
      assert t[i] == s[i'] && t[i + 1..] == s[i' + 1..];
    }
  }

  lemma {:induction false} DerivesKeepsAccount(g: Cfg, F: SetMap, W: SetMap, h: Symbol, s: seq<Symbol>,
          t: seq<Symbol>, n: nat)
    requires FollowTable(g, F, W) && h in W && Covered(F, s) && DerivesIn(g, s, t, n)
    requires AllAccounted(g, F, W, h, s)
    ensures Covered(F, t) && AllAccounted(g, F, W, h, t)
    decreases n
  {
    if n > 0 {
      var m :| Step(g, s, m) && DerivesIn(g, m, t, n - 1);
      StepKeepsAccount(g, F, W, h, s, m);
      DerivesKeepsAccount(g, F, W, h, m, t, n - 1);
    }
  }

  lemma FormAccounted(g: Cfg, F: SetMap, W: SetMap, h: Symbol, t: seq<Symbol>)
    requires FollowTable(g, F, W) && h in g.nonterminals && Derives(g, [h], t)
    ensures Covered(F, t) && AllAccounted(g, F, W, h, t)
  {
    var n: nat :| DerivesIn(g, [h], t, n);
    assert g.RuleSymbol(h);
    assert [h][1..] == [];
    DerivesKeepsAccount(g, F, W, h, [h], t, n);
  }

  /** FOLLOW(n) holds exactly the terminals that can stand right after n in a form derived from
      some nonterminal, and '$end' exactly when n can end a form derived from the first rule's head. */
  lemma FollowExact(g: Cfg, F: SetMap, W: SetMap, n: Symbol, b: Symbol)
    requires FollowTable(g, F, W) && n in g.nonterminals
    ensures b in W[n] <==> MeansFollow(g, n, b)
  {
    if b == EndMarker && MeansFollow(g, n, b) {
      var h := g.productions[1].name;
      var l :| Derives(g, [h], l + [n]);
      FormAccounted(g, F, W, h, l + [n]);
      assert (l + [n])[|l|] == n && (l + [n])[|l| + 1..] == [];
      assert Accounted(g, F, W, h, l + [n], |l|);
    }
    if b.Terminal? && MeansFollow(g, n, b) {
      var h, l, r :| h in g.nonterminals && Derives(g, [h], l + [n, b] + r);
      var t := l + [n, b] + r;
      FormAccounted(g, F, W, h, t);
      assert t[|l|] == n && t[|l| + 1] == b && t[|l| + 1..][0] == b;
      assert b in F && F[b] == {b};
      assert Accounted(g, F, W, h, t, |l|);
    }
  }
}
