/** The mutable side of yacc.py's Grammar: the First and Follow dictionaries, filled in place by
    the `while 1` propagation loops, and the independently coded nullable loop. */
module GrammarTables {
  import opened Cfg
  import opened GrammarSets

  /** The pairs (nonterminal, symbol) still absent from a table: every pass of a propagation
      loop that changes anything removes some of them. */
  ghost function Missing(g: Cfg, W: SetMap): set<(Symbol, Symbol)>
    requires forall n :: n in g.nonterminals ==> n in W
  {
    set n, a | n in g.nonterminals && a in g.terminals + {Empty, EndMarker} && a !in W[n] :: (n, a)
  }

  ghost predicate Bounded(g: Cfg, W: SetMap) {
    forall n :: n in g.nonterminals && n in W ==> W[n] <= g.terminals + {Empty, EndMarker}
  }

  lemma MissingShrinks(g: Cfg, W: SetMap, n: Symbol, f: set<Symbol>)
    requires forall m :: m in g.nonterminals ==> m in W
    requires n in g.nonterminals && f <= g.terminals + {Empty, EndMarker} && !(f <= W[n])
    ensures Missing(g, W[n := W[n] + f]) < Missing(g, W)
  {
    var a :| a in f && a !in W[n];
    var W' := W[n := W[n] + f];
    assert (n, a) in Missing(g, W) && (n, a) !in Missing(g, W');
    assert Missing(g, W') <= Missing(g, W);
  }

  lemma {:induction false} FirstSeqBounded(g: Cfg, F: SetMap, s: seq<Symbol>)
    requires g.Valid() && CoversGrammar(g, F) && Bounded(g, F) && Covered(F, s)
    requires (forall t :: t in g.terminals ==> F[t] == {t}) && F[EndMarker] == {EndMarker}
    ensures FirstSeq(F, s) <= g.terminals + {Empty, EndMarker}
  {
    if s != [] {
      FirstSeqBounded(g, F, s[1..]);
    }
  }

  ghost predicate RuleNumberClosed(g: Cfg, F: SetMap, n: Symbol, k: int)
    requires g.Valid() && CoversGrammar(g, F) && 0 <= k < |g.RulesOf(n)|
  {
    var p := g.RulesOf(n)[k];
    assert p in g.RulesOf(n);
    RuleClosed(g, F, p)
  }

  class Grammar {
    const cfg: Cfg
    var First: SetMap
    var Follow: SetMap

    ghost predicate Valid()
      reads this
    {
      && cfg.Valid()
      && (First == map[] || FirstTable(cfg, First))
      && (Follow == map[] || FollowTable(cfg, First, Follow))
    }

    constructor (cfg: Cfg)
      requires cfg.Valid()
      ensures Valid() && this.cfg == cfg && First == map[] && Follow == map[]
    {
      this.cfg := cfg;
      First := map[];
      Follow := map[];
    }

    /** _first: FIRST of a string, from whatever First holds at the moment. */
    method FirstOf(beta: seq<Symbol>) returns (result: set<Symbol>)
      requires Covered(First, beta)
      ensures result == FirstSeq(First, beta)
    {
      result := {};
      for i := 0 to |beta|
        invariant FirstSeq(First, beta) == result + FirstSeq(First, beta[i..])
      {
        assert beta[i..][1..] == beta[i + 1..];
        result := result + (First[beta[i]] - {Empty});
        if Empty !in First[beta[i]] {
          return;
        }
      }
      result := result + {Empty};
    }

    /** compute_first. */
    method ComputeFirst()
      requires Valid()
      modifies this`First
      ensures Valid() && FirstTable(cfg, First)
      ensures old(First) != map[] ==> First == old(First)
      ensures old(Follow) == map[]  ==> Follow == map[]
    {
      if First != map[] {
        return;
      }
      First := (map t | t in cfg.terminals :: {t}) + map[EndMarker := {EndMarker}] + (map n | n in cfg.nonterminals ::
        {});
      assert FirstInvariant() by { InitialFirst(cfg, First); }
      var someChange := true;
      while someChange
        invariant FirstInvariant()
        invariant !someChange ==> FirstClosed(cfg, First)
        decreases Missing(cfg, First), someChange
      {
        someChange := PropagateFirst();
      }
      assert Follow == map[];
    }

    ghost predicate FirstInvariant()
      reads this
    {
      && cfg.Valid()
      && CoversGrammar(cfg, First)
      && FirstSound(cfg, First)
      && Bounded(cfg, First)
      && (forall t :: t in cfg.terminals ==> First[t] == {t})
      && First[EndMarker] == {EndMarker}
    }

    /** Every rule of the first i nonterminals, and the first j rules of the next, is closed. */
    ghost predicate RulesDone(i: int, j: int)
      requires cfg.Valid() && CoversGrammar(cfg, First)
      reads this
    {
      forall m, k :: 0 <= m < |cfg.nonterminals| && 0 <= k < |cfg.RulesOf(cfg.nonterminals[m])| &&
        (m < i || (m == i && k < j))
        ==> RuleNumberClosed(cfg, First, cfg.nonterminals[m], k)
    }

    /** One pass over every rule of every nonterminal. */
    method PropagateFirst() returns (someChange: bool)
      requires FirstInvariant()
      modifies this`First
      ensures FirstInvariant()
      ensures if someChange then Missing(cfg, First) < old(Missing(cfg, First))
        else First == old(First) && FirstClosed(cfg, First)
    {
      someChange := false;
      for i := 0 to |cfg.nonterminals|
        invariant FirstInvariant()
        invariant if someChange then Missing(cfg, First) < old(Missing(cfg, First)) else First == old(First)
        invariant !someChange ==> RulesDone(i, 0)
      {
        var changed := PropagateRules(i);
        someChange := someChange || changed;
      }
      if !someChange {
        AllRulesDone();
      }
    }

    /** One pass over the rules of one nonterminal. */
    method PropagateRules(i: nat) returns (someChange: bool)
      requires FirstInvariant() && i < |cfg.nonterminals|
      modifies this`First
      ensures FirstInvariant()
      ensures if someChange then Missing(cfg, First) < old(Missing(cfg, First))
        else First == old(First) && (old(RulesDone(i, 0)) ==> RulesDone(i + 1, 0))
    {
      someChange := false;
      var n := cfg.nonterminals[i];
      var rules := cfg.RulesOf(n);
      for j := 0 to |rules|
        invariant FirstInvariant()
        invariant if someChange then Missing(cfg, First) < old(Missing(cfg, First)) else First == old(First)
        invariant !someChange ==> old(RulesDone(i, 0)) ==> RulesDone(i, j)
      {
        var changed := PropagateRule(n, j);
        someChange := someChange || changed;
      }
    }

    lemma AllRulesDone()
      requires FirstInvariant() && RulesDone(|cfg.nonterminals|, 0)
      ensures FirstClosed(cfg, First)
    {
      forall p | 1 <= p < |cfg.productions| ensures RuleClosed(cfg, First, p) {
        var n := cfg.productions[p].name;
        var m :| 0 <= m < |cfg.nonterminals| && cfg.nonterminals[m] == n;
        assert cfg.IsRuleOf(p, n) && p in cfg.RulesOf(n);
        var k :| 0 <= k < |cfg.RulesOf(n)| && cfg.RulesOf(n)[k] == p;
        assert RuleNumberClosed(cfg, First, cfg.nonterminals[m], k);
      }
    }

    /** The body of the innermost loop: rule number j of the nonterminal n. */
    method PropagateRule(n: Symbol, j: int) returns (changed: bool)
      requires FirstInvariant() && n in cfg.nonterminals && 0 <= j < |cfg.RulesOf(n)|
      modifies this`First
      ensures FirstInvariant()
      ensures if changed then Missing(cfg, First) < old(Missing(cfg, First))
        else First == old(First) && RuleNumberClosed(cfg, First, n, j)
    {
      var p := cfg.RulesOf(n)[j];
      assert cfg.IsRuleOf(p, n);
      RhsCovered(cfg, First, p);
      NameCovered(cfg, First, p);
      var f := FirstOf(cfg.productions[p].rhs);
      changed := !(f <= First[n]);
      if changed {
        FirstSeqBounded(cfg, First, cfg.productions[p].rhs);
        MissingShrinks(cfg, First, n, f);
        GrowFirst(cfg, First, p, f);
        First := First[n := First[n] + f];
      }
    }

    /** compute_follow, with its default start: the head of the first rule. */
    method ComputeFollow()
      requires Valid()
      modifies this
      ensures Valid() && FollowTable(cfg, First, Follow)
    {
      if Follow != map[] {
        return;
      }
      if First == map[] {
        ComputeFirst();
      }
      Follow := map n | n in cfg.nonterminals :: {};
      var start := cfg.productions[1].name;
      Follow := Follow[start := {EndMarker}];
      assert MeansFollow(cfg, start, EndMarker) by {
        DerivesRefl(cfg, [start]);
        assert [] + [start] == [start];
      }
      var didAdd := true;
      while didAdd
        invariant FollowInvariant()
        invariant !didAdd ==> FollowClosed(cfg, First, Follow)
        decreases Missing(cfg, Follow), didAdd
      {
        didAdd := PropagateFollow();
      }
    }

    ghost predicate FollowInvariant()
      reads this
    {
      && FirstTable(cfg, First)
      && CoversNonterminals(cfg, Follow)
      && FollowSound(cfg, Follow)
      && EndMarker in Follow[cfg.productions[1].name]
    }

    /** Place k of rule p, or any earlier place, obeys the FOLLOW rules. */
    ghost predicate PlacesDone(p: int, k: int)
      requires cfg.Valid() && CoversGrammar(cfg, First) && CoversNonterminals(cfg, Follow)
      reads this
    {
      forall q, j :: 1 <= q < |cfg.productions| && 0 <= j < |cfg.productions[q].rhs| && (q < p || (q == p && j < k))
        ==> PlaceClosed(cfg, First, Follow, q, j)
    }

    method PropagateFollow() returns (didAdd: bool)
      requires FollowInvariant()
      modifies this`Follow
      ensures FollowInvariant()
      ensures if didAdd then Missing(cfg, Follow) < old(Missing(cfg, Follow))
        else Follow == old(Follow) && FollowClosed(cfg, First, Follow)
    {
      didAdd := false;
      for p := 1 to |cfg.productions|
        invariant FollowInvariant()
        invariant if didAdd then Missing(cfg, Follow) < old(Missing(cfg, Follow)) else Follow == old(Follow)
        invariant !didAdd ==> PlacesDone(p, 0)
      {
        for k := 0 to |cfg.productions[p].rhs|
          invariant FollowInvariant()
          invariant if didAdd then Missing(cfg, Follow) < old(Missing(cfg, Follow)) else Follow == old(Follow)
          invariant !didAdd ==> PlacesDone(p, k)
        {
          var changed := PropagatePlace(p, k);
          didAdd := didAdd || changed;
        }
      }
      assert !didAdd ==> PlacesDone(|cfg.productions|, 0);
    }

    /** The body of the innermost loop: one symbol occurrence in one rule. */
    method PropagatePlace(p: int, k: int) returns (changed: bool)
      requires FollowInvariant()
      requires 1 <= p < |cfg.productions| && 0 <= k < |cfg.productions[p].rhs|
      modifies this`Follow
      ensures FollowInvariant()
      ensures if changed then Missing(cfg, Follow) < old(Missing(cfg, Follow))
        else Follow == old(Follow) && PlaceClosed(cfg, First, Follow, p, k)
    {
      changed := false;
      var rhs := cfg.productions[p].rhs;
      var b := rhs[k];
      assert cfg.RuleSymbol(b);
      if b.Nonterminal? {
        SuffixHasNoEnd(cfg, First, p, k + 1);
        var f := FirstOf(rhs[k + 1..]);
        if !(f - {Empty} <= Follow[b]) {
          AddFirst(cfg, First, Follow, p, k, f - {Empty});
          Follow := Follow[b := Follow[b] + (f - {Empty})];
          changed := true;
        }
        if Empty in f {
          var h := cfg.productions[p].name;
          if !(Follow[h] <= Follow[b]) {
            AddFollow(cfg, First, Follow, p, k);
            Follow := Follow[b := Follow[b] + Follow[h]];
            changed := true;
          }
        }
      }
    }
  }

  lemma InitialFirst(g: Cfg, F: SetMap)
    requires g.Valid()
    requires F == (map t | t in g.terminals :: {t}) + map[EndMarker := {EndMarker}] + (map n | n in g.nonterminals :: {})
    ensures CoversGrammar(g, F) && FirstSound(g, F) && Bounded(g, F)
    ensures forall t :: t in g.terminals ==> F[t] == {t}
    ensures F[EndMarker] == {EndMarker}
  {
    forall x, a | x in F && a in F[x] ensures MeansFirst(g, [x], a) {
      assert a == x && (a in g.terminals || a == EndMarker);
      DerivesRefl(g, [x]);
      assert [a] + [] == [x];
    }
  }

  /** Adding FIRST of a right-hand side to its head keeps every entry meaningful. */
  lemma GrowFirst(g: Cfg, F: SetMap, p: int, f: set<Symbol>)
    requires g.Valid() && CoversGrammar(g, F) && FirstSound(g, F) && 1 <= p < |g.productions|
    requires Covered(F, g.productions[p].rhs) && f == FirstSeq(F, g.productions[p].rhs)
    ensures g.productions[p].name in F
    ensures FirstSound(g, F[g.productions[p].name := F[g.productions[p].name] + f])
  {
    NameCovered(g, F, p);
    var n := g.productions[p].name;
    var F' := F[n := F[n] + f];
    forall x, a | x in F' && a in F'[x] ensures MeansFirst(g, [x], a) {
      if x == n && a in f {
        RuleStepSound(g, F, p, a);
      } else {
        assert a in F[x];
      }
    }
  }

  lemma AddFirst(g: Cfg, F: SetMap, W: SetMap, p: int, k: int, f: set<Symbol>)
    requires FirstTable(g, F) && CoversNonterminals(g, W) && FollowSound(g, W)
    requires 1 <= p < |g.productions| && 0 <= k < |g.productions[p].rhs| && g.productions[p].rhs[k] in W
    requires Covered(F, g.productions[p].rhs[k + 1..]) && f == FirstSeq(F, g.productions[p].rhs[k + 1..]) - {Empty}
    requires !(f <= W[g.productions[p].rhs[k]])
    ensures var b := g.productions[p].rhs[k];
      FollowSound(g, W[b := W[b] + f]) && Missing(g, W[b := W[b] + f]) < Missing(g, W)
  {
    var b := g.productions[p].rhs[k];
    SuffixHasNoEnd(g, F, p, k + 1);
    forall a | a in f ensures MeansFollow(g, b, a) && a in g.terminals {
      FirstExact(g, F, g.productions[p].rhs[k + 1..], a);
      FirstAfterIsFollow(g, p, k, a);
      FirstTerminals(g, F, g.productions[p].rhs[k + 1..], a);
    }
    MissingShrinks(g, W, b, f);
  }

  lemma FirstTerminals(g: Cfg, F: SetMap, s: seq<Symbol>, a: Symbol)
    requires FirstTable(g, F) && Covered(F, s) && a in FirstSeq(F, s) && a.Terminal?
    ensures a in g.terminals
  {
    FirstExact(g, F, s, a);
    var w :| Derives(g, s, [a] + w);
    var n: nat :| DerivesIn(g, s, [a] + w, n);
    DerivesShrinksFirst(g, F, s, [a] + w, n);
    assert ([a] + w)[0] == a;
    assert a in F && g.RuleSymbol(a);
  }

  lemma AddFollow(g: Cfg, F: SetMap, W: SetMap, p: int, k: int)
    requires FirstTable(g, F) && CoversNonterminals(g, W) && FollowSound(g, W)
    requires 1 <= p < |g.productions| && 0 <= k < |g.productions[p].rhs| && g.productions[p].rhs[k] in W
    requires g.productions[p].name in W && !(W[g.productions[p].name] <= W[g.productions[p].rhs[k]])
    requires Covered(F, g.productions[p].rhs[k + 1..]) && Empty in FirstSeq(F, g.productions[p].rhs[k + 1..])
    ensures var b := g.productions[p].rhs[k]; var h := g.productions[p].name;
      FollowSound(g, W[b := W[b] + W[h]]) && Missing(g, W[b := W[b] + W[h]]) < Missing(g, W)
  {
    var b, h := g.productions[p].rhs[k], g.productions[p].name;
    FirstExact(g, F, g.productions[p].rhs[k + 1..], Empty);
    forall a | a in W[h] ensures MeansFollow(g, b, a) && a in g.terminals + {EndMarker} {
      assert MeansFollow(g, h, a);
      FollowOfHeadPasses(g, p, k, a);
      if a.Terminal? {
        AdjacentTerminal(g, F, h, a);
      }
    }
    MissingShrinks(g, W, b, W[h]);
  }

  lemma AdjacentTerminal(g: Cfg, F: SetMap, n: Symbol, b: Symbol)
    requires FirstTable(g, F) && Adjacent(g, n, b) && b.Terminal?
    ensures b in g.terminals
  {
    var h, l, r :| h in g.nonterminals && Derives(g, [h], l + [n, b] + r);
    var t := l + [n, b] + r;
    var m: nat :| DerivesIn(g, [h], t, m);
    assert g.RuleSymbol(h);
    DerivesShrinksFirst(g, F, [h], t, m);
    assert t[|l| + 1] == b;
    assert b in F && g.RuleSymbol(b);
  }

  // ---- Nullable nonterminals -----------------------------------------------------------

  /** If every symbol of rule p is marked then so is its head. */
  ghost predicate MarksRule(g: Cfg, nullable: set<Symbol>, p: int)
    requires 1 <= p < |g.productions|
  {
    (forall x :: x in g.productions[p].rhs ==> x in nullable) ==> g.productions[p].name in nullable
  }

  ghost predicate NullableClosed(g: Cfg, nullable: set<Symbol>) {
    forall p :: 1 <= p < |g.productions| ==> MarksRule(g, nullable, p)
  }

  lemma {:induction false} AllVanish(g: Cfg, s: seq<Symbol>)
    requires forall x :: x in s ==> Vanishes(g, [x])
    ensures Vanishes(g, s)
  {
    if s == [] {
      DerivesRefl(g, []);
    } else {
      AllVanish(g, s[1..]);
      DerivesConcat(g, [s[0]], [], s[1..], []);
      assert s == [s[0]] + s[1..];
      var nothing: seq<Symbol> := [];
      assert nothing + [] == [];
    }
  }

  lemma {:induction false} VanishingIsNullable(g: Cfg, nullable: set<Symbol>, s: seq<Symbol>, n: nat)
    requires NullableClosed(g, nullable) && DerivesIn(g, s, [], n)
    ensures forall x :: x in s ==> x in nullable
    decreases n
  {
    if n > 0 {
      var m :| Step(g, s, m) && DerivesIn(g, m, [], n - 1);
      VanishingIsNullable(g, nullable, m, n - 1);
      var i, p :| RewriteAt(g, s, m, i, p);
      var rhs := g.productions[p].rhs;
      forall x | x in rhs ensures x in nullable {
        assert x in m;
      }
      assert MarksRule(g, nullable, p);
      forall x | x in s ensures x in nullable {
        if x != s[i] {
          var k :| 0 <= k < |s| && s[k] == x;
          assert k < i ==> m[k] == x;
          assert k > i ==> m[k - 1 + |rhs|] == x;
        }
      }
    }
  }

  ghost predicate OnlyVanishing(g: Cfg, nullable: set<Symbol>) {
    forall x :: x in nullable ==> x in g.nonterminals && Vanishes(g, [x])
  }

  ghost function Unmarked(g: Cfg, nullable: set<Symbol>): set<Symbol> {
    set x | x in g.nonterminals && x !in nullable
  }

  lemma PassProgress(g: Cfg, before: set<Symbol>, after: set<Symbol>)
    requires before <= after && OnlyVanishing(g, after)
    ensures |after| == |before| ==> after == before
    ensures |after| != |before| ==> Unmarked(g, after) < Unmarked(g, before)
  {
    if |after| == |before| {
      SameSize(before, after);
    } else {
      assert after <= before ==> after == before;
      var x :| x in after && x !in before;
      assert x in Unmarked(g, before) && x !in Unmarked(g, after);
    }
  }

  lemma NullableComplete(g: Cfg, nullable: set<Symbol>)
    requires NullableClosed(g, nullable) && OnlyVanishing(g, nullable) && g.Valid()
    ensures forall x: Symbol :: x in nullable <==> x.Nonterminal? && Vanishes(g, [x])
  {
    forall x: Symbol | x.Nonterminal? && Vanishes(g, [x]) ensures x in nullable {
      var n: nat :| DerivesIn(g, [x], [], n);
      VanishingIsNullable(g, nullable, [x], n);
    }
  }

  /** compute_nullable_nonterminals: the marked nonterminals are exactly those that derive the
      empty string. */
  method ComputeNullable(g: Cfg) returns (nullable: set<Symbol>)
    requires g.Valid()
    ensures forall x: Symbol :: x in nullable <==> x.Nonterminal? && Vanishes(g, [x])
  {
    nullable := {};
    var done := false;
    while !done
      invariant OnlyVanishing(g, nullable)
      invariant done ==> NullableClosed(g, nullable)
      decreases Unmarked(g, nullable), !done
    {
      var after := NullablePass(g, nullable);
      PassProgress(g, nullable, after);
      done := |after| == |nullable|;
      nullable := after;
    }
    NullableComplete(g, nullable);
  }

  /** One pass over the rules. */
  method NullablePass(g: Cfg, before: set<Symbol>) returns (nullable: set<Symbol>)
    requires g.Valid() && OnlyVanishing(g, before)
    ensures before <= nullable && OnlyVanishing(g, nullable)
    ensures nullable == before ==> NullableClosed(g, before)
  {
    nullable := before;
    for p := 1 to |g.productions|
      invariant before <= nullable && OnlyVanishing(g, nullable)
      invariant nullable == before ==> forall q :: 1 <= q < p ==> MarksRule(g, before, q)
    {
      var rhs := g.productions[p].rhs;
      var k := 0;
      while k < |rhs| && rhs[k] in nullable
        invariant 0 <= k <= |rhs|
        invariant forall j :: 0 <= j < k ==> rhs[j] in nullable
      {
        k := k + 1;
      }
      if k == |rhs| {
        RuleVanishes(g, p, nullable);
        nullable := nullable + {g.productions[p].name};
      }
    }
  }

  lemma RuleVanishes(g: Cfg, p: int, nullable: set<Symbol>)
    requires 1 <= p < |g.productions| && OnlyVanishing(g, nullable)
    requires forall j :: 0 <= j < |g.productions[p].rhs| ==> g.productions[p].rhs[j] in nullable
    ensures Vanishes(g, [g.productions[p].name])
  {
    var rhs := g.productions[p].rhs;
    AllVanish(g, rhs);
    DerivesRule(g, p);
    DerivesTrans(g, [g.productions[p].name], rhs, []);
  }

  lemma {:induction false} SameSize(a: set<Symbol>, b: set<Symbol>)
    requires a <= b && |a| == |b|
    ensures a == b
  {
    if a != b {
      var x :| x in b && x !in a;
      assert a <= b - {x};
      SubsetSize(a, b - {x});
    }
  }

  lemma {:induction false} SubsetSize(a: set<Symbol>, b: set<Symbol>)
    requires a <= b
    ensures |a| <= |b|
  {
    if a != {} {
      var x :| x in a;
      SubsetSize(a - {x}, b - {x});
    }
  }

  /** The two nullability computations agree: '<empty>' is in FIRST(A) exactly when the nullable
      loop marks A. */
  lemma NullableAgreesWithFirst(g: Cfg, F: SetMap, nullable: set<Symbol>, n: Symbol)
    requires FirstTable(g, F) && n in g.nonterminals
    requires forall x: Symbol :: x in nullable <==> x.Nonterminal? && Vanishes(g, [x])
    ensures n in nullable <==> n in F && Empty in F[n]
  {
    assert g.RuleSymbol(n);
    FirstExact(g, F, [n], Empty);
    assert [n][1..] == [];
  }
}
