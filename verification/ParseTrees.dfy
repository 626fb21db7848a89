/** Parse trees, which stand for the values the semantic actions would build, and their agreement
    with the derivation relation. */
module ParseTrees {
  import opened Cfg

  datatype Tree = Leaf(token: Symbol) | Node(prod: nat, children: seq<Tree>)

  function Root(g: Cfg, t: Tree): Symbol
  {
    match t
    case Leaf(a) => a
    case Node(p, _) => if p < |g.productions| then g.productions[p].name else Empty
  }

  function Roots(g: Cfg, ts: seq<Tree>): (r: seq<Symbol>)
    ensures |r| == |ts| && forall i :: 0 <= i < |ts| ==> r[i] == Root(g, ts[i])
  {
    seq(|ts|, i requires 0 <= i < |ts| => Root(g, ts[i]))
  }

  function Yield(t: Tree): seq<Symbol>
    decreases t, 1
  {
    match t
    case Leaf(a) => [a]
    case Node(_, cs) => YieldAll(cs)
  }

  function YieldAll(ts: seq<Tree>): seq<Symbol>
    decreases ts, 0
  {
    if ts == [] then [] else Yield(ts[0]) + YieldAll(ts[1..])
  }

  /** Every inner node is labelled with a rule whose right-hand side its children spell. */
  ghost predicate ValidTree(g: Cfg, t: Tree)
    decreases t, 1
  {
    match t
    case Leaf(a) => a.Terminal?
    case Node(p, cs) =>
      && 1 <= p < |g.productions|
      && Roots(g, cs) == g.productions[p].rhs
      && ValidTrees(g, cs)
  }

  ghost predicate ValidTrees(g: Cfg, ts: seq<Tree>)
    decreases ts, 0
  {
    ts != [] ==> ValidTree(g, ts[0]) && ValidTrees(g, ts[1..])
  }

  lemma {:induction false} ValidTreesIndex(g: Cfg, ts: seq<Tree>, i: nat)
    requires ValidTrees(g, ts) && i < |ts|
    ensures ValidTree(g, ts[i])
  {
    if i > 0 {
      ValidTreesIndex(g, ts[1..], i - 1);
    }
  }

  lemma {:induction false} ValidTreesConcat(g: Cfg, u: seq<Tree>, v: seq<Tree>)
    ensures ValidTrees(g, u + v) <==> ValidTrees(g, u) && ValidTrees(g, v)
  {
    if u == [] {
      assert u + v == v;
    } else {
      ValidTreesConcat(g, u[1..], v);
      assert (u + v)[1..] == u[1..] + v;
    }
  }

  lemma {:induction false} YieldConcat(u: seq<Tree>, v: seq<Tree>)
    ensures YieldAll(u + v) == YieldAll(u) + YieldAll(v)
  {
    if u == [] {
      assert u + v == v;
    } else {
      YieldConcat(u[1..], v);
      assert (u + v)[1..] == u[1..] + v;
    }
  }

  lemma YieldOne(t: Tree)
    ensures YieldAll([t]) == Yield(t)
  {
    assert [t][1..] == [];
  }

  /** A tree's root derives its yield. */
  lemma {:induction false} TreeDerives(g: Cfg, t: Tree)
    requires ValidTree(g, t)
    ensures Derives(g, [Root(g, t)], Yield(t))
    decreases t, 1
  {
    match t
    case Leaf(a) => DerivesRefl(g, [a]);
    case Node(p, cs) =>
      TreesDerive(g, cs);
      DerivesRule(g, p);
      DerivesTrans(g, [Root(g, t)], g.productions[p].rhs, Yield(t));
  }

  lemma {:induction false} TreesDerive(g: Cfg, ts: seq<Tree>)
    requires ValidTrees(g, ts)
    ensures Derives(g, Roots(g, ts), YieldAll(ts))
    decreases ts, 0
  {
    if ts == [] {
      DerivesRefl(g, []);
    } else {
      TreeDerives(g, ts[0]);
      TreesDerive(g, ts[1..]);
      DerivesConcat(g, [Root(g, ts[0])], Yield(ts[0]), Roots(g, ts[1..]), YieldAll(ts[1..]));
      assert Roots(g, ts) == [Root(g, ts[0])] + Roots(g, ts[1..]);
    }
  }

  lemma {:induction false} YieldTerminals(g: Cfg, t: Tree)
    requires ValidTree(g, t)
    ensures forall i :: 0 <= i < |Yield(t)| ==> Yield(t)[i].Terminal?
    decreases t, 1
  {
    match t
    case Leaf(_) =>
    case Node(_, cs) => YieldsTerminals(g, cs);
  }

  lemma {:induction false} YieldsTerminals(g: Cfg, ts: seq<Tree>)
    requires ValidTrees(g, ts)
    ensures forall i :: 0 <= i < |YieldAll(ts)| ==> YieldAll(ts)[i].Terminal?
    decreases ts, 0
  {
    if ts != [] {
      YieldTerminals(g, ts[0]);
      YieldsTerminals(g, ts[1..]);
    }
  }

  ghost predicate AllTerminal(s: seq<Symbol>) {
    forall i :: 0 <= i < |s| ==> s[i].Terminal?
  }

  /** A forest with the given roots and yield. */
  ghost predicate Forest(g: Cfg, ts: seq<Tree>, roots: seq<Symbol>, w: seq<Symbol>) {
    ValidTrees(g, ts) && Roots(g, ts) == roots && YieldAll(ts) == w
  }

  lemma {:induction false} LeafForest(g: Cfg, w: seq<Symbol>) returns (ts: seq<Tree>)
    requires AllTerminal(w)
    ensures Forest(g, ts, w, w)
  {
    if w == [] {
      ts := [];
    } else {
      var rest := LeafForest(g, w[1..]);
      ts := [Leaf(w[0])] + rest;
      assert ts[1..] == rest;
      assert w == [w[0]] + w[1..];
    }
  }

  /** Every terminal string derived from s is the yield of a forest over s. */
  lemma {:induction false} DerivationHasForest(g: Cfg, s: seq<Symbol>, w: seq<Symbol>, n: nat) returns (ts: seq<Tree>)
    requires DerivesIn(g, s, w, n) && AllTerminal(w)
    ensures Forest(g, ts, s, w)
    decreases n
  {
    if n == 0 {
      ts := LeafForest(g, w);
    } else {
      var m :| Step(g, s, m) && DerivesIn(g, m, w, n - 1);
      var us := DerivationHasForest(g, m, w, n - 1);
      var i, p :| RewriteAt(g, s, m, i, p);
      ts := FoldForest(g, s, m, w, us, i, p);
    }
  }

  lemma FoldForest(g: Cfg, s: seq<Symbol>, m: seq<Symbol>, w: seq<Symbol>, us: seq<Tree>, i: nat, p: nat)
    returns (ts: seq<Tree>)
    requires RewriteAt(g, s, m, i, p) && Forest(g, us, m, w)
    ensures Forest(g, ts, s, w)
  {
    var n := |g.productions[p].rhs|;
    var u, v, x := us[..i], us[i..i + n], us[i + n..];
    assert us == u + (v + x);
    ValidTreesConcat(g, u, v + x);
    ValidTreesConcat(g, v, x);
    YieldConcat(u, v + x);
    YieldConcat(v, x);
    assert Roots(g, us)[i..i + n] == g.productions[p].rhs;
    assert Roots(g, v) == g.productions[p].rhs;
    var t := Node(p, v);
    ts := u + ([t] + x);
    ValidTreesConcat(g, u, [t] + x);
    ValidTreesConcat(g, [t], x);
    assert [t][1..] == [];
    YieldConcat(u, [t] + x);
    YieldConcat([t], x);
    YieldOne(t);
    RootsFolded(g, s, m, us, ts, i, p);
  }

  lemma RootsFolded(g: Cfg, s: seq<Symbol>, m: seq<Symbol>, us: seq<Tree>, ts: seq<Tree>, i: nat, p: nat)
    requires RewriteAt(g, s, m, i, p) && Roots(g, us) == m
    requires var n := |g.productions[p].rhs|; ts == us[..i] + ([Node(p, us[i..i + n])] + us[i + n..])
    ensures Roots(g, ts) == s
  {
    var n := |g.productions[p].rhs|;
    forall k | 0 <= k < |s| ensures Root(g, ts[k]) == s[k] {
      if k < i {
        assert Root(g, us[k]) == m[k];
      } else if k > i {
        assert ts[k] == us[k - 1 + n];
        assert Root(g, us[k - 1 + n]) == m[k - 1 + n];
      }
    }
  }

  /** Membership in the grammar's language, two ways: a derivation from the start symbol exists
      exactly when a parse tree does. */
  lemma SentencesHaveTrees(g: Cfg, w: seq<Symbol>)
    requires g.Valid() && AllTerminal(w)
    ensures Derives(g, [g.Start()], w) <==> exists t :: ValidTree(g, t) && Root(g, t) == g.Start() && Yield(t) == w
  {
    if Derives(g, [g.Start()], w) {
      var n: nat :| DerivesIn(g, [g.Start()], w, n);
      var ts := DerivationHasForest(g, [g.Start()], w, n);
      assert ts == [ts[0]];
      YieldOne(ts[0]);
      assert Roots(g, ts)[0] == g.Start();
    }
    if exists t :: ValidTree(g, t) && Root(g, t) == g.Start() && Yield(t) == w {
      var t :| ValidTree(g, t) && Root(g, t) == g.Start() && Yield(t) == w;
      TreeDerives(g, t);
    }
  }
}
