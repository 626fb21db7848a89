/** yacc.py's digraph and traverse: the one-pass strongly-connected-component computation of
        F(x) = F'(x) U U{F(y) | x R y}
    used for the Read and Follow sets of LALR(1) generation. */
module Digraph {
  import opened Cfg

  /** A node is a nonterminal transition: a state number and the nonterminal leaving it. */
  datatype Transition = Transition(state: nat, symbol: Symbol)

  type NumMap = map<Transition, int>
  type SetMap = map<Transition, set<Symbol>>

  const MAXINT: int := 0x7fff_ffff_ffff_ffff

  /** The three arguments of digraph: the input set, the relation and the initial set-valued
      function. */
  datatype Problem = Problem(nodes: set<Transition>, rel: Transition -> seq<Transition>, init: Transition -> set<Symbol>)
  {
    ghost predicate Closed() {
      forall x, y :: x in nodes && y in rel(x) ==> y in nodes
    }
  }

  // ---- Reference solution --------------------------------------------------------------

  ghost predicate IsPath(g: Problem, p: seq<Transition>) {
    |p| > 0 && forall i :: 0 <= i < |p| - 1 ==> p[i + 1] in g.rel(p[i])
  }

  ghost predicate PathBetween(g: Problem, p: seq<Transition>, x: Transition, y: Transition) {
    IsPath(g, p) && p[0] == x && p[|p| - 1] == y
  }

  ghost predicate Reach(g: Problem, x: Transition, y: Transition) {
    exists p :: PathBetween(g, p, x, y)
  }

  /** Everything contributed by a node reachable from x. */
  ghost function Solution(g: Problem, x: Transition): set<Symbol> {
    set y, a | y in g.nodes && Reach(g, x, y) && a in g.init(y) :: a
  }

  lemma ReachRefl(g: Problem, x: Transition)
    ensures Reach(g, x, x)
  {
    assert PathBetween(g, [x], x, x);
  }

  lemma ReachEdge(g: Problem, x: Transition, y: Transition)
    requires y in g.rel(x)
    ensures Reach(g, x, y)
  {
    assert PathBetween(g, [x, y], x, y);
  }

  lemma ReachTrans(g: Problem, x: Transition, y: Transition, z: Transition)
    requires Reach(g, x, y) && Reach(g, y, z)
    ensures Reach(g, x, z)
  {
    var p :| PathBetween(g, p, x, y);
    var q :| PathBetween(g, q, y, z);
    var r := p + q[1..];
    forall i | 0 <= i < |r| - 1 ensures r[i + 1] in g.rel(r[i]) {
      if i >= |p| - 1 {
        var j := i - (|p| - 1);
        assert r[i] == q[j] && r[i + 1] == q[j + 1];
      }
    }
    assert PathBetween(g, r, x, z);
  }

  lemma ReachStays(g: Problem, x: Transition, y: Transition)
    requires g.Closed() && x in g.nodes && Reach(g, x, y)
    ensures y in g.nodes
  {
    var p :| PathBetween(g, p, x, y);
    PathStays(g, p, |p| - 1);
  }

  lemma {:induction false} PathStays(g: Problem, p: seq<Transition>, k: nat)
    requires g.Closed() && IsPath(g, p) && p[0] in g.nodes && k < |p|
    ensures p[k] in g.nodes
  {
    if k > 0 {
      PathStays(g, p, k - 1);
      assert p[k - 1 + 1] in g.rel(p[k - 1]);
    }
  }

  lemma SolutionGrows(g: Problem, x: Transition, y: Transition)
    requires Reach(g, x, y)
    ensures Solution(g, y) <= Solution(g, x)
  {
    forall a | a in Solution(g, y) ensures a in Solution(g, x) {
      var z :| z in g.nodes && Reach(g, y, z) && a in g.init(z);
      ReachTrans(g, x, y, z);
    }
  }

  /** `G` satisfies the set equations, read as inclusions. */
  ghost predicate Satisfies(g: Problem, G: SetMap) {
    forall x :: x in g.nodes ==>
      && x in G
      && g.init(x) <= G[x]
      && forall y :: y in g.rel(x) && y in G ==> G[y] <= G[x]
  }

  ghost predicate IsSolution(g: Problem, F: SetMap) {
    F.Keys == g.nodes && forall x :: x in g.nodes ==> F[x] == Solution(g, x)
  }

  /** The solution satisfies the equations. */
  lemma SolutionSatisfies(g: Problem, F: SetMap)
    requires g.Closed() && IsSolution(g, F)
    ensures Satisfies(g, F)
  {
    forall x | x in g.nodes
      ensures g.init(x) <= F[x] && forall y :: y in g.rel(x) && y in F ==> F[y] <= F[x]
    {
      ReachRefl(g, x);
      forall y | y in g.rel(x) ensures F[y] <= F[x] {
        ReachEdge(g, x, y);
        SolutionGrows(g, x, y);
      }
    }
  }

  /** Nothing is in the solution without a reason: it comes from F' or from a successor. */
  lemma SolutionIsJustified(g: Problem, F: SetMap, x: Transition, a: Symbol)
    requires g.Closed() && IsSolution(g, F) && x in g.nodes && a in F[x]
    ensures a in g.init(x) || exists y :: y in g.rel(x) && y in g.nodes && a in F[y]
  {
    var z :| z in g.nodes && Reach(g, x, z) && a in g.init(z);
    var p :| PathBetween(g, p, x, z);
    if |p| > 1 {
      assert p[0 + 1] in g.rel(p[0]);
      forall i | 0 <= i < |p[1..]| - 1 ensures p[1..][i + 1] in g.rel(p[1..][i]) {
        assert p[i + 1 + 1] in g.rel(p[i + 1]);
      }
      assert PathBetween(g, p[1..], p[1], z);
      assert Reach(g, p[1], z);
      assert p[1] in g.nodes && a in F[p[1]];
    }
  }

  /** The solution lies below everything that satisfies the equations. */
  lemma SolutionIsLeast(g: Problem, F: SetMap, G: SetMap, x: Transition)
    requires g.Closed() && IsSolution(g, F) && Satisfies(g, G) && x in g.nodes
    ensures F[x] <= G[x]
  {
    forall a | a in F[x] ensures a in G[x] {
      var z :| z in g.nodes && Reach(g, x, z) && a in g.init(z);
      var p :| PathBetween(g, p, x, z);
      AlongPath(g, G, p, |p| - 1);
    }
  }

  /** All members of one strongly connected component get the same set. */
  lemma ComponentsShare(g: Problem, F: SetMap, x: Transition, y: Transition)
    requires g.Closed() && IsSolution(g, F) && x in g.nodes && Reach(g, x, y) && Reach(g, y, x)
    ensures y in g.nodes && F[x] == F[y]
  {
    ReachStays(g, x, y);
    SolutionGrows(g, x, y);
    SolutionGrows(g, y, x);
  }

  lemma {:induction false} AlongPath(g: Problem, G: SetMap, p: seq<Transition>, k: nat)
    requires g.Closed() && Satisfies(g, G) && IsPath(g, p) && p[0] in g.nodes && k < |p|
    ensures p[k] in g.nodes && G[p[k]] <= G[p[0]]
  {
    if k > 0 {
      AlongPath(g, G, p, k - 1);
      assert p[k - 1 + 1] in g.rel(p[k - 1]);
    }
  }

  // ---- The invariant of the traversal --------------------------------------------------

  /** The successors of a finished node that is still on the stack at position i. */
  ghost predicate Finished(g: Problem, N: NumMap, stack: seq<Transition>, F: SetMap, i: int)
    requires Shape(g, N, stack, F) && 0 <= i < |stack|
  {
    && N[stack[i]] < i + 1
    && (forall w :: w in g.rel(stack[i]) ==> Handled(g, N, stack, F, stack[i], w))
  }

  /** The edge from v, which is on the stack, to w has been taken into account. */
  ghost predicate Handled(g: Problem, N: NumMap, stack: seq<Transition>, F: SetMap, v: Transition, w: Transition)
    requires Shape(g, N, stack, F) && v in stack
  {
    && w in g.nodes
    && N[w] != 0
    && (N[w] == MAXINT ==> F[w] <= F[v])
    && (forall j :: 0 <= j < |stack| && stack[j] == w ==> N[v] <= j + 1)
  }

  /** Which node is white, on the stack or done, and what the dictionaries hold for it. */
  ghost predicate Shape(g: Problem, N: NumMap, stack: seq<Transition>, F: SetMap) {
    && N.Keys == g.nodes
    && |stack| < MAXINT
    && (forall i, j :: 0 <= i < j < |stack| ==> stack[i] != stack[j])
    && (forall v :: v in stack ==> v in g.nodes && 0 < N[v] <= |stack|)
    && (forall v :: v in g.nodes && v !in stack ==> N[v] == 0 || N[v] == MAXINT)
    && (forall v :: v in F <==> v in g.nodes && N[v] != 0)
  }

  ghost predicate StackEntry(g: Problem, N: NumMap, stack: seq<Transition>, F: SetMap, i: int)
    requires Shape(g, N, stack, F) && 0 <= i < |stack|
  {
    var v := stack[i];
    && N[v] <= i + 1
    && Reach(g, v, stack[N[v] - 1])
    && g.init(v) <= F[v] <= Solution(g, v)
  }

  ghost predicate DoneEntry(g: Problem, N: NumMap, F: SetMap, v: Transition)
    requires N.Keys == g.nodes && v in g.nodes && v in F
  {
    && F[v] == Solution(g, v)
    && forall w :: w in g.rel(v) ==> w in g.nodes && N[w] == MAXINT
  }

  ghost predicate Inv(g: Problem, N: NumMap, stack: seq<Transition>, F: SetMap, gray: set<Transition>) {
    && g.Closed()
    && Shape(g, N, stack, F)
    && (forall v {:trigger v in gray} :: v in gray ==> v in stack)
    && (forall i {:trigger StackEntry(g, N, stack, F, i)} :: 0 <= i < |stack| ==> StackEntry(g, N, stack, F, i))
    && (forall i {:trigger Finished(g, N, stack, F, i)} ::
          0 <= i < |stack| && stack[i] !in gray ==> Finished(g, N, stack, F, i))
    && (forall v {:trigger DoneEntry(g, N, F, v)} :: v in g.nodes && N[v] == MAXINT ==> DoneEntry(g, N, F, v))
  }

  /** What lies on the stack above x, at position d: x's subtree so far. */
  ghost predicate Above(g: Problem, N: NumMap, stack: seq<Transition>, F: SetMap, d: int, x: Transition, lo: int)
    requires Shape(g, N, stack, F) && 0 <= d && x in stack
  {
    forall j :: d <= j < |stack| ==> Reach(g, x, stack[j]) && F[stack[j]] <= F[x] && lo <= N[stack[j]]
  }

  ghost predicate Untouched(g: Problem, N0: NumMap, F0: SetMap, N: NumMap, F: SetMap)
    requires N0.Keys == g.nodes && N.Keys == g.nodes
  {
    forall v :: v in g.nodes && N0[v] != 0 ==> N[v] == N0[v] && v in F0 && v in F && F[v] == F0[v]
  }

  ghost function White(g: Problem, N: NumMap): set<Transition>
    requires N.Keys == g.nodes
  {
    set v | v in g.nodes && N[v] == 0
  }

  // ---- The steps of traverse keep the invariant ----------------------------------------

  lemma {:induction false} DistinctSize(s: seq<Transition>, nodes: set<Transition>)
    requires forall i, j :: 0 <= i < j < |s| ==> s[i] != s[j]
    requires forall v :: v in s ==> v in nodes
    ensures |s| <= |nodes|
  {
    if s != [] {
      var last := s[|s| - 1];
      assert last in s;
      assert forall v :: v in s[..|s| - 1] ==> v in s;
      DistinctSize(s[..|s| - 1], nodes - {last});
    }
  }

  /** Pushing a white node leaves the numbers and the stack in shape. */
  lemma PushShape(g: Problem, N: NumMap, stack: seq<Transition>, F: SetMap, gray: set<Transition>, x: Transition)
    requires Inv(g, N, stack, F, gray) && x in g.nodes && N[x] == 0 && |g.nodes| < MAXINT
    ensures x !in stack && |stack| + 1 < MAXINT
    ensures Shape(g, N[x := |stack| + 1], stack + [x], F[x := g.init(x)])
  {
    var N', S', F' := N[x := |stack| + 1], stack + [x], F[x := g.init(x)];
    assert x !in stack;
    DistinctSize(S', g.nodes);
    forall v | v in S' ensures v in g.nodes && 0 < N'[v] <= |S'| {
      assert v == x || v in stack;
    }
    forall v | v in g.nodes && v !in S' ensures N'[v] == 0 || N'[v] == MAXINT {
      assert v !in stack;
    }
  }

  /** Pushing a white node. */
  lemma PushKeeps(g: Problem, N: NumMap, stack: seq<Transition>, F: SetMap, gray: set<Transition>, x: Transition)
    requires Inv(g, N, stack, F, gray) && x in g.nodes && N[x] == 0 && |g.nodes| < MAXINT
    ensures Inv(g, N[x := |stack| + 1], stack + [x], F[x := g.init(x)], gray + {x})
  {
    var N', S', F' := N[x := |stack| + 1], stack + [x], F[x := g.init(x)];
    PushShape(g, N, stack, F, gray, x);
    forall i | 0 <= i < |S'| ensures StackEntry(g, N', S', F', i) {
      if i < |stack| {
        assert StackEntry(g, N, stack, F, i) && stack[i] in stack;
      } else {
        ReachRefl(g, x);
        assert g.init(x) <= Solution(g, x);
      }
    }
    forall i | 0 <= i < |S'| && S'[i] !in gray + {x} ensures Finished(g, N', S', F', i) {
      assert Finished(g, N, stack, F, i);
      forall w | w in g.rel(S'[i]) ensures Handled(g, N', S', F', S'[i], w) {
        assert Handled(g, N, stack, F, stack[i], w);
      }
    }
    forall v | v in g.nodes && N'[v] == MAXINT ensures DoneEntry(g, N', F', v) {
      assert DoneEntry(g, N, F, v);
    }
  }

  function Min(a: int, b: int): int {
    if a < b then a else b
  }

  lemma SetsBelowSolution(g: Problem, N: NumMap, stack: seq<Transition>, F: SetMap, gray: set<Transition>,
          y: Transition)
    requires Inv(g, N, stack, F, gray) && y in g.nodes && N[y] != 0
    ensures y in F && F[y] <= Solution(g, y)
  {
    if y in stack {
      var j :| 0 <= j < |stack| && stack[j] == y;
      assert StackEntry(g, N, stack, F, j);
    } else {
      assert DoneEntry(g, N, F, y);
    }
  }

  /** The stack entry of x after folding in its successor y. */
  lemma MergedEntry(g: Problem, N: NumMap, stack: seq<Transition>, F: SetMap, gray: set<Transition>,
          x: Transition, y: Transition, d: int)
    requires Inv(g, N, stack, F, gray) && 0 <= d < |stack| && stack[d] == x
    requires y in g.rel(x) && y in g.nodes && N[y] != 0
    ensures y in F && x in F && x in stack
    ensures 0 < Min(N[x], N[y]) <= d + 1 && Reach(g, x, stack[Min(N[x], N[y]) - 1])
    ensures g.init(x) <= F[x] + F[y] <= Solution(g, x)
    ensures forall j :: 0 <= j < |stack| && stack[j] == y ==> Min(N[x], N[y]) <= j + 1
  {
    assert x in stack;
    ReachEdge(g, x, y);
    SolutionGrows(g, x, y);
    SetsBelowSolution(g, N, stack, F, gray, y);
    assert StackEntry(g, N, stack, F, d);
    if y in stack {
      var j :| 0 <= j < |stack| && stack[j] == y;
      assert StackEntry(g, N, stack, F, j);
      ReachTrans(g, x, y, stack[N[y] - 1]);
    }
  }

  /** Folding a successor's number and set into x. */
  lemma MergeKeeps(g: Problem, N: NumMap, stack: seq<Transition>, F: SetMap, gray: set<Transition>,
          x: Transition, y: Transition, d: int)
    requires Inv(g, N, stack, F, gray) && x in gray && 0 <= d < |stack| && stack[d] == x
    requires y in g.rel(x) && y in g.nodes && N[y] != 0
    ensures y in F && x in F && x in stack
    ensures Inv(g, N[x := Min(N[x], N[y])], stack, F[x := F[x] + F[y]], gray)
    ensures Handled(g, N[x := Min(N[x], N[y])], stack, F[x := F[x] + F[y]], x, y)
  {
    MergedEntry(g, N, stack, F, gray, x, y, d);
    var N', F' := N[x := Min(N[x], N[y])], F[x := F[x] + F[y]];
    assert Shape(g, N', stack, F');
    forall i | 0 <= i < |stack| ensures StackEntry(g, N', stack, F', i) {
      assert StackEntry(g, N, stack, F, i);
    }
    forall i | 0 <= i < |stack| && stack[i] !in gray ensures Finished(g, N', stack, F', i) {
      assert Finished(g, N, stack, F, i);
      forall w | w in g.rel(stack[i]) ensures Handled(g, N', stack, F', stack[i], w) {
        assert Handled(g, N, stack, F, stack[i], w);
      }
    }
    forall v | v in g.nodes && N'[v] == MAXINT ensures DoneEntry(g, N', F', v) {
      assert DoneEntry(g, N, F, v);
    }
  }

  /** Edges of x handled before stay handled when x's number drops and its set grows. */
  lemma HandledStays(g: Problem, N: NumMap, stack: seq<Transition>, F: SetMap, N': NumMap,
          stack': seq<Transition>, F': SetMap, x: Transition, w: Transition)
    requires Shape(g, N, stack, F) && Shape(g, N', stack', F') && x in stack && x in stack'
    requires Handled(g, N, stack, F, x, w)
    requires stack <= stack' && N'[x] <= N[x] && F[x] <= F'[x]
    requires w != x ==> N'[w] == N[w] && F'[w] == F[w]
    ensures Handled(g, N', stack', F', x, w)
  {
    forall j | 0 <= j < |stack'| && stack'[j] == w ensures N'[x] <= j + 1 {
      assert w in stack';
      if w != x {
        assert N[w] <= |stack'| < MAXINT;
        assert w in stack;
      }
      var i :| 0 <= i < |stack| && stack[i] == w;
      assert stack'[i] == w;
      assert i == j;
    }
  }

  /** x has been left on the stack because it reaches something older. */
  lemma FinishKeeps(g: Problem, N: NumMap, stack: seq<Transition>, F: SetMap, gray: set<Transition>,
          x: Transition, d: int)
    requires Inv(g, N, stack, F, gray + {x}) && x !in gray && 0 <= d < |stack| && stack[d] == x
    requires N[x] < d + 1
    requires forall w :: w in g.rel(x) ==> x in stack && Handled(g, N, stack, F, x, w)
    ensures Inv(g, N, stack, F, gray)
  {
    assert Finished(g, N, stack, F, d);
    forall i | 0 <= i < |stack| && stack[i] !in gray ensures Finished(g, N, stack, F, i) {
      if stack[i] == x {
        assert i == d;
      }
    }
  }

  /** The situation when traverse finds that x, at position d, is the root of a component. */
  ghost predicate AtRoot(g: Problem, N: NumMap, stack: seq<Transition>, F: SetMap, gray: set<Transition>,
          x: Transition, d: int)
  {
    && Inv(g, N, stack, F, gray + {x})
    && 0 <= d < |stack| && stack[d] == x && N[x] == d + 1
    && (forall v :: v in gray ==> v in stack[..d])
    && (forall i, w :: 0 <= i < d && stack[i] !in gray && w in g.rel(stack[i]) ==> w !in stack[d..])
    && (forall w :: w in g.rel(x) ==> x in stack && Handled(g, N, stack, F, x, w))
    && x in stack
    && Above(g, N, stack, F, d, x, d + 1)
  }

  lemma NotBelow(stack: seq<Transition>, d: int, i: int)
    requires forall i, j :: 0 <= i < j < |stack| ==> stack[i] != stack[j]
    requires 0 <= d <= i < |stack|
    ensures stack[i] !in stack[..d]
  {
    assert forall j :: 0 <= j < d ==> stack[..d][j] == stack[j] != stack[i];
  }

  /** Every edge out of the component either stays in it or leads to a done node. */
  lemma EdgeFromSegment(g: Problem, N: NumMap, stack: seq<Transition>, F: SetMap, gray: set<Transition>,
          x: Transition, d: int, i: int, w: Transition)
    requires AtRoot(g, N, stack, F, gray, x, d) && d <= i < |stack| && w in g.rel(stack[i])
    ensures w in g.nodes && w in F
    ensures w in stack[d..] || (N[w] == MAXINT && F[w] <= F[x] && F[w] == Solution(g, w))
  {
    var v := stack[i];
    assert v in stack;
    assert Handled(g, N, stack, F, v, w) by {
      if i > d {
        NotBelow(stack, d, i);
        assert Finished(g, N, stack, F, i);
      }
    }
    assert d + 1 <= N[v] && F[v] <= F[x];
    if w in stack {
      var j :| 0 <= j < |stack| && stack[j] == w;
      assert N[v] <= j + 1;
      assert stack[d..][j - d] == w;
    } else {
      assert DoneEntry(g, N, F, w);
    }
  }

  lemma {:induction false} PathFromRoot(g: Problem, N: NumMap, stack: seq<Transition>, F: SetMap,
          gray: set<Transition>, x: Transition, d: int, p: seq<Transition>, k: nat)
    requires AtRoot(g, N, stack, F, gray, x, d) && IsPath(g, p) && p[0] in stack[d..] && k < |p|
    ensures p[k] in g.nodes
    ensures p[k] in stack[d..] || Solution(g, p[k]) <= F[x]
  {
    if k == 0 {
      var i :| d <= i < |stack| && stack[i] == p[0];
      assert stack[i] in stack;
    } else {
      PathFromRoot(g, N, stack, F, gray, x, d, p, k - 1);
      assert p[k - 1 + 1] in g.rel(p[k - 1]);
      if p[k - 1] in stack[d..] {
        var i :| d <= i < |stack| && stack[i] == p[k - 1];
        EdgeFromSegment(g, N, stack, F, gray, x, d, i, p[k]);
      } else {
        ReachEdge(g, p[k - 1], p[k]);
        SolutionGrows(g, p[k - 1], p[k]);
      }
    }
  }

  /** At the root of a component x's set is complete. */
  lemma RootComplete(g: Problem, N: NumMap, stack: seq<Transition>, F: SetMap, gray: set<Transition>,
          x: Transition, d: int)
    requires AtRoot(g, N, stack, F, gray, x, d)
    ensures x in F && F[x] == Solution(g, x)
  {
    assert StackEntry(g, N, stack, F, d);
    forall a | a in Solution(g, x) ensures a in F[x] {
      var y :| y in g.nodes && Reach(g, x, y) && a in g.init(y);
      var p :| PathBetween(g, p, x, y);
      assert stack[d..][0] == x;
      PathFromRoot(g, N, stack, F, gray, x, d, p, |p| - 1);
      if y in stack[d..] {
        var i :| d <= i < |stack| && stack[i] == y;
        assert StackEntry(g, N, stack, F, i);
      } else {
        ReachRefl(g, y);
      }
    }
  }

  /** Every member of the component reaches its root. */
  lemma {:induction false} ReachesRoot(g: Problem, N: NumMap, stack: seq<Transition>, F: SetMap,
          gray: set<Transition>, x: Transition, d: int, i: int)
    requires AtRoot(g, N, stack, F, gray, x, d) && d <= i < |stack|
    ensures Reach(g, stack[i], x) && Solution(g, stack[i]) == Solution(g, x)
    decreases i
  {
    if i == d {
      ReachRefl(g, x);
    } else {
      var v := stack[i];
      NotBelow(stack, d, i);
      assert Finished(g, N, stack, F, i) && StackEntry(g, N, stack, F, i);
      ReachesRoot(g, N, stack, F, gray, x, d, N[v] - 1);
      ReachTrans(g, v, stack[N[v] - 1], x);
      assert Reach(g, x, v);
      SolutionGrows(g, v, x);
      SolutionGrows(g, x, v);
    }
  }

  /** What the dictionaries hold once the stack has been popped down to length m. */
  ghost predicate Popped(N: NumMap, F: SetMap, N': NumMap, F': SetMap, stack: seq<Transition>, m: int, x: Transition)
    requires 0 <= m <= |stack| && x in F
  {
    && N'.Keys == N.Keys && F'.Keys == F.Keys
    && (forall v :: v in N ==> N'[v] == if v in stack[m..] then MAXINT else N[v])
    && (forall v :: v in F ==> F'[v] == if v in stack[m..] then F[x] else F[v])
  }

  lemma SplitStack(stack: seq<Transition>, d: int)
    requires forall i, j :: 0 <= i < j < |stack| ==> stack[i] != stack[j]
    requires 0 <= d <= |stack|
    ensures forall v :: v in stack <==> v in stack[..d] || v in stack[d..]
    ensures forall v :: v in stack[..d] ==> v !in stack[d..]
  {
    assert stack == stack[..d] + stack[d..];
    forall i, j | 0 <= i < d && 0 <= j < |stack| - d ensures stack[..d][i] != stack[d..][j] {
      assert stack[i] != stack[d + j];
    }
  }

  lemma PopShape(g: Problem, N: NumMap, stack: seq<Transition>, F: SetMap, gray: set<Transition>, x: Transition,
          d: int, N': NumMap, F': SetMap)
    requires AtRoot(g, N, stack, F, gray, x, d) && x in F && Popped(N, F, N', F', stack, d, x)
    ensures Shape(g, N', stack[..d], F')
    ensures forall v :: v in stack[..d] ==> v in stack && v !in stack[d..]
  {
    var S := stack[..d];
    SplitStack(stack, d);
    forall v | v in S ensures v in g.nodes && 0 < N'[v] <= |S| {
      var i :| 0 <= i < d && stack[i] == v;
      assert v in stack && v !in stack[d..] && StackEntry(g, N, stack, F, i);
    }
    forall v | v in g.nodes && v !in S ensures N'[v] == 0 || N'[v] == MAXINT {
      assert v in stack ==> v in stack[d..];
    }
    forall v ensures v in F' <==> v in g.nodes && N'[v] != 0 {
      if v in F {
        assert v in g.nodes && N[v] != 0;
      }
    }
  }

  lemma PopEntry(g: Problem, N: NumMap, stack: seq<Transition>, F: SetMap, gray: set<Transition>, x: Transition,
                 d: int, N': NumMap, F': SetMap, i: int)
    requires AtRoot(g, N, stack, F, gray, x, d) && x in F && Popped(N, F, N', F', stack, d, x)
    requires Shape(g, N', stack[..d], F') && 0 <= i < d && stack[i] in stack && stack[i] !in stack[d..]
    ensures StackEntry(g, N', stack[..d], F', i)
  {
    assert StackEntry(g, N, stack, F, i);
  }

  lemma PopFinished(g: Problem, N: NumMap, stack: seq<Transition>, F: SetMap, gray: set<Transition>, x: Transition,
                    d: int, N': NumMap, F': SetMap, i: int)
    requires AtRoot(g, N, stack, F, gray, x, d) && x in F && Popped(N, F, N', F', stack, d, x)
    requires Shape(g, N', stack[..d], F') && 0 <= i < d && stack[i] in stack && stack[i] !in stack[d..]
    requires stack[i] !in gray && stack[i] in stack[..d]
    ensures Finished(g, N', stack[..d], F', i)
  {
    assert Finished(g, N, stack, F, i);
    forall w | w in g.rel(stack[i]) ensures Handled(g, N', stack[..d], F', stack[i], w) {
      PopHandled(g, N, stack, F, gray, x, d, N', F', i, w);
    }
  }

  lemma PopHandled(g: Problem, N: NumMap, stack: seq<Transition>, F: SetMap, gray: set<Transition>,
                   x: Transition, d: int, N': NumMap, F': SetMap, i: int, w: Transition)
    requires AtRoot(g, N, stack, F, gray, x, d) && x in F && Popped(N, F, N', F', stack, d, x)
    requires Shape(g, N', stack[..d], F') && 0 <= i < d && stack[i] in stack && stack[i] in stack[..d]
    requires stack[i] !in gray && stack[i] !in stack[d..] && w in g.rel(stack[i])
    ensures Handled(g, N', stack[..d], F', stack[i], w)
  {
    assert Finished(g, N, stack, F, i) && Handled(g, N, stack, F, stack[i], w);
    assert stack[d..][0] == x;
  }

  lemma PopDone(g: Problem, N: NumMap, stack: seq<Transition>, F: SetMap, gray: set<Transition>, x: Transition,
          d: int, N': NumMap, F': SetMap, v: Transition)
    requires AtRoot(g, N, stack, F, gray, x, d) && x in F && Popped(N, F, N', F', stack, d, x)
    requires v in g.nodes && N'[v] == MAXINT
    ensures v in F' && DoneEntry(g, N', F', v)
  {
    if v in stack[d..] {
      var i :| d <= i < |stack| && stack[i] == v;
      RootComplete(g, N, stack, F, gray, x, d);
      ReachesRoot(g, N, stack, F, gray, x, d, i);
      assert v in stack;
      forall w | w in g.rel(v) ensures w in g.nodes && N'[w] == MAXINT {
        EdgeFromSegment(g, N, stack, F, gray, x, d, i, w);
      }
    } else {
      assert DoneEntry(g, N, F, v);
    }
  }

  lemma PopKeeps(g: Problem, N: NumMap, stack: seq<Transition>, F: SetMap, gray: set<Transition>, x: Transition,
          d: int, N': NumMap, F': SetMap)
    requires AtRoot(g, N, stack, F, gray, x, d) && x in F && Popped(N, F, N', F', stack, d, x)
    ensures Inv(g, N', stack[..d], F', gray)
  {
    PopShape(g, N, stack, F, gray, x, d, N', F');
    forall i | 0 <= i < d ensures stack[i] in stack[..d] && stack[i] in stack && stack[i] !in stack[d..] {
      assert stack[..d][i] == stack[i];
    }
    forall i | 0 <= i < d ensures StackEntry(g, N', stack[..d], F', i) {
      PopEntry(g, N, stack, F, gray, x, d, N', F', i);
    }
    forall i | 0 <= i < d && stack[i] !in gray ensures Finished(g, N', stack[..d], F', i) {
      PopFinished(g, N, stack, F, gray, x, d, N', F', i);
    }
    forall v | v in g.nodes && N'[v] == MAXINT ensures v in F' && DoneEntry(g, N', F', v) {
      PopDone(g, N, stack, F, gray, x, d, N', F', v);
    }
  }

  // ---- The algorithm -------------------------------------------------------------------

  /** What a completed call of traverse(x) leaves behind, relative to the state it started in. */
  ghost predicate Traversed(g: Problem, N0: NumMap, S0: seq<Transition>, F0: SetMap, N: NumMap,
          S: seq<Transition>, F: SetMap, x: Transition)
    requires Shape(g, N0, S0, F0) && Shape(g, N, S, F)
  {
    && S0 <= S
    && Untouched(g, N0, F0, N, F)
    && x in g.nodes && N[x] != 0
    && (forall j :: |S0| <= j < |S| ==> S[j] in g.nodes && N0[S[j]] == 0)
    && if |S| == |S0| then N[x] == MAXINT
       else S[|S0|] == x && x in S && N[x] <= |S0| && Above(g, N, S, F, |S0|, x, N[x])
  }

  /** The state inside traverse(x), after the first i successors have been folded in. */
  ghost predicate Halfway(g: Problem, N0: NumMap, S0: seq<Transition>, F0: SetMap, N: NumMap,
          S: seq<Transition>, F: SetMap, gray: set<Transition>, x: Transition, i: int)
  {
    && Shape(g, N0, S0, F0)
    && Inv(g, N, S, F, gray + {x})
    && |S0| < |S| && S0 <= S && S[|S0|] == x && x in S
    && Untouched(g, N0, F0, N, F)
    && (forall j :: |S0| <= j < |S| ==> S[j] in g.nodes && N0[S[j]] == 0)
    && Above(g, N, S, F, |S0| + 1, x, N[x])
    && 0 <= i <= |g.rel(x)|
    && (forall k :: 0 <= k < i ==> Handled(g, N, S, F, x, g.rel(x)[k]))
  }

  /** The state inside traverse(x) when successor number i has been visited but not folded in. */
  ghost predicate Visited(g: Problem, N0: NumMap, S0: seq<Transition>, F0: SetMap, N: NumMap,
          S: seq<Transition>, F: SetMap, gray: set<Transition>, x: Transition, i: int)
  {
    && Shape(g, N0, S0, F0) && Inv(g, N, S, F, gray + {x})
    && |S0| < |S| && S0 <= S && S[|S0|] == x && x in S
    && Untouched(g, N0, F0, N, F)
    && (forall j :: |S0| <= j < |S| ==> S[j] in g.nodes && N0[S[j]] == 0)
    && 0 <= i < |g.rel(x)| && g.rel(x)[i] in g.nodes && N[g.rel(x)[i]] != 0
    && (forall k :: 0 <= k < i ==> Handled(g, N, S, F, x, g.rel(x)[k]))
    && (forall j :: |S0| + 1 <= j < |S| ==> Reach(g, x, S[j]) && Min(N[x], N[g.rel(x)[i]]) <= N[S[j]])
    && (forall j :: |S0| + 1 <= j < |S| ==> F[S[j]] <= F[x] || F[S[j]] <= F[g.rel(x)[i]])
  }

  /** x's entries and the older part of its subtree survive a nested traverse call. */
  lemma NestedKeepsX(g: Problem, N0: NumMap, S0: seq<Transition>, F0: SetMap, N1: NumMap, S1: seq<Transition>,
          F1: SetMap, N: NumMap, S: seq<Transition>, F: SetMap, gray: set<Transition>, x: Transition, i: int)
    requires Halfway(g, N0, S0, F0, N1, S1, F1, gray, x, i) && i < |g.rel(x)|
    requires Inv(g, N, S, F, gray + {x}) && Traversed(g, N1, S1, F1, N, S, F, g.rel(x)[i])
    ensures S0 <= S && |S0| < |S| && S[|S0|] == x && x in S && N[x] == N1[x] && F[x] == F1[x]
    ensures Untouched(g, N0, F0, N, F)
    ensures forall j :: |S0| <= j < |S| ==> S[j] in g.nodes && N0[S[j]] == 0
    ensures forall k :: 0 <= k < i ==> Handled(g, N, S, F, x, g.rel(x)[k])
  {
    assert S[|S0|] == S1[|S0|] == x && x in S;
    forall k | 0 <= k < i ensures Handled(g, N, S, F, x, g.rel(x)[k]) {
      assert Handled(g, N1, S1, F1, x, g.rel(x)[k]);
      HandledStays(g, N1, S1, F1, N, S, F, x, g.rel(x)[k]);
    }
    forall j | |S0| <= j < |S| ensures S[j] in g.nodes && N0[S[j]] == 0 {
      if j < |S1| {
        assert S[j] == S1[j];
      } else {
        assert N1[S[j]] == 0;
      }
    }
  }

  /** Everything above x after a nested call is reached through x or through the successor. */
  lemma NestedAbove(g: Problem, S0: seq<Transition>, N1: NumMap, S1: seq<Transition>, F1: SetMap,
                    N: NumMap, S: seq<Transition>, F: SetMap, x: Transition, i: int, j: int)
    requires Shape(g, N1, S1, F1) && Shape(g, N, S, F) && x in S1 && x in S && |S0| < |S1|
    requires N[x] == N1[x] && F[x] == F1[x]
    requires Above(g, N1, S1, F1, |S0| + 1, x, N1[x])
    requires 0 <= i < |g.rel(x)| && Traversed(g, N1, S1, F1, N, S, F, g.rel(x)[i])
    requires |S0| + 1 <= j < |S|
    ensures Reach(g, x, S[j]) && Min(N[x], N[g.rel(x)[i]]) <= N[S[j]]
    ensures g.rel(x)[i] in F && S[j] in F && (F[S[j]] <= F[x] || F[S[j]] <= F[g.rel(x)[i]])
  {
    var y := g.rel(x)[i];
    assert S[j] in S;
    if j < |S1| {
      assert S[j] == S1[j] && S1[j] in S1;
    } else {
      ReachEdge(g, x, y);
      ReachTrans(g, x, y, S[j]);
    }
  }

  /** A nested traverse call leaves successor number i visited. */
  lemma AfterNested(g: Problem, N0: NumMap, S0: seq<Transition>, F0: SetMap, N1: NumMap, S1: seq<Transition>,
          F1: SetMap, N: NumMap, S: seq<Transition>, F: SetMap, gray: set<Transition>, x: Transition, i: int)
    requires Halfway(g, N0, S0, F0, N1, S1, F1, gray, x, i) && i < |g.rel(x)|
    requires Inv(g, N, S, F, gray + {x}) && Traversed(g, N1, S1, F1, N, S, F, g.rel(x)[i])
    ensures Visited(g, N0, S0, F0, N, S, F, gray, x, i)
    ensures White(g, N) <= White(g, N1)
  {
    NestedKeepsX(g, N0, S0, F0, N1, S1, F1, N, S, F, gray, x, i);
    forall j | |S0| + 1 <= j < |S|
      ensures Reach(g, x, S[j]) && Min(N[x], N[g.rel(x)[i]]) <= N[S[j]]
      ensures F[S[j]] <= F[x] || F[S[j]] <= F[g.rel(x)[i]]
    {
      NestedAbove(g, S0, N1, S1, F1, N, S, F, x, i, j);
    }
  }

  /** Folding successor number i into x moves the state one successor further. */
  lemma AfterMerge(g: Problem, N0: NumMap, S0: seq<Transition>, F0: SetMap, N: NumMap, S: seq<Transition>,
          F: SetMap, gray: set<Transition>, x: Transition, i: int)
    requires Visited(g, N0, S0, F0, N, S, F, gray, x, i)
    ensures x in F && g.rel(x)[i] in F
    ensures Halfway(g, N0, S0, F0, N[x := Min(N[x], N[g.rel(x)[i]])], S, F[x := F[x] + F[g.rel(x)[i]]], gray, x, i + 1)
  {
    var y := g.rel(x)[i];
    assert N0[x] == 0;
    MergeKeeps(g, N, S, F, gray + {x}, x, y, |S0|);
    var N', F' := N[x := Min(N[x], N[y])], F[x := F[x] + F[y]];
    forall k | 0 <= k < i + 1 ensures Handled(g, N', S, F', x, g.rel(x)[k]) {
      if k < i {
        HandledStays(g, N, S, F, N', S, F', x, g.rel(x)[k]);
      }
    }
    assert Untouched(g, N0, F0, N', F');
    AboveMerged(g, N, S, F, |S0| + 1, x, y);
  }

  lemma AboveMerged(g: Problem, N: NumMap, S: seq<Transition>, F: SetMap, d: int, x: Transition, y: Transition)
    requires Shape(g, N, S, F) && 0 < d <= |S| && S[d - 1] == x && x in S && x in F && y in F
    requires Shape(g, N[x := Min(N[x], N[y])], S, F[x := F[x] + F[y]])
    requires forall j :: d <= j < |S| ==> Reach(g, x, S[j]) && Min(N[x], N[y]) <= N[S[j]]
    requires forall j :: d <= j < |S| ==> F[S[j]] <= F[x] || F[S[j]] <= F[y]
    ensures Above(g, N[x := Min(N[x], N[y])], S, F[x := F[x] + F[y]], d, x, Min(N[x], N[y]))
  {
    assert forall j :: d <= j < |S| ==> S[j] != x;
  }

  /** When every successor is folded in and x has kept its own number, x is a component root. */
  lemma HalfwayAtRoot(g: Problem, N0: NumMap, S0: seq<Transition>, F0: SetMap, N: NumMap, S: seq<Transition>,
          F: SetMap, gray: set<Transition>, x: Transition)
    requires Inv(g, N0, S0, F0, gray) && x !in gray
    requires Halfway(g, N0, S0, F0, N, S, F, gray, x, |g.rel(x)|) && N[x] == |S0| + 1
    ensures AtRoot(g, N, S, F, gray, x, |S0|)
  {
    var d := |S0|;
    assert S[..d] == S0;
    forall i, w | 0 <= i < d && S[i] !in gray && w in g.rel(S[i]) ensures w !in S[d..] {
      assert S[i] == S0[i] && Finished(g, N0, S0, F0, i);
      assert Handled(g, N0, S0, F0, S0[i], w);
      forall j | 0 <= j < |S[d..]| ensures S[d..][j] != w {
        assert S[d..][j] == S[d + j] && N0[S[d + j]] == 0;
      }
    }
    forall w | w in g.rel(x) ensures Handled(g, N, S, F, x, w) {
      var k :| 0 <= k < |g.rel(x)| && g.rel(x)[k] == w;
    }
    ReachRefl(g, x);
  }

  /** x has just been pushed and given its own number. */
  lemma Pushed(g: Problem, N: NumMap, S: seq<Transition>, F: SetMap, gray: set<Transition>, x: Transition)
    requires Inv(g, N, S, F, gray) && x in g.nodes && N[x] == 0 && |g.nodes| < MAXINT
    ensures Halfway(g, N, S, F, N[x := |S| + 1], S + [x], F[x := g.init(x)], gray, x, 0)
    ensures White(g, N[x := |S| + 1]) < White(g, N) && x !in gray
  {
    PushKeeps(g, N, S, F, gray, x);
    assert (S + [x])[|S|] == x;
    assert x in White(g, N) && x !in White(g, N[x := |S| + 1]);
  }

  lemma PopUntouched(g: Problem, N0: NumMap, F0: SetMap, N1: NumMap, S1: seq<Transition>, F1: SetMap, N: NumMap,
          F: SetMap, x: Transition, d: int)
    requires N0.Keys == N1.Keys == g.nodes && 0 <= d < |S1| && x in F1 && Popped(N1, F1, N, F, S1, d, x)
    requires Untouched(g, N0, F0, N1, F1)
    requires forall j :: d <= j < |S1| ==> S1[j] in g.nodes && N0[S1[j]] == 0
    ensures Untouched(g, N0, F0, N, F)
  {
    forall v | v in g.nodes && N0[v] != 0 ensures v !in S1[d..] {
      forall j | 0 <= j < |S1[d..]| ensures S1[d..][j] != v {
        assert S1[d..][j] == S1[d + j];
      }
    }
  }

  /** traverse(x) ended by popping x's component. */
  lemma RootTraversed(g: Problem, N0: NumMap, S0: seq<Transition>, F0: SetMap, N1: NumMap, S1: seq<Transition>,
          F1: SetMap, N: NumMap, S: seq<Transition>, F: SetMap, gray: set<Transition>, x: Transition)
    requires Inv(g, N0, S0, F0, gray) && x !in gray
    requires Halfway(g, N0, S0, F0, N1, S1, F1, gray, x, |g.rel(x)|) && N1[x] == |S0| + 1
    requires x in F1 && Popped(N1, F1, N, F, S1, |S0|, x) && S == S1[..|S0|]
    ensures Inv(g, N, S, F, gray) && S == S0 && Traversed(g, N0, S0, F0, N, S, F, x)
  {
    HalfwayAtRoot(g, N0, S0, F0, N1, S1, F1, gray, x);
    PopKeeps(g, N1, S1, F1, gray, x, |S0|, N, F);
    PopUntouched(g, N0, F0, N1, S1, F1, N, F, x, |S0|);
    assert x in S1[|S0|..] by {
      assert S1[|S0|..][0] == x;
    }
  }

  /** traverse(x) ended leaving x on the stack. */
  lemma LeftTraversed(g: Problem, N0: NumMap, S0: seq<Transition>, F0: SetMap, N: NumMap, S: seq<Transition>,
          F: SetMap, gray: set<Transition>, x: Transition)
    requires Inv(g, N0, S0, F0, gray) && x !in gray
    requires Halfway(g, N0, S0, F0, N, S, F, gray, x, |g.rel(x)|) && N[x] != |S0| + 1
    ensures Inv(g, N, S, F, gray) && Traversed(g, N0, S0, F0, N, S, F, x)
  {
    assert StackEntry(g, N, S, F, |S0|);
    forall w | w in g.rel(x) ensures Handled(g, N, S, F, x, w) {
      var k :| 0 <= k < |g.rel(x)| && g.rel(x)[k] == w;
    }
    FinishKeeps(g, N, S, F, gray, x, |S0|);
    ReachRefl(g, x);
  }

  /** With no call in progress the stack is empty. */
  lemma NothingLeft(g: Problem, N: NumMap, S: seq<Transition>, F: SetMap)
    requires Inv(g, N, S, F, {})
    ensures S == []
  {
    assert |S| > 0 ==> S[0] in S && StackEntry(g, N, S, F, 0) && Finished(g, N, S, F, 0);
  }

  /** The dictionaries that digraph hands down through the recursion of traverse. */
  class Traversal {
    const g: Problem
    var N: NumMap
    var stack: seq<Transition>
    var F: SetMap

    constructor (g: Problem)
      requires g.Closed()
      ensures this.g == g && stack == [] && Inv(g, N, stack, F, {}) && White(g, N) == g.nodes
    {
      this.g := g;
      N := map x | x in g.nodes :: 0;
      stack := [];
      F := map[];
    }

    /** traverse. */
    method Traverse(x: Transition, ghost gray: set<Transition>)
      requires |g.nodes| < MAXINT
      requires Inv(g, N, stack, F, gray) && x in g.nodes && N[x] == 0
      modifies this
      ensures Inv(g, N, stack, F, gray)
      ensures Traversed(g, old(N), old(stack), old(F), N, stack, F, x)
      decreases White(g, N), 0
    {
      ghost var N0, S0, F0 := N, stack, F;
      var d := Push(x, gray);
      FoldSuccessors(x, N0, S0, F0, gray);
      if N[x] == d {
        EndAtRoot(x, N0, S0, F0, gray);
      } else {
        LeftTraversed(g, N0, S0, F0, N, stack, F, gray, x);
      }
    }

    /** The beginning of traverse: x gets its number and its initial set. */
    method Push(x: Transition, ghost gray: set<Transition>) returns (d: int)
      requires |g.nodes| < MAXINT
      requires Inv(g, N, stack, F, gray) && x in g.nodes && N[x] == 0
      modifies this
      ensures d == |old(stack)| + 1 && Halfway(g, old(N), old(stack), old(F), N, stack, F, gray, x, 0)
      ensures White(g, N) < old(White(g, N)) && x !in gray
    {
      Pushed(g, N, stack, F, gray, x);
      stack := stack + [x];
      d := |stack|;
      N := N[x := d];
      F := F[x := g.init(x)];
    }

    /** Its loop over the successors. */
    method FoldSuccessors(x: Transition, ghost N0: NumMap, ghost S0: seq<Transition>, ghost F0: SetMap,
                          ghost gray: set<Transition>)
      requires |g.nodes| < MAXINT && Halfway(g, N0, S0, F0, N, stack, F, gray, x, 0)
      modifies this
      ensures Halfway(g, N0, S0, F0, N, stack, F, gray, x, |g.rel(x)|)
      decreases White(g, N), 3
    {
      ghost var white := White(g, N);
      var rel := g.rel(x);
      for i := 0 to |rel|
        invariant Halfway(g, N0, S0, F0, N, stack, F, gray, x, i) && White(g, N) <= white
      {
        FoldSuccessor(x, i, rel[i], N0, S0, F0, gray);
      }
    }

    /** The end of traverse at the root of a component. */
    method EndAtRoot(x: Transition, ghost N0: NumMap, ghost S0: seq<Transition>, ghost F0: SetMap,
                     ghost gray: set<Transition>)
      requires Inv(g, N0, S0, F0, gray) && x !in gray
      requires Halfway(g, N0, S0, F0, N, stack, F, gray, x, |g.rel(x)|) && N[x] == |S0| + 1
      modifies this
      ensures Inv(g, N, stack, F, gray) && Traversed(g, N0, S0, F0, N, stack, F, x)
    {
      ghost var N1, S1, F1 := N, stack, F;
      PopComponent(x, |S0|);
      RootTraversed(g, N0, S0, F0, N1, S1, F1, N, stack, F, gray, x);
    }

    /** The body of traverse's loop over the successors. */
    method FoldSuccessor(x: Transition, ghost i: int, y: Transition, ghost N0: NumMap,
            ghost S0: seq<Transition>, ghost F0: SetMap, ghost gray: set<Transition>)
      requires |g.nodes| < MAXINT
      requires Halfway(g, N0, S0, F0, N, stack, F, gray, x, i) && i < |g.rel(x)| && y == g.rel(x)[i]
      modifies this
      ensures Halfway(g, N0, S0, F0, N, stack, F, gray, x, i + 1)
      ensures White(g, N) <= old(White(g, N))
      decreases White(g, N), 2
    {
      Visit(x, i, y, N0, S0, F0, gray);
      Merge(x, i, y, N0, S0, F0, gray);
    }

    /** The second half of it: the smaller number and the joined set. */
    method Merge(x: Transition, ghost i: int, y: Transition, ghost N0: NumMap, ghost S0: seq<Transition>,
                 ghost F0: SetMap, ghost gray: set<Transition>)
      requires Visited(g, N0, S0, F0, N, stack, F, gray, x, i) && y == g.rel(x)[i]
      modifies this
      ensures Halfway(g, N0, S0, F0, N, stack, F, gray, x, i + 1)
      ensures White(g, N) <= old(White(g, N))
    {
      AfterMerge(g, N0, S0, F0, N, stack, F, gray, x, i);
      assert White(g, N[x := Min(N[x], N[y])]) <= White(g, N);
      N := N[x := Min(N[x], N[y])];
      F := F[x := F[x] + F[y]];
    }

    /** The first half of it: recurse into y unless it has been seen. */
    method Visit(x: Transition, ghost i: int, y: Transition, ghost N0: NumMap, ghost S0: seq<Transition>,
            ghost F0: SetMap, ghost gray: set<Transition>)
      requires |g.nodes| < MAXINT
      requires Halfway(g, N0, S0, F0, N, stack, F, gray, x, i) && i < |g.rel(x)| && y == g.rel(x)[i]
      modifies this
      ensures Visited(g, N0, S0, F0, N, stack, F, gray, x, i)
      ensures White(g, N) <= old(White(g, N))
      decreases White(g, N), 1
    {
      assert y in g.rel(x) && y in g.nodes;
      if N[y] == 0 {
        ghost var N1, S1, F1 := N, stack, F;
        Traverse(y, gray + {x});
        AfterNested(g, N0, S0, F0, N1, S1, F1, N, stack, F, gray, x, i);
      }
    }

    /** The popping loop at the end of traverse: the whole component shares x's set. */
    method PopComponent(x: Transition, ghost d: int)
      requires Shape(g, N, stack, F) && 0 <= d < |stack| && stack[d] == x && x in F && x in stack
      modifies this
      ensures stack == old(stack)[..d]
      ensures Popped(old(N), old(F), N, F, old(stack), d, x)
    {
      ghost var N0, S0, F0 := N, stack, F;
      assert S0 == S0[..|S0|];
      var element := stack[|stack| - 1];
      PopOne(x, |S0| - 1, N0, S0, F0);
      while element != x
        invariant d <= |stack| < |S0| && stack == S0[..|stack|] && element == S0[|stack|]
        invariant Popped(N0, F0, N, F, S0, |stack|, x)
        decreases |stack|
      {
        element := stack[|stack| - 1];
        PopOne(x, |stack| - 1, N0, S0, F0);
      }
    }

    /** One round of it: N[stack[-1]] = MAXINT; F[stack[-1]] = F[x]; stack.pop(). */
    method PopOne(x: Transition, ghost m: int, ghost N0: NumMap, ghost S0: seq<Transition>, ghost F0: SetMap)
      requires Shape(g, N0, S0, F0) && x in S0 && 0 <= m < |S0|
      requires stack == S0[..m + 1] && x in F0 && Popped(N0, F0, N, F, S0, m + 1, x)
      modifies this
      ensures stack == S0[..m] && Popped(N0, F0, N, F, S0, m, x)
    {
      var v := stack[|stack| - 1];
      assert v == S0[m] && v in S0;
      assert S0[m..] == [v] + S0[m + 1..];
      N := N[v := MAXINT];
      F := F[v := F[x]];
      stack := stack[..|stack| - 1];
    }

    /** digraph: the least solution of the set equations, for every finite relation. */
    method Solve(X: seq<Transition>)
      requires stack == [] && Inv(g, N, stack, F, {}) && White(g, N) == g.nodes
      requires |g.nodes| < MAXINT && (forall x :: x in X <==> x in g.nodes)
      modifies this
      ensures IsSolution(g, F)
    {
      for i := 0 to |X|
        invariant stack == [] && Inv(g, N, stack, F, {})
        invariant forall j :: 0 <= j < i ==> N[X[j]] != 0
      {
        if N[X[i]] == 0 {
          Traverse(X[i], {});
          NothingLeft(g, N, stack, F);
        }
      }
      forall x | x in g.nodes ensures x in F && F[x] == Solution(g, x) {
        var j :| 0 <= j < |X| && X[j] == x;
        assert DoneEntry(g, N, F, x);
      }
    }
  }
}
