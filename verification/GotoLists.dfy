/** Gotos of short item lists, written out for the example grammars. */
module GotoLists {
  import opened Cfg
  import opened LrAutomaton

  /** What one item contributes to goto(I, y). */
  function Moved(g: Cfg, it: Item, y: Symbol): seq<Item> {
    if DotBefore(g, it, y) then [Item(it.prod, it.dot + 1)] else []
  }

  lemma GotoAppend(g: Cfg, I: seq<Item>, it: Item, y: Symbol)
    ensures GotoKernel(g, I + [it], y) == GotoKernel(g, I, y) + Moved(g, it, y)
  {
    assert (I + [it])[..|I|] == I;
  }

  lemma GotoOne(g: Cfg, it: Item, y: Symbol)
    ensures GotoKernel(g, [it], y) == Moved(g, it, y)
  {
    GotoAppend(g, [], it, y);
    assert [] + [it] == [it];
  }

  lemma GotoTwo(g: Cfg, i: Item, j: Item, y: Symbol)
    ensures GotoKernel(g, [i, j], y) == Moved(g, i, y) + Moved(g, j, y)
  {
    GotoOne(g, i, y);
    GotoAppend(g, [i], j, y);
    assert [i] + [j] == [i, j];
  }

  lemma GotoFour(g: Cfg, i: Item, j: Item, k: Item, l: Item, y: Symbol)
    ensures GotoKernel(g, [i, j, k, l], y) == Moved(g, i, y) + Moved(g, j, y) + Moved(g, k, y) + Moved(g, l, y)
  {
    GotoTwo(g, i, j, y);
    GotoAppend(g, [i, j], k, y);
    GotoAppend(g, [i, j] + [k], l, y);
    assert [i, j] + [k] + [l] == [i, j, k, l];
  }

  lemma GotoFive(g: Cfg, i: Item, j: Item, k: Item, l: Item, m: Item, y: Symbol)
    ensures GotoKernel(g, [i, j, k, l, m], y)
      == Moved(g, i, y) + Moved(g, j, y) + Moved(g, k, y) + Moved(g, l, y) + Moved(g, m, y)
  {
    GotoFour(g, i, j, k, l, y);
    GotoAppend(g, [i, j, k, l], m, y);
    assert [i, j, k, l] + [m] == [i, j, k, l, m];
  }
}
